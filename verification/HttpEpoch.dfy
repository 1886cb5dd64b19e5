/** The connection epoch of a networked HSM: the sum of a counter of the shared HTTP
    endpoint and one of the connector, read as a fence for what was cached about the
    device. */
module HttpEpoch {
  type Version = (nat, nat, nat)
  const UNKNOWN: Version := (0, 0, 0)

  /** What can happen to the device behind the connector. */
  datatype Event = Disconnected | GenerationChanged(generation: nat) | DiscoveredAbsent | VersionSet(version: Version)
  datatype Trace = Start | Then(before: Trace, last: Event)

  /** `pending` counts the discovery calls that have published a new generation and not
      yet advanced the epoch. */
  datatype State = State(
    connected: bool,
    endpointEpoch: nat,
    generation: nat,
    version: Version,
    present: bool,
    epoch: nat,
    pending: nat,
    trace: Trace)

  function Epoch(s: State): nat { s.endpointEpoch + s.epoch }

  // ------------------------------------------------------------------ operations

  function InstallAgent(s: State): State { s.(connected := true) }

  function MarkDisconnected(s: State): State {
    if !s.connected then s
    else s.(connected := false, endpointEpoch := s.endpointEpoch + 1, trace := Then(s.trace, Disconnected))
  }

  function SetVersion(s: State, version: Version): State {
    s.(version := version, trace := Then(s.trace, VersionSet(version)))
  }

  function Publish(s: State, generation: nat): State {
    s.(generation := generation, version := UNKNOWN, trace := Then(s.trace, GenerationChanged(generation)))
  }

  function ApplyStatus(s: State, generation: nat): State {
    if s.generation == generation then s else Publish(s, generation).(epoch := s.epoch + 1)
  }

  function MarkDiscoveryAbsent(s: State): State {
    if s.present then s.(present := false, epoch := s.epoch + 1, trace := Then(s.trace, DiscoveredAbsent)) else s
  }

  /** Discovery publishes under the write lock ... */
  function DiscoverWrite(s: State, generation: nat): State {
    var s := s.(present := true);
    if s.generation == generation then s else Publish(s, generation).(pending := s.pending + 1)
  }

  /** ... and advances the epoch after releasing it. */
  function DiscoverBump(s: State): State
    requires s.pending > 0
  {
    s.(pending := s.pending - 1, epoch := s.epoch + 1)
  }

  /** Both together, when nothing comes between. */
  function Discovered(s: State, generation: nat): State {
    var written := DiscoverWrite(s, generation);
    if written.pending > s.pending then DiscoverBump(written) else written
  }

  /** Then discovery does to the fence what a status report does. */
  lemma DiscoveredLikeStatus(s: State, generation: nat)
    ensures Discovered(s, generation) == ApplyStatus(s.(present := true), generation)
  {
  }

  /** A loss advances the epoch once, when it ends a connection or a presence: repeated
      before the next connection or discovery it changes nothing. */
  lemma LossesCountOnce(s: State, generation: nat)
    ensures var lost := MarkDisconnected(s);
            && !lost.connected && MarkDisconnected(lost) == lost
            && Epoch(lost) == Epoch(s) + (if s.connected then 1 else 0)
            && InstallAgent(lost).connected && Epoch(InstallAgent(lost)) == Epoch(lost)
            && Epoch(MarkDisconnected(InstallAgent(lost))) == Epoch(lost) + 1
    ensures var gone := MarkDiscoveryAbsent(s);
            && !gone.present && MarkDiscoveryAbsent(gone) == gone
            && Epoch(gone) == Epoch(s) + (if s.present then 1 else 0)
            && var found := DiscoverWrite(gone, generation);
            && found.present && Epoch(found) == Epoch(gone)
            && Epoch(MarkDiscoveryAbsent(found)) == Epoch(gone) + 1
  {
  }

  datatype Op =
    | Install
    | Disconnect
    | Set(version: Version)
    | Status(generation: nat)
    | Absent
    | Write(generation: nat)
    | Bump

  predicate Enabled(s: State, op: Op) { op.Bump? ==> s.pending > 0 }

  function Step(s: State, op: Op): State
    requires Enabled(s, op)
  {
    match op
    case Install => InstallAgent(s)
    case Disconnect => MarkDisconnected(s)
    case Set(version) => SetVersion(s, version)
    case Status(generation) => ApplyStatus(s, generation)
    case Absent => MarkDiscoveryAbsent(s)
    case Write(generation) => DiscoverWrite(s, generation)
    case Bump => DiscoverBump(s)
  }

  ghost predicate Run(s: State, ops: seq<Op>, t: State)
    decreases |ops|
  {
    if ops == [] then s == t
    else Enabled(s, ops[0]) && Run(Step(s, ops[0]), ops[1..], t)
  }

  /** A connector that was just made for an endpoint of any age. */
  predicate Initial(s: State) {
    s.version == UNKNOWN && s.epoch == 0 && s.pending == 0 && s.trace == Start
  }

  // ---------------------------------------------------------------- conservation

  function Disconnects(t: Trace): nat {
    if t.Start? then 0 else Disconnects(t.before) + if t.last.Disconnected? then 1 else 0
  }

  function Changes(t: Trace): nat {
    if t.Start? then 0 else Changes(t.before) + if t.last.GenerationChanged? || t.last.DiscoveredAbsent? then 1 else 0
  }

  /** The version a reader may report after these events. */
  function Reported(t: Trace): Version {
    if t.Start? then UNKNOWN
    else match t.last
      case VersionSet(v) => v
      case GenerationChanged(_) => UNKNOWN
      case _ => Reported(t.before)
  }

  /** Every event is counted once, or is about to be. */
  predicate Conserved(base: nat, s: State) {
    && s.endpointEpoch == base + Disconnects(s.trace)
    && s.epoch + s.pending == Changes(s.trace)
    && s.version == Reported(s.trace)
  }

  predicate Extends(t: Trace, old': Trace)
    decreases t
  {
    t == old' || (t.Then? && Extends(t.before, old'))
  }

  lemma ConservedStep(base: nat, s: State, op: Op)
    requires Conserved(base, s) && Enabled(s, op)
    ensures Conserved(base, Step(s, op)) && Extends(Step(s, op).trace, s.trace)
  {
  }

  lemma {:induction false} ExtendsTransitive(a: Trace, b: Trace, c: Trace)
    requires Extends(b, a) && Extends(c, b)
    ensures Extends(c, a)
    decreases c
  {
    if c != b { ExtendsTransitive(a, b, c.before); }
  }

  lemma {:induction false} RunConserved(base: nat, s: State, ops: seq<Op>, t: State)
    requires Conserved(base, s) && Run(s, ops, t)
    ensures Conserved(base, t) && Extends(t.trace, s.trace)
    decreases |ops|
  {
    if ops == [] {
      assert Extends(s.trace, s.trace);
    } else {
      ConservedStep(base, s, ops[0]);
      RunConserved(base, Step(s, ops[0]), ops[1..], t);
      ExtendsTransitive(s.trace, Step(s, ops[0]).trace, t.trace);
    }
  }

  lemma {:induction false} RunKeepsEpoch(s: State, ops: seq<Op>, t: State)
    requires Run(s, ops, t)
    ensures s.epoch <= t.epoch && s.endpointEpoch <= t.endpointEpoch
    decreases |ops|
  {
    if ops != [] { RunKeepsEpoch(Step(s, ops[0]), ops[1..], t); }
  }

  /** The published epoch plus the calls inside their window is the number of events. */
  lemma EpochCountsEvents(s: State, ops: seq<Op>, t: State)
    requires Initial(s) && Run(s, ops, t)
    ensures Epoch(t) + t.pending == Epoch(s) + Disconnects(t.trace) + Changes(t.trace)
  {
    RunConserved(s.endpointEpoch, s, ops, t);
  }

  // ------------------------------------------------------------------- the fence

  /** From `old` to `t` there was no generation change, no discovered absence and no
      disconnect. */
  predicate Quiet(t: Trace, old': Trace)
    decreases t
  {
    t == old' || (t.Then? && t.last.VersionSet? && Quiet(t.before, old'))
  }

  lemma {:induction false} QuietMeansNoCount(t: Trace, old': Trace)
    requires Extends(t, old')
    ensures Disconnects(old') <= Disconnects(t) && Changes(old') <= Changes(t)
    ensures Quiet(t, old') <==> Disconnects(old') == Disconnects(t) && Changes(old') == Changes(t)
    decreases t
  {
    if t != old' { QuietMeansNoCount(t.before, old'); }
  }

  /** Two reads that agree: nothing happened between them exactly when no more calls are
      inside their window at the second read than at the first. */
  lemma EqualEpochs(s: State, first: seq<Op>, a: State, between: seq<Op>, b: State)
    requires Initial(s) && Run(s, first, a) && Run(a, between, b)
    requires Epoch(a) == Epoch(b)
    ensures Quiet(b.trace, a.trace) <==> b.pending <= a.pending
  {
    var base := s.endpointEpoch;
    RunConserved(base, s, first, a);
    RunConserved(base, a, between, b);
    QuietMeansNoCount(b.trace, a.trace);
  }

  /** So when no discovery call is between publishing and advancing at the second read,
      equal epochs rule everything out. */
  lemma FenceHoldsOutsideWindow(s: State, first: seq<Op>, a: State, between: seq<Op>, b: State)
    requires Initial(s) && Run(s, first, a) && Run(a, between, b)
    requires Epoch(a) == Epoch(b) && b.pending == 0
    ensures Quiet(b.trace, a.trace)
  {
    EqualEpochs(s, first, a, between, b);
  }

  /** The read is two loads, endpoint first, and anything may happen between them.  When two
      such reads agree, nothing happened between them exactly when no more calls are inside
      their window at the start of the second read than at the end of the first. */
  lemma EqualSplitReads(s: State, ops: seq<Op>, a1: State, opsA: seq<Op>, a2: State,
                        between: seq<Op>, b1: State, opsB: seq<Op>, b2: State)
    requires Initial(s) && Run(s, ops, a1) && Run(a1, opsA, a2) && Run(a2, between, b1) && Run(b1, opsB, b2)
    requires a1.endpointEpoch + a2.epoch == b1.endpointEpoch + b2.epoch
    ensures Quiet(b1.trace, a2.trace) <==> b1.pending <= a2.pending
  {
    var base := s.endpointEpoch;
    RunConserved(base, s, ops, a1);
    RunConserved(base, a1, opsA, a2);
    RunConserved(base, a2, between, b1);
    RunConserved(base, b1, opsB, b2);
    RunKeepsEpoch(a2, between, b1);
    RunKeepsEpoch(b1, opsB, b2);
    QuietMeansNoCount(a2.trace, a1.trace);
    QuietMeansNoCount(b1.trace, a2.trace);
  }

  /** Inside the window the fence is down: the new generation is visible and the epoch
      is still the old one. */
  lemma FenceIsDownInWindow(s: State, generation: nat)
    requires Initial(s) && s.generation != generation
    ensures var t := Step(s, Write(generation));
            && Run(s, [Write(generation)], t) && Epoch(t) == Epoch(s)
            && t.generation != s.generation && !Quiet(t.trace, s.trace)
  {
  }

  // ---------------------------------------------------------- the firmware version

  /** The version was set, and no generation changed after that. */
  predicate SetSinceChange(t: Trace, v: Version) {
    && t.Then?
    && (t.last == VersionSet(v)
        || (!t.last.VersionSet? && !t.last.GenerationChanged? && SetSinceChange(t.before, v)))
  }

  lemma {:induction false} ReportedExactly(t: Trace, v: Version)
    requires v != UNKNOWN
    ensures Reported(t) == v <==> SetSinceChange(t, v)
  {
    if t.Then? { ReportedExactly(t.before, v); }
  }

  lemma VersionIsCurrent(s: State, ops: seq<Op>, t: State)
    requires Initial(s) && Run(s, ops, t)
    ensures t.version != UNKNOWN ==> SetSinceChange(t.trace, t.version)
  {
    RunConserved(s.endpointEpoch, s, ops, t);
    if t.version != UNKNOWN { ReportedExactly(t.trace, t.version); }
  }
}
