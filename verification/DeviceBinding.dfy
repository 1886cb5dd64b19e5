/** One YubiKey's serial-owned CCID device: the reader it is bound to, the operation
    brackets on that reader, and the gate (a read/write lock) that HID and CCID
    operations share. */
module DeviceBinding {
  import opened Common

  type ReaderId = nat
  type Thread = nat
  type Serial = seq<char>

  datatype Error = OperationActive | TokenNotPresent | DeviceRemoved | Transport(code: nat)
  datatype Rv = Success | Failure(error: Error)

  /** The binding, the inventory flag and the published epoch. */
  datatype Binding = Binding(
    serial: Serial,
    current: ReaderId,
    active: Option<ReaderId>,
    observed: nat,
    mismatched: Option<Serial>,
    present: bool,
    epoch: nat)

  // ------------------------------------------------- the connector's operations

  function Bound(serial: Serial, reader: ReaderId, generation: nat): Binding {
    Binding(serial, reader, None, generation, None, true, 0)
  }

  function Selected(b: Binding): ReaderId {
    if b.active.Some? then b.active.value else b.current
  }

  function ApplyReader(b: Binding, reader: ReaderId, generation: nat): (Binding, Rv) {
    if b.active.Some? then (b, Failure(OperationActive))
    else
      (b.(observed := generation, current := reader, mismatched := None, present := true, epoch := b.epoch + 1),
       Success)
  }

  /** Beginning an operation claims the bound reader first. */
  function Claim(b: Binding): (Binding, Result<ReaderId, Error>) {
    if b.active.Some? then (b, Err(OperationActive))
    else (b.(active := Some(b.current)), Ok(b.current))
  }

  function Unclaim(b: Binding): Binding { b.(active := None) }

  /** What the reader does during a refresh: its answer, its connection generation
      afterwards, and what identification would answer. */
  datatype Reply = Reply(answer: Rv, generation: nat, identity: Result<Serial, Error>)

  function Refresh(b: Binding, reply: Reply): (Binding, Rv) {
    if !b.present then (b, Failure(TokenNotPresent))
    else if reply.answer.Failure? then (b, reply.answer)
    else if reply.generation == b.observed then (b, Success)
    else if reply.identity.Err? then (b.(present := false), Failure(reply.identity.error))
    else if reply.identity.value != b.serial then
      (b.(mismatched := Some(reply.identity.value), present := false), Failure(DeviceRemoved))
    else (b.(observed := reply.generation, epoch := b.epoch + 1), Success)
  }

  /** What a refresh answers and leaves, from what the reader did: it succeeds at the
      recorded generation or after the reader was identified as this device; only a new
      generation advances the epoch; a reader that cannot be identified, or is identified as
      another device, is taken as absent, and the other serial is kept. */
  lemma RefreshExactly(b: Binding, reply: Reply)
    ensures var (b', rv) := Refresh(b, reply);
            var same := reply.generation == b.observed;
            var asked := b.present && reply.answer.Success? && !same;
            && (rv == Success <==> b.present && reply.answer.Success? && (same || reply.identity == Ok(b.serial)))
            && (rv == Failure(TokenNotPresent) <== !b.present)
            && (b.present && reply.answer.Failure? ==> rv == reply.answer)
            && (asked && reply.identity.Err? ==> rv == Failure(reply.identity.error))
            && (asked && reply.identity.Ok? && reply.identity.value != b.serial ==> rv == Failure(DeviceRemoved))
            && b'.serial == b.serial && b'.current == b.current && b'.active == b.active
            && b'.present == (b.present && (asked ==> rv == Success))
            && b'.observed == (if rv == Success then reply.generation else b.observed)
            && b'.epoch == b.epoch + (if asked && rv == Success then 1 else 0)
            && b'.mismatched == if asked && reply.identity.Ok? && reply.identity.value != b.serial
                                then Some(reply.identity.value) else b.mismatched
  {
  }

  /** A rebind or a claim is refused exactly while an operation has a reader; a rebind makes
      the device present at the generation of the new reader, under a new epoch, and forgets
      a mismatch. */
  lemma BindingExactly(b: Binding, reader: ReaderId, generation: nat)
    ensures var (b', rv) := ApplyReader(b, reader, generation);
            if b.active != None then b' == b && rv == Failure(OperationActive)
            else && rv == Success && b'.current == reader && b'.observed == generation && b'.mismatched == None
                 && b'.present && b'.epoch == b.epoch + 1 && b'.active == None && b'.serial == b.serial
    ensures var (b', claimed) := Claim(b);
            if b.active != None then b' == b && claimed == Err(OperationActive)
            else claimed == Ok(b.current) && b'.active == Some(b.current) && Unclaim(b') == b
    ensures Selected(b) == if b.active != None then b.active.value else b.current
  {
  }

  // ------------------------------------------------------------- the whole device

  /** Where a thread is inside the gate. */
  datatype Phase =
    | Hid
    | Locked
    | Checked
    | Claimed(reader: ReaderId)
    | Inside
    | Ending(reader: ReaderId)
    | Ended

  datatype Event = Begin(reader: ReaderId) | End(reader: ReaderId)
  datatype Trace = Start | Then(before: Trace, last: Event)

  /** A refresh that answered `Success`. */
  datatype Accepted = Accepted(epoch: nat, reader: ReaderId, generation: nat)

  datatype State = State(
    binding: Binding,
    holders: map<Thread, Phase>,
    trace: Trace,
    generations: ReaderId -> nat,
    accepted: seq<Accepted>)

  /** Which device was in a reader at each of its connection generations. */
  type World = (ReaderId, nat) -> Serial

  datatype Op =
    | LockHid(thread: Thread)
    | LockCcid(thread: Thread)
    | CheckInventory(thread: Thread)
    | ClaimReader(thread: Thread)
    | BeginTransport(thread: Thread, began: bool)
    | TakeActive(thread: Thread)
    | EndTransport(thread: Thread)
    | Unlock(thread: Thread)
    | Rebind(reader: ReaderId)
    | InventoryAbsent
    | InventoryPresent
    | TakeMismatch
    | RefreshNow(reply: Reply)
    | Reconnect(reader: ReaderId, generation: nat)

  predicate In(s: State, t: Thread, p: Phase) { t in s.holders && s.holders[t] == p }

  predicate NoCcid(s: State) { forall t | t in s.holders :: s.holders[t].Hid? }

  /** What the lock, the program order of a guard and the world allow.  Readers are
      only applied after being identified as this serial, and identification tells the
      truth about the generation it is made in. */
  predicate Enabled(w: World, s: State, op: Op) {
    match op
    case LockHid(t) => t !in s.holders && NoCcid(s)
    case LockCcid(t) => s.holders == map[]
    case CheckInventory(t) => In(s, t, Locked)
    case ClaimReader(t) => In(s, t, Checked)
    case BeginTransport(t, _) => t in s.holders && s.holders[t].Claimed?
    case TakeActive(t) => In(s, t, Inside)
    case EndTransport(t) => t in s.holders && s.holders[t].Ending?
    case Unlock(t) => In(s, t, Hid) || In(s, t, Ended)
    case Rebind(reader) => w(reader, s.generations(reader)) == s.binding.serial
    case RefreshNow(reply) =>
      var reader := Selected(s.binding);
      && reply.generation >= s.generations(reader)
      && (reply.identity.Ok? ==> reply.identity.value == w(reader, reply.generation))
    case Reconnect(reader, generation) => generation > s.generations(reader)
    case _ => true
  }

  function Moved(generations: ReaderId -> nat, reader: ReaderId, generation: nat): ReaderId -> nat {
    r => if r == reader then generation else generations(r)
  }

  function StepClaim(s: State, t: Thread): (State, Rv) {
    var (b, claimed) := Claim(s.binding);
    if claimed.Err? then (s.(holders := s.holders - {t}), Failure(claimed.error))
    else (s.(binding := b, holders := s.holders[t := Claimed(claimed.value)]), Success)
  }

  function StepBegin(s: State, t: Thread, began: bool): State
    requires t in s.holders && s.holders[t].Claimed?
  {
    if began then s.(trace := Then(s.trace, Begin(s.holders[t].reader)), holders := s.holders[t := Inside])
    else s.(binding := Unclaim(s.binding), holders := s.holders - {t})
  }

  function StepTake(s: State, t: Thread): State {
    var taken := s.binding.active;
    s.(binding := Unclaim(s.binding), holders := s.holders[t := if taken.Some? then Ending(taken.value) else Ended])
  }

  function StepRefresh(s: State, reply: Reply): (State, Rv) {
    var reader := Selected(s.binding);
    var (b, rv) := Refresh(s.binding, reply);
    var moved := s.(binding := b, generations := Moved(s.generations, reader, reply.generation));
    if rv.Success? then (moved.(accepted := s.accepted + [Accepted(b.epoch, reader, reply.generation)]), rv)
    else (if s.binding.present then moved else s, rv)
  }

  function Step(w: World, s: State, op: Op): (State, Rv)
    requires Enabled(w, s, op)
  {
    match op
    case LockHid(t) => (s.(holders := s.holders[t := Hid]), Success)
    case LockCcid(t) => (s.(holders := s.holders[t := Locked]), Success)
    case CheckInventory(t) => (s.(holders := s.holders[t := if s.binding.present then Checked else Inside]), Success)
    case ClaimReader(t) => StepClaim(s, t)
    case BeginTransport(t, began) => (StepBegin(s, t, began), Success)
    case TakeActive(t) => (StepTake(s, t), Success)
    case EndTransport(t) =>
      (s.(trace := Then(s.trace, End(s.holders[t].reader)), holders := s.holders[t := Ended]), Success)
    case Unlock(t) => (s.(holders := s.holders - {t}), Success)
    case Rebind(reader) =>
      var (b, rv) := ApplyReader(s.binding, reader, s.generations(reader));
      (s.(binding := b), rv)
    case InventoryAbsent => (s.(binding := s.binding.(present := false)), Success)
    case InventoryPresent => (s.(binding := s.binding.(present := true)), Success)
    case TakeMismatch => (s.(binding := s.binding.(mismatched := None)), Success)
    case RefreshNow(reply) => StepRefresh(s, reply)
    case Reconnect(reader, generation) => (s.(generations := Moved(s.generations, reader, generation)), Success)
  }

  ghost predicate Run(w: World, s: State, ops: seq<Op>, t: State)
    decreases |ops|
  {
    if ops == [] then s == t
    else Enabled(w, s, ops[0]) && Run(w, Step(w, s, ops[0]).0, ops[1..], t)
  }

  predicate Initial(w: World, s: State) {
    && s.binding == Bound(s.binding.serial, s.binding.current, s.generations(s.binding.current))
    && w(s.binding.current, s.binding.observed) == s.binding.serial
    && s.holders == map[] && s.trace == Start && s.accepted == []
  }

  // ------------------------------------------------------------------- brackets

  /** The reader whose operation has begun and not ended. */
  function Open(t: Trace): Option<ReaderId> {
    if t.Then? && t.last.Begin? then Some(t.last.reader) else None
  }

  /** Every end closes the begin before it, on the same reader, and no begin nests. */
  predicate Bracketed(t: Trace) {
    t.Start? || (Bracketed(t.before) && match t.last
                                        case Begin(_) => Open(t.before).None?
                                        case End(r) => Open(t.before) == Some(r))
  }

  predicate PhaseOk(s: State, p: Phase) {
    match p
    case Hid => true
    case Locked => s.binding.active.None? && Open(s.trace).None?
    case Checked => s.binding.active.None? && Open(s.trace).None?
    case Claimed(r) => s.binding.active == Some(r) && Open(s.trace).None?
    case Inside => s.binding.active == Open(s.trace)
    case Ending(r) => s.binding.active.None? && Open(s.trace) == Some(r)
    case Ended => s.binding.active.None? && Open(s.trace).None?
  }

  /** A CCID operation is alone in the gate and the binding agrees with it. */
  predicate Exclusive(s: State) {
    && (forall t | t in s.holders && !s.holders[t].Hid? :: s.holders.Keys == {t} && PhaseOk(s, s.holders[t]))
    && (NoCcid(s) ==> s.binding.active.None? && Open(s.trace).None?)
    && (s.binding.active.Some? ==> s.binding.active.value == s.binding.current)
    && Bracketed(s.trace)
  }

  predicate GateOp(op: Op) {
    op.LockHid? || op.LockCcid? || op.CheckInventory? || op.ClaimReader? || op.Unlock?
  }

  predicate TransportOp(op: Op) { op.BeginTransport? || op.TakeActive? || op.EndTransport? }

  lemma GateStep(w: World, s: State, op: Op)
    requires Exclusive(s) && Enabled(w, s, op) && GateOp(op)
    ensures Exclusive(Step(w, s, op).0) && Step(w, s, op).1.Success?
  {
  }

  lemma TransportStep(w: World, s: State, op: Op)
    requires Exclusive(s) && Enabled(w, s, op) && TransportOp(op)
    ensures Exclusive(Step(w, s, op).0)
  {
  }

  lemma BindingStep(w: World, s: State, op: Op)
    requires Exclusive(s) && Enabled(w, s, op) && !GateOp(op) && !TransportOp(op)
    ensures Exclusive(Step(w, s, op).0)
  {
  }

  lemma ExclusiveStep(w: World, s: State, op: Op)
    requires Exclusive(s) && Enabled(w, s, op)
    ensures Exclusive(Step(w, s, op).0)
  {
    if GateOp(op) {
      GateStep(w, s, op);
    } else if TransportOp(op) {
      TransportStep(w, s, op);
    } else {
      BindingStep(w, s, op);
    }
  }

  // ------------------------------------------------------------------- identity

  /** The bound generation was identified as this serial; an epoch stands for one
      accepted generation. */
  predicate Identified(w: World, s: State) {
    && w(s.binding.current, s.binding.observed) == s.binding.serial
    && s.binding.observed <= s.generations(s.binding.current)
    && (forall i | 0 <= i < |s.accepted| :: Fits(w, s.binding, s.accepted[i]))
    && Ordered(s.accepted)
  }

  predicate Fits(w: World, b: Binding, a: Accepted) {
    && w(a.reader, a.generation) == b.serial
    && a.epoch <= b.epoch
    && (a.epoch == b.epoch ==> a.reader == b.current && a.generation == b.observed)
  }

  /** Epochs never go back, and equal epochs mean the same reader and generation. */
  predicate Ordered(log: seq<Accepted>) {
    forall i, j | 0 <= i < j < |log| ::
      log[i].epoch <= log[j].epoch && (log[i].epoch == log[j].epoch ==> log[i] == log[j])
  }

  lemma IdentifiedRefresh(w: World, s: State, reply: Reply)
    requires Exclusive(s) && Identified(w, s) && Enabled(w, s, RefreshNow(reply))
    ensures var (s', rv) := StepRefresh(s, reply);
            && Identified(w, s') && s'.binding.serial == s.binding.serial
            && (rv.Success? ==>
                  && s'.binding.observed == s'.generations(s'.binding.current)
                  && w(s'.binding.current, s'.generations(s'.binding.current)) == s.binding.serial)
  {
    assert Selected(s.binding) == s.binding.current;
    var (s', rv) := StepRefresh(s, reply);
    forall i | 0 <= i < |s'.accepted| ensures Fits(w, s'.binding, s'.accepted[i]) {
      if i < |s.accepted| { assert Fits(w, s.binding, s.accepted[i]); }
    }
  }

  lemma IdentifiedStep(w: World, s: State, op: Op)
    requires Exclusive(s) && Identified(w, s) && Enabled(w, s, op)
    ensures Identified(w, Step(w, s, op).0) && Step(w, s, op).0.binding.serial == s.binding.serial
  {
    if op.RefreshNow? {
      IdentifiedRefresh(w, s, op.reply);
    } else {
      var s' := Step(w, s, op).0;
      assert s'.accepted == s.accepted;
      forall i | 0 <= i < |s'.accepted| ensures Fits(w, s'.binding, s'.accepted[i]) {
        assert Fits(w, s.binding, s.accepted[i]);
      }
    }
  }

  lemma {:induction false} RunInvariant(w: World, s: State, ops: seq<Op>, t: State)
    requires Exclusive(s) && Identified(w, s) && Run(w, s, ops, t)
    ensures Exclusive(t) && Identified(w, t) && t.binding.serial == s.binding.serial
    decreases |ops|
  {
    if ops != [] {
      ExclusiveStep(w, s, ops[0]);
      IdentifiedStep(w, s, ops[0]);
      RunInvariant(w, Step(w, s, ops[0]).0, ops[1..], t);
    }
  }

  lemma InitialInvariant(w: World, s: State)
    requires Initial(w, s)
    ensures Exclusive(s) && Identified(w, s)
  {
  }

  // ------------------------------------------------------------- nothing is stuck

  /** An operation that nothing comes between: it has the gate, claims and begins the bound
      reader, ... */
  lemma OperationBegins(w: World, s: State, t: Thread)
    requires s.holders == map[] && s.binding.active.None? && s.binding.present
    ensures var checked := Step(w, Step(w, s, LockCcid(t)).0, CheckInventory(t)).0;
            var begun := Step(w, Step(w, checked, ClaimReader(t)).0, BeginTransport(t, true)).0;
            begun == s.(holders := map[t := Inside], trace := Then(s.trace, Begin(s.binding.current)),
                        binding := s.binding.(active := Some(s.binding.current)))
  {
  }

  /** ... ends it, and leaves the rest as it was; so does one that began without a device, which
      claims no reader.  Each step is enabled after the one before. */
  lemma OperationEnds(w: World, s: State, t: Thread)
    requires s.holders == map[t := Inside]
    ensures var taken := Step(w, s, TakeActive(t)).0;
            var idle := s.(holders := map[], binding := s.binding.(active := None));
            if s.binding.active.Some? then
              Step(w, Step(w, taken, EndTransport(t)).0, Unlock(t)).0 ==
              idle.(trace := Then(s.trace, End(s.binding.active.value)))
            else Step(w, taken, Unlock(t)).0 == idle
  {
  }

  /** HID operations share the gate, and keep CCID operations out until the last has left. */
  lemma HidOperationsShare(w: World, s: State, t: Thread, u: Thread, v: Thread)
    requires s.holders == map[] && t != u
    ensures var both := Step(w, Step(w, s, LockHid(t)).0, LockHid(u)).0;
            var one := Step(w, both, Unlock(t)).0;
            && !Enabled(w, both, LockCcid(v)) && !Enabled(w, one, LockCcid(v))
            && Step(w, one, Unlock(u)).0 == s
  {
    var one := Step(w, Step(w, Step(w, s, LockHid(t)).0, LockHid(u)).0, Unlock(t)).0;
    assert u in one.holders;
  }

  /** What the other steps change for the next refresh: the inventory decides whether there
      is a token, a rebind makes the new reader's generation the recorded one under the next
      epoch, and taking a mismatch is all that forgetting one takes. */
  lemma NextRefresh(w: World, s: State, reply: Reply, reader: ReaderId)
    requires s.binding.active.None? && w(reader, s.generations(reader)) == s.binding.serial
    requires Enabled(w, s, RefreshNow(reply))
    ensures var absent := Step(w, s, InventoryAbsent).0;
            && Step(w, absent, RefreshNow(reply)) == (absent, Failure(TokenNotPresent))
            && Step(w, absent, InventoryPresent).0 == s.(binding := s.binding.(present := true))
    ensures var (bound, rv) := Step(w, s, Rebind(reader));
            var now := Reply(Success, s.generations(reader), reply.identity);
            && rv == Success && bound.generations == s.generations
            && Refresh(bound.binding, now) == (bound.binding, Success)
            && bound.binding == Bound(s.binding.serial, reader, s.generations(reader)).(epoch := s.binding.epoch + 1)
    ensures Step(w, s, TakeMismatch).0 == s.(binding := s.binding.(mismatched := None))
  {
  }

  /** A reader that was reconnected answers in its new generation, and so must be identified
      again before a refresh succeeds. */
  lemma ReconnectedIsIdentifiedAgain(w: World, s: State, reader: ReaderId, generation: nat, reply: Reply)
    requires Identified(w, s) && s.binding.active.None?
    requires Enabled(w, s, Reconnect(reader, generation))
    requires reader == s.binding.current
    ensures var later := Step(w, s, Reconnect(reader, generation)).0;
            && later.binding == s.binding && later.generations(reader) == generation
            && (forall r | r != reader :: later.generations(r) == s.generations(r))
            && (Enabled(w, later, RefreshNow(reply)) && Step(w, later, RefreshNow(reply)).1.Success? ==>
                  reply.identity == Ok(s.binding.serial))
  {
  }

  // -------------------------------------------------------------- the main results

  predicate Ccid(p: Phase) { !p.Hid? }

  function Count(t: Trace, e: Event): nat {
    if t.Start? then 0 else Count(t.before, e) + if t.last == e then 1 else 0
  }

  lemma {:induction false} CountOpen(t: Trace, r: ReaderId)
    requires Bracketed(t)
    ensures Count(t, Begin(r)) == Count(t, End(r)) + if Open(t) == Some(r) then 1 else 0
  {
    if t.Then? { CountOpen(t.before, r); }
  }

  /** In every run a CCID operation is alone in the gate, and each reader's begins and
      ends pair up, except the begin of the operation that is running. */
  lemma OperationsAreBracketed(w: World, s: State, ops: seq<Op>, t: State, r: ReaderId)
    requires Initial(w, s) && Run(w, s, ops, t)
    ensures forall a, b | a in t.holders && b in t.holders && Ccid(t.holders[a]) :: a == b
    ensures Bracketed(t.trace)
    ensures Count(t.trace, Begin(r)) == Count(t.trace, End(r)) + if Open(t.trace) == Some(r) then 1 else 0
    ensures NoCcid(t) ==> Count(t.trace, Begin(r)) == Count(t.trace, End(r))
    ensures Open(t.trace).Some? ==> exists a | a in t.holders :: t.holders[a].Inside? || t.holders[a].Ending?
  {
    InitialInvariant(w, s);
    RunInvariant(w, s, ops, t);
    CountOpen(t.trace, r);
    forall a, b | a in t.holders && b in t.holders && Ccid(t.holders[a]) ensures a == b {
      assert t.holders.Keys == {a};
      assert b in t.holders.Keys;
    }
    if Open(t.trace).Some? {
      var a :| a in t.holders && !t.holders[a].Hid?;
      assert PhaseOk(t, t.holders[a]);
    }
  }

  /** Inside the gate a begin never finds another operation active, and a rebind is
      refused exactly while one is. */
  lemma ActiveOperationBlocksOnlyRebinding(w: World, s: State, ops: seq<Op>, t: State, op: Op)
    requires Initial(w, s) && Run(w, s, ops, t) && Enabled(w, t, op)
    ensures op.ClaimReader? ==> Step(w, t, op).1.Success?
    ensures op.Rebind? ==> (Step(w, t, op).1.Failure? <==> t.binding.active.Some?)
    ensures op.Rebind? && Open(t.trace).Some? && Step(w, t, op).1.Success? ==>
              exists a | a in t.holders :: t.holders[a].Ending?
  {
    InitialInvariant(w, s);
    RunInvariant(w, s, ops, t);
    if op.ClaimReader? { GateStep(w, t, op); }
    if op.Rebind? && Open(t.trace).Some? && Step(w, t, op).1.Success? {
      var a :| a in t.holders && !t.holders[a].Hid?;
      assert PhaseOk(t, t.holders[a]);
    }
  }

  /** A refresh that answers `Success` means that the bound reader's present generation
      was identified as this serial, and that the published epoch names it: equal epochs
      mean the same reader and generation, later ones are never smaller. */
  lemma RefreshMeansIdentified(w: World, s: State, ops: seq<Op>, t: State, reply: Reply)
    requires Initial(w, s) && Run(w, s, ops, t) && Enabled(w, t, RefreshNow(reply))
    requires Step(w, t, RefreshNow(reply)).1.Success?
    ensures var u := Step(w, t, RefreshNow(reply)).0;
            && w(u.binding.current, u.generations(u.binding.current)) == s.binding.serial
            && u.accepted == t.accepted
                             + [Accepted(u.binding.epoch, u.binding.current, u.generations(u.binding.current))]
            && Ordered(u.accepted)
  {
    InitialInvariant(w, s);
    RunInvariant(w, s, ops, t);
    IdentifiedRefresh(w, t, reply);
  }

  /** Does this operation identify the reader as this serial, or bind an identified one? */
  predicate Reidentifies(s: State, op: Op) {
    op.Rebind? || (op.RefreshNow? && op.reply.identity == Ok(s.binding.serial))
  }

  predicate Unverified(s: State) { s.binding.observed < s.generations(s.binding.current) }

  ghost predicate NoSuccess(w: World, s: State, ops: seq<Op>)
    decreases |ops|
  {
    ops == [] || (Enabled(w, s, ops[0]) ==>
                    && (ops[0].RefreshNow? ==> Step(w, s, ops[0]).1.Failure?)
                    && NoSuccess(w, Step(w, s, ops[0]).0, ops[1..]))
  }

  lemma UnverifiedStep(w: World, s: State, op: Op)
    requires Exclusive(s) && Identified(w, s) && Unverified(s) && Enabled(w, s, op) && !Reidentifies(s, op)
    ensures Unverified(Step(w, s, op).0)
    ensures op.RefreshNow? ==> Step(w, s, op).1.Failure?
  {
  }

  lemma {:induction false} UnverifiedRun(w: World, s: State, ops: seq<Op>)
    requires Exclusive(s) && Identified(w, s) && Unverified(s)
    requires forall i | 0 <= i < |ops| :: !Reidentifies(s, ops[i])
    ensures NoSuccess(w, s, ops)
    decreases |ops|
  {
    if ops != [] && Enabled(w, s, ops[0]) {
      var s' := Step(w, s, ops[0]).0;
      ExclusiveStep(w, s, ops[0]);
      IdentifiedStep(w, s, ops[0]);
      UnverifiedStep(w, s, ops[0]);
      forall i | 0 <= i < |ops[1..]| ensures !Reidentifies(s', ops[1..][i]) {
        assert ops[1..][i] == ops[i + 1] && !Reidentifies(s, ops[i + 1]);
      }
      UnverifiedRun(w, s', ops[1..]);
    }
  }

  /** The refresh got as far as identification and found another serial. */
  predicate FindsAnother(b: Binding, reply: Reply) {
    && b.present && reply.answer.Success? && reply.generation != b.observed
    && reply.identity.Ok? && reply.identity.value != b.serial
  }

  lemma MismatchIsUnverified(w: World, s: State, reply: Reply)
    requires Exclusive(s) && Identified(w, s) && Enabled(w, s, RefreshNow(reply)) && FindsAnother(s.binding, reply)
    ensures Unverified(Step(w, s, RefreshNow(reply)).0)
    ensures Step(w, s, RefreshNow(reply)).1 == Failure(DeviceRemoved)
  {
    assert Selected(s.binding) == s.binding.current;
  }

  /** After a refresh found another serial, no refresh succeeds, whatever else happens,
      until the reader is identified as this serial again or another one is bound. */
  lemma MismatchLasts(w: World, s: State, ops: seq<Op>, t: State, reply: Reply, later: seq<Op>)
    requires Initial(w, s) && Run(w, s, ops, t) && Enabled(w, t, RefreshNow(reply))
    requires FindsAnother(t.binding, reply)
    requires forall i | 0 <= i < |later| :: !Reidentifies(s, later[i])
    ensures NoSuccess(w, Step(w, t, RefreshNow(reply)).0, later)
  {
    InitialInvariant(w, s);
    RunInvariant(w, s, ops, t);
    IdentifiedStep(w, t, RefreshNow(reply));
    ExclusiveStep(w, t, RefreshNow(reply));
    MismatchIsUnverified(w, t, reply);
    var u := Step(w, t, RefreshNow(reply)).0;
    forall i | 0 <= i < |later| ensures !Reidentifies(u, later[i]) {
      assert !Reidentifies(s, later[i]);
    }
    UnverifiedRun(w, u, later);
  }
}
