/** A refresh of the bound reader in its separate steps: choose the reader, refresh it and
    read its generation, compare that with the recorded one, identify the reader, record
    the result.  Discovery identifies readers and binds them later.  Refreshes are made
    inside HID operations, inside CCID operations or outside any, all mixed.  A CCID
    operation claims its reader only if the inventory has it when the operation begins, a
    HID operation never does, and a device can be rebound whenever no reader is claimed. */
module SplitRefresh {
  import opened Common
  import opened B = DeviceBinding

  /** A reader and one of its connection generations. */
  type Place = (ReaderId, nat)

  /** How far a refresh is; `at` is the generation that identification found. */
  datatype Progress =
    | Chosen(reader: ReaderId)
    | Refreshed(reader: ReaderId, generation: nat)
    | Differing(reader: ReaderId, generation: nat)
    | Identified(reader: ReaderId, generation: nat, at: nat, identity: Result<Serial, Error>)

  datatype Guard = HidGuard | CcidGuard

  /** `known` are the places that were identified as holding this device. */
  datatype Shared = Shared(
    binding: Binding,
    generations: ReaderId -> nat,
    guards: map<Thread, Guard>,
    refreshes: map<Thread, Progress>,
    known: set<Place>)

  datatype Action =
    | Enter(thread: Thread, guard: Guard)
    | Leave(thread: Thread)
    | Choose(thread: Thread)
    | ReadGeneration(thread: Thread, answer: Rv, generation: nat)
    | Compare(thread: Thread)
    | Identify(thread: Thread, at: nat, identity: Result<Serial, Error>)
    | Record(thread: Thread)
    | Find(reader: ReaderId, at: nat)
    | Apply(reader: ReaderId, found: nat)
    | SetPresence(present: bool)
    | Moves(reader: ReaderId, generation: nat)

  /** The actions of a run, first to last. */
  datatype Actions = Done | Do(first: Action, rest: Actions)

  /** The thread is inside a CCID operation that claimed its reader. */
  predicate Claiming(s: Shared, t: Thread) {
    t in s.guards && s.guards[t].CcidGuard? && s.binding.active.Some?
  }

  /** What the gate and the program order of a thread allow: a guard outlives the refreshes
      made under it, and a reader is only bound after it was found to hold this device. */
  predicate Enabled(s: Shared, act: Action) {
    match act
    case Enter(t, guard) =>
      && t !in s.guards && t !in s.refreshes
      && (forall u | u in s.guards :: s.guards[u].HidGuard?) && (guard.CcidGuard? ==> s.guards == map[])
    case Leave(t) => t in s.guards && t !in s.refreshes
    case Choose(t) => t !in s.refreshes
    case ReadGeneration(t, _, generation) =>
      t in s.refreshes && s.refreshes[t].Chosen? && generation >= s.generations(s.refreshes[t].reader)
    case Compare(t) => t in s.refreshes && s.refreshes[t].Refreshed?
    case Identify(t, at, _) =>
      t in s.refreshes && s.refreshes[t].Differing? && at >= s.generations(s.refreshes[t].reader)
    case Record(t) => t in s.refreshes && s.refreshes[t].Identified?
    case Find(reader, at) => at >= s.generations(reader)
    case Apply(reader, found) => (reader, found) in s.known
    case SetPresence(_) => true
    case Moves(reader, generation) => generation > s.generations(reader)
  }

  /** Identification tells the truth about the generation it is made in. */
  predicate True(w: World, s: Shared, act: Action)
    requires Enabled(s, act)
  {
    match act
    case Identify(t, at, identity) => identity.Ok? ==> identity.value == w(s.refreshes[t].reader, at)
    case Find(reader, at) => w(reader, at) == s.binding.serial
    case _ => true
  }

  function EnterStep(s: Shared, t: Thread, guard: Guard): Shared {
    s.(guards := s.guards[t := guard],
       binding := if guard.CcidGuard? && s.binding.present then Claim(s.binding).0 else s.binding)
  }

  function LeaveStep(s: Shared, t: Thread): Shared
    requires t in s.guards
  {
    s.(guards := s.guards - {t}, binding := if s.guards[t].CcidGuard? then Unclaim(s.binding) else s.binding)
  }

  function ReadStep(s: Shared, t: Thread, answer: Rv, generation: nat): (Shared, Option<Rv>)
    requires t in s.refreshes && s.refreshes[t].Chosen?
  {
    var reader := s.refreshes[t].reader;
    var s := s.(generations := Moved(s.generations, reader, generation));
    if answer.Failure? then (s.(refreshes := s.refreshes - {t}), Some(answer))
    else (s.(refreshes := s.refreshes[t := Refreshed(reader, generation)]), None)
  }

  function CompareStep(s: Shared, t: Thread): (Shared, Option<Rv>)
    requires t in s.refreshes && s.refreshes[t].Refreshed?
  {
    var p := s.refreshes[t];
    if p.generation == s.binding.observed then (s.(refreshes := s.refreshes - {t}), Some(Success))
    else (s.(refreshes := s.refreshes[t := Differing(p.reader, p.generation)]), None)
  }

  function IdentifyStep(s: Shared, t: Thread, at: nat, identity: Result<Serial, Error>): Shared
    requires t in s.refreshes && s.refreshes[t].Differing?
  {
    var p := s.refreshes[t];
    s.(generations := Moved(s.generations, p.reader, at),
       refreshes := s.refreshes[t := Identified(p.reader, p.generation, at, identity)],
       known := if identity == Ok(s.binding.serial) then s.known + {(p.reader, at)} else s.known)
  }

  function RecordStep(s: Shared, t: Thread): (Shared, Option<Rv>)
    requires t in s.refreshes && s.refreshes[t].Identified?
  {
    var p := s.refreshes[t];
    var s := s.(refreshes := s.refreshes - {t});
    if p.identity.Err? then (s.(binding := s.binding.(present := false)), Some(Failure(p.identity.error)))
    else if p.identity.value != s.binding.serial then
      (s.(binding := s.binding.(mismatched := Some(p.identity.value), present := false)), Some(Failure(DeviceRemoved)))
    else (s.(binding := s.binding.(observed := p.generation, epoch := s.binding.epoch + 1)), Some(Success))
  }

  function FindStep(s: Shared, reader: ReaderId, at: nat): Shared {
    s.(generations := Moved(s.generations, reader, at), known := s.known + {(reader, at)})
  }

  /** The generation that is recorded is the one the reader has now. */
  function ApplyStep(s: Shared, reader: ReaderId): Shared {
    s.(binding := ApplyReader(s.binding, reader, s.generations(reader)).0)
  }

  /** The new state, and the answer of a refresh that ends here. */
  function Act(s: Shared, act: Action): (Shared, Option<Rv>)
    requires Enabled(s, act)
  {
    match act
    case Enter(t, guard) => (EnterStep(s, t, guard), None)
    case Leave(t) => (LeaveStep(s, t), None)
    case Choose(t) =>
      if !s.binding.present then (s, Some(Failure(TokenNotPresent)))
      else (s.(refreshes := s.refreshes[t := Chosen(Selected(s.binding))]), None)
    case ReadGeneration(t, answer, generation) => ReadStep(s, t, answer, generation)
    case Compare(t) => CompareStep(s, t)
    case Identify(t, at, identity) => (IdentifyStep(s, t, at, identity), None)
    case Record(t) => RecordStep(s, t)
    case Find(reader, at) => (FindStep(s, reader, at), None)
    case Apply(reader, _) => (ApplyStep(s, reader), None)
    case SetPresence(present) => (s.(binding := s.binding.(present := present)), None)
    case Moves(reader, generation) => (s.(generations := Moved(s.generations, reader, generation)), None)
  }

  ghost predicate Acts(s: Shared, acts: Actions, t: Shared)
    decreases acts
  {
    if acts.Done? then s == t
    else Enabled(s, acts.first) && Acts(Act(s, acts.first).0, acts.rest, t)
  }

  /** The world is as every identification of the run found it. */
  ghost predicate Agrees(w: World, s: Shared, acts: Actions)
    decreases acts
  {
    if acts.Done? then forall p | p in s.known :: w(p.0, p.1) == s.binding.serial
    else Enabled(s, acts.first) ==> True(w, s, acts.first) && Agrees(w, Act(s, acts.first).0, acts.rest)
  }

  /** A device that was just bound. */
  predicate Fresh(s: Shared) {
    && s.binding == Bound(s.binding.serial, s.binding.current, s.generations(s.binding.current))
    && s.guards == map[] && s.refreshes == map[] && s.known == {(s.binding.current, s.binding.observed)}
  }

  // ----------------------------------------------------- the steps are a refresh

  /** The last two steps of a refresh, with nothing between them, ... */
  function Verified(s: Shared, t: Thread, reply: Reply): (Shared, Rv)
    requires t in s.refreshes && s.refreshes[t].Differing? && reply.generation >= s.generations(s.refreshes[t].reader)
  {
    var recorded := Act(Act(s, Identify(t, reply.generation, reply.identity)).0, Record(t));
    (recorded.0, recorded.1.value)
  }

  /** ... the three last ... */
  function Compared(s: Shared, t: Thread, reply: Reply): (Shared, Rv)
    requires t in s.refreshes && s.refreshes[t].Refreshed? && reply.generation >= s.generations(s.refreshes[t].reader)
  {
    var compared := Act(s, Compare(t));
    if compared.1.Some? then (compared.0, compared.1.value) else Verified(compared.0, t, reply)
  }

  /** ... and all five. */
  function Undisturbed(s: Shared, t: Thread, reply: Reply): (Shared, Rv)
    requires t !in s.refreshes && reply.generation >= s.generations(Selected(s.binding))
  {
    var chosen := Act(s, Choose(t));
    if chosen.1.Some? then (chosen.0, chosen.1.value)
    else
      var read := Act(chosen.0, ReadGeneration(t, reply.answer, reply.generation));
      if read.1.Some? then (read.0, read.1.value) else Compared(read.0, t, reply)
  }

  lemma VerifiedIsRefresh(s: Shared, t: Thread, reply: Reply)
    requires t in s.refreshes && s.refreshes[t] == Differing(s.refreshes[t].reader, reply.generation)
    requires reply.generation >= s.generations(s.refreshes[t].reader) && s.binding.present
    requires reply.generation != s.binding.observed && reply.answer.Success?
    ensures var (s', rv) := Verified(s, t, reply);
            && (s'.binding, rv) == Refresh(s.binding, reply)
            && s'.refreshes == s.refreshes - {t} && s'.guards == s.guards
            && s'.generations(s.refreshes[t].reader) == reply.generation
  {
  }

  lemma ComparedIsRefresh(s: Shared, t: Thread, reply: Reply)
    requires t in s.refreshes && s.refreshes[t] == Refreshed(s.refreshes[t].reader, reply.generation)
    requires reply.generation == s.generations(s.refreshes[t].reader) && s.binding.present && reply.answer.Success?
    ensures var (s', rv) := Compared(s, t, reply);
            && (s'.binding, rv) == Refresh(s.binding, reply)
            && s'.refreshes == s.refreshes - {t} && s'.guards == s.guards
            && s'.generations(s.refreshes[t].reader) == reply.generation
  {
    if reply.generation != s.binding.observed { VerifiedIsRefresh(CompareStep(s, t).0, t, reply); }
  }

  /** Undisturbed, the separate steps are the one-step refresh. */
  lemma UndisturbedIsRefresh(s: Shared, t: Thread, reply: Reply)
    requires t !in s.refreshes && reply.generation >= s.generations(Selected(s.binding))
    ensures var (s', rv) := Undisturbed(s, t, reply);
            && (s'.binding, rv) == Refresh(s.binding, reply)
            && s'.refreshes == s.refreshes && s'.guards == s.guards
            && (s.binding.present ==> s'.generations(Selected(s.binding)) == reply.generation)
  {
    if s.binding.present {
      var read := Act(Act(s, Choose(t)).0, ReadGeneration(t, reply.answer, reply.generation));
      assert read.0.refreshes - {t} == s.refreshes;
      if reply.answer.Success? { ComparedIsRefresh(read.0, t, reply); }
    }
  }

  /** An operation that is entered and left changes nothing, and then any other can begin. */
  lemma GuardsPass(s: Shared, t: Thread, guard: Guard)
    requires s.guards == map[] && s.binding.active.None? && t !in s.refreshes
    ensures var inside := Act(s, Enter(t, guard)).0;
            && (inside.binding.active.Some? <==> guard.CcidGuard? && s.binding.present)
            && (inside.binding.active.Some? ==> inside.binding.active.value == s.binding.current)
            && Act(inside, Leave(t)) == (s, None)
  {
  }

  // --------------------------------------------- what a run tells about the world

  lemma KnownGrows(s: Shared, act: Action)
    requires Enabled(s, act)
    ensures s.known <= Act(s, act).0.known && Act(s, act).0.binding.serial == s.binding.serial
  {
  }

  lemma {:induction false} KnownGrowsInRun(s: Shared, acts: Actions, t: Shared)
    requires Acts(s, acts, t)
    ensures s.known <= t.known && t.binding.serial == s.binding.serial
    decreases acts
  {
    if acts.Do? {
      KnownGrows(s, acts.first);
      KnownGrowsInRun(Act(s, acts.first).0, acts.rest, t);
    }
  }

  lemma {:induction false} KnownIsTrue(w: World, s: Shared, acts: Actions, t: Shared, p: Place)
    requires Acts(s, acts, t) && Agrees(w, s, acts) && p in t.known
    ensures w(p.0, p.1) == t.binding.serial
    decreases acts
  {
    if acts.Do? { KnownIsTrue(w, Act(s, acts.first).0, acts.rest, t, p); }
  }

  /** The same world, except that another device is in one place. */
  function Changed(w: World, p: Place, serial: Serial): World {
    (r: ReaderId, g: nat) => if (r, g) == p then serial + "x" else w(r, g)
  }

  lemma {:induction false} UnknownMayDiffer(w: World, s: Shared, acts: Actions, t: Shared, p: Place)
    requires Acts(s, acts, t) && Agrees(w, s, acts)
    requires p !in t.known && w(p.0, p.1) == t.binding.serial
    ensures Agrees(Changed(w, p, t.binding.serial), s, acts)
    decreases acts
  {
    KnownGrowsInRun(s, acts, t);
    if acts.Do? {
      var s' := Act(s, acts.first).0;
      KnownGrowsInRun(s', acts.rest, t);
      UnknownMayDiffer(w, s', acts.rest, t, p);
    }
  }

  /** Over every run: a place holds this device in every world the run agrees with if and
      only if it was identified. */
  lemma KnownExactly(w: World, s: Shared, acts: Actions, t: Shared, p: Place)
    requires Acts(s, acts, t) && Agrees(w, s, acts)
    ensures (forall v: World | Agrees(v, s, acts) :: v(p.0, p.1) == s.binding.serial) <==> p in t.known
  {
    KnownGrowsInRun(s, acts, t);
    if p in t.known {
      forall v: World | Agrees(v, s, acts) ensures v(p.0, p.1) == s.binding.serial {
        KnownIsTrue(v, s, acts, t, p);
      }
    } else if w(p.0, p.1) == s.binding.serial {
      UnknownMayDiffer(w, s, acts, t, p);
      assert Changed(w, p, s.binding.serial)(p.0, p.1) != s.binding.serial;
    }
  }

  // ------------------------------------------------------------- claimed refreshes

  predicate About(s: Shared, p: Progress) {
    p.Identified? && p.identity == Ok(s.binding.serial) ==> (p.reader, p.at) in s.known
  }

  /** A claim is of the bound reader and belongs to the one CCID guard, a refresh made under
      a claim is about that reader, and successful identifications are known. */
  ghost predicate Orderly(s: Shared) {
    && (s.binding.active.Some? ==> s.binding.active.value == s.binding.current)
    && (forall t | t in s.guards && s.guards[t].CcidGuard? :: s.guards.Keys == {t})
    && ((forall t | t in s.guards :: s.guards[t].HidGuard?) ==> s.binding.active.None?)
    && (forall t | t in s.refreshes :: About(s, s.refreshes[t]))
    && (forall t | t in s.refreshes && Claiming(s, t) :: s.refreshes[t].reader == s.binding.current)
  }

  predicate RefreshAction(act: Action) {
    act.Choose? || act.ReadGeneration? || act.Compare? || act.Identify? || act.Record?
  }

  lemma AboutKept(s: Shared, act: Action)
    requires Enabled(s, act) && forall t | t in s.refreshes :: About(s, s.refreshes[t])
    ensures var s' := Act(s, act).0; forall t | t in s'.refreshes :: About(s', s'.refreshes[t])
  {
    var s' := Act(s, act).0;
    forall t | t in s'.refreshes ensures About(s', s'.refreshes[t]) {
      if t in s.refreshes { assert About(s, s.refreshes[t]); }
    }
  }

  lemma OrderlyRefresh(s: Shared, act: Action)
    requires Orderly(s) && Enabled(s, act) && RefreshAction(act)
    ensures Orderly(Act(s, act).0)
  {
    AboutKept(s, act);
  }

  lemma OrderlyOther(s: Shared, act: Action)
    requires Orderly(s) && Enabled(s, act) && !RefreshAction(act)
    ensures Orderly(Act(s, act).0)
  {
    AboutKept(s, act);
  }

  lemma {:induction false} OrderlyRun(s: Shared, acts: Actions, t: Shared)
    requires Orderly(s) && Acts(s, acts, t)
    ensures Orderly(t)
    decreases acts
  {
    if acts.Do? {
      if RefreshAction(acts.first) { OrderlyRefresh(s, acts.first); } else { OrderlyOther(s, acts.first); }
      OrderlyRun(Act(s, acts.first).0, acts.rest, t);
    }
  }

  /** The generation of the bound reader that a successful refresh answers for. */
  function Answered(s: Shared, act: Action): nat
    requires Enabled(s, act) && (act.Compare? || act.Record?)
  {
    if act.Compare? then s.refreshes[act.thread].generation else s.refreshes[act.thread].at
  }

  /** In every run, with claimed and unclaimed refreshes mixed, a claimed refresh that
      succeeds is right, in every world the run agrees with, if and only if it identified the
      reader anew or the recorded generation of the bound reader was itself identified. */
  lemma ClaimedRefreshIdentifies(w: World, s: Shared, acts: Actions, t: Shared, act: Action)
    requires Fresh(s) && Acts(s, acts, t) && Agrees(w, s, acts)
    requires Enabled(t, act) && RefreshAction(act) && Claiming(t, act.thread) && Act(t, act).1 == Some(Success)
    ensures act.Compare? || act.Record?
    ensures t.refreshes[act.thread].reader == t.binding.current
    ensures (forall v: World | Agrees(v, s, acts) :: v(t.binding.current, Answered(t, act)) == s.binding.serial) <==>
            act.Record? || (t.binding.current, t.binding.observed) in t.known
  {
    OrderlyRun(s, acts, t);
    KnownGrowsInRun(s, acts, t);
    KnownExactly(w, s, acts, t, (t.binding.current, Answered(t, act)));
    if act.Record? { assert About(t, t.refreshes[act.thread]); }
  }

  // ------------------------------------------------------ the recorded generation

  /** The recorded generation of the bound reader was identified. */
  predicate Sound(s: Shared) { (s.binding.current, s.binding.observed) in s.known }

  /** The action records a place that was not identified: a result about another reader than
      the bound one, or about a generation that had passed when it was identified, or the
      present generation of a reader that was identified in an earlier one. */
  predicate Spoils(s: Shared, act: Action) {
    Enabled(s, act) &&
    match act
    case Record(t) =>
      s.refreshes[t].identity == Ok(s.binding.serial) && (s.binding.current, s.refreshes[t].generation) !in s.known
    case Apply(reader, _) => s.binding.active.None? && (reader, s.generations(reader)) !in s.known
    case _ => false
  }

  /** Recording a result about the bound reader, identified in the generation it is recorded
      for, never spoils, neither does recording the generation number already there, nor
      binding a reader in the generation it was found in. */
  lemma OwnResultIsSound(s: Shared, act: Action)
    requires Orderly(s) && Enabled(s, act)
    requires act.Apply? ==> act.found == s.generations(act.reader)
    requires act.Record? ==>
               var p := s.refreshes[act.thread];
               || (p.reader == s.binding.current && p.at == p.generation)
               || (Sound(s) && p.generation == s.binding.observed)
    ensures !Spoils(s, act)
  {
    if act.Record? { assert About(s, s.refreshes[act.thread]); }
  }

  /** The action writes the record. */
  predicate Writes(s: Shared, act: Action)
    requires Enabled(s, act)
  {
    (act.Record? && Act(s, act).1 == Some(Success)) || (act.Apply? && s.binding.active.None?)
  }

  /** A sound record is lost by an action if and only if the action spoils it, and an action
      that writes the record makes it sound unless it spoils it. */
  lemma SoundStep(s: Shared, act: Action)
    requires Enabled(s, act)
    ensures Sound(s) || Writes(s, act) ==> (Sound(Act(s, act).0) <==> !Spoils(s, act))
  {
  }

  ghost predicate NoneSpoils(s: Shared, acts: Actions)
    decreases acts
  {
    acts.Done? || (Enabled(s, acts.first) ==> !Spoils(s, acts.first) && NoneSpoils(Act(s, acts.first).0, acts.rest))
  }

  ghost predicate SoundThroughout(s: Shared, acts: Actions)
    decreases acts
  {
    Sound(s) && (acts.Done? || (Enabled(s, acts.first) ==> SoundThroughout(Act(s, acts.first).0, acts.rest)))
  }

  /** So the record is sound through a whole run if and only if none of its actions spoils. */
  lemma {:induction false} SoundRun(s: Shared, acts: Actions)
    requires Sound(s)
    ensures SoundThroughout(s, acts) <==> NoneSpoils(s, acts)
    decreases acts
  {
    if acts.Do? && Enabled(s, acts.first) {
      SoundStep(s, acts.first);
      if Sound(Act(s, acts.first).0) { SoundRun(Act(s, acts.first).0, acts.rest); }
    }
  }

  /** Writing the record is right, in every world the run agrees with, if and only if it
      does not spoil it. */
  lemma RecordIsRightExactly(w: World, s: Shared, acts: Actions, t: Shared, act: Action)
    requires Acts(s, acts, t) && Agrees(w, s, acts)
    requires Enabled(t, act) && Writes(t, act)
    ensures var b := Act(t, act).0.binding;
            (forall v: World | Agrees(v, s, acts) :: v(b.current, b.observed) == s.binding.serial) <==> !Spoils(t, act)
  {
    var b := Act(t, act).0.binding;
    KnownExactly(w, s, acts, t, (b.current, b.observed));
  }

  // -------------------------------------------- when every refresh claims its reader

  /** Every refresh is made under a claim, and every reader that is bound is in a generation
      in which it was found to hold this device. */
  ghost predicate AllClaimed(s: Shared, acts: Actions)
    decreases acts
  {
    acts.Do? && Enabled(s, acts.first) ==>
      && (acts.first.Choose? ==> Claiming(s, acts.first.thread))
      && (acts.first.Apply? ==> !Spoils(s, acts.first))
      && AllClaimed(Act(s, acts.first).0, acts.rest)
  }

  predicate Measured(s: Shared, p: Progress) {
    && p.reader == s.binding.current
    && (!p.Chosen? ==> p.generation <= s.generations(p.reader))
    && (p.Refreshed? && p.generation == s.binding.observed ==> Sound(s))
    && (p.Identified? ==> p.generation <= p.at <= s.generations(p.reader))
  }

  /** Every refresh is claimed, and the recorded generation was identified or has passed. */
  ghost predicate Steady(s: Shared) {
    && (Sound(s) || s.binding.observed < s.generations(s.binding.current))
    && (forall t | t in s.refreshes :: Claiming(s, t) && Measured(s, s.refreshes[t]))
  }

  lemma OneClaims(s: Shared, t: Thread, u: Thread)
    requires Orderly(s) && Claiming(s, t) && Claiming(s, u)
    ensures t == u
  {
    assert u in s.guards.Keys;
  }

  lemma SteadyRefresh(s: Shared, act: Action)
    requires Orderly(s) && Steady(s) && Enabled(s, act) && RefreshAction(act)
    requires act.Choose? ==> Claiming(s, act.thread)
    ensures Steady(Act(s, act).0)
    ensures act.Compare? && Act(s, act).1 == Some(Success) ==> Sound(s)
  {
    var s' := Act(s, act).0;
    forall t | t in s'.refreshes ensures Claiming(s', t) && Measured(s', s'.refreshes[t]) {
      if t in s.refreshes { OneClaims(s, t, act.thread); }
    }
    if act.Record? { assert About(s, s.refreshes[act.thread]) && Measured(s, s.refreshes[act.thread]); }
  }

  lemma SteadyOther(s: Shared, act: Action)
    requires Orderly(s) && Steady(s) && Enabled(s, act) && !RefreshAction(act)
    requires act.Apply? ==> !Spoils(s, act)
    ensures Steady(Act(s, act).0)
  {
    var s' := Act(s, act).0;
    forall t | t in s'.refreshes ensures Claiming(s', t) && Measured(s', s'.refreshes[t]) {
      assert Measured(s, s.refreshes[t]);
    }
  }

  lemma {:induction false} SteadyRun(s: Shared, acts: Actions, t: Shared)
    requires Orderly(s) && Steady(s) && Acts(s, acts, t) && AllClaimed(s, acts)
    ensures Orderly(t) && Steady(t)
    decreases acts
  {
    if acts.Do? {
      if RefreshAction(acts.first) {
        OrderlyRefresh(s, acts.first);
        SteadyRefresh(s, acts.first);
      } else {
        OrderlyOther(s, acts.first);
        SteadyOther(s, acts.first);
      }
      SteadyRun(Act(s, acts.first).0, acts.rest, t);
    }
  }

  /** When every refresh of a run is made inside an operation that claimed its reader, and
      readers are bound in the generation they were found in, the separate steps are as good
      as one: each success is right in every world the run agrees with. */
  lemma AllClaimedIdentify(s: Shared, acts: Actions, t: Shared, act: Action)
    requires Fresh(s) && Acts(s, acts, t) && AllClaimed(s, acts)
    requires Enabled(t, act) && RefreshAction(act) && Act(t, act).1 == Some(Success)
    ensures act.Compare? || act.Record?
    ensures t.refreshes[act.thread].reader == t.binding.current
    ensures forall v: World | Agrees(v, s, acts) :: v(t.binding.current, Answered(t, act)) == s.binding.serial
  {
    SteadyRun(s, acts, t);
    SteadyRefresh(t, act);
    assert Measured(t, t.refreshes[act.thread]);
    forall v: World | Agrees(v, s, acts)
      ensures v(t.binding.current, Answered(t, act)) == s.binding.serial
    {
      ClaimedRefreshIdentifies(v, s, acts, t, act);
    }
  }

  // --------------------------------------------------------- mistaken refreshes

  /** A later generation than every one the state knows of the two readers. */
  function Later(s: Shared, a: ReaderId, b: ReaderId): (g: nat)
    ensures g > s.generations(a) && g > s.generations(b) && g > s.binding.observed
  {
    1 + s.generations(a) + s.generations(b) + s.binding.observed
  }

  /** The world in which every device is this one, except that `reader` holds another at
      generation `g`. */
  function Elsewhere(serial: Serial, reader: ReaderId, g: nat): World {
    (r: ReaderId, n: nat) => if r == reader && n == g then serial + "x" else serial
  }

  /** After the run, `act` ends a refresh with success while the bound reader holds another
      device. */
  ghost predicate Mistaken(w: World, s: Shared, acts: Actions, u: Shared, act: Action) {
    && Acts(s, acts, u) && Agrees(w, s, acts) && Enabled(u, act) && Act(u, act).1 == Some(Success)
    && var v := Act(u, act).0;
    w(v.binding.current, v.generations(v.binding.current)) != v.binding.serial
  }

  /** A refresh of the bound reader, up to its identification at generation `g`. */
  function Looked(s: Shared, t: Thread, g: nat): Shared {
    s.(generations := Moved(Moved(s.generations, s.binding.current, g), s.binding.current, g),
       refreshes := map[t := Identified(s.binding.current, g, g, Ok(s.binding.serial))],
       known := s.known + {(s.binding.current, g)})
  }

  function Looking(t: Thread, serial: Serial, g: nat, acts: Actions): Actions {
    Do(Choose(t), Do(ReadGeneration(t, Success, g), Do(Compare(t), Do(Identify(t, g, Ok(serial)), acts))))
  }

  lemma IdentifiesNext(w: World, s: Shared, t: Thread, g: nat, acts: Actions, u: Shared)
    requires t in s.refreshes && s.refreshes[t] == Refreshed(s.binding.current, g)
    requires g == s.generations(s.binding.current) && g != s.binding.observed
    requires w(s.binding.current, g) == s.binding.serial
    requires var s' := IdentifyStep(CompareStep(s, t).0, t, g, Ok(s.binding.serial));
             Acts(s', acts, u) && Agrees(w, s', acts)
    ensures var all := Do(Compare(t), Do(Identify(t, g, Ok(s.binding.serial)), acts));
            Acts(s, all, u) && Agrees(w, s, all)
  {
  }

  lemma LooksFirst(w: World, s: Shared, t: Thread, g: nat, acts: Actions, u: Shared)
    requires s.refreshes == map[] && s.binding.present && Selected(s.binding) == s.binding.current
    requires g >= s.generations(s.binding.current) && g != s.binding.observed
    requires w(s.binding.current, g) == s.binding.serial
    requires Acts(Looked(s, t, g), acts, u) && Agrees(w, Looked(s, t, g), acts)
    ensures var all := Looking(t, s.binding.serial, g, acts); Acts(s, all, u) && Agrees(w, s, all)
  {
    var s1 := Act(s, Choose(t)).0;
    var s2 := Act(s1, ReadGeneration(t, Success, g)).0;
    assert IdentifyStep(CompareStep(s2, t).0, t, g, Ok(s.binding.serial)) == Looked(s, t, g);
    IdentifiesNext(w, s2, t, g, acts, u);
  }

  /** The device was bound to a second reader after a refresh had looked at the first, and
      the generation of the first one was recorded. */
  function Crossed(s: Shared, t: Thread, reader: ReaderId, g: nat): Shared {
    var s := ApplyStep(FindStep(Looked(s, t, g), reader, s.generations(reader)), reader);
    s.(refreshes := map[], binding := s.binding.(observed := g, epoch := s.binding.epoch + 1))
  }

  function Rebinding(t: Thread, r2: ReaderId, found: nat, acts: Actions): Actions {
    Do(Find(r2, found), Do(Apply(r2, found), Do(Record(t), acts)))
  }

  lemma CrossedByRebind(w: World, s: Shared, t: Thread, r2: ReaderId, g: nat, acts: Actions, u: Shared)
    requires s.refreshes == map[] && s.binding.present && s.binding.active.None? && r2 != s.binding.current
    requires g >= s.generations(s.binding.current) && g != s.binding.observed
    requires w(s.binding.current, g) == s.binding.serial && w(r2, s.generations(r2)) == s.binding.serial
    requires Acts(Crossed(s, t, r2, g), acts, u) && Agrees(w, Crossed(s, t, r2, g), acts)
    ensures var all := Looking(t, s.binding.serial, g, Rebinding(t, r2, s.generations(r2), acts));
            Acts(s, all, u) && Agrees(w, s, all)
  {
    var found := s.generations(r2);
    var s1 := FindStep(Looked(s, t, g), r2, found);
    assert Act(Act(s1, Apply(r2, found)).0, Record(t)).0 == Crossed(s, t, r2, g);
    assert Acts(s1, Do(Apply(r2, found), Do(Record(t), acts)), u);
    assert Agrees(w, s1, Do(Apply(r2, found), Do(Record(t), acts)));
    LooksFirst(w, s, t, g, Rebinding(t, r2, found, acts), u);
  }

  /** A refresh up to where it compares the generations. */
  function Looks(s: Shared, t: Thread): Actions {
    Do(Choose(t), Do(ReadGeneration(t, Success, s.binding.observed), Done))
  }

  /** A bound reader that is at the recorded generation is accepted whatever it holds. */
  lemma RecordedGenerationIsAccepted(w: World, s: Shared, t: Thread) returns (u: Shared)
    requires s.refreshes == map[] && s.binding.present && Selected(s.binding) == s.binding.current
    requires s.binding.observed == s.generations(s.binding.current) && Agrees(w, s, Done)
    ensures Acts(s, Looks(s, t), u) && Agrees(w, s, Looks(s, t))
    ensures Enabled(u, Compare(t)) && Act(u, Compare(t)).1 == Some(Success)
    ensures u.binding == s.binding && u.guards == s.guards
    ensures u.generations(u.binding.current) == u.binding.observed
  {
    u := Act(Act(s, Choose(t)).0, ReadGeneration(t, Success, s.binding.observed)).0;
  }

  /** What was identified was a generation that the reader has had. */
  ghost predicate Past(s: Shared) { forall p | p in s.known :: p.1 <= s.generations(p.0) }

  lemma {:induction false} PastRun(s: Shared, acts: Actions, t: Shared)
    requires Past(s) && Acts(s, acts, t)
    ensures Past(t)
    decreases acts
  {
    if acts.Do? { PastRun(Act(s, acts.first).0, acts.rest, t); }
  }

  /** The actions stay inside the operations that have been entered. */
  predicate Inside(acts: Actions) {
    acts.Do? ==> !acts.first.Enter? && !acts.first.Leave? && Inside(acts.rest)
  }

  function Crossing(t: Thread, serial: Serial, r2: ReaderId, found: nat, g: nat): Actions {
    Looking(t, serial, g, Rebinding(t, r2, found, Do(Moves(r2, g), Done)))
  }

  lemma CrossingIsInside(t: Thread, serial: Serial, r2: ReaderId, found: nat, g: nat)
    ensures Inside(Crossing(t, serial, r2, found, g))
  {
    var rest := Rebinding(t, r2, found, Do(Moves(r2, g), Done));
    assert Inside(Do(Record(t), Do(Moves(r2, g), Done)));
    assert Inside(rest);
    assert Inside(Do(Compare(t), Do(Identify(t, g, Ok(serial)), rest)));
  }

  /** No refresh is under way, and the bound reader is at the recorded generation with
      another device in it. */
  predicate Spoilt(w: World, s: Shared) {
    && s.refreshes == map[] && s.binding.present && s.binding.active.None?
    && s.generations(s.binding.current) == s.binding.observed
    && w(s.binding.current, s.binding.observed) != s.binding.serial
  }

  lemma CrossedAgrees(s: Shared, t: Thread, r2: ReaderId, g: nat)
    requires Past(s) && r2 != s.binding.current && g > s.generations(r2)
    ensures forall p | p in Crossed(s, t, r2, g).known ::
              Elsewhere(s.binding.serial, r2, g)(p.0, p.1) == s.binding.serial
  {
    forall p | p in Crossed(s, t, r2, g).known
      ensures Elsewhere(s.binding.serial, r2, g)(p.0, p.1) == s.binding.serial
    {
      assert p == (s.binding.current, g) || p == (r2, s.generations(r2)) || p in s.known;
    }
  }

  /** From every state in which no reader is claimed, inside whatever operation, a refresh
      made without a claim can spoil the record: while it identifies one reader the device is
      bound to a second one, which later reaches the recorded generation with another device
      in it. */
  lemma UnclaimedCanSpoil(s: Shared, t: Thread) returns (w: World, acts: Actions, u: Shared)
    requires s.refreshes == map[] && s.binding.present && s.binding.active.None? && Past(s)
    ensures Acts(s, acts, u) && Agrees(w, s, acts) && Inside(acts)
    ensures Spoilt(w, u) && u.guards == s.guards && Agrees(w, u, Done)
  {
    var serial, r2 := s.binding.serial, s.binding.current + 1;
    var g := Later(s, s.binding.current, r2);
    w := Elsewhere(serial, r2, g);
    var s1 := Crossed(s, t, r2, g);
    u := Act(s1, Moves(r2, g)).0;
    CrossedAgrees(s, t, r2, g);
    CrossedByRebind(w, s, t, r2, g, Do(Moves(r2, g), Done), u);
    acts := Crossing(t, serial, r2, s.generations(r2), g);
    CrossingIsInside(t, serial, r2, s.generations(r2), g);
  }

  function Both(first: Actions, second: Actions): Actions {
    match first
    case Done => second
    case Do(act, rest) => Do(act, Both(rest, second))
  }

  lemma {:induction false} Joined(w: World, s: Shared, first: Actions, t: Shared, second: Actions, u: Shared)
    requires Acts(s, first, t) && Agrees(w, s, first) && Acts(t, second, u) && Agrees(w, t, second)
    ensures Acts(s, Both(first, second), u) && Agrees(w, s, Both(first, second))
    ensures Inside(first) && Inside(second) ==> Inside(Both(first, second))
    decreases first
  {
    if first.Do? { Joined(w, Act(s, first.first).0, first.rest, t, second, u); }
  }

  /** So from every such state a refresh, inside whatever operation, can accept another
      device. */
  lemma UnclaimedRefreshCanMistake(s: Shared, t: Thread)
    returns (w: World, acts: Actions, u: Shared, act: Action)
    requires s.refreshes == map[] && s.binding.present && s.binding.active.None? && Past(s)
    ensures Mistaken(w, s, acts, u, act) && act == Compare(t) && u.guards == s.guards && Inside(acts)
  {
    var first, v;
    w, first, v := UnclaimedCanSpoil(s, t);
    assert Inside(Looks(v, t)) by { assert Inside(Looks(v, t).rest); }
    u := RecordedGenerationIsAccepted(w, v, t);
    acts, act := Both(first, Looks(v, t)), Compare(t);
    Joined(w, s, first, v, Looks(v, t), u);
  }

  /** So can a refresh inside a HID operation, ... */
  lemma HidRefreshCanMistake(s: Shared, t: Thread) returns (w: World, acts: Actions, u: Shared, act: Action)
    requires Fresh(s)
    ensures Mistaken(w, s, acts, u, act) && act == Compare(t) && u.guards == map[t := HidGuard]
  {
    var inside := EnterStep(s, t, HidGuard);
    w, acts, u, act := UnclaimedRefreshCanMistake(inside, t);
    acts := Do(Enter(t, HidGuard), acts);
  }

  /** ... one inside a CCID operation that began while the inventory had lost the device,
      once it has it again, ... */
  lemma AbsentBeginCanMistake(s: Shared, t: Thread) returns (w: World, acts: Actions, u: Shared, act: Action)
    requires Fresh(s)
    ensures Mistaken(w, s, acts, u, act) && act == Compare(t) && u.guards == map[t := CcidGuard]
  {
    var away := s.(binding := s.binding.(present := false));
    var entered := EnterStep(away, t, CcidGuard);
    var back := entered.(binding := entered.binding.(present := true));
    w, acts, u, act := UnclaimedRefreshCanMistake(back, t);
    acts := Do(SetPresence(true), acts);
    assert Acts(entered, acts, u) && Agrees(w, entered, acts);
    acts := Do(SetPresence(false), Do(Enter(t, CcidGuard), acts));
  }

  function Claims(s: Shared, t: Thread): Actions { Do(Enter(t, CcidGuard), Looks(s, t)) }

  lemma ClaimedIsAccepted(w: World, s: Shared, t: Thread) returns (u: Shared)
    requires Spoilt(w, s) && s.guards == map[] && Agrees(w, s, Done)
    ensures Acts(s, Claims(s, t), u) && Agrees(w, s, Claims(s, t)) && Claiming(u, t)
    ensures Enabled(u, Compare(t)) && Act(u, Compare(t)).1 == Some(Success)
    ensures u.binding == s.binding.(active := Some(s.binding.current))
    ensures u.generations(u.binding.current) == u.binding.observed
  {
    u := RecordedGenerationIsAccepted(w, EnterStep(s, t, CcidGuard), t);
  }

  /** ... and one made wholly inside a CCID operation that claimed its reader, after an
      earlier refresh without a claim has spoilt the record. */
  lemma ClaimedRefreshCanMistake(s: Shared, t: Thread)
    returns (w: World, first: Actions, acts: Actions, u: Shared, act: Action)
    requires Fresh(s)
    ensures Mistaken(w, s, acts, u, act) && act == Compare(t) && Claiming(u, t)
    ensures Inside(first) && acts == Both(first, Claims(u, t))
  {
    var v;
    w, first, v := UnclaimedCanSpoil(s, t);
    u := ClaimedIsAccepted(w, v, t);
    Joined(w, s, first, v, Claims(v, t), u);
    acts, act := Both(first, Claims(v, t)), Compare(t);
  }

  /** The device is bound to a reader that has moved on since it was found. */
  function BoundLate(s: Shared, r2: ReaderId): Shared {
    var s := FindStep(s, r2, s.generations(r2));
    ApplyStep(s.(generations := Moved(s.generations, r2, s.generations(r2) + 1)), r2)
  }

  lemma BoundLateIsSpoilt(s: Shared, r2: ReaderId) returns (w: World)
    requires Fresh(s) && r2 != s.binding.current
    ensures w == Elsewhere(s.binding.serial, r2, s.generations(r2) + 1)
    ensures var v := BoundLate(s, r2);
            Spoilt(w, v) && Agrees(w, v, Done) && v.guards == map[]
  {
    w := Elsewhere(s.binding.serial, r2, s.generations(r2) + 1);
    var v := BoundLate(s, r2);
    forall p | p in v.known ensures w(p.0, p.1) == s.binding.serial {
      assert p == (s.binding.current, s.binding.observed) || p == (r2, s.generations(r2));
    }
  }

  /** Binding a reader after the generation in which it was found lets even a run in which
      every refresh is claimed accept another device. */
  lemma LateRebindCanMistake(s: Shared, t: Thread, r2: ReaderId) returns (w: World, acts: Actions, u: Shared)
    requires Fresh(s) && r2 != s.binding.current
    ensures Mistaken(w, s, acts, u, Compare(t)) && Claiming(u, t)
    ensures var found := s.generations(r2);
            acts == Do(Find(r2, found), Do(Moves(r2, found + 1), Do(Apply(r2, found), Claims(u, t))))
  {
    var found, v := s.generations(r2), BoundLate(s, r2);
    w := BoundLateIsSpoilt(s, r2);
    u := ClaimedIsAccepted(w, v, t);
    var s1 := FindStep(s, r2, found);
    var s2 := Act(s1, Moves(r2, found + 1)).0;
    assert ApplyStep(s2, r2) == v;
    var rest := Do(Apply(r2, found), Claims(v, t));
    assert Acts(s2, rest, u) && Agrees(w, s2, rest);
    acts := Do(Find(r2, found), Do(Moves(r2, found + 1), rest));
  }
}
