/** The index of slots that may hold a client's credentials: weak references in the
    order of first registration. */
module SlotRegistry {
  import opened Common

  type Slot = nat
  type Tier = nat

  /** What was known about a slot when it was last registered. */
  datatype Entry = Entry(slot: Slot, token: seq<char>, serial: seq<char>, nativeHsmAuth: bool, tier: Tier)

  // ----------------------------------------------------------------- registering

  function Retain(live: Slot -> bool, es: seq<Entry>): seq<Entry> {
    if es == [] then []
    else (if live(es[0].slot) then [es[0]] else []) + Retain(live, es[1..])
  }

  function Upsert(es: seq<Entry>, e: Entry): seq<Entry> {
    if es == [] then [e]
    else if es[0].slot == e.slot then [e] + es[1..]
    else [es[0]] + Upsert(es[1..], e)
  }

  lemma {:induction false} UpsertAt(es: seq<Entry>, e: Entry, i: nat)
    requires i <= |es| && forall j | 0 <= j < i :: es[j].slot != e.slot
    requires i < |es| ==> es[i].slot == e.slot
    ensures Upsert(es, e) == if i < |es| then es[i := e] else es + [e]
  {
    if i > 0 { UpsertAt(es[1..], e, i - 1); }
  }

  class AuthSlots {
    var slots: seq<Entry>

    constructor ()
      ensures slots == []
    {
      slots := [];
    }

    method Prune(live: Slot -> bool)
      modifies this
      ensures slots == Retain(live, old(slots))
    {
      var kept: seq<Entry> := [];
      var i := 0;
      assert slots[0..] == slots;
      while i < |slots|
        invariant 0 <= i <= |slots| && slots == old(slots)
        invariant kept + Retain(live, slots[i..]) == Retain(live, slots)
      {
        assert slots[i..][1..] == slots[i + 1..];
        if live(slots[i].slot) { kept := kept + [slots[i]]; }
        i := i + 1;
      }
      slots := kept;
    }

    method Register(live: Slot -> bool, e: Entry)
      modifies this
      ensures slots == Upsert(Retain(live, old(slots)), e)
    {
      Prune(live);
      var i := 0;
      while i < |slots| && slots[i].slot != e.slot
        invariant 0 <= i <= |slots| && slots == Retain(live, old(slots))
        invariant forall j | 0 <= j < i :: slots[j].slot != e.slot
      {
        i := i + 1;
      }
      UpsertAt(slots, e, i);
      if i < |slots| {
        slots := slots[i := e];
      } else {
        slots := slots + [e];
      }
    }
  }

  // ------------------------------------------------------ any history of registering

  /** One registration, with which slots were alive then. */
  datatype Registration = Registration(entry: Entry, live: Slot -> bool)
  datatype History = Start | Then(before: History, last: Registration)

  function Slots(h: History): seq<Entry> {
    if h.Start? then [] else Upsert(Retain(h.last.live, Slots(h.before)), h.last.entry)
  }

  /** The slots in the order in which they were first registered. */
  function FirstOrder(h: History): seq<Slot> {
    if h.Start? then []
    else if h.last.entry.slot in FirstOrder(h.before) then FirstOrder(h.before)
    else FirstOrder(h.before) + [h.last.entry.slot]
  }

  function Latest(h: History, s: Slot): Option<Entry> {
    if h.Start? then None
    else if h.last.entry.slot == s then Some(h.last.entry)
    else Latest(h.before, s)
  }

  /** A slot is alive while it is registered, and a dead slot does not come back. */
  ghost predicate Plausible(h: History) {
    h.Then? ==>
      && Plausible(h.before)
      && h.last.live(h.last.entry.slot)
      && (h.before.Then? ==> forall s | s in FirstOrder(h.before) && h.last.live(s) :: h.before.last.live(s))
  }

  function Names(es: seq<Entry>): (r: seq<Slot>)
    ensures |r| == |es| && forall i | 0 <= i < |es| :: r[i] == es[i].slot
  {
    if es == [] then [] else [es[0].slot] + Names(es[1..])
  }

  function Alive(live: Slot -> bool, names: seq<Slot>): seq<Slot> {
    if names == [] then []
    else if live(names[0]) then [names[0]] + Alive(live, names[1..])
    else Alive(live, names[1..])
  }

  lemma {:induction false} AliveAppend(live: Slot -> bool, a: seq<Slot>, b: seq<Slot>)
    ensures Alive(live, a + b) == Alive(live, a) + Alive(live, b)
  {
    if a == [] { assert a + b == b; }
    else {
      AliveAppend(live, a[1..], b);
      assert (a + b)[1..] == a[1..] + b;
      var x, y := Alive(live, a[1..]), Alive(live, b);
      assert ([a[0]] + x) + y == [a[0]] + (x + y);
    }
  }

  lemma {:induction false} AliveTwice(f: Slot -> bool, g: Slot -> bool, names: seq<Slot>)
    requires forall s | s in names && g(s) :: f(s)
    ensures Alive(g, Alive(f, names)) == Alive(g, names)
  {
    if names != [] { AliveTwice(f, g, names[1..]); }
  }

  lemma {:induction false} AliveContains(live: Slot -> bool, names: seq<Slot>, s: Slot)
    ensures s in Alive(live, names) <==> s in names && live(s)
  {
    if names != [] {
      AliveContains(live, names[1..], s);
      assert names == [names[0]] + names[1..];
    }
  }

  lemma {:induction false} RetainNames(live: Slot -> bool, es: seq<Entry>)
    ensures Names(Retain(live, es)) == Alive(live, Names(es))
    ensures forall e | e in Retain(live, es) :: e in es
  {
    if es != [] {
      RetainNames(live, es[1..]);
      assert Names(es)[1..] == Names(es[1..]);
      if live(es[0].slot) {
        assert Names([es[0]] + Retain(live, es[1..])) == [es[0].slot] + Names(Retain(live, es[1..]));
      }
    }
  }

  lemma {:induction false} UpsertNames(es: seq<Entry>, e: Entry)
    ensures Names(Upsert(es, e)) == if e.slot in Names(es) then Names(es) else Names(es) + [e.slot]
    ensures forall x | x in Upsert(es, e) :: x == e || x in es
  {
    if es != [] && es[0].slot != e.slot {
      UpsertNames(es[1..], e);
    }
  }

  lemma {:induction false} UpsertReplaces(es: seq<Entry>, e: Entry)
    requires Distinct(Names(es))
    ensures forall x | x in Upsert(es, e) && x.slot == e.slot :: x == e
  {
    if es != [] {
      assert Names(es)[1..] == Names(es[1..]);
      UpsertReplaces(es[1..], e);
      forall x | x in es[1..] && es[0].slot == e.slot ensures x.slot != e.slot {
        var k :| 0 <= k < |es[1..]| && es[1..][k] == x;
        assert Names(es)[0] != Names(es)[k + 1];
      }
    }
  }

  predicate Distinct(names: seq<Slot>) { forall i, j | 0 <= i < j < |names| :: names[i] != names[j] }

  lemma {:induction false} AliveIsDistinct(live: Slot -> bool, names: seq<Slot>)
    requires Distinct(names)
    ensures Distinct(Alive(live, names))
  {
    if names != [] {
      AliveIsDistinct(live, names[1..]);
      AliveContains(live, names[1..], names[0]);
      assert names[0] !in Alive(live, names[1..]);
    }
  }

  /** The index is the first-registration order without the slots that were dead at the
      last registration, each with its latest entry. */
  lemma {:induction false} SlotsInOrder(h: History)
    requires Plausible(h) && h.Then?
    ensures Names(Slots(h)) == Alive(h.last.live, FirstOrder(h))
    decreases h
  {
    var live, e := h.last.live, h.last.entry;
    var es, order := Slots(h.before), FirstOrder(h.before);
    RetainNames(live, es);
    UpsertNames(Retain(live, es), e);
    if h.before.Then? {
      SlotsInOrder(h.before);
      AliveTwice(h.before.last.live, live, order);
    }
    AliveContains(live, order, e.slot);
    AliveAppend(live, order, [e.slot]);
    assert Alive(live, [e.slot]) == [e.slot];
  }

  lemma {:induction false} SlotsAreDistinct(h: History)
    ensures Distinct(Names(Slots(h)))
  {
    if h.Then? {
      var es := Slots(h.before);
      SlotsAreDistinct(h.before);
      RetainNames(h.last.live, es);
      AliveIsDistinct(h.last.live, Names(es));
      UpsertNames(Retain(h.last.live, es), h.last.entry);
    }
  }

  lemma {:induction false} EntriesAreLatest(h: History)
    ensures forall e | e in Slots(h) :: Latest(h, e.slot) == Some(e)
  {
    if h.Then? {
      EntriesAreLatest(h.before);
      var es := Retain(h.last.live, Slots(h.before));
      RetainNames(h.last.live, Slots(h.before));
      SlotsAreDistinct(h.before);
      AliveIsDistinct(h.last.live, Names(Slots(h.before)));
      UpsertNames(es, h.last.entry);
      UpsertReplaces(es, h.last.entry);
    }
  }

  // ------------------------------------------------------------ the search order

  /** A stable sort by tier puts an entry before the first one that is not lower. */
  function Insert(tier: Entry -> Tier, e: Entry, es: seq<Entry>): seq<Entry> {
    if es == [] || tier(e) <= tier(es[0]) then [e] + es
    else [es[0]] + Insert(tier, e, es[1..])
  }

  function Sort(tier: Entry -> Tier, es: seq<Entry>): seq<Entry> {
    if es == [] then [] else Insert(tier, es[0], Sort(tier, es[1..]))
  }

  predicate Sorted(tier: Entry -> Tier, es: seq<Entry>) {
    forall i, j | 0 <= i < j < |es| :: tier(es[i]) <= tier(es[j])
  }

  function At(tier: Entry -> Tier, t: Tier, es: seq<Entry>): seq<Entry> {
    if es == [] then [] else (if tier(es[0]) == t then [es[0]] else []) + At(tier, t, es[1..])
  }

  lemma {:induction false} InsertSorted(tier: Entry -> Tier, e: Entry, es: seq<Entry>)
    requires Sorted(tier, es)
    ensures Sorted(tier, Insert(tier, e, es))
    ensures forall x | x in Insert(tier, e, es) :: x == e || x in es
  {
    if es != [] && tier(e) > tier(es[0]) {
      InsertSorted(tier, e, es[1..]);
      var rest := Insert(tier, e, es[1..]);
      forall k | 0 <= k < |rest| ensures tier(es[0]) <= tier(rest[k]) {
        assert rest[k] in rest;
      }
    }
  }

  lemma {:induction false} InsertAt(tier: Entry -> Tier, t: Tier, e: Entry, es: seq<Entry>)
    ensures At(tier, t, Insert(tier, e, es)) == (if tier(e) == t then [e] else []) + At(tier, t, es)
  {
    if es != [] && tier(e) > tier(es[0]) { InsertAt(tier, t, e, es[1..]); }
  }

  /** The search order is by tier, and within one tier by registration. */
  lemma {:induction false} SortIsStable(tier: Entry -> Tier, es: seq<Entry>, t: Tier)
    ensures Sorted(tier, Sort(tier, es))
    ensures At(tier, t, Sort(tier, es)) == At(tier, t, es)
  {
    if es != [] {
      SortIsStable(tier, es[1..], t);
      InsertSorted(tier, es[0], Sort(tier, es[1..]));
      InsertAt(tier, t, es[0], Sort(tier, es[1..]));
    }
  }

  /** The tier now, or the registered one while the slot is busy. */
  function TierNow(now: Slot -> Option<Tier>, e: Entry): Tier {
    if now(e.slot).Some? then now(e.slot).value else e.tier
  }
}
