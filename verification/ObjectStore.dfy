/** Content-addressed storage of token objects.  A stored derived key refers to its
    registration by content address, and every write may be the last one of its call. */
module ObjectStore {
  import opened Common

  type Bytes = seq<byte>
  type Ref = seq<byte>

  datatype Error = InvalidCbor | Conflict | Device | DataInvalid | KeyTypeInconsistent | WriteProtected

  /** What decoding makes of stored bytes. */
  datatype Content =
    | Foreign
    | Malformed
    | Plain
    | Derived(registration: Ref)

  datatype Codec = Codec(
    address: Bytes -> Ref,
    wellFormed: Bytes -> bool,
    content: Bytes -> Content,
    isRegistration: Bytes -> bool)

  datatype TokenObject =
    | DataObject(record: Bytes)
    | PublicKeyObject(record: Bytes)
    | RegistrationObject(record: Bytes, registration: Bytes)
    | DerivedObject(record: Bytes, registration: Bytes, reference: Ref)
    | OtherObject

  datatype Encoded = Encoded(record: Bytes, dependencies: seq<Bytes>)

  function Encode(c: Codec, o: TokenObject): Result<Encoded, Error> {
    match o
    case DataObject(record) => Ok(Encoded(record, []))
    case PublicKeyObject(record) => Ok(Encoded(record, []))
    case RegistrationObject(record, registration) => Ok(Encoded(record, [registration]))
    case DerivedObject(record, registration, reference) =>
      if reference != c.address(registration) then Err(DataInvalid) else Ok(Encoded(record, [registration]))
    case OtherObject => Err(KeyTypeInconsistent)
  }

  /** The record codecs: a record decodes to the object it was made from, a registration
      decodes as one and is not itself an object. */
  predicate Faithful(c: Codec, o: TokenObject) {
    match o
    case DataObject(record) => c.content(record).Plain?
    case PublicKeyObject(record) => c.content(record).Plain?
    case RegistrationObject(record, registration) =>
      c.content(record).Plain? && c.isRegistration(registration) && c.content(registration).Foreign?
    case DerivedObject(record, registration, reference) =>
      c.content(record) == Derived(reference) && c.isRegistration(registration) && c.content(registration).Foreign?
    case OtherObject => true
  }

  // -------------------------------------------------------------------- the store

  type Objects = map<Ref, Bytes>

  /** Writing is idempotent and never replaces; `io` is false when the device fails. */
  function Put(c: Codec, s: Objects, b: Bytes, io: bool): (Objects, Result<Ref, Error>) {
    var r := c.address(b);
    if !c.wellFormed(b) then (s, Err(InvalidCbor))
    else if r in s then (s, if s[r] == b then Ok(r) else Err(Conflict))
    else if !io then (s, Err(Device))
    else (s[r := b], Ok(r))
  }

  /** Writes in order until one fails; the last reference is the answer. */
  function PutAll(c: Codec, s: Objects, bs: seq<Bytes>, io: nat -> bool, k: nat): (Objects, Result<Ref, Error>)
    requires bs != []
    decreases |bs|
  {
    var (s', r) := Put(c, s, bs[0], io(k));
    if r.Err? || |bs| == 1 then (s', r) else PutAll(c, s', bs[1..], io, k + 1)
  }

  predicate Registered(c: Codec, s: Objects, r: Ref) { r in s && c.isRegistration(s[r]) }

  /** Decoding a stored object looks its registration up. */
  function Lookup(c: Codec, s: Objects, b: Bytes): Result<Option<Bytes>, Error> {
    match c.content(b)
    case Foreign => Ok(None)
    case Malformed => Err(DataInvalid)
    case Plain => Ok(Some(b))
    case Derived(r) => if Registered(c, s, r) then Ok(Some(b)) else Err(DataInvalid)
  }

  function ListFrom(c: Codec, s: Objects, refs: seq<Ref>, objects: seq<(Ref, Bytes)>): Result<seq<(Ref, Bytes)>, Error>
    decreases |refs|
  {
    if refs == [] then Ok(objects)
    else if refs[0] !in s then Err(Device)
    else
      var found := Lookup(c, s, s[refs[0]]);
      if found.Err? then Err(found.error)
      else ListFrom(c, s, refs[1..], if found.value.Some? then objects + [(refs[0], found.value.value)] else objects)
  }

  // ---------------------------------------------------- what storing an object means

  /** The bytes of an object: its record, and its registration if it has one. */
  predicate Part(o: TokenObject, b: Bytes) {
    match o
    case DataObject(record) => b == record
    case PublicKeyObject(record) => b == record
    case RegistrationObject(record, registration) => b == record || b == registration
    case DerivedObject(record, registration, _) => b == record || b == registration
    case OtherObject => false
  }

  predicate Holds(c: Codec, s: Objects, b: Bytes) { c.address(b) in s && s[c.address(b)] == b }

  /** Only objects that can be stored, and derived keys that name their registration. */
  predicate Storable(c: Codec, o: TokenObject) {
    !o.OtherObject? && (o.DerivedObject? ==> o.reference == c.address(o.registration))
  }

  /** Nothing stands in the way of the object: it can be stored, its bytes are well formed,
      no address holds other bytes and the device takes every write. */
  ghost predicate Unhindered(c: Codec, s: Objects, o: TokenObject, io: nat -> bool) {
    && Storable(c, o) && io(0) && io(1)
    && (forall b | Part(o, b) :: c.wellFormed(b) && (c.address(b) in s ==> s[c.address(b)] == b))
    && (forall a, b | Part(o, a) && Part(o, b) && c.address(a) == c.address(b) :: a == b)
  }

  /** What is new in `t` belongs to the object, and nothing that was in `s` is lost. */
  predicate OnlyAdds(c: Codec, s: Objects, t: Objects, o: TokenObject) {
    && (forall r | r in s :: r in t && t[r] == s[r])
    && (forall r | r in t && r !in s :: Part(o, t[r]) && r == c.address(t[r]))
  }

  function PutBacked(c: Codec, mutable: bool, s: Objects, o: TokenObject, io: nat -> bool)
    : (Objects, Result<Ref, Error>)
  {
    if !mutable then (s, Err(WriteProtected))
    else
      var e := Encode(c, o);
      if e.Err? then (s, Err(e.error))
      else PutAll(c, s, e.value.dependencies + [e.value.record], io, 0)
  }

  /** What the answer of a call says about the objects `t` it leaves. */
  ghost predicate Answers(c: Codec, s: Objects, t: Objects, o: TokenObject, r: Result<Ref, Error>) {
    && OnlyAdds(c, s, t, o)
    && (r.Ok? ==> Storable(c, o) && r.value == c.address(o.record)
                  && forall b | Part(o, b) :: Holds(c, t, b) && c.wellFormed(b))
  }

  lemma OneIsStored(c: Codec, s: Objects, o: TokenObject, io: nat -> bool)
    requires o.DataObject? || o.PublicKeyObject?
    ensures var (t, r) := PutAll(c, s, [] + [o.record], io, 0);
            Answers(c, s, t, o, r) && (Unhindered(c, s, o, io) ==> r.Ok?)
  {
    assert [] + [o.record] == [o.record];
  }

  /** Two writes, the registration first. */
  function PutBoth(c: Codec, s: Objects, a: Bytes, b: Bytes, io: nat -> bool): (Objects, Result<Ref, Error>) {
    var first := Put(c, s, a, io(0));
    if first.1.Err? then first else Put(c, first.0, b, io(1))
  }

  lemma PutAllIsBoth(c: Codec, s: Objects, a: Bytes, b: Bytes, io: nat -> bool)
    ensures PutAll(c, s, [a] + [b], io, 0) == PutBoth(c, s, a, b, io)
  {
    assert ([a] + [b])[1..] == [b];
  }

  lemma OnlyAddsTwice(c: Codec, s: Objects, t: Objects, u: Objects, o: TokenObject)
    requires OnlyAdds(c, s, t, o) && OnlyAdds(c, t, u, o)
    ensures OnlyAdds(c, s, u, o)
    ensures forall b | Holds(c, t, b) :: Holds(c, u, b)
  {
  }

  lemma PutAdds(c: Codec, s: Objects, o: TokenObject, b: Bytes, io: bool)
    requires Part(o, b)
    ensures var (t, r) := Put(c, s, b, io);
            OnlyAdds(c, s, t, o) && (r.Ok? ==> Holds(c, t, b) && c.wellFormed(b) && r.value == c.address(b))
  {
  }

  /** A write is refused for bytes that are not CBOR, then for an address that holds other
      bytes, then by the device, and changes nothing; writing what is stored is no write. */
  lemma PutRefuses(c: Codec, s: Objects, b: Bytes, io: bool)
    ensures var (t, r) := Put(c, s, b, io);
            && (r == Err(InvalidCbor) <==> !c.wellFormed(b))
            && (r == Err(Conflict) <==> c.wellFormed(b) && c.address(b) in s && s[c.address(b)] != b)
            && (r == Err(Device) <==> c.wellFormed(b) && c.address(b) !in s && !io)
            && (r.Err? ==> t == s && (r.error == InvalidCbor || r.error == Conflict || r.error == Device))
            && (Holds(c, s, b) ==> t == s)
  {
  }

  lemma BothAreStored(c: Codec, s: Objects, o: TokenObject, io: nat -> bool)
    requires (o.RegistrationObject? || o.DerivedObject?) && Storable(c, o)
    ensures var (t, r) := PutBoth(c, s, o.registration, o.record, io);
            Answers(c, s, t, o, r)
  {
    var t := Put(c, s, o.registration, io(0)).0;
    PutAdds(c, s, o, o.registration, io(0));
    PutAdds(c, t, o, o.record, io(1));
    OnlyAddsTwice(c, s, t, Put(c, t, o.record, io(1)).0, o);
  }

  lemma BothCanBeStored(c: Codec, s: Objects, o: TokenObject, io: nat -> bool)
    requires (o.RegistrationObject? || o.DerivedObject?) && Unhindered(c, s, o, io)
    ensures PutBoth(c, s, o.registration, o.record, io).1.Ok?
  {
    assert Part(o, o.registration) && Part(o, o.record);
  }

  /** A call that answers a reference has stored the record under it and the registration
      under its own address; an immutable store refuses; and the call answers whenever
      nothing stands in its way. */
  lemma BackedIsStored(c: Codec, mutable: bool, s: Objects, o: TokenObject, io: nat -> bool)
    ensures var (t, r) := PutBacked(c, mutable, s, o, io);
            && Answers(c, s, t, o, r)
            && (!mutable ==> r == Err(WriteProtected))
            && (mutable && Unhindered(c, s, o, io) ==> r.Ok?)
            && (mutable && !Storable(c, o) ==>
                  t == s && r == Err(if o.OtherObject? then KeyTypeInconsistent else DataInvalid))
  {
    if o.RegistrationObject? || o.DerivedObject? {
      PutAllIsBoth(c, s, o.registration, o.record, io);
      if Storable(c, o) { BothAreStored(c, s, o, io); }
      if Unhindered(c, s, o, io) { BothCanBeStored(c, s, o, io); }
    } else if !o.OtherObject? {
      OneIsStored(c, s, o, io);
    }
  }

  class Store {
    const codec: Codec
    const mutable: bool
    var objects: Objects

    constructor (codec: Codec, mutable: bool)
      ensures this.codec == codec && this.mutable == mutable && objects == map[]
    {
      this.codec, this.mutable, objects := codec, mutable, map[];
    }

    method PutObject(b: Bytes, io: bool) returns (r: Result<Ref, Error>)
      modifies this
      ensures (objects, r) == Put(codec, old(objects), b, io)
    {
      if !codec.wellFormed(b) { return Err(InvalidCbor); }
      var reference := codec.address(b);
      if reference in objects {
        if objects[reference] == b { return Ok(reference); }
        return Err(Conflict);
      }
      if !io { return Err(Device); }
      objects := objects[reference := b];
      r := Ok(reference);
    }

    method PutBackedObject(o: TokenObject, io: nat -> bool) returns (r: Result<Ref, Error>)
      modifies this
      ensures (objects, r) == PutBacked(codec, mutable, old(objects), o, io)
      ensures Answers(codec, old(objects), objects, o, r)
      ensures mutable && Unhindered(codec, old(objects), o, io) ==> r.Ok?
    {
      BackedIsStored(codec, mutable, objects, o, io);
      if !mutable { return Err(WriteProtected); }
      var e := Encode(codec, o);
      if e.Err? { return Err(e.error); }
      var dependencies := e.value.dependencies;
      ghost var all := dependencies + [e.value.record];
      var i := 0;
      assert all[0..] == all;
      while i < |dependencies|
        invariant 0 <= i <= |dependencies|
        invariant PutAll(codec, objects, all[i..], io, i) == PutAll(codec, old(objects), all, io, 0)
      {
        assert all[i..][1..] == all[i + 1..] && all[i..][0] == dependencies[i];
        r := PutObject(dependencies[i], io(i));
        if r.Err? { return; }
        i := i + 1;
      }
      assert all[i..] == [e.value.record];
      r := PutObject(e.value.record, io(i));
    }

    method StoredObjects(refs: seq<Ref>) returns (r: Result<seq<(Ref, Bytes)>, Error>)
      ensures r == ListFrom(codec, objects, refs, [])
    {
      var found: seq<(Ref, Bytes)> := [];
      var i := 0;
      assert refs[0..] == refs;
      while i < |refs|
        invariant 0 <= i <= |refs|
        invariant ListFrom(codec, objects, refs[i..], found) == ListFrom(codec, objects, refs, [])
      {
        assert refs[i..][1..] == refs[i + 1..];
        if refs[i] !in objects { return Err(Device); }
        var item := Lookup(codec, objects, objects[refs[i]]);
        if item.Err? { return Err(item.error); }
        if item.value.Some? { found := found + [(refs[i], item.value.value)]; }
        i := i + 1;
      }
      r := Ok(found);
    }
  }

  // -------------------------------------------------- any number of callers, cut off

  type Caller = nat

  /** What each caller still has to write. */
  datatype State = State(objects: Objects, calls: map<Caller, seq<Bytes>>)

  datatype Op =
    | Begin(caller: Caller, item: TokenObject)
    | Write(caller: Caller, io: bool)
    | Cut(caller: Caller)
    | Delete(reference: Ref)

  predicate Enabled(c: Codec, s: State, op: Op) {
    match op
    case Begin(t, o) => t !in s.calls && Faithful(c, o)
    case Write(t, _) => t in s.calls && s.calls[t] != []
    case Cut(t) => t in s.calls
    // Only references of listed objects are ever deleted.
    case Delete(r) => r in s.objects && !c.content(s.objects[r]).Foreign?
  }

  function Step(c: Codec, s: State, op: Op): State
    requires Enabled(c, s, op)
  {
    match op
    case Begin(t, o) =>
      var e := Encode(c, o);
      if e.Err? then s else s.(calls := s.calls[t := e.value.dependencies + [e.value.record]])
    case Write(t, io) =>
      var (objects, r) := Put(c, s.objects, s.calls[t][0], io);
      if r.Err? then State(objects, s.calls - {t}) else State(objects, s.calls[t := s.calls[t][1..]])
    case Cut(t) => s.(calls := s.calls - {t})
    case Delete(r) => s.(objects := s.objects - {r})
  }

  ghost predicate Run(c: Codec, s: State, ops: seq<Op>, t: State)
    decreases |ops|
  {
    if ops == [] then s == t
    else Enabled(c, s, ops[0]) && Run(c, Step(c, s, ops[0]), ops[1..], t)
  }

  // ------------------------------------------------------------------- the invariant

  /** Bytes that may be written now: not malformed, a registration is no object, and a
      derived key's registration is stored. */
  predicate Sound(c: Codec, s: Objects, b: Bytes) {
    && !c.content(b).Malformed?
    && (c.content(b).Derived? ==>
          var r := c.content(b).registration; Registered(c, s, r) && c.content(s[r]).Foreign?)
  }

  predicate SoundStore(c: Codec, s: Objects) { forall r | r in s :: Sound(c, s, s[r]) }

  /** A call's writes: an object alone, or after its registration. */
  predicate SoundCall(c: Codec, s: Objects, bs: seq<Bytes>) {
    || bs == []
    || (|bs| == 1 && Sound(c, s, bs[0]))
    || (|bs| == 2 && c.isRegistration(bs[0]) && c.content(bs[0]).Foreign? && !c.content(bs[1]).Malformed?
        && (c.content(bs[1]).Derived? ==> c.content(bs[1]).registration == c.address(bs[0])))
  }

  predicate Inv(c: Codec, s: State) {
    SoundStore(c, s.objects) && forall t | t in s.calls :: SoundCall(c, s.objects, s.calls[t])
  }

  lemma InvStep(c: Codec, s: State, op: Op)
    requires Inv(c, s) && Enabled(c, s, op)
    ensures Inv(c, Step(c, s, op))
  {
  }

  lemma {:induction false} RunInv(c: Codec, s: State, ops: seq<Op>, t: State)
    requires Inv(c, s) && Run(c, s, ops, t)
    ensures Inv(c, t)
    decreases |ops|
  {
    if ops != [] {
      InvStep(c, s, ops[0]);
      RunInv(c, Step(c, s, ops[0]), ops[1..], t);
    }
  }

  /** In every run, with any calls cut off at any write, every stored derived key's
      registration is stored. */
  lemma NoDanglingReference(c: Codec, ops: seq<Op>, t: State, r: Ref)
    requires Run(c, State(map[], map[]), ops, t) && r in t.objects && c.content(t.objects[r]).Derived?
    ensures Registered(c, t.objects, c.content(t.objects[r]).registration)
  {
    RunInv(c, State(map[], map[]), ops, t);
    assert Sound(c, t.objects, t.objects[r]);
  }

  predicate Listed(c: Codec, s: Objects, r: Ref) { r in s && !c.content(s[r]).Foreign? }

  /** The listed part of `refs`, in order, each with what is stored there. */
  function Listing(c: Codec, s: Objects, refs: seq<Ref>): seq<(Ref, Bytes)>
    requires forall r | r in refs :: r in s
  {
    if refs == [] then []
    else (if Listed(c, s, refs[0]) then [(refs[0], s[refs[0]])] else []) + Listing(c, s, refs[1..])
  }

  lemma {:induction false} ListSound(c: Codec, s: Objects, refs: seq<Ref>, objects: seq<(Ref, Bytes)>)
    requires SoundStore(c, s) && forall r | r in refs :: r in s
    ensures ListFrom(c, s, refs, objects) == Ok(objects + Listing(c, s, refs))
    decreases |refs|
  {
    if refs == [] {
      assert objects + [] == objects;
    } else {
      assert refs[0] in refs && Sound(c, s, s[refs[0]]);
      var first := if Listed(c, s, refs[0]) then [(refs[0], s[refs[0]])] else [];
      ListSound(c, s, refs[1..], objects + first);
      assert objects + [] == objects;
      assert (objects + first) + Listing(c, s, refs[1..]) == objects + (first + Listing(c, s, refs[1..]));
    }
  }

  /** So listing succeeds and returns exactly the stored objects. */
  lemma ListingSucceeds(c: Codec, ops: seq<Op>, t: State, refs: seq<Ref>)
    requires Run(c, State(map[], map[]), ops, t) && forall r | r in refs :: r in t.objects
    ensures ListFrom(c, t.objects, refs, []) == Ok(Listing(c, t.objects, refs))
  {
    RunInv(c, State(map[], map[]), ops, t);
    ListSound(c, t.objects, refs, []);
    assert [] + Listing(c, t.objects, refs) == Listing(c, t.objects, refs);
  }

  /** A call that was not cut off stores its object under its address, whatever was
      stored before; writing it again changes nothing. */
  lemma {:induction false} PutAllStores(c: Codec, s: Objects, bs: seq<Bytes>, io: nat -> bool, k: nat)
    requires bs != [] && PutAll(c, s, bs, io, k).1.Ok?
    ensures var (s', r) := PutAll(c, s, bs, io, k);
            && r.value == c.address(bs[|bs| - 1])
            && (forall b | b in bs :: c.address(b) in s' && s'[c.address(b)] == b)
            && (forall q | q in s :: q in s' && s'[q] == s[q])
    decreases |bs|
  {
    if |bs| > 1 {
      var (s', r) := Put(c, s, bs[0], io(k));
      PutAllStores(c, s', bs[1..], io, k + 1);
      assert forall b | b in bs :: b == bs[0] || b in bs[1..];
    }
  }

  /** An entry that ends a listing: it is gone, does not decode, or is a derived key whose
      registration is gone or is none. */
  predicate Unlistable(c: Codec, s: Objects, r: Ref) {
    || r !in s
    || c.content(s[r]) == Malformed
    || (c.content(s[r]).Derived? &&
        var q := c.content(s[r]).registration; q !in s || !c.isRegistration(s[q]))
  }

  /** The first such entry ends the listing, a missing one as a device error; without one,
      listing succeeds. */
  lemma {:induction false} ListingExactly(c: Codec, s: Objects, refs: seq<Ref>, objects: seq<(Ref, Bytes)>, i: nat)
    requires i <= |refs| && forall j | 0 <= j < i :: !Unlistable(c, s, refs[j])
    requires i < |refs| ==> Unlistable(c, s, refs[i])
    ensures ListFrom(c, s, refs, objects).Ok? <==> i == |refs|
    ensures i < |refs| ==> ListFrom(c, s, refs, objects) == Err(if refs[i] !in s then Device else DataInvalid)
    decreases |refs|
  {
    if i > 0 {
      assert forall j | 0 <= j < i - 1 :: refs[1..][j] == refs[j + 1];
      var found := Lookup(c, s, s[refs[0]]);
      ListingExactly(c, s, refs[1..],
                     if found.value.Some? then objects + [(refs[0], found.value.value)] else objects, i - 1);
    }
  }

  /** A call whose writes are not interrupted does what the one call does. */
  lemma WritesAreTheCall(c: Codec, s: State, t: Caller, o: TokenObject, io: nat -> bool)
    requires t !in s.calls && Faithful(c, o) && PutBacked(c, true, s.objects, o, io).1.Ok?
    ensures var first := Step(c, s, Begin(t, o));
            && Enabled(c, first, Write(t, io(0)))
            && var second := Step(c, first, Write(t, io(0)));
            if o.RegistrationObject? || o.DerivedObject? then
              && Enabled(c, second, Write(t, io(1)))
              && Step(c, second, Write(t, io(1))).objects == PutBacked(c, true, s.objects, o, io).0
            else second.objects == PutBacked(c, true, s.objects, o, io).0
  {
    if o.RegistrationObject? || o.DerivedObject? { PutAllIsBoth(c, s.objects, o.registration, o.record, io); }
    else { assert [] + [o.record] == [o.record]; }
  }
}
