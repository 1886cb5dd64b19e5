/** Searching the registered slots for the credential that authenticates a client. */
module CredentialSearch {
  import opened Common
  import opened SlotRegistry

  datatype Class = PublicKeyClass | PrivateKeyClass | SecretKeyClass | OtherClass

  datatype Error = FunctionFailed | PublicKeyInvalid | DeviceError | Provider(code: nat)

  datatype Credential = Credential(
    slot: Slot,
    symmetric: bool,
    name: seq<char>,
    id: Option<seq<byte>>,
    publicKey: Option<seq<byte>>)

  /** A public key object found in a slot, with what reading its attributes answers. */
  datatype Handle = Handle(
    point: Result<seq<byte>, Error>,
    name: Result<seq<char>, Error>,
    id: Result<seq<byte>, Error>)

  /** What a slot answers when the search reaches it. */
  datatype Source =
    | Busy
    | Absent
    | Broken(error: Error)
    | Unauthorized
    | Authorized(keys: Result<seq<Handle>, Error>)

  /** `select` answers for a credential and may depend on those it was offered before. */
  datatype Query<!R> = Query(
    target: Slot,
    matches: Entry -> bool,
    name: Option<seq<char>>,
    explicit: bool,
    objectClass: Option<Class>,
    id: Option<seq<byte>>,
    source: Slot -> Source,
    select: (seq<Credential>, Credential) -> Result<Option<R>, Error>)

  predicate PublicAllowed<R>(q: Query<R>) {
    q.objectClass.None? || q.objectClass.value == PublicKeyClass || q.objectClass.value == PrivateKeyClass
  }

  predicate Skipped<R>(q: Query<R>, e: Entry) {
    e.slot == q.target || !q.matches(e) || e.nativeHsmAuth
  }

  // -------------------------------------------------------- what one slot offers

  function Read(slot: Slot, h: Handle): Result<Credential, Error> {
    if h.point.Err? then Err(h.point.error)
    else if |h.point.value| != 67 || h.point.value[..3] != [4, 65, 4] then Err(PublicKeyInvalid)
    else if h.name.Err? then Err(h.name.error)
    else if h.id.Err? then Err(h.id.error)
    else Ok(Credential(slot, false, h.name.value, Some(h.id.value), Some(h.point.value[2..])))
  }

  predicate EncryptionName(name: seq<char>) { |name| >= 4 && name[|name| - 4..] == ".enc" }

  /** The hidden key or symmetric pair an explicit selector with a name asks for. */
  function Hidden<R>(q: Query<R>, slot: Slot): Option<Credential> {
    if !q.explicit || q.name.None? then None
    else
      var name := q.name.value;
      var symmetric := EncryptionName(name);
      match q.objectClass
      case Some(SecretKeyClass) => if symmetric then Some(Credential(slot, true, name, q.id, None)) else None
      case Some(PrivateKeyClass) => Some(Credential(slot, false, name, q.id, None))
      case None => Some(Credential(slot, symmetric, name, q.id, None))
      case _ => None
  }

  /** What the keys of one slot lead to, and all the credentials offered by then. */
  datatype Tried<!R> = Tried(end: Option<Result<Option<R>, Error>>, offered: seq<Credential>)

  function TryKeys<R>(q: Query<R>, slot: Slot, keys: seq<Handle>, offered: seq<Credential>): Tried<R>
    decreases |keys|
  {
    if keys == [] then Tried(None, offered)
    else
      var read := Read(slot, keys[0]);
      if read.Err? then Tried(Some(Err(read.error)), offered)
      else
        var selected := q.select(offered, read.value);
        if selected.Err? || selected.value.Some? then Tried(Some(selected), offered + [read.value])
        else TryKeys(q, slot, keys[1..], offered + [read.value])
  }

  /** Reaching a slot ends the search, leaves a hidden key for later, or does nothing. */
  datatype Verdict<!R> =
    | Pass(offered: seq<Credential>)
    | Later(hidden: Credential, offered: seq<Credential>)
    | End(result: Result<Option<R>, Error>, offered: seq<Credential>)

  function Offer<R>(q: Query<R>, slot: Slot, keys: seq<Handle>, offered: seq<Credential>): Verdict<R> {
    var tried := TryKeys(q, slot, keys, offered);
    var hidden := Hidden(q, slot);
    if tried.end.Some? then End(tried.end.value, tried.offered)
    else if |tried.offered| > |offered| || hidden.None? then Pass(tried.offered)
    else if !PublicAllowed(q) then End(q.select(offered, hidden.value), offered + [hidden.value])
    else Later(hidden.value, offered)
  }

  function Visit<R>(q: Query<R>, e: Entry, offered: seq<Credential>): Verdict<R> {
    if Skipped(q, e) then Pass(offered)
    else match q.source(e.slot)
      case Busy => End(Err(FunctionFailed), offered)
      case Absent => Pass(offered)
      case Broken(error) => End(Err(error), offered)
      case Unauthorized => Pass(offered)
      case Authorized(keys) =>
        if !PublicAllowed(q) then Offer(q, e.slot, [], offered)
        else if keys.Err? then End(Err(keys.error), offered)
        else Offer(q, e.slot, keys.value, offered)
  }

  // ------------------------------------------------------------------ the search

  /** The answer, the slots that were reached and the credentials that were offered. */
  datatype Found<!R> = Found(result: Result<Option<R>, Error>, reached: seq<Slot>, offered: seq<Credential>)

  function Reached<R>(q: Query<R>, e: Entry): seq<Slot> { if Skipped(q, e) then [] else [e.slot] }

  function Kept<R>(v: Verdict<R>, fallback: Option<Credential>): Option<Credential> {
    if v.Later? && fallback.None? then Some(v.hidden) else fallback
  }

  function Search<R>(q: Query<R>, es: seq<Entry>, fallback: Option<Credential>, reached: seq<Slot>,
                     offered: seq<Credential>): Found<R>
    decreases |es|
  {
    if es == [] then
      if fallback.None? then Found(Ok(None), reached, offered)
      else Found(q.select(offered, fallback.value), reached, offered + [fallback.value])
    else
      var v := Visit(q, es[0], offered);
      if v.End? then Found(v.result, reached + Reached(q, es[0]), v.offered)
      else Search(q, es[1..], Kept(v, fallback), reached + Reached(q, es[0]), v.offered)
  }

  method OfferKeys<R>(q: Query<R>, slot: Slot, keys: seq<Handle>, offered: seq<Credential>) returns (r: Tried<R>)
    ensures r == TryKeys(q, slot, keys, offered)
  {
    var all := offered;
    var i := 0;
    assert keys[0..] == keys;
    while i < |keys|
      invariant 0 <= i <= |keys|
      invariant TryKeys(q, slot, keys, offered) == TryKeys(q, slot, keys[i..], all)
    {
      assert keys[i..][1..] == keys[i + 1..];
      var read := Read(slot, keys[i]);
      if read.Err? { return Tried(Some(Err(read.error)), all); }
      var selected := q.select(all, read.value);
      all := all + [read.value];
      if selected.Err? || selected.value.Some? { return Tried(Some(selected), all); }
      i := i + 1;
    }
    r := Tried(None, all);
  }

  method SearchEntries<R>(q: Query<R>, es: seq<Entry>) returns (r: Found<R>)
    ensures r == Search(q, es, None, [], [])
  {
    var fallback: Option<Credential>, reached: seq<Slot>, offered: seq<Credential> := None, [], [];
    var i := 0;
    assert es[0..] == es;
    while i < |es|
      invariant 0 <= i <= |es|
      invariant Search(q, es[i..], fallback, reached, offered) == Search(q, es, None, [], [])
    {
      assert es[i..][1..] == es[i + 1..];
      var e := es[i];
      i := i + 1;
      if Skipped(q, e) {
        assert reached + [] == reached;
        continue;
      }
      reached := reached + [e.slot];
      var source := q.source(e.slot);
      if source.Busy? { return Found(Err(FunctionFailed), reached, offered); }
      if source.Absent? { continue; }
      if source.Broken? { return Found(Err(source.error), reached, offered); }
      if source.Unauthorized? { continue; }
      if PublicAllowed(q) && source.keys.Err? { return Found(Err(source.keys.error), reached, offered); }
      var tried := OfferKeys(q, e.slot, if PublicAllowed(q) then source.keys.value else [], offered);
      if tried.end.Some? { return Found(tried.end.value, reached, tried.offered); }
      var hidden := Hidden(q, e.slot);
      if |tried.offered| > |offered| || hidden.None? {
        offered := tried.offered;
        continue;
      }
      if !PublicAllowed(q) { return Found(q.select(offered, hidden.value), reached, offered + [hidden.value]); }
      if fallback.None? { fallback := hidden; }
    }
    if fallback.None? { return Found(Ok(None), reached, offered); }
    r := Found(q.select(offered, fallback.value), reached, offered + [fallback.value]);
  }

  // ------------------------------------------------- the first slot that decides

  predicate Rejects<R(==)>(q: Query<R>, slot: Slot, h: Handle, offered: seq<Credential>) {
    Read(slot, h).Ok? && q.select(offered, Read(slot, h).value) == Ok(None)
  }

  function Answer<R>(q: Query<R>, slot: Slot, h: Handle, offered: seq<Credential>): Result<Option<R>, Error> {
    if Read(slot, h).Err? then Err(Read(slot, h).error) else q.select(offered, Read(slot, h).value)
  }

  /** `offered` and then the credentials of the keys that can be read, in order. */
  function Readable(slot: Slot, keys: seq<Handle>, offered: seq<Credential>): seq<Credential>
    decreases |keys|
  {
    if keys == [] then offered
    else Readable(slot, keys[1..], if Read(slot, keys[0]).Ok? then offered + [Read(slot, keys[0]).value] else offered)
  }

  /** `offered` and then the public credentials that a slot holds for the search. */
  function Publics<R>(q: Query<R>, e: Entry, offered: seq<Credential>): seq<Credential> {
    if Skipped(q, e) || !PublicAllowed(q) then offered
    else match q.source(e.slot)
      case Authorized(Ok(keys)) => Readable(e.slot, keys, offered)
      case _ => offered
  }

  /** Each of the first `n` keys is rejected when it is offered after the ones before. */
  predicate RejectsFirst<R(==)>(q: Query<R>, slot: Slot, keys: seq<Handle>, offered: seq<Credential>, n: nat)
    requires n <= |keys|
  {
    forall m | 0 <= m < n :: Rejects(q, slot, keys[m], Readable(slot, keys[..m], offered))
  }

  lemma RejectsRest<R>(q: Query<R>, slot: Slot, keys: seq<Handle>, offered: seq<Credential>, n: nat)
    requires 0 < n <= |keys| && RejectsFirst(q, slot, keys, offered, n)
    ensures Rejects(q, slot, keys[0], offered)
    ensures RejectsFirst(q, slot, keys[1..], offered + [Read(slot, keys[0]).value], n - 1)
  {
    assert keys[..0] == [] && Rejects(q, slot, keys[0], Readable(slot, keys[..0], offered));
    forall m | 0 <= m < n - 1
      ensures Rejects(q, slot, keys[1..][m], Readable(slot, keys[1..][..m], offered + [Read(slot, keys[0]).value]))
    {
      assert Rejects(q, slot, keys[m + 1], Readable(slot, keys[..m + 1], offered));
      assert keys[..m + 1][1..] == keys[1..][..m];
    }
  }

  /** The keys of a slot are offered in turn; the first that is not rejected decides. */
  lemma {:induction false} FirstKeyDecides<R>(q: Query<R>, slot: Slot, keys: seq<Handle>,
                                              offered: seq<Credential>, n: nat)
    requires n <= |keys| && RejectsFirst(q, slot, keys, offered, n)
    requires n < |keys| ==> !Rejects(q, slot, keys[n], Readable(slot, keys[..n], offered))
    ensures TryKeys(q, slot, keys, offered) ==
            if n < |keys|
            then Tried(Some(Answer(q, slot, keys[n], Readable(slot, keys[..n], offered))),
                       Readable(slot, keys[..n + 1], offered))
            else Tried(None, Readable(slot, keys, offered))
    decreases n
  {
    if n > 0 {
      RejectsRest(q, slot, keys, offered, n);
      assert keys[..n][1..] == keys[1..][..n - 1];
      assert n < |keys| ==> keys[1..][n - 1] == keys[n] && keys[..n + 1][1..] == keys[1..][..n];
      FirstKeyDecides(q, slot, keys[1..], offered + [Read(slot, keys[0]).value], n - 1);
    } else if keys != [] {
      assert keys[..0] == [] && keys[..1][1..] == [];
    }
  }

  lemma FirstKey<R>(q: Query<R>, slot: Slot, keys: seq<Handle>, offered: seq<Credential>) returns (n: nat)
    ensures n <= |keys| && RejectsFirst(q, slot, keys, offered, n)
    ensures n < |keys| ==> !Rejects(q, slot, keys[n], Readable(slot, keys[..n], offered))
  {
    n := 0;
    while n < |keys| && Rejects(q, slot, keys[n], Readable(slot, keys[..n], offered))
      invariant n <= |keys| && RejectsFirst(q, slot, keys, offered, n)
    {
      n := n + 1;
    }
  }

  lemma {:induction false} ReadableGrows(slot: Slot, keys: seq<Handle>, offered: seq<Credential>)
    ensures |Readable(slot, keys, offered)| >= |offered|
    ensures keys != [] && Read(slot, keys[0]).Ok? ==> |Readable(slot, keys, offered)| > |offered|
    decreases |keys|
  {
    if keys != [] {
      var read := Read(slot, keys[0]);
      ReadableGrows(slot, keys[1..], if read.Ok? then offered + [read.value] else offered);
    }
  }

  /** Key `n` of the slot is accepted when it is offered, and the ones before it are not. */
  predicate Accepts<R(==)>(q: Query<R>, e: Entry, offered: seq<Credential>, n: nat) {
    && !Skipped(q, e) && PublicAllowed(q)
    && q.source(e.slot).Authorized? && q.source(e.slot).keys.Ok?
    && var keys := q.source(e.slot).keys.value;
    && n < |keys| && RejectsFirst(q, e.slot, keys, offered, n)
    && var answer := Answer(q, e.slot, keys[n], Readable(e.slot, keys[..n], offered));
    && answer.Ok? && answer.value.Some?
  }

  function AcceptedAnswer<R>(q: Query<R>, e: Entry, offered: seq<Credential>, n: nat): Result<Option<R>, Error>
    requires Accepts(q, e, offered, n)
  {
    var keys := q.source(e.slot).keys.value;
    Answer(q, e.slot, keys[n], Readable(e.slot, keys[..n], offered))
  }

  lemma AcceptedEnds<R>(q: Query<R>, e: Entry, offered: seq<Credential>, n: nat)
    requires Accepts(q, e, offered, n)
    ensures Visit(q, e, offered) ==
            End(AcceptedAnswer(q, e, offered, n), Readable(e.slot, q.source(e.slot).keys.value[..n + 1], offered))
  {
    FirstKeyDecides(q, e.slot, q.source(e.slot).keys.value, offered, n);
  }

  /** With public keys allowed, a slot ends the search by an accepted public key or by an
      error; it leaves a hidden key only when it has no public key at all. */
  lemma VisitMeaning<R>(q: Query<R>, e: Entry, offered: seq<Credential>)
    requires PublicAllowed(q)
    ensures var v := Visit(q, e, offered);
            && (v.End? ==> v.result.Err? || exists n :: Accepts(q, e, offered, n))
            && (v.Later? ==> !Skipped(q, e) && q.explicit && q.source(e.slot) == Authorized(Ok([]))
                             && Hidden(q, e.slot) == Some(v.hidden))
  {
    if !Skipped(q, e) && q.source(e.slot).Authorized? && q.source(e.slot).keys.Ok? {
      var keys := q.source(e.slot).keys.value;
      var n := FirstKey(q, e.slot, keys, offered);
      FirstKeyDecides(q, e.slot, keys, offered, n);
      if n < |keys| {
        if Answer(q, e.slot, keys[n], Readable(e.slot, keys[..n], offered)).Ok? { assert Accepts(q, e, offered, n); }
      } else if keys != [] {
        RejectsRest(q, e.slot, keys, offered, n);
        ReadableGrows(e.slot, keys, offered);
      }
    }
  }

  /** A slot that does not end the search has had all its public credentials offered. */
  lemma PassedOffersAll<R>(q: Query<R>, e: Entry, offered: seq<Credential>)
    requires !Visit(q, e, offered).End?
    ensures Visit(q, e, offered).offered == Publics(q, e, offered)
  {
    if !Skipped(q, e) && q.source(e.slot).Authorized? && PublicAllowed(q) {
      var keys := q.source(e.slot).keys.value;
      var n := FirstKey(q, e.slot, keys, offered);
      FirstKeyDecides(q, e.slot, keys, offered, n);
      if keys != [] {
        RejectsRest(q, e.slot, keys, offered, n);
        ReadableGrows(e.slot, keys, offered);
      }
    }
  }

  /** A slot that the search leaves at once. */
  predicate Left<R>(q: Query<R>, e: Entry) {
    Skipped(q, e) || q.source(e.slot).Absent? || q.source(e.slot).Unauthorized?
  }

  /** When the selector excludes public keys, a slot that is not left at once ends the
      search: by its hidden key, if the selector names one, or by an error. */
  lemma HiddenOnlyVisit<R>(q: Query<R>, e: Entry, offered: seq<Credential>)
    requires !PublicAllowed(q)
    ensures var v, hidden := Visit(q, e, offered), Hidden(q, e.slot);
            if Left(q, e) then v == Pass(offered)
            else if !q.source(e.slot).Authorized? then v.End? && v.result.Err?
            else if hidden.None? then v == Pass(offered)
            else v == End(q.select(offered, hidden.value), offered + [hidden.value])
  {
    assert TryKeys(q, e.slot, [], offered) == Tried(None, offered);
  }

  // ------------------------------------------------------------- from slot to slot

  /** The slots reached on a way through all of `es`. */
  function ReachedBy<R>(q: Query<R>, es: seq<Entry>, reached: seq<Slot>): seq<Slot>
    decreases |es|
  {
    if es == [] then reached else ReachedBy(q, es[1..], reached + Reached(q, es[0]))
  }

  /** The public credentials of all of `es`, in order. */
  function PublicsBy<R>(q: Query<R>, es: seq<Entry>, offered: seq<Credential>): seq<Credential>
    decreases |es|
  {
    if es == [] then offered else PublicsBy(q, es[1..], Publics(q, es[0], offered))
  }

  /** What reaching slot `i` does when all public credentials before it were offered. */
  function VisitAt<R>(q: Query<R>, es: seq<Entry>, offered: seq<Credential>, i: nat): Verdict<R>
    requires i < |es|
  {
    Visit(q, es[i], PublicsBy(q, es[..i], offered))
  }

  lemma VisitLater<R>(q: Query<R>, es: seq<Entry>, offered: seq<Credential>, i: nat)
    requires 0 < i < |es|
    ensures VisitAt(q, es, offered, i) == VisitAt(q, es[1..], Publics(q, es[0], offered), i - 1)
  {
    assert es[..i][1..] == es[1..][..i - 1];
  }

  predicate NoEnd<R>(q: Query<R>, es: seq<Entry>, offered: seq<Credential>, n: nat)
    requires n <= |es|
  {
    forall j | 0 <= j < n :: !VisitAt(q, es, offered, j).End?
  }

  lemma NoEndRest<R>(q: Query<R>, es: seq<Entry>, offered: seq<Credential>, n: nat)
    requires 0 < n <= |es| && NoEnd(q, es, offered, n)
    ensures !Visit(q, es[0], offered).End? && NoEnd(q, es[1..], Publics(q, es[0], offered), n - 1)
  {
    assert es[..0] == [] && !VisitAt(q, es, offered, 0).End?;
    forall j | 0 <= j < n - 1 ensures !VisitAt(q, es[1..], Publics(q, es[0], offered), j).End? {
      VisitLater(q, es, offered, j + 1);
      assert !VisitAt(q, es, offered, j + 1).End?;
    }
  }

  function FirstLater<R>(q: Query<R>, es: seq<Entry>, offered: seq<Credential>): Option<Credential>
    decreases |es|
  {
    if es == [] then None
    else
      var v := Visit(q, es[0], offered);
      if v.Later? then Some(v.hidden) else FirstLater(q, es[1..], Publics(q, es[0], offered))
  }

  /** The first slot that ends the search decides it.  No later slot is reached, and before
      it exactly the public credentials of the earlier slots were offered. */
  lemma {:induction false} FirstEndDecides<R>(q: Query<R>, es: seq<Entry>, fallback: Option<Credential>,
                                              reached: seq<Slot>, offered: seq<Credential>, i: nat)
    requires i < |es| && VisitAt(q, es, offered, i).End? && NoEnd(q, es, offered, i)
    ensures var v := VisitAt(q, es, offered, i);
            Search(q, es, fallback, reached, offered) == Found(v.result, ReachedBy(q, es[..i + 1], reached), v.offered)
    decreases i
  {
    assert es[..i + 1][1..] == es[1..][..i];
    if i == 0 {
      assert es[..0] == [];
    } else {
      NoEndRest(q, es, offered, i);
      VisitLater(q, es, offered, i);
      PassedOffersAll(q, es[0], offered);
      var v := Visit(q, es[0], offered);
      FirstEndDecides(q, es[1..], Kept(v, fallback), reached + Reached(q, es[0]), v.offered, i - 1);
    }
  }

  /** Without one, every slot is reached and all public credentials are offered, in order;
      only then the first hidden key is. */
  lemma {:induction false} HiddenComesLast<R>(q: Query<R>, es: seq<Entry>, fallback: Option<Credential>,
                                              reached: seq<Slot>, offered: seq<Credential>)
    requires NoEnd(q, es, offered, |es|)
    ensures var hidden := if fallback.Some? then fallback else FirstLater(q, es, offered);
            var public := PublicsBy(q, es, offered);
            Search(q, es, fallback, reached, offered) ==
            if hidden.Some?
            then Found(q.select(public, hidden.value), ReachedBy(q, es, reached), public + [hidden.value])
            else Found(Ok(None), ReachedBy(q, es, reached), public)
    decreases |es|
  {
    if es != [] {
      NoEndRest(q, es, offered, |es|);
      PassedOffersAll(q, es[0], offered);
      var v := Visit(q, es[0], offered);
      HiddenComesLast(q, es[1..], Kept(v, fallback), reached + Reached(q, es[0]), v.offered);
    }
  }

  lemma FirstEnd<R>(q: Query<R>, es: seq<Entry>, offered: seq<Credential>) returns (i: nat)
    ensures i <= |es| && NoEnd(q, es, offered, i) && (i < |es| ==> VisitAt(q, es, offered, i).End?)
  {
    i := 0;
    while i < |es| && !VisitAt(q, es, offered, i).End?
      invariant i <= |es| && NoEnd(q, es, offered, i)
    {
      i := i + 1;
    }
  }

  // ------------------------------------------------ whom the search may ask, and with what

  /** A registered slot that is not the target, matches the selector and is not native. */
  predicate Eligible<R>(q: Query<R>, e: Entry) { e.slot != q.target && q.matches(e) && !e.nativeHsmAuth }

  /** The selector asks for keys of a class that a public key can stand for. */
  predicate AsksForPublic<R>(q: Query<R>) {
    match q.objectClass
    case Some(SecretKeyClass) => false
    case Some(OtherClass) => false
    case _ => true
  }

  /** An uncompressed P-256 point from a key of the slot, or what the selector itself names. */
  predicate Offerable<R>(q: Query<R>, c: Credential) {
    if c.publicKey.Some? then
      AsksForPublic(q) && !c.symmetric && c.id.Some? && |c.publicKey.value| == 65 && c.publicKey.value[0] == 4
    else q.explicit && q.name == Some(c.name) && c.id == q.id && (c.symmetric ==> |c.name| >= 4)
  }

  /** The slots and credentials so far are all right. */
  predicate Proper<R>(q: Query<R>, es: seq<Entry>, reached: seq<Slot>, offered: seq<Credential>) {
    && (forall s | s in reached :: exists e | e in es :: Eligible(q, e) && e.slot == s)
    && (forall c | c in offered :: Offerable(q, c) && c.slot in reached)
  }

  lemma {:induction false} TriedAreOfferable<R>(q: Query<R>, slot: Slot, keys: seq<Handle>, offered: seq<Credential>)
    requires keys != [] ==> AsksForPublic(q)
    ensures forall c | c in TryKeys(q, slot, keys, offered).offered ::
              c in offered || (Offerable(q, c) && c.slot == slot)
    ensures offered <= TryKeys(q, slot, keys, offered).offered
    decreases |keys|
  {
    if keys != [] && Read(slot, keys[0]).Ok? {
      var c := Read(slot, keys[0]).value;
      assert c.publicKey.value[0] == keys[0].point.value[..3][2];
      TriedAreOfferable(q, slot, keys[1..], offered + [c]);
    }
  }

  lemma VisitIsProper<R>(q: Query<R>, all: seq<Entry>, e: Entry, reached: seq<Slot>, offered: seq<Credential>)
    requires e in all && Proper(q, all, reached, offered)
    ensures Proper(q, all, reached + Reached(q, e), Visit(q, e, offered).offered)
    ensures Visit(q, e, offered).Later? ==> Offerable(q, Visit(q, e, offered).hidden)
                                            && Visit(q, e, offered).hidden.slot in reached + Reached(q, e)
  {
    if !Skipped(q, e) {
      assert Eligible(q, e);
      TriedAreOfferable(q, e.slot, [], offered);
      if PublicAllowed(q) && q.source(e.slot).Authorized? && q.source(e.slot).keys.Ok? {
        TriedAreOfferable(q, e.slot, q.source(e.slot).keys.value, offered);
      }
    }
  }

  /** Only eligible slots are reached, and only proper credentials of reached slots offered. */
  lemma {:induction false} SearchIsProper<R>(q: Query<R>, all: seq<Entry>, es: seq<Entry>, fallback: Option<Credential>,
                                             reached: seq<Slot>, offered: seq<Credential>)
    requires (forall e | e in es :: e in all) && Proper(q, all, reached, offered)
    requires fallback.Some? ==> Offerable(q, fallback.value) && fallback.value.slot in reached
    ensures var f := Search(q, es, fallback, reached, offered); Proper(q, all, f.reached, f.offered)
    decreases |es|
  {
    if es != [] {
      VisitIsProper(q, all, es[0], reached, offered);
      var v := Visit(q, es[0], offered);
      if !v.End? { SearchIsProper(q, all, es[1..], Kept(v, fallback), reached + Reached(q, es[0]), v.offered); }
    }
  }

  function EligibleSlots<R>(q: Query<R>, es: seq<Entry>): seq<Slot> {
    if es == [] then [] else (if Eligible(q, es[0]) then [es[0].slot] else []) + EligibleSlots(q, es[1..])
  }

  /** A way through all of `es` reaches exactly the eligible slots, in order. */
  lemma {:induction false} EligibleAreReached<R>(q: Query<R>, es: seq<Entry>, reached: seq<Slot>)
    ensures ReachedBy(q, es, reached) == reached + EligibleSlots(q, es)
    decreases |es|
  {
    if es == [] {
      assert reached + [] == reached;
    } else {
      EligibleAreReached(q, es[1..], reached + Reached(q, es[0]));
      assert reached + Reached(q, es[0]) + EligibleSlots(q, es[1..]) == reached + EligibleSlots(q, es);
    }
  }

  /** Which key a slot's public key is read as: a 67-byte octet string with an uncompressed
      P-256 point in it, and a readable name and identifier. */
  lemma ReadExactly(slot: Slot, h: Handle, c: Credential)
    ensures Read(slot, h) == Ok(c) <==>
            && h.point.Ok? && |h.point.value| == 67
            && h.point.value[0] == 4 && h.point.value[1] == 65 && h.point.value[2] == 4
            && h.name == Ok(c.name) && h.id.Ok? && c.id == Some(h.id.value)
            && c.publicKey == Some(h.point.value[2..]) && c.slot == slot && c.symmetric == false
    ensures var r := Read(slot, h);
            && (h.point.Err? ==> r == Err(h.point.error))
            && (h.point.Ok? && !([4, 65, 4] <= h.point.value && |h.point.value| == 67) ==> r == Err(PublicKeyInvalid))
  {
  }

  /** Which hidden credential a selector names: only an explicit one with a name, a private
      key, or a symmetric pair for a name that ends in ".enc" unless a private key is asked
      for. */
  lemma HiddenExactly<R>(q: Query<R>, slot: Slot, c: Credential)
    ensures var pair := q.name.Some? && |q.name.value| >= 4 && q.name.value[|q.name.value| - 4..] == ".enc";
            Hidden(q, slot) == Some(c) <==>
            && q.explicit && q.name == Some(c.name) && c.slot == slot && c.id == q.id && c.publicKey == None
            && (|| (q.objectClass == None && c.symmetric == pair)
                || (q.objectClass == Some(PrivateKeyClass) && !c.symmetric)
                || (q.objectClass == Some(SecretKeyClass) && pair && c.symmetric))
  {
  }

  /** A busy or broken slot ends the search when it is reached, and so does one whose public
      keys are asked for and cannot be listed; an absent or unauthorized one is passed over. */
  lemma SourceDecides<R>(q: Query<R>, es: seq<Entry>, i: nat)
    requires i < |es| && NoEnd(q, es, [], i) && Eligible(q, es[i])
    ensures q.source(es[i].slot).Busy? ==> Search(q, es, None, [], []).result == Err(FunctionFailed)
    ensures q.source(es[i].slot).Broken? ==> Search(q, es, None, [], []).result == Err(q.source(es[i].slot).error)
    ensures AsksForPublic(q) && q.source(es[i].slot).Authorized? && q.source(es[i].slot).keys.Err? ==>
              Search(q, es, None, [], []).result == Err(q.source(es[i].slot).keys.error)
    ensures q.source(es[i].slot).Busy? || q.source(es[i].slot).Broken? ==>
              Search(q, es, None, [], []).reached == ReachedBy(q, es[..i + 1], [])
    ensures q.source(es[i].slot).Absent? || q.source(es[i].slot).Unauthorized? ==> NoEnd(q, es, [], i + 1)
  {
    if VisitAt(q, es, [], i).End? { FirstEndDecides(q, es, None, [], [], i); }
  }

  // ------------------------------------------------------------- the whole search

  function OrdinaryEntries(live: Slot -> bool, now: Slot -> Option<Tier>, slots: seq<Entry>): seq<Entry> {
    Sort(e => TierNow(now, e), Retain(live, slots))
  }

  function FindOrdinary<R>(q: Query<R>, live: Slot -> bool, now: Slot -> Option<Tier>, slots: seq<Entry>): Found<R> {
    Search(q, OrdinaryEntries(live, now, slots), None, [], [])
  }

  /** `name` is the selector's object label; one that is not text ends the search before
      any slot is looked at. */
  method FindOrdinaryCredential<R>(q: Query<R>, name: Result<Option<seq<char>>, Error>,
                                   live: Slot -> bool, now: Slot -> Option<Tier>, slots: seq<Entry>)
    returns (r: Found<R>)
    ensures r == if name.Err? then Found(Err(name.error), [], [])
                 else FindOrdinary(q.(name := name.value), live, now, slots)
    ensures name.Ok? ==> Proper(q.(name := name.value), OrdinaryEntries(live, now, slots), r.reached, r.offered)
  {
    if name.Err? { return Found(Err(name.error), [], []); }
    var es := OrdinaryEntries(live, now, slots);
    SearchIsProper(q.(name := name.value), es, es, None, [], []);
    r := SearchEntries(q.(name := name.value), OrdinaryEntries(live, now, slots));
  }

  /** Live slots are visited by their tier now, and within a tier as registered. */
  lemma SearchOrder(live: Slot -> bool, now: Slot -> Option<Tier>, slots: seq<Entry>, t: Tier)
    ensures var es := OrdinaryEntries(live, now, slots);
            && Sorted(e => TierNow(now, e), es)
            && At(e => TierNow(now, e), t, es) == At(e => TierNow(now, e), t, Retain(live, slots))
  {
    SortIsStable(e => TierNow(now, e), Retain(live, slots), t);
  }

  /** The first accepted public key in the search order is the answer, whatever hidden
      keys were met before it.  No slot after it is reached, and what was offered is the
      public credentials up to it, in order. */
  lemma FirstAcceptedKeyIsFound<R>(q: Query<R>, live: Slot -> bool, now: Slot -> Option<Tier>, slots: seq<Entry>,
                                   i: nat, n: nat)
    requires var es := OrdinaryEntries(live, now, slots);
             i < |es| && NoEnd(q, es, [], i) && Accepts(q, es[i], PublicsBy(q, es[..i], []), n)
    ensures var es := OrdinaryEntries(live, now, slots);
            var before := PublicsBy(q, es[..i], []);
            FindOrdinary(q, live, now, slots) ==
            Found(AcceptedAnswer(q, es[i], before, n), ReachedBy(q, es[..i + 1], []),
                  Readable(es[i].slot, q.source(es[i].slot).keys.value[..n + 1], before))
  {
    var es := OrdinaryEntries(live, now, slots);
    AcceptedEnds(q, es[i], PublicsBy(q, es[..i], []), n);
    FirstEndDecides(q, es, None, [], [], i);
  }

  lemma {:induction false} NoPublics<R>(q: Query<R>, es: seq<Entry>, offered: seq<Credential>)
    requires !PublicAllowed(q)
    ensures PublicsBy(q, es, offered) == offered
    decreases |es|
  {
    if es != [] { NoPublics(q, es[1..], offered); }
  }

  /** When the selector excludes public keys, the first slot that is not left at once
      decides: if it is authorized, its hidden key is the only credential ever offered. */
  lemma FirstEligibleSlotDecides<R>(q: Query<R>, live: Slot -> bool, now: Slot -> Option<Tier>, slots: seq<Entry>,
                                    i: nat)
    requires var es := OrdinaryEntries(live, now, slots);
             && !PublicAllowed(q) && i < |es| && (forall j | 0 <= j < i :: Left(q, es[j]))
             && !Left(q, es[i]) && q.source(es[i].slot).Authorized? && Hidden(q, es[i].slot).Some?
    ensures var es := OrdinaryEntries(live, now, slots);
            var hidden := Hidden(q, es[i].slot).value;
            FindOrdinary(q, live, now, slots) == Found(q.select([], hidden), ReachedBy(q, es[..i + 1], []), [hidden])
  {
    var es := OrdinaryEntries(live, now, slots);
    forall j | 0 <= j < i ensures !VisitAt(q, es, [], j).End? {
      NoPublics(q, es[..j], []);
      HiddenOnlyVisit(q, es[j], []);
    }
    NoPublics(q, es[..i], []);
    HiddenOnlyVisit(q, es[i], []);
    FirstEndDecides(q, es, None, [], [], i);
  }

  /** The slot decides a successful search: by an accepted public key, or, when the selector
      excludes public keys, by its hidden key. */
  ghost predicate Decides<R>(q: Query<R>, e: Entry, before: seq<Credential>, result: Result<Option<R>, Error>) {
    if PublicAllowed(q)
    then exists n: nat :: Accepts(q, e, before, n) && result == AcceptedAnswer(q, e, before, n)
    else !Left(q, e) && q.source(e.slot).Authorized? && Hidden(q, e.slot).Some?
         && result == q.select(before, Hidden(q, e.slot).value)
  }

  lemma EndDecides<R>(q: Query<R>, e: Entry, before: seq<Credential>)
    requires Visit(q, e, before).End? && Visit(q, e, before).result.Ok?
    ensures Decides(q, e, before, Visit(q, e, before).result)
  {
    if PublicAllowed(q) {
      VisitMeaning(q, e, before);
      var n: nat :| Accepts(q, e, before, n);
      AcceptedEnds(q, e, before, n);
    } else {
      HiddenOnlyVisit(q, e, before);
    }
  }

  /** Conversely, for every selector, an answer comes from the first slot that decides, or
      it is the first hidden key after no slot decided, or nothing was found. */
  lemma FoundMeaning<R>(q: Query<R>, live: Slot -> bool, now: Slot -> Option<Tier>, slots: seq<Entry>)
    requires FindOrdinary(q, live, now, slots).result.Ok?
    ensures var es := OrdinaryEntries(live, now, slots);
            var result := FindOrdinary(q, live, now, slots).result;
            || (exists i | 0 <= i < |es| :: Decides(q, es[i], PublicsBy(q, es[..i], []), result) && NoEnd(q, es, [], i))
            || (NoEnd(q, es, [], |es|) &&
                var hidden := FirstLater(q, es, []);
                result == if hidden.Some? then q.select(PublicsBy(q, es, []), hidden.value) else Ok(None))
  {
    var es := OrdinaryEntries(live, now, slots);
    var i := FirstEnd(q, es, []);
    if i == |es| {
      HiddenComesLast(q, es, None, [], []);
    } else {
      FirstEndDecides(q, es, None, [], [], i);
      EndDecides(q, es[i], PublicsBy(q, es[..i], []));
    }
  }
}
