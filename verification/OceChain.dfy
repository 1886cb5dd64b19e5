/** The off-card entity's certificate chain: leaf first, without the terminal issuer,
    which the card verifies with its fixed CA key.  What parsing, the clock and
    signature verification answer about a certificate is a parameter. */
module OceChain {
  import opened Common

  type Der = seq<byte>
  type Name = seq<byte>
  type KeyId = seq<byte>

  datatype Error = ArgumentsBad | TemplateInconsistent | Unreadable(code: nat)

  /** What one parsed certificate says at the time of the call; an extension that does
      not decode is `Err`. */
  datatype Parsed = Parsed(
    validNow: bool,
    selfIssued: bool,
    authorityKeyId: Result<Option<KeyId>, Error>,
    subjectKeyId: Result<Option<KeyId>, Error>,
    basicConstraintsCa: Result<Option<bool>, Error>,
    keyCertSign: Result<Option<bool>, Error>)

  datatype Pki = Pki(
    parse: Der -> Result<Parsed, Error>,
    subject: Der -> Result<Name, Error>,
    issuer: Der -> Result<Name, Error>,
    verifies: (Der, Der) -> bool)

  // -------------------------------------------------------------- specification

  predicate Conflict(aki: Option<KeyId>, ski: Option<KeyId>) {
    aki.Some? && ski.Some? && aki.value != ski.value
  }

  /** Is `d` an issuer of `c`, which names `name` and `aki` as its issuer? */
  function Match(p: Pki, c: Der, name: Name, aki: Option<KeyId>, d: Der): Result<bool, Error> {
    var subject := p.subject(d);
    if subject.Err? then Err(subject.error)
    else if subject.value != name then Ok(false)
    else
      var parsed := p.parse(d);
      if parsed.Err? then Err(parsed.error)
      else if parsed.value.subjectKeyId.Err? then Err(ArgumentsBad)
      else if Conflict(aki, parsed.value.subjectKeyId.value) then Ok(false)
      else Ok(p.verifies(c, d))
  }

  function Matches(p: Pki, c: Der, name: Name, aki: Option<KeyId>, ims: seq<Der>): Result<seq<Der>, Error> {
    if ims == [] then Ok([])
    else
      var first := Match(p, c, name, aki, ims[0]);
      if first.Err? then Err(first.error)
      else
        var rest := Matches(p, c, name, aki, ims[1..]);
        if rest.Err? then rest else Ok((if first.value then [ims[0]] else []) + rest.value)
  }

  datatype Outcome = Stop | Link(der: Der) | Fail(error: Error)

  /** A certificate that may stand in the chain. */
  predicate Usable(p: Pki, c: Der) {
    && p.parse(c).Ok? && p.parse(c).value.validNow && !p.parse(c).value.selfIssued
    && p.issuer(c).Ok? && p.parse(c).value.authorityKeyId.Ok?
  }

  /** A valid CA certificate whose key usage, if any, allows signing certificates. */
  predicate CanIssue(d: Parsed) {
    && d.validNow
    && d.basicConstraintsCa.Ok? && d.basicConstraintsCa.value == Some(true)
    && d.keyCertSign.Ok? && d.keyCertSign.value != Some(false)
  }

  function Issuers(p: Pki, ims: seq<Der>, c: Der): Result<seq<Der>, Error>
    requires Usable(p, c)
  {
    Matches(p, c, p.issuer(c).value, p.parse(c).value.authorityKeyId.value, ims)
  }

  function Fault(p: Pki, c: Der): Error {
    if p.parse(c).Err? then p.parse(c).error
    else if !p.parse(c).value.validNow || p.parse(c).value.selfIssued then ArgumentsBad
    else if p.issuer(c).Err? then p.issuer(c).error
    else ArgumentsBad
  }

  /** What follows `c` in a chain built from `ims`. */
  function Next(p: Pki, ims: seq<Der>, c: Der): Outcome {
    if !Usable(p, c) then Fail(Fault(p, c))
    else
      var issuers := Issuers(p, ims, c);
      if issuers.Err? then Fail(issuers.error)
      else if issuers.value == [] then Stop
      else if |issuers.value| > 1 then Fail(TemplateInconsistent)
      else
        var d := issuers.value[0];
        var parsed := p.parse(d);
        if parsed.Err? then Fail(parsed.error)
        else if !CanIssue(parsed.value) then Fail(ArgumentsBad)
        else if parsed.value.selfIssued then Stop
        else Link(d)
  }

  function Extend(p: Pki, ims: seq<Der>, chain: seq<Der>): Result<seq<Der>, Error>
    requires chain != []
    decreases |ims| + 1 - |chain|
  {
    match Next(p, ims, chain[|chain| - 1])
    case Fail(e) => Err(e)
    case Stop => Ok(chain)
    case Link(d) => if d in chain || |chain| > |ims| then Err(ArgumentsBad) else Extend(p, ims, chain + [d])
  }

  /** The declarative form: from the leaf along the links, never the same certificate
      twice, to a certificate after which nothing follows. */
  predicate Distinct(c: seq<Der>) { forall i, j | 0 <= i < j < |c| :: c[i] != c[j] }

  predicate Linked(p: Pki, ims: seq<Der>, c: seq<Der>) {
    forall i | 0 < i < |c| :: Next(p, ims, c[i - 1]) == Link(c[i])
  }

  predicate Path(p: Pki, ims: seq<Der>, leaf: Der, c: seq<Der>) {
    && c != [] && c[0] == leaf && Linked(p, ims, c) && Distinct(c)
    && Next(p, ims, c[|c| - 1]).Stop?
  }

  // -------------------------------------------------------------- implementation

  function After(found: seq<Der>, rest: Result<seq<Der>, Error>): Result<seq<Der>, Error> {
    if rest.Err? then rest else Ok(found + rest.value)
  }

  lemma AfterStep(p: Pki, c: Der, name: Name, aki: Option<KeyId>, ims: seq<Der>, found: seq<Der>)
    requires ims != []
    ensures After(found, Matches(p, c, name, aki, ims)) ==
            var first := Match(p, c, name, aki, ims[0]);
            if first.Err? then Err(first.error)
            else After(if first.value then found + [ims[0]] else found, Matches(p, c, name, aki, ims[1..]))
  {
    var rest := Matches(p, c, name, aki, ims[1..]);
    if rest.Ok? {
      assert found + ([ims[0]] + rest.value) == (found + [ims[0]]) + rest.value;
      assert [] + rest.value == rest.value;
    }
  }

  method FindIssuers(p: Pki, c: Der, name: Name, aki: Option<KeyId>, ims: seq<Der>) returns (r: Result<seq<Der>, Error>)
    ensures r == Matches(p, c, name, aki, ims)
  {
    var found: seq<Der> := [];
    var i := 0;
    ghost var all := Matches(p, c, name, aki, ims);
    assert ims[0..] == ims && (all.Ok? ==> [] + all.value == all.value);
    while i < |ims|
      invariant 0 <= i <= |ims|
      invariant Matches(p, c, name, aki, ims) ==
                After(found, Matches(p, c, name, aki, ims[i..]))
    {
      assert ims[i..][1..] == ims[i + 1..];
      AfterStep(p, c, name, aki, ims[i..], found);
      var subject := p.subject(ims[i]);
      if subject.Err? { return Err(subject.error); }
      if subject.value == name {
        var parsed := p.parse(ims[i]);
        if parsed.Err? { return Err(parsed.error); }
        if parsed.value.subjectKeyId.Err? { return Err(ArgumentsBad); }
        if !Conflict(aki, parsed.value.subjectKeyId.value) && p.verifies(c, ims[i]) {
          found := found + [ims[i]];
        }
      }
      i := i + 1;
    }
    assert ims[i..] == [] && found + [] == found;
    r := Ok(found);
  }

  method Build(p: Pki, leaf: Der, ims: seq<Der>) returns (r: Result<seq<Der>, Error>)
    ensures r == Extend(p, ims, [leaf])
    ensures forall c :: r == Ok(c) <==> Issued(p, ims, leaf, c)
  {
    forall c ensures Extend(p, ims, [leaf]) == Ok(c) <==> Issued(p, ims, leaf, c) {
      BuiltFromCertificates(p, ims, leaf, c);
    }
    var chain := [leaf];
    while true
      invariant chain != []
      invariant Extend(p, ims, chain) == Extend(p, ims, [leaf])
      decreases |ims| + 1 - |chain|
    {
      var c := chain[|chain| - 1];
      var current := p.parse(c);
      if current.Err? { return Err(current.error); }
      if !current.value.validNow { return Err(ArgumentsBad); }
      if current.value.selfIssued { return Err(ArgumentsBad); }
      var issuer := p.issuer(c);
      if issuer.Err? { return Err(issuer.error); }
      var aki := current.value.authorityKeyId;
      if aki.Err? { return Err(ArgumentsBad); }
      var candidates := FindIssuers(p, c, issuer.value, aki.value, ims);
      if candidates.Err? { return Err(candidates.error); }
      if candidates.value == [] { break; }
      if |candidates.value| > 1 { return Err(TemplateInconsistent); }
      var d := candidates.value[0];
      var candidate := p.parse(d);
      if candidate.Err? { return Err(candidate.error); }
      if !CanIssue(candidate.value) { return Err(ArgumentsBad); }
      if candidate.value.selfIssued { break; }
      if d in chain || |chain| > |ims| { return Err(ArgumentsBad); }
      chain := chain + [d];
    }
    r := Ok(chain);
  }

  // ------------------------------------------------------------------ one link

  lemma {:induction false} MatchesMeaning(p: Pki, c: Der, name: Name, aki: Option<KeyId>, ims: seq<Der>, d: Der)
    ensures var r := Matches(p, c, name, aki, ims);
            && (r.Err? <==> exists e | e in ims :: Match(p, c, name, aki, e).Err?)
            && (r.Ok? ==> multiset(r.value)[d] == if Match(p, c, name, aki, d) == Ok(true) then multiset(ims)[d] else 0)
  {
    if ims != [] {
      MatchesMeaning(p, c, name, aki, ims[1..], d);
      assert ims == [ims[0]] + ims[1..];
    }
  }

  lemma OnlyMatch(p: Pki, c: Der, name: Name, aki: Option<KeyId>, ims: seq<Der>, d: Der, e: Der)
    requires Matches(p, c, name, aki, ims) == Ok([d]) && e in ims && e != d
    ensures Match(p, c, name, aki, e) == Ok(false)
  {
    MatchesMeaning(p, c, name, aki, ims, e);
    assert multiset([d])[e] == 0;
    assert multiset(ims)[e] > 0;
    assert Match(p, c, name, aki, e).Ok? && !Match(p, c, name, aki, e).value;
  }

  /** A link goes to the one matching entry of the list, which is a CA certificate and
      not self-issued. */
  lemma LinkMeaning(p: Pki, ims: seq<Der>, c: Der, d: Der)
    requires Next(p, ims, c) == Link(d)
    ensures Usable(p, c) && d in ims && multiset(ims)[d] == 1
    ensures p.subject(d).Ok? && p.subject(d).value == p.issuer(c).value && p.verifies(c, d)
    ensures p.parse(d).Ok? && CanIssue(p.parse(d).value) && !p.parse(d).value.selfIssued
    ensures forall e | e in ims && e != d ::
              Match(p, c, p.issuer(c).value, p.parse(c).value.authorityKeyId.value, e) == Ok(false)
  {
    var name, aki := p.issuer(c).value, p.parse(c).value.authorityKeyId.value;
    var found := Issuers(p, ims, c).value;
    assert found == [d];
    MatchesMeaning(p, c, name, aki, ims, d);
    assert multiset(found)[d] == 1;
    forall e | e in ims && e != d ensures Match(p, c, name, aki, e) == Ok(false) {
      OnlyMatch(p, c, name, aki, ims, d, e);
    }
  }

  // ----------------------------------------------- the chain is exactly the path

  lemma {:induction false} Pigeonhole(c: seq<Der>, ims: seq<Der>)
    requires Distinct(c) && forall i | 0 <= i < |c| :: c[i] in ims
    ensures |c| <= |ims|
    decreases |c|
  {
    if c != [] {
      var last := |c| - 1;
      var k :| 0 <= k < |ims| && ims[k] == c[last];
      var rest := ims[..k] + ims[k + 1..];
      forall i | 0 <= i < last ensures c[..last][i] in rest {
        var m :| 0 <= m < |ims| && ims[m] == c[i];
        assert m < k ==> rest[m] == c[i];
        assert m > k ==> rest[m - 1] == c[i];
      }
      Pigeonhole(c[..last], rest);
    }
  }

  /** The length test never decides: when it is reached with a new certificate, the
      chain cannot be longer than the list. */
  lemma LengthTestNeverFires(p: Pki, ims: seq<Der>, chain: seq<Der>, d: Der)
    requires chain != [] && Linked(p, ims, chain) && Distinct(chain)
    requires Next(p, ims, chain[|chain| - 1]) == Link(d) && d !in chain
    ensures |chain| <= |ims|
  {
    var c := chain + [d];
    forall i | 0 <= i < |c| - 1 ensures c[1..][i] in ims {
      LinkMeaning(p, ims, c[i], c[i + 1]);
    }
    Pigeonhole(c[1..], ims);
  }

  lemma {:induction false} ExtendIsPath(p: Pki, ims: seq<Der>, chain: seq<Der>)
    requires chain != [] && Linked(p, ims, chain) && Distinct(chain)
    requires Extend(p, ims, chain).Ok?
    ensures Path(p, ims, chain[0], Extend(p, ims, chain).value)
    decreases |ims| + 1 - |chain|
  {
    var next := Next(p, ims, chain[|chain| - 1]);
    if next.Link? {
      ExtendIsPath(p, ims, chain + [next.der]);
    }
  }

  lemma {:induction false} PathIsBuilt(p: Pki, ims: seq<Der>, leaf: Der, c: seq<Der>, k: nat)
    requires Path(p, ims, leaf, c) && 0 < k <= |c|
    ensures Extend(p, ims, c[..k]) == Ok(c)
    decreases |c| - k
  {
    if k < |c| {
      assert Next(p, ims, c[k - 1]) == Link(c[k]);
      LengthTestNeverFires(p, ims, c[..k], c[k]);
      assert c[..k] + [c[k]] == c[..k + 1];
      PathIsBuilt(p, ims, leaf, c, k + 1);
    } else {
      assert c[..k] == c;
    }
  }

  /** The result is the path when there is one, and an error when there is none. */
  lemma BuiltExactly(p: Pki, ims: seq<Der>, leaf: Der, c: seq<Der>)
    ensures Extend(p, ims, [leaf]) == Ok(c) <==> Path(p, ims, leaf, c)
  {
    if Extend(p, ims, [leaf]) == Ok(c) { ExtendIsPath(p, ims, [leaf]); }
    if Path(p, ims, leaf, c) {
      PathIsBuilt(p, ims, leaf, c, 1);
      assert c[..1] == [leaf];
    }
  }

  /** What the card receives: distinct, valid, not self-issued, each certificate issued
      by the next one, which is a CA certificate from the list. */
  lemma ChainMeaning(p: Pki, ims: seq<Der>, leaf: Der)
    requires Extend(p, ims, [leaf]).Ok?
    ensures var c := Extend(p, ims, [leaf]).value;
            && c != [] && c[0] == leaf && Distinct(c) && |c| <= |ims| + 1
            && (forall i | 0 <= i < |c| :: Usable(p, c[i]))
            && (forall i | 0 < i < |c| :: c[i] in ims && CanIssue(p.parse(c[i]).value) && p.verifies(c[i - 1], c[i])
                                          && p.subject(c[i]) == p.issuer(c[i - 1]))
  {
    var c := Extend(p, ims, [leaf]).value;
    BuiltExactly(p, ims, leaf, c);
    forall i | 0 < i < |c|
      ensures c[i] in ims && p.parse(c[i]).Ok? && CanIssue(p.parse(c[i]).value)
      ensures p.verifies(c[i - 1], c[i]) && p.subject(c[i]) == p.issuer(c[i - 1])
    {
      LinkMeaning(p, ims, c[i - 1], c[i]);
    }
    forall i | 0 <= i < |c| ensures Usable(p, c[i]) {
      if i + 1 < |c| { LinkMeaning(p, ims, c[i], c[i + 1]); }
    }
    assert forall i | 0 <= i < |c[1..]| :: c[1..][i] == c[i + 1];
    Pigeonhole(c[1..], ims);
  }

  // ------------------------------------------------- the chain from the certificates

  /** `d` names itself as the issuer of `c`, carries the key identifier that `c` names, if
      both carry one, and its key verifies the signature of `c`. */
  predicate Issues(p: Pki, c: Der, d: Der) {
    && p.issuer(c).Ok? && p.subject(d).Ok? && p.subject(d).value == p.issuer(c).value
    && p.parse(c).Ok? && p.parse(c).value.authorityKeyId.Ok?
    && p.parse(d).Ok? && p.parse(d).value.subjectKeyId.Ok?
    && var aki, ski := p.parse(c).value.authorityKeyId.value, p.parse(d).value.subjectKeyId.value;
    && (aki == None || ski == None || aki == ski)
    && p.verifies(c, d)
  }

  /** `d` can be compared with `c`: its subject can be read and, when it is the issuer that
      `c` names, so can the rest of it. */
  predicate Comparable(p: Pki, c: Der, d: Der) {
    && p.subject(d).Ok?
    && (p.subject(d) == p.issuer(c) ==> p.parse(d).Ok? && p.parse(d).value.subjectKeyId.Ok?)
  }

  /** `c` may stand in a chain. */
  predicate Standing(p: Pki, c: Der) {
    && p.parse(c).Ok? && p.issuer(c).Ok? && p.parse(c).value.authorityKeyId.Ok?
    && p.parse(c).value.validNow && !p.parse(c).value.selfIssued
  }

  /** `d` may sign certificates now. */
  predicate Signer(p: Pki, d: Der) {
    && p.parse(d).Ok? && p.parse(d).value.validNow
    && var ca, sign := p.parse(d).value.basicConstraintsCa, p.parse(d).value.keyCertSign;
    && ca.Ok? && ca.value.Some? && ca.value.value
    && sign.Ok? && (sign.value.None? || sign.value.value)
  }

  /** `d` is the one list entry that issues `c`. */
  predicate SoleIssuer(p: Pki, ims: seq<Der>, c: Der, d: Der) {
    Issues(p, c, d) && multiset(ims)[d] == 1 && forall e | e in ims && e != d :: !Issues(p, c, e)
  }

  /** Nothing follows `c`: no list entry issues it, or only a self-issued signer does. */
  predicate Terminal(p: Pki, ims: seq<Der>, c: Der) {
    || (forall e | e in ims :: !Issues(p, c, e))
    || (exists d | d in ims :: SoleIssuer(p, ims, c, d) && Signer(p, d) && p.parse(d).value.selfIssued)
  }

  lemma MatchExactly(p: Pki, c: Der, d: Der)
    requires Standing(p, c)
    ensures var m := Match(p, c, p.issuer(c).value, p.parse(c).value.authorityKeyId.value, d);
            (m.Ok? <==> Comparable(p, c, d)) && (m == Ok(true) <==> Issues(p, c, d))
  {
  }

  lemma IssuersExactly(p: Pki, ims: seq<Der>, c: Der, d: Der)
    requires Standing(p, c)
    ensures var r := Issuers(p, ims, c);
            && (r.Ok? <==> forall e | e in ims :: Comparable(p, c, e))
            && (r.Ok? ==> multiset(r.value)[d] == if Issues(p, c, d) then multiset(ims)[d] else 0)
  {
    var name, aki := p.issuer(c).value, p.parse(c).value.authorityKeyId.value;
    MatchesMeaning(p, c, name, aki, ims, d);
    MatchExactly(p, c, d);
    forall e ensures Match(p, c, name, aki, e).Ok? <==> Comparable(p, c, e) { MatchExactly(p, c, e); }
  }

  /** The found issuers are `d` alone exactly when `d` is the sole issuer. */
  lemma OneIssuer(p: Pki, ims: seq<Der>, c: Der, d: Der)
    requires Standing(p, c) && Issuers(p, ims, c).Ok?
    ensures Issuers(p, ims, c).value == [d] <==> SoleIssuer(p, ims, c, d)
    ensures Issuers(p, ims, c).value == [] <==> forall e | e in ims :: !Issues(p, c, e)
  {
    var found := Issuers(p, ims, c).value;
    forall e ensures multiset(found)[e] == if Issues(p, c, e) then multiset(ims)[e] else 0 {
      IssuersExactly(p, ims, c, e);
    }
    forall e ensures e in ims <==> multiset(ims)[e] > 0 { assert e in ims <==> e in multiset(ims); }
    if found == [d] {
      assert multiset(found)[d] == 1 && forall e | e != d :: multiset(found)[e] == 0;
    }
    if SoleIssuer(p, ims, c, d) {
      assert multiset(found) == multiset{d};
      assert |found| == |multiset(found)| == 1 && found[0] in multiset(found);
      assert found == [found[0]];
    }
    if found != [] {
      assert found[0] in multiset(found);
      assert Issues(p, c, found[0]) && found[0] in ims;
    }
  }

  lemma SignerCanIssue(p: Pki, d: Der)
    requires p.parse(d).Ok?
    ensures CanIssue(p.parse(d).value) <==> Signer(p, d)
  {
    var ca, sign := p.parse(d).value.basicConstraintsCa, p.parse(d).value.keyCertSign;
    assert ca.Ok? && ca.value.Some? ==> (ca.value == Some(true) <==> ca.value.value);
    assert sign.Ok? && sign.value.Some? ==> (sign.value == Some(false) <==> !sign.value.value);
  }

  /** `c` may stand in a chain and the whole list can be compared with it. */
  predicate Readable(p: Pki, ims: seq<Der>, c: Der) {
    Standing(p, c) && forall e | e in ims :: Comparable(p, c, e)
  }

  /** A certificate is followed by `d` exactly when it and the list can be read and `d` is
      its sole issuer, a signer and not self-issued, ... */
  lemma NextExactly(p: Pki, ims: seq<Der>, c: Der, d: Der)
    ensures Next(p, ims, c) == Link(d) <==>
            Readable(p, ims, c) && SoleIssuer(p, ims, c, d) && Signer(p, d) && !p.parse(d).value.selfIssued
  {
    if Standing(p, c) {
      IssuersExactly(p, ims, c, d);
      if Issuers(p, ims, c).Ok? {
        OneIssuer(p, ims, c, d);
        var found := Issuers(p, ims, c).value;
        if |found| == 1 { assert found == [found[0]]; }
        if p.parse(d).Ok? { SignerCanIssue(p, d); }
      }
    }
  }

  /** ... and nothing follows it exactly when no entry issues it or the sole issuer is a
      self-issued signer. */
  lemma StopExactly(p: Pki, ims: seq<Der>, c: Der)
    ensures Next(p, ims, c) == Stop <==> Readable(p, ims, c) && Terminal(p, ims, c)
  {
    if Standing(p, c) {
      IssuersExactly(p, ims, c, []);
      if Issuers(p, ims, c).Ok? {
        var found := Issuers(p, ims, c).value;
        OneIssuer(p, ims, c, if found == [] then [] else found[0]);
        if |found| == 1 {
          assert found == [found[0]];
          assert found[0] in multiset(ims);
          SignerCanIssue(p, found[0]);
        }
        forall e | e in ims && SoleIssuer(p, ims, c, e) ensures found == [e] { OneIssuer(p, ims, c, e); }
      }
    }
  }

  /** Why `d` cannot be compared with a certificate. */
  function Unread(p: Pki, d: Der): Error
    requires p.subject(d).Err? || p.parse(d).Err? || p.parse(d).value.subjectKeyId.Err?
  {
    if p.subject(d).Err? then p.subject(d).error else if p.parse(d).Err? then p.parse(d).error else ArgumentsBad
  }

  lemma {:induction false} FirstUnread(p: Pki, ims: seq<Der>, c: Der, i: nat)
    requires Standing(p, c) && i < |ims| && !Comparable(p, c, ims[i])
    requires forall j | 0 <= j < i :: Comparable(p, c, ims[j])
    ensures Matches(p, c, p.issuer(c).value, p.parse(c).value.authorityKeyId.value, ims) == Err(Unread(p, ims[i]))
    decreases i
  {
    MatchExactly(p, c, ims[0]);
    if i > 0 {
      assert forall j | 0 <= j < i - 1 :: ims[1..][j] == ims[j + 1];
      FirstUnread(p, ims[1..], c, i - 1);
    }
  }

  /** A certificate that cannot stand in a chain fails with what cannot be read of it, and as
      a bad argument when it is expired, self-issued or has an unreadable identifier; the
      first list entry that cannot be compared fails in the same way; so does a certificate
      that would come twice. */
  lemma ErrorsExactly(p: Pki, ims: seq<Der>, c: Der)
    ensures p.parse(c).Err? ==> Next(p, ims, c) == Fail(p.parse(c).error)
    ensures p.parse(c).Ok? && (!p.parse(c).value.validNow || p.parse(c).value.selfIssued) ==>
              Next(p, ims, c) == Fail(ArgumentsBad)
    ensures p.parse(c).Ok? && p.parse(c).value.validNow && !p.parse(c).value.selfIssued ==>
              && (p.issuer(c).Err? ==> Next(p, ims, c) == Fail(p.issuer(c).error))
              && (p.issuer(c).Ok? && p.parse(c).value.authorityKeyId.Err? ==> Next(p, ims, c) == Fail(ArgumentsBad))
    ensures Standing(p, c) ==>
              forall i | && 0 <= i < |ims| && !Comparable(p, c, ims[i])
                         && (forall j | 0 <= j < i :: Comparable(p, c, ims[j])) ::
                Next(p, ims, c) == Fail(Unread(p, ims[i]))
    ensures forall chain, d | chain != [] && chain[|chain| - 1] == c && d in chain && Next(p, ims, c) == Link(d) ::
              Extend(p, ims, chain) == Err(ArgumentsBad)
  {
    if Standing(p, c) {
      forall i | 0 <= i < |ims| && !Comparable(p, c, ims[i]) && (forall j | 0 <= j < i :: Comparable(p, c, ims[j]))
        ensures Next(p, ims, c) == Fail(Unread(p, ims[i]))
      {
        FirstUnread(p, ims, c, i);
      }
    }
  }

  /** With a readable certificate and list, two entries that issue it are ambiguous, and a
      sole issuer must be a signer. */
  lemma FailExactly(p: Pki, ims: seq<Der>, c: Der)
    requires Readable(p, ims, c)
    ensures Next(p, ims, c) == Fail(TemplateInconsistent) <==>
            exists e | e in ims :: Issues(p, c, e) && !SoleIssuer(p, ims, c, e)
    ensures Next(p, ims, c) == Fail(ArgumentsBad) <==>
            exists e | e in ims :: SoleIssuer(p, ims, c, e) && !Signer(p, e)
  {
    IssuersExactly(p, ims, c, []);
    var found := Issuers(p, ims, c).value;
    if found != [] {
      OneIssuer(p, ims, c, found[0]);
      IssuersExactly(p, ims, c, found[0]);
      assert found[0] in multiset(found);
      assert found[0] in multiset(ims);
      if p.parse(found[0]).Ok? { SignerCanIssue(p, found[0]); }
      assert |found| == 1 ==> found == [found[0]];
    }
    forall e | e in ims && Issues(p, c, e) ensures e in found && (SoleIssuer(p, ims, c, e) <==> found == [e]) {
      OneIssuer(p, ims, c, e);
      IssuersExactly(p, ims, c, e);
      assert e in multiset(ims);
      assert e in multiset(found);
    }
  }

  /** The chain as the certificates determine it. */
  predicate Issued(p: Pki, ims: seq<Der>, leaf: Der, c: seq<Der>) {
    && c != [] && c[0] == leaf && Distinct(c)
    && (forall i | 0 <= i < |c| :: Readable(p, ims, c[i]))
    && (forall i | 0 < i < |c| :: SoleIssuer(p, ims, c[i - 1], c[i]) && Signer(p, c[i]))
    && Terminal(p, ims, c[|c| - 1])
  }

  lemma PathIsIssued(p: Pki, ims: seq<Der>, leaf: Der, c: seq<Der>)
    requires Path(p, ims, leaf, c)
    ensures Issued(p, ims, leaf, c)
  {
    StopExactly(p, ims, c[|c| - 1]);
    forall i | 0 < i < |c| ensures SoleIssuer(p, ims, c[i - 1], c[i]) && Signer(p, c[i]) {
      NextExactly(p, ims, c[i - 1], c[i]);
    }
    forall i | 0 <= i < |c| ensures Readable(p, ims, c[i]) {
      if i + 1 < |c| { NextExactly(p, ims, c[i], c[i + 1]); }
    }
  }

  lemma IssuedIsPath(p: Pki, ims: seq<Der>, leaf: Der, c: seq<Der>)
    requires Issued(p, ims, leaf, c)
    ensures Path(p, ims, leaf, c)
  {
    StopExactly(p, ims, c[|c| - 1]);
    forall i | 0 < i < |c| ensures Next(p, ims, c[i - 1]) == Link(c[i]) {
      assert Readable(p, ims, c[i - 1]) && Readable(p, ims, c[i]);
      NextExactly(p, ims, c[i - 1], c[i]);
    }
  }

  /** A chain is built exactly when the certificates determine it: every certificate and the
      list can be read, each is issued by the next one, the only entry that does, and after
      the last one comes nothing or a self-issued signer. */
  lemma BuiltFromCertificates(p: Pki, ims: seq<Der>, leaf: Der, c: seq<Der>)
    ensures Extend(p, ims, [leaf]) == Ok(c) <==> Issued(p, ims, leaf, c)
  {
    BuiltExactly(p, ims, leaf, c);
    if Path(p, ims, leaf, c) { PathIsIssued(p, ims, leaf, c); }
    if Issued(p, ims, leaf, c) { IssuedIsPath(p, ims, leaf, c); }
  }

  // ------------------------------------------------------- the order is irrelevant

  lemma SameIssuers(p: Pki, c: Der, ims: seq<Der>, jms: seq<Der>)
    requires Usable(p, c) && multiset(ims) == multiset(jms)
    ensures Issuers(p, ims, c).Ok? <==> Issuers(p, jms, c).Ok?
    ensures Issuers(p, ims, c).Ok? ==> multiset(Issuers(p, ims, c).value) == multiset(Issuers(p, jms, c).value)
  {
    var name, aki := p.issuer(c).value, p.parse(c).value.authorityKeyId.value;
    forall d ensures d in ims <==> d in jms {
      assert d in ims <==> d in multiset(ims);
      assert d in jms <==> d in multiset(jms);
    }
    MatchesMeaning(p, c, name, aki, ims, []);
    MatchesMeaning(p, c, name, aki, jms, []);
    if Issuers(p, ims, c).Ok? {
      var a, b := multiset(Issuers(p, ims, c).value), multiset(Issuers(p, jms, c).value);
      forall d ensures a[d] == b[d] {
        MatchesMeaning(p, c, name, aki, ims, d);
        MatchesMeaning(p, c, name, aki, jms, d);
      }
    }
  }

  lemma SameNext(p: Pki, c: Der, ims: seq<Der>, jms: seq<Der>)
    requires multiset(ims) == multiset(jms)
    ensures Next(p, ims, c) == Next(p, jms, c) || (Next(p, ims, c).Fail? && Next(p, jms, c).Fail?)
  {
    if Usable(p, c) {
      SameIssuers(p, c, ims, jms);
      if Issuers(p, ims, c).Ok? {
        var a, b := Issuers(p, ims, c).value, Issuers(p, jms, c).value;
        assert |a| == |multiset(a)| == |multiset(b)| == |b|;
        if |a| == 1 { assert a[0] in multiset(b); }
      }
    }
  }

  lemma SamePath(p: Pki, leaf: Der, c: seq<Der>, ims: seq<Der>, jms: seq<Der>)
    requires multiset(ims) == multiset(jms) && Path(p, ims, leaf, c)
    ensures Path(p, jms, leaf, c)
  {
    forall i | 0 < i < |c| ensures Next(p, jms, c[i - 1]) == Link(c[i]) {
      SameNext(p, c[i - 1], ims, jms);
    }
    SameNext(p, c[|c| - 1], ims, jms);
  }

  /** Listing the intermediates in another order changes neither whether a chain is
      built nor which one. */
  lemma OrderIsIrrelevant(p: Pki, leaf: Der, ims: seq<Der>, jms: seq<Der>)
    requires multiset(ims) == multiset(jms)
    ensures var a, b := Extend(p, ims, [leaf]), Extend(p, jms, [leaf]);
            (a.Ok? <==> b.Ok?) && (a.Ok? ==> a == b)
  {
    var a, b := Extend(p, ims, [leaf]), Extend(p, jms, [leaf]);
    if a.Ok? {
      BuiltExactly(p, ims, leaf, a.value);
      SamePath(p, leaf, a.value, ims, jms);
      BuiltExactly(p, jms, leaf, a.value);
    } else if b.Ok? {
      BuiltExactly(p, jms, leaf, b.value);
      SamePath(p, leaf, b.value, jms, ims);
      BuiltExactly(p, ims, leaf, b.value);
    }
  }
}
