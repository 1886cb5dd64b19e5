/** Certificate bundles: the canonical CBOR array of a schema name, a version and a
    list of DER certificates.  DER itself is a parameter: `der` parses a certificate
    and encodes it again. */
module CertificateBundle {
  import opened Common
  import opened Cbor

  /** The schema name and version that a bundle starts with. */
  datatype Format = Format(schema: seq<byte>, version: u64)

  ghost predicate ValidFormat(f: Format) {
    Sized(f.schema) && forall i | 0 <= i < |f.schema| :: f.schema[i] < 0x80
  }

  /** Parses a certificate and encodes it again. */
  type Der = seq<byte> -> Option<seq<byte>>

  datatype FormatError = FormatError

  predicate Canonical(der: Der, c: seq<byte>) { der(c) == Some(c) }

  /** Sizes that fit a slice length. */
  predicate SizedList(cs: seq<seq<byte>>) {
    |cs| < 0x1_0000_0000_0000_0000 && forall i | 0 <= i < |cs| :: Sized(cs[i])
  }

  function Certificates(cs: seq<seq<byte>>): seq<byte>
    requires forall i | 0 <= i < |cs| :: Sized(cs[i])
  {
    if cs == [] then [] else String(BYTES, cs[0]) + Certificates(cs[1..])
  }

  function Preamble(f: Format): seq<byte>
    requires Sized(f.schema)
  {
    Head(ARRAY, 3) + String(TEXT, f.schema) + Head(UNSIGNED, f.version)
  }

  predicate AllCanonical(der: Der, cs: seq<seq<byte>>) {
    forall i | 0 <= i < |cs| :: Canonical(der, cs[i])
  }

  /** The one encoding of a list of canonical certificates. */
  function Bundle(f: Format, der: Der, cs: seq<seq<byte>>): Result<seq<byte>, FormatError>
    requires Sized(f.schema) && SizedList(cs)
  {
    if cs == [] || !AllCanonical(der, cs) then Err(FormatError)
    else Ok(Preamble(f) + (Head(ARRAY, |cs|) + Certificates(cs)))
  }

  // ----------------------------------------------------------------- encoding

  method DecodeCertificate(der: Der, encoded: seq<byte>) returns (r: Result<seq<byte>, FormatError>)
    ensures r == if Canonical(der, encoded) then Ok(encoded) else Err(FormatError)
  {
    var canonical := der(encoded);
    if canonical.None? || canonical.value != encoded { return Err(FormatError); }
    r := Ok(canonical.value);
  }

  lemma {:induction false} CertificatesAppend(cs: seq<seq<byte>>, c: seq<byte>)
    requires Sized(c) && forall i | 0 <= i < |cs| :: Sized(cs[i])
    ensures Certificates(cs + [c]) == Certificates(cs) + String(BYTES, c)
  {
    if cs == [] {
      assert [c][1..] == [];
    } else {
      assert (cs + [c])[1..] == cs[1..] + [c];
      CertificatesAppend(cs[1..], c);
    }
  }

  method EncodeBundle(f: Format, der: Der, cs: seq<seq<byte>>) returns (r: Result<seq<byte>, FormatError>)
    requires Sized(f.schema) && SizedList(cs)
    ensures r == Bundle(f, der, cs)
    ensures r.Ok? <==> cs != [] && forall i | 0 <= i < |cs| :: der(cs[i]) == Some(cs[i])
  {
    if cs == [] { return Err(FormatError); }
    var encoded := Preamble(f) + Head(ARRAY, |cs|);
    var i := 0;
    while i < |cs|
      invariant 0 <= i <= |cs|
      invariant forall j | 0 <= j < i :: Canonical(der, cs[j])
      invariant encoded == Preamble(f) + (Head(ARRAY, |cs|) + Certificates(cs[..i]))
    {
      var certificate := DecodeCertificate(der, cs[i]);
      if certificate.Err? { return Err(FormatError); }
      encoded := encoded + String(BYTES, certificate.value);
      CertificatesAppend(cs[..i], cs[i]);
      assert cs[..i] + [cs[i]] == cs[..i + 1];
      i := i + 1;
    }
    assert cs[..i] == cs;
    r := Ok(encoded);
  }

  // ----------------------------------------------------------------- decoding

  /** The preamble as the decoder checks it, whatever heads it is written with. */
  function ReadPreamble(f: Format, x: seq<byte>): Option<seq<byte>> {
    var count := ReadCount(ARRAY, x);
    if count.None? || count.value.0 != Some(3) then None
    else
      var schema := ReadString(TEXT, count.value.1);
      if schema.None? || schema.value.0 != f.schema then None
      else
        var version := ReadUnsigned(schema.value.1);
        if version.None? || version.value.0 != f.version then None else Some(version.value.1)
  }

  lemma PreambleRoundTrip(f: Format, rest: seq<byte>)
    requires ValidFormat(f)
    ensures ReadPreamble(f, Preamble(f) + rest) == Some(rest)
  {
    var version := Head(UNSIGNED, f.version) + rest;
    var schema := String(TEXT, f.schema) + version;
    AsciiIsUtf8(f.schema);
    assert Preamble(f) + rest == Head(ARRAY, 3) + schema;
    CountRoundTrip(ARRAY, 3, schema);
    StringRoundTrip(TEXT, f.schema, version);
    UnsignedRoundTrip(f.version, rest);
  }

  /** The count bound of the decoder never rejects an encoded bundle: a certificate
      takes at least one byte. */
  lemma {:induction false} CountFits(cs: seq<seq<byte>>)
    requires forall i | 0 <= i < |cs| :: Sized(cs[i])
    ensures |cs| <= |Certificates(cs)|
  {
    if cs != [] { CountFits(cs[1..]); }
  }

  lemma {:induction false} CertificatesSplit(cs: seq<seq<byte>>, k: nat)
    requires k < |cs| && forall i | 0 <= i < |cs| :: Sized(cs[i])
    ensures Certificates(cs[k..]) == String(BYTES, cs[k]) + Certificates(cs[k + 1..])
  {
  }

  /** What the decoder must have seen so far if `x` is the bundle of `cs`: the first
      certificates, and in front of it the bytes of the others. */
  ghost predicate OnTrack(cs: seq<seq<byte>>, count: nat, done: seq<seq<byte>>, rest: seq<byte>)
    requires SizedList(cs)
  {
    |cs| == count && |done| <= count && cs[..|done|] == done && rest == Certificates(cs[|done|..])
  }

  lemma StartOnTrack(f: Format, der: Der, x: seq<byte>, cs: seq<seq<byte>>)
    requires ValidFormat(f) && SizedList(cs) && Bundle(f, der, cs) == Ok(x)
    ensures var rest := ReadPreamble(f, x);
            && rest.Some? && ReadCount(ARRAY, rest.value) == Some((Some(|cs|), Certificates(cs)))
            && 0 < |cs| <= |x|
  {
    PreambleRoundTrip(f, Head(ARRAY, |cs|) + Certificates(cs));
    CountRoundTrip(ARRAY, |cs|, Certificates(cs));
    CountFits(cs);
  }

  lemma StepOnTrack(der: Der, cs: seq<seq<byte>>, done: seq<seq<byte>>, rest: seq<byte>)
    requires SizedList(cs) && AllCanonical(der, cs)
    requires OnTrack(cs, |cs|, done, rest) && |done| < |cs|
    ensures var item := ReadString(BYTES, rest);
            && item.Some? && Canonical(der, item.value.0)
            && OnTrack(cs, |cs|, done + [item.value.0], item.value.1)
  {
    CertificatesSplit(cs, |done|);
    StringRoundTrip(BYTES, cs[|done|], Certificates(cs[|done| + 1..]));
  }

  /** The decoding loop: if `x` is the bundle of `cs`, it collects exactly `cs`. */
  method ReadCertificates(f: Format, der: Der, x: seq<byte>, count: nat, start: seq<byte>)
    returns (r: Option<(seq<seq<byte>>, seq<byte>)>)
    requires ValidFormat(f) && Sized(x) && count <= |x| && |start| <= |x|
    ensures r.Some? ==> |r.value.0| == count && SizedList(r.value.0)
    ensures forall cs | SizedList(cs) && |cs| == count && Certificates(cs) == start && Bundle(f, der, cs) == Ok(x) ::
              r == Some((cs, []))
  {
    var rest, certificates: seq<seq<byte>> := start, [];
    forall cs | SizedList(cs) && |cs| == count && Certificates(cs) == start && Bundle(f, der, cs) == Ok(x)
      ensures OnTrack(cs, count, certificates, rest)
    {
      assert cs[0..] == cs;
    }
    while |certificates| < count
      invariant |certificates| <= count && |rest| <= |x|
      invariant forall i | 0 <= i < |certificates| :: Sized(certificates[i])
      invariant forall cs | SizedList(cs) && |cs| == count && Certificates(cs) == start
                            && Bundle(f, der, cs) == Ok(x) ::
                  OnTrack(cs, count, certificates, rest)
    {
      forall cs | SizedList(cs) && |cs| == count && Certificates(cs) == start && Bundle(f, der, cs) == Ok(x)
        ensures var item := ReadString(BYTES, rest);
                && item.Some? && Canonical(der, item.value.0)
                && OnTrack(cs, count, certificates + [item.value.0], item.value.1)
      {
        StepOnTrack(der, cs, certificates, rest);
      }
      var item := ReadString(BYTES, rest);
      if item.None? { return None; }
      ReadStringShrinks(BYTES, rest);
      var certificate := DecodeCertificate(der, item.value.0);
      if certificate.Err? { return None; }
      certificates, rest := certificates + [certificate.value], item.value.1;
    }
    r := Some((certificates, rest));
    forall cs | SizedList(cs) && |cs| == count && Certificates(cs) == start && Bundle(f, der, cs) == Ok(x)
      ensures r == Some((cs, []))
    {
      assert OnTrack(cs, count, certificates, rest);
      assert cs[..count] == cs && cs[count..] == [];
    }
  }

  /** Decoding accepts exactly the bundles, and a bundle has exactly one encoding:
      the result is `Ok(cs)` if and only if `x` is what encoding `cs` yields, although
      every single head may be read in a longer form. */
  method DecodeBundle(f: Format, der: Der, x: seq<byte>) returns (r: Result<seq<seq<byte>>, FormatError>)
    requires Sized(x) && ValidFormat(f)
    ensures r.Ok? ==> SizedList(r.value) && r.value != [] && forall c | c in r.value :: der(c) == Some(c)
    ensures forall cs | SizedList(cs) :: r == Ok(cs) <==> Bundle(f, der, cs) == Ok(x)
  {
    forall cs | SizedList(cs) && Bundle(f, der, cs) == Ok(x)
      ensures ReadPreamble(f, x).Some? && 0 < |cs| <= |x|
      ensures ReadCount(ARRAY, ReadPreamble(f, x).value) == Some((Some(|cs|), Certificates(cs)))
    {
      StartOnTrack(f, der, x, cs);
    }
    var preamble := ReadPreamble(f, x);
    if preamble.None? { return Err(FormatError); }
    var head := ReadCount(ARRAY, preamble.value);
    if head.None? || head.value.0.None? { return Err(FormatError); }
    var count: nat := head.value.0.value;
    if count == 0 || count > |x| { return Err(FormatError); }
    ReadPreambleShrinks(f, x);
    var read := ReadCertificates(f, der, x, count, head.value.1);
    if read.None? || read.value.1 != [] { return Err(FormatError); }
    var again := EncodeBundle(f, der, read.value.0);
    if again != Ok(x) { return Err(FormatError); }
    r := Ok(read.value.0);
  }

  lemma ReadStringShrinks(major: nat, x: seq<byte>)
    requires ReadString(major, x).Some?
    ensures |ReadString(major, x).value.0| + |ReadString(major, x).value.1| < |x|
  {
  }

  lemma ReadPreambleShrinks(f: Format, x: seq<byte>)
    requires ReadPreamble(f, x).Some?
    ensures |ReadPreamble(f, x).value| < |x|
  {
  }

  /** The format of X.509 bundles, version 1 of
      "pkcs11rs.x509-certificate-bundle". */
  const X509: Format := Format([
      0x70, 0x6b, 0x63, 0x73, 0x31, 0x31, 0x72, 0x73, 0x2e, 0x78, 0x35, 0x30, 0x39, 0x2d, 0x63, 0x65,
      0x72, 0x74, 0x69, 0x66, 0x69, 0x63, 0x61, 0x74, 0x65, 0x2d, 0x62, 0x75, 0x6e, 0x64, 0x6c, 0x65], 1)

  lemma X509IsValid()
    ensures ValidFormat(X509)
  {
  }
}
