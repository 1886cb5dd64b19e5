/** The part of CBOR (section 3 of RFC 8949) that the stored records use.  The
    encoder writes the shortest head (section 4.2.1); the decoder also accepts
    longer ones. */
module Cbor {
  import opened Common

  const UNSIGNED: nat := 0
  const BYTES: nat := 2
  const TEXT: nat := 3
  const ARRAY: nat := 4
  const MAP: nat := 5

  type u64 = n: int | 0 <= n < 0x1_0000_0000_0000_0000

  // ------------------------------------------------------- big-endian numbers

  function Pow256(k: nat): nat { if k == 0 then 1 else 256 * Pow256(k - 1) }

  function BigEndian(n: nat, k: nat): (r: seq<byte>)
    ensures |r| == k
  {
    if k == 0 then [] else BigEndian(n / 256, k - 1) + [n % 256]
  }

  function FromBigEndian(x: seq<byte>): nat {
    if x == [] then 0 else FromBigEndian(x[..|x| - 1]) * 256 + x[|x| - 1] as int
  }

  lemma {:induction false} BigEndianRoundTrip(n: nat, k: nat)
    requires n < Pow256(k)
    ensures FromBigEndian(BigEndian(n, k)) == n
    decreases k
  {
    if k > 0 {
      BigEndianRoundTrip(n / 256, k - 1);
      assert BigEndian(n, k)[..k - 1] == BigEndian(n / 256, k - 1);
    }
  }

  // -------------------------------------------------------------------- heads

  /** The shortest head. */
  function Head(major: nat, n: u64): (r: seq<byte>)
    requires major < 8
    ensures |r| >= 1
  {
    if n < 24 then [major * 32 + n]
    else if n < 0x100 then [major * 32 + 24] + BigEndian(n, 1)
    else if n < 0x1_0000 then [major * 32 + 25] + BigEndian(n, 2)
    else if n < 0x1_0000_0000 then [major * 32 + 26] + BigEndian(n, 4)
    else [major * 32 + 27] + BigEndian(n, 8)
  }

  /** A head of any accepted form; `argument` is `None` for an indefinite length. */
  datatype Item = Item(major: nat, argument: Option<u64>, rest: seq<byte>)

  function Width(info: nat): nat
    requires 24 <= info <= 27
  {
    if info == 24 then 1 else if info == 25 then 2 else if info == 26 then 4 else 8
  }

  lemma {:induction false} FromBigEndianBound(x: seq<byte>)
    ensures FromBigEndian(x) < Pow256(|x|)
  {
    if x != [] { FromBigEndianBound(x[..|x| - 1]); }
  }

  lemma Powers()
    ensures Pow256(1) == 0x100 && Pow256(2) == 0x1_0000 && Pow256(4) == 0x1_0000_0000
    ensures Pow256(8) == 0x1_0000_0000_0000_0000
  {
  }

  function ReadHead(x: seq<byte>): Option<Item> {
    if x == [] then None
    else
      var major, info := x[0] / 32, x[0] % 32;
      if info < 24 then Some(Item(major, Some(info), x[1..]))
      else if info == 31 then Some(Item(major, None, x[1..]))
      else if info > 27 || 1 + Width(info) > |x| then None
      else
        var digits := x[1..1 + Width(info)];
        FromBigEndianBound(digits);
        Powers();
        Some(Item(major, Some(FromBigEndian(digits)), x[1 + Width(info)..]))
  }

  lemma ReadLongHead(major: nat, n: u64, info: nat, rest: seq<byte>)
    requires major < 8 && 24 <= info <= 27 && n < Pow256(Width(info))
    ensures ReadHead([major * 32 + info] + BigEndian(n, Width(info)) + rest) == Some(Item(major, Some(n), rest))
  {
    var b: byte := major * 32 + info;
    var x := [b] + BigEndian(n, Width(info)) + rest;
    assert b / 32 == major && b % 32 == info;
    assert x[1..1 + Width(info)] == BigEndian(n, Width(info));
    BigEndianRoundTrip(n, Width(info));
  }

  lemma HeadRoundTrip(major: nat, n: u64, rest: seq<byte>)
    requires major < 8
    ensures ReadHead(Head(major, n) + rest) == Some(Item(major, Some(n), rest))
  {
    Powers();
    if n < 24 {
      var b: byte := major * 32 + n;
      assert b / 32 == major && b % 32 == n;
    }
    else if n < 0x100 { ReadLongHead(major, n, 24, rest); }
    else if n < 0x1_0000 { ReadLongHead(major, n, 25, rest); }
    else if n < 0x1_0000_0000 { ReadLongHead(major, n, 26, rest); }
    else { ReadLongHead(major, n, 27, rest); }
  }

  /** A head is the shortest one: the major type in the three high bits, the number itself
      below 24, and otherwise 24 to 27 for the 1, 2, 4 or 8 big-endian bytes that follow. */
  lemma HeadFormat(major: nat, n: u64)
    requires major < 8
    ensures var h := Head(major, n);
            && h[0] / 32 == major && (n >= 24 ==> FromBigEndian(h[1..]) == n)
            && (h[0] % 32, |h|) == if n < 24 then (n, 1) else if n <= 0xff then (24, 2)
                                   else if n <= 0xffff then (25, 3) else if n <= 0xffff_ffff then (26, 5) else (27, 9)
  {
    Powers();
    if n >= 24 {
      var k := if n <= 0xff then 1 else if n <= 0xffff then 2 else if n <= 0xffff_ffff then 4 else 8;
      BigEndianRoundTrip(n, k);
      assert Head(major, n)[1..] == BigEndian(n, k);
    }
  }

  // ------------------------------------------------------------------ strings

  predicate Tail(b: byte) { 0x80 <= b <= 0xbf }

  /** Well-formed UTF-8 (section 4 of RFC 3629). */
  predicate ValidUtf8(s: seq<byte>)
    decreases |s|
  {
    if s == [] then true
    else if s[0] < 0x80 then ValidUtf8(s[1..])
    else if 0xc2 <= s[0] <= 0xdf then |s| >= 2 && Tail(s[1]) && ValidUtf8(s[2..])
    else if 0xe0 <= s[0] <= 0xef then
      && |s| >= 3 && Tail(s[1]) && Tail(s[2])
      && (s[0] == 0xe0 ==> s[1] >= 0xa0) && (s[0] == 0xed ==> s[1] <= 0x9f)
      && ValidUtf8(s[3..])
    else
      && 0xf0 <= s[0] <= 0xf4
      && |s| >= 4 && Tail(s[1]) && Tail(s[2]) && Tail(s[3])
      && (s[0] == 0xf0 ==> s[1] >= 0x90) && (s[0] == 0xf4 ==> s[1] <= 0x8f)
      && ValidUtf8(s[4..])
  }

  /** A Unicode scalar value: any code point but a surrogate. */
  predicate Scalar(c: nat) { c < 0xd800 || 0xdfff < c < 0x11_0000 }

  /** The bytes of one scalar value (section 3 of RFC 3629). */
  function ScalarBytes(c: nat): seq<byte>
    requires Scalar(c)
  {
    if c < 0x80 then [c]
    else if c < 0x800 then [0xc0 + c / 64, 0x80 + c % 64]
    else if c < 0x1_0000 then [0xe0 + c / 64 / 64, 0x80 + c / 64 % 64, 0x80 + c % 64]
    else [0xf0 + c / 64 / 64 / 64, 0x80 + c / 64 / 64 % 64, 0x80 + c / 64 % 64, 0x80 + c % 64]
  }

  predicate Scalars(cs: seq<nat>) { forall i | 0 <= i < |cs| :: Scalar(cs[i]) }

  function TextBytes(cs: seq<nat>): seq<byte>
    requires Scalars(cs)
  {
    if cs == [] then [] else ScalarBytes(cs[0]) + TextBytes(cs[1..])
  }

  lemma ScalarIsUtf8(c: nat, rest: seq<byte>)
    requires Scalar(c)
    ensures ValidUtf8(ScalarBytes(c) + rest) == ValidUtf8(rest)
  {
    var s := ScalarBytes(c) + rest;
    assert s[|ScalarBytes(c)|..] == rest;
  }

  lemma {:induction false} TextIsUtf8(cs: seq<nat>)
    requires Scalars(cs)
    ensures ValidUtf8(TextBytes(cs))
  {
    if cs != [] {
      TextIsUtf8(cs[1..]);
      ScalarIsUtf8(cs[0], TextBytes(cs[1..]));
    }
  }

  lemma TwoBytes(a: nat, b: nat)
    requires 2 <= a < 32 && b < 64
    ensures Scalar(a * 64 + b) && ScalarBytes(a * 64 + b) == [0xc0 + a, 0x80 + b]
  {
  }

  lemma ThreeBytes(a: nat, b: nat, c: nat)
    requires a < 16 && b < 64 && c < 64 && (a == 0 ==> b >= 32) && (a == 13 ==> b < 32)
    ensures Scalar(a * 4096 + b * 64 + c) && ScalarBytes(a * 4096 + b * 64 + c) == [0xe0 + a, 0x80 + b, 0x80 + c]
  {
  }

  lemma FourBytes(a: nat, b: nat, c: nat, d: nat)
    requires a < 5 && b < 64 && c < 64 && d < 64 && (a == 0 ==> b >= 16) && (a == 4 ==> b < 16)
    ensures var scalar := a * 262144 + b * 4096 + c * 64 + d;
            Scalar(scalar) && ScalarBytes(scalar) == [0xf0 + a, 0x80 + b, 0x80 + c, 0x80 + d]
  {
    var scalar := a * 262144 + b * 4096 + c * 64 + d;
    assert scalar / 64 == a * 4096 + b * 64 + c;
    assert scalar / 64 / 64 == a * 64 + b;
  }

  function Bits(b: byte): nat
    requires Tail(b)
  {
    b - 0x80
  }

  lemma FirstScalar(s: seq<byte>) returns (c: nat, rest: seq<byte>)
    requires s != [] && ValidUtf8(s)
    ensures Scalar(c) && s == ScalarBytes(c) + rest && ValidUtf8(rest) && |rest| < |s|
  {
    var first: int := s[0];
    if first < 0x80 {
      c, rest := first, s[1..];
    } else if first < 0xe0 {
      TwoBytes(first - 0xc0, Bits(s[1]));
      c, rest := (first - 0xc0) * 64 + Bits(s[1]), s[2..];
    } else if first < 0xf0 {
      ThreeBytes(first - 0xe0, Bits(s[1]), Bits(s[2]));
      c, rest := (first - 0xe0) * 4096 + Bits(s[1]) * 64 + Bits(s[2]), s[3..];
    } else {
      FourBytes(first - 0xf0, Bits(s[1]), Bits(s[2]), Bits(s[3]));
      c, rest := (first - 0xf0) * 262144 + Bits(s[1]) * 4096 + Bits(s[2]) * 64 + Bits(s[3]), s[4..];
    }
  }

  lemma TextGrows(c: nat, cs: seq<nat>)
    requires Scalar(c) && Scalars(cs)
    ensures Scalars([c] + cs) && TextBytes([c] + cs) == ScalarBytes(c) + TextBytes(cs)
  {
    assert ([c] + cs)[1..] == cs;
  }

  lemma {:induction false} Utf8IsText(s: seq<byte>) returns (cs: seq<nat>)
    requires ValidUtf8(s)
    ensures Scalars(cs) && TextBytes(cs) == s
    decreases |s|
  {
    if s == [] {
      cs := [];
    } else {
      var c, rest := FirstScalar(s);
      var later := Utf8IsText(rest);
      TextGrows(c, later);
      cs := [c] + later;
    }
  }

  /** Text is accepted if and only if it is the encoding of some scalar values. */
  lemma Utf8Exactly(s: seq<byte>)
    ensures ValidUtf8(s) <==> exists cs :: Scalars(cs) && TextBytes(cs) == s
  {
    if ValidUtf8(s) { var cs := Utf8IsText(s); }
    forall cs | Scalars(cs) && TextBytes(cs) == s ensures ValidUtf8(s) { TextIsUtf8(cs); }
  }

  lemma {:induction false} AsciiIsUtf8(s: seq<byte>)
    requires forall i | 0 <= i < |s| :: s[i] < 0x80
    ensures ValidUtf8(s)
  {
    if s != [] { AsciiIsUtf8(s[1..]); }
  }

  predicate Sized(s: seq<byte>) { |s| < 0x1_0000_0000_0000_0000 }

  function String(major: nat, s: seq<byte>): (r: seq<byte>)
    requires major < 8 && Sized(s)
    ensures |r| > |s|
  {
    Head(major, |s|) + s
  }

  /** A definite byte or text string and what follows it. */
  function ReadString(major: nat, x: seq<byte>): (r: Option<(seq<byte>, seq<byte>)>)
    ensures r.Some? ==> Sized(r.value.0) && (major == TEXT ==> ValidUtf8(r.value.0))
  {
    var item := ReadHead(x);
    if item.None? || item.value.major != major || item.value.argument.None? then None
    else
      var n, rest := item.value.argument.value, item.value.rest;
      if n > |rest| then None
      else if major == TEXT && !ValidUtf8(rest[..n]) then None
      else Some((rest[..n], rest[n..]))
  }

  function ReadUnsigned(x: seq<byte>): Option<(u64, seq<byte>)> {
    var item := ReadHead(x);
    if item.None? || item.value.major != UNSIGNED || item.value.argument.None? then None
    else Some((item.value.argument.value, item.value.rest))
  }

  /** The number of elements of a definite array or map; `None` inside for an
      indefinite one. */
  function ReadCount(major: nat, x: seq<byte>): Option<(Option<u64>, seq<byte>)> {
    var item := ReadHead(x);
    if item.None? || item.value.major != major then None
    else Some((item.value.argument, item.value.rest))
  }

  lemma StringRoundTrip(major: nat, s: seq<byte>, rest: seq<byte>)
    requires major < 8 && Sized(s) && (major == TEXT ==> ValidUtf8(s))
    ensures ReadString(major, String(major, s) + rest) == Some((s, rest))
  {
    HeadRoundTrip(major, |s|, s + rest);
    assert String(major, s) + rest == Head(major, |s|) + (s + rest);
  }

  lemma CountRoundTrip(major: nat, n: u64, rest: seq<byte>)
    requires major < 8
    ensures ReadCount(major, Head(major, n) + rest) == Some((Some(n), rest))
  {
    HeadRoundTrip(major, n, rest);
  }

  lemma UnsignedRoundTrip(n: u64, rest: seq<byte>)
    ensures ReadUnsigned(Head(UNSIGNED, n) + rest) == Some((n, rest))
  {
    HeadRoundTrip(UNSIGNED, n, rest);
  }

  // ----------------------------------------------------------------- booleans

  function Bool(b: bool): seq<byte> { [if b then 0xf5 else 0xf4] }

  function ReadBool(x: seq<byte>): Option<(bool, seq<byte>)> {
    if x == [] || (x[0] != 0xf4 && x[0] != 0xf5) then None else Some((x[0] == 0xf5, x[1..]))
  }

  lemma BoolRoundTrip(b: bool, rest: seq<byte>)
    ensures ReadBool(Bool(b) + rest) == Some((b, rest))
  {
    assert (Bool(b) + rest)[1..] == rest;
  }

  // -------------------------------------------------------- reading is local

  /** What was read depends only on the bytes that were consumed, whatever head form they
      use: with `y` behind them, the same is read and `y` is left. */
  lemma HeadIsLocal(x: seq<byte>, y: seq<byte>)
    requires ReadHead(x).Some?
    ensures var item := ReadHead(x).value;
            var n := |x| - |item.rest|;
            n >= 0 && x[n..] == item.rest && ReadHead(x[..n] + y) == Some(item.(rest := y))
  {
    var item := ReadHead(x).value;
    var n := |x| - |item.rest|;
    var z := x[..n] + y;
    assert z[0] == x[0] && z[n..] == y;
    assert n > 1 ==> z[1..n] == x[1..n];
  }

  lemma UnsignedIsLocal(x: seq<byte>, y: seq<byte>)
    requires ReadUnsigned(x).Some?
    ensures var (v, rest) := ReadUnsigned(x).value;
            var n := |x| - |rest|;
            n >= 0 && x[n..] == rest && ReadUnsigned(x[..n] + y) == Some((v, y))
  {
    HeadIsLocal(x, y);
  }

  lemma CountIsLocal(major: nat, x: seq<byte>, y: seq<byte>)
    requires ReadCount(major, x).Some?
    ensures var (v, rest) := ReadCount(major, x).value;
            var n := |x| - |rest|;
            n >= 0 && x[n..] == rest && ReadCount(major, x[..n] + y) == Some((v, y))
  {
    HeadIsLocal(x, y);
  }

  lemma Glue<T>(x: seq<T>, m: nat, v: seq<T>, rest: seq<T>, y: seq<T>)
    requires m <= |x| && x[m..] == v + rest
    ensures |x| - |rest| == m + |v| && x[m + |v|..] == rest && x[..m + |v|] + y == x[..m] + (v + y)
    ensures (v + y)[..|v|] == v && (v + y)[|v|..] == y
  {
    assert x == x[..m] + (v + rest);
  }

  lemma StringAfterHead(major: nat, x: seq<byte>, v: seq<byte>, rest: seq<byte>)
    requires Sized(v) && (major == TEXT ==> ValidUtf8(v)) && ReadHead(x) == Some(Item(major, Some(|v|), v + rest))
    ensures ReadString(major, x) == Some((v, rest))
  {
    assert (v + rest)[..|v|] == v && (v + rest)[|v|..] == rest;
  }

  lemma HeadOfString(major: nat, x: seq<byte>)
    requires ReadString(major, x).Some?
    ensures var (v, rest) := ReadString(major, x).value; ReadHead(x) == Some(Item(major, Some(|v|), v + rest))
  {
    var item, n := ReadHead(x).value, ReadHead(x).value.argument.value;
    assert item.rest == item.rest[..n] + item.rest[n..];
  }

  lemma StringReadAgain(major: nat, x: seq<byte>, v: seq<byte>, rest: seq<byte>, y: seq<byte>)
    requires Sized(v) && (major == TEXT ==> ValidUtf8(v)) && ReadHead(x) == Some(Item(major, Some(|v|), v + rest))
    ensures var n := |x| - |rest|;
            n >= 0 && x[n..] == rest && ReadString(major, x[..n] + y) == Some((v, y))
  {
    HeadIsLocal(x, v + y);
    var m := |x| - |v + rest|;
    Glue(x, m, v, rest, y);
    StringAfterHead(major, x[..m] + (v + y), v, y);
  }

  lemma StringIsLocal(major: nat, x: seq<byte>, y: seq<byte>)
    requires ReadString(major, x).Some?
    ensures var (v, rest) := ReadString(major, x).value;
            var n := |x| - |rest|;
            n >= 0 && x[n..] == rest && ReadString(major, x[..n] + y) == Some((v, y))
  {
    HeadOfString(major, x);
    var (v, rest) := ReadString(major, x).value;
    StringReadAgain(major, x, v, rest, y);
  }

  type Reader<!E> = seq<byte> -> Option<(E, seq<byte>)>

  /** The result `r` of reading `x`, with `y` in place of what was left. */
  predicate Again<E(==)>(x: seq<byte>, r: Option<(E, seq<byte>)>, y: seq<byte>, again: Reader<E>) {
    r.Some? ==>
      && |r.value.1| <= |x| && x[|x| - |r.value.1|..] == r.value.1
      && again(x[..|x| - |r.value.1|] + y) == Some((r.value.0, y))
  }

  /** What is read depends only on the bytes that were consumed. */
  ghost predicate Local<E>(read: Reader<E>) { forall x, y :: Again(x, read(x), y, read) }

  /** A reader for each key. */
  type Readers<!K, !E> = K -> Reader<E>

  ghost predicate AllLocal<K(!new), E>(rv: Readers<K, E>) { forall k :: Local(rv(k)) }

  /** Reads a key and then the value that belongs to it. */
  function Pair<K, E>(rk: Reader<K>, rv: Readers<K, E>): Reader<E> {
    x => var key := rk(x); if key.None? then None else rv(key.value.0)(key.value.1)
  }

  lemma PairReads<K, E>(rk: Reader<K>, rv: Readers<K, E>, x: seq<byte>, key: K, after: seq<byte>)
    requires rk(x) == Some((key, after))
    ensures Pair(rk, rv)(x) == rv(key)(after)
  {
  }

  lemma PairIsLocal<K(!new), E>(rk: Reader<K>, rv: Readers<K, E>)
    requires Local(rk) && AllLocal(rv)
    ensures Local(Pair(rk, rv))
  {
    var read := Pair(rk, rv);
    forall x, y ensures Again(x, read(x), y, read) {
      if read(x).Some? {
        var (k, after) := rk(x).value;
        var (e, rest) := rv(k)(after).value;
        assert Again(after, rv(k)(after), y, rv(k));
        var v := after[..|after| - |rest|];
        assert after == v + rest;
        assert Again(x, rk(x), v + y, rk);
        Glue(x, |x| - |after|, v, rest, y);
      }
    }
  }

  /** Reads something and makes another thing of it. */
  function Made<K, E>(read: Reader<K>, make: K --> E): Reader<E>
    requires Makes(read, make)
  {
    x => var r := read(x); if r.None? then None else Some((make(r.value.0), r.value.1))
  }

  ghost predicate Makes<K, E>(read: Reader<K>, make: K --> E) {
    forall x :: read(x).Some? ==> make.requires(read(x).value.0)
  }

  lemma MadeIsLocal<K, E>(read: Reader<K>, make: K --> E)
    requires Makes(read, make) && Local(read)
    ensures Local(Made(read, make))
  {
    var made := Made(read, make);
    forall x, y ensures Again(x, made(x), y, made) { assert Again(x, read(x), y, read); }
  }

  function StringReader(major: nat): Reader<seq<byte>> { x => ReadString(major, x) }

  lemma StringReaderIsLocal(major: nat)
    ensures Local(StringReader(major))
  {
    var read := StringReader(major);
    forall x, y ensures Again(x, read(x), y, read) {
      if ReadString(major, x).Some? { StringIsLocal(major, x, y); }
    }
  }

  lemma UnsignedReaderIsLocal()
    ensures Local(ReadUnsigned)
  {
    forall x, y ensures Again(x, ReadUnsigned(x), y, ReadUnsigned) {
      if ReadUnsigned(x).Some? { UnsignedIsLocal(x, y); }
    }
  }

  lemma BoolReaderIsLocal()
    ensures Local(ReadBool)
  {
    forall x, y ensures Again(x, ReadBool(x), y, ReadBool) {
      if ReadBool(x).Some? { BoolIsLocal(x, y); }
    }
  }

  lemma BoolIsLocal(x: seq<byte>, y: seq<byte>)
    requires ReadBool(x).Some?
    ensures var (v, rest) := ReadBool(x).value;
            var n := |x| - |rest|;
            n >= 0 && x[n..] == rest && ReadBool(x[..n] + y) == Some((v, y))
  {
    assert (x[..1] + y)[1..] == y;
  }
}
