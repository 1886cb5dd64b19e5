/** The entries of the CBOR map that stores a public key, in the order of their
    integer keys. */
module PublicKeyEntries {
  import opened Common
  import opened Cbor
  import opened CborMap

  datatype Entry =
    | Schema(text: seq<byte>)
    | Version(number: u64)
    | Kind(number: u64)
    | KeyType(number: u64)
    | First(bytes: seq<byte>)
    | Second(bytes: seq<byte>)
    | Prefix(flag: bool)
    | RpId(text: seq<byte>)

  predicate Writable(e: Entry) {
    match e
    case Schema(s) => Sized(s) && ValidUtf8(s)
    case RpId(s) => Sized(s) && ValidUtf8(s)
    case First(b) => Sized(b)
    case Second(b) => Sized(b)
    case _ => true
  }

  /** Strings are UTF-8 and every length fits 64 bits. */
  type Field = e: Entry | Writable(e) witness Prefix(false)

  function KeyOf(e: Field): u64 {
    match e
    case Schema(_) => 1
    case Version(_) => 2
    case Kind(_) => 3
    case KeyType(_) => 4
    case First(_) => 5
    case Second(_) => 6
    case Prefix(_) => 7
    case RpId(_) => 8
  }

  function ValueBytes(e: Field): seq<byte> {
    match e
    case Schema(s) => String(TEXT, s)
    case RpId(s) => String(TEXT, s)
    case First(b) => String(BYTES, b)
    case Second(b) => String(BYTES, b)
    case Version(n) => Head(UNSIGNED, n)
    case Kind(n) => Head(UNSIGNED, n)
    case KeyType(n) => Head(UNSIGNED, n)
    case Prefix(flag) => Bool(flag)
  }

  function EntryBytes(e: Field): seq<byte> {
    Head(UNSIGNED, KeyOf(e)) + ValueBytes(e)
  }

  // ---------------------------------------------------------- reading entries

  function MakeText(key: u64): seq<byte> --> Field {
    (s: seq<byte>) requires Sized(s) && ValidUtf8(s) => var e: Field := if key == 1 then Schema(s) else RpId(s); e
  }

  function MakeBytes(key: u64): seq<byte> --> Field {
    (b: seq<byte>) requires Sized(b) => var e: Field := if key == 5 then First(b) else Second(b); e
  }

  function MakeNumber(key: u64): u64 -> Field {
    (n: u64) => if key == 2 then Version(n) else if key == 3 then Kind(n) else KeyType(n)
  }

  function MakeFlag(): bool -> Field { (b: bool) => Prefix(b) }

  function TextReader(key: u64): Reader<Field> { Made(StringReader(TEXT), MakeText(key)) }

  function BytesReader(key: u64): Reader<Field> { Made(StringReader(BYTES), MakeBytes(key)) }

  function NumberReader(key: u64): Reader<Field> { Made(ReadUnsigned, MakeNumber(key)) }

  function FlagReader(): Reader<Field> { Made(ReadBool, MakeFlag()) }

  function NoReader(): Reader<Field> { x => None }

  /** The reader of the value that belongs to a key; a key outside 1 to 8 has none. */
  function ValueReader(key: u64): Reader<Field> {
    if key == 1 || key == 8 then TextReader(key)
    else if key == 5 || key == 6 then BytesReader(key)
    else if key == 7 then FlagReader()
    else if 2 <= key <= 4 then NumberReader(key)
    else NoReader()
  }

  function EntryReader(): Reader<Field> { Pair(ReadUnsigned, ValueReader) }

  lemma TextRoundTrip(key: u64, t: seq<byte>, rest: seq<byte>)
    requires Sized(t) && ValidUtf8(t)
    ensures TextReader(key)(String(TEXT, t) + rest) == Some((if key == 1 then Schema(t) else RpId(t), rest))
  {
    StringRoundTrip(TEXT, t, rest);
  }

  lemma BytesRoundTrip(key: u64, b: seq<byte>, rest: seq<byte>)
    requires Sized(b)
    ensures BytesReader(key)(String(BYTES, b) + rest) == Some((if key == 5 then First(b) else Second(b), rest))
  {
    StringRoundTrip(BYTES, b, rest);
  }

  lemma NumberRoundTrip(key: u64, n: u64, rest: seq<byte>)
    ensures NumberReader(key)(Head(UNSIGNED, n) + rest) ==
            Some((if key == 2 then Version(n) else if key == 3 then Kind(n) else KeyType(n), rest))
  {
    UnsignedRoundTrip(n, rest);
  }

  lemma ValueRoundTrip(e: Field, rest: seq<byte>)
    ensures ValueReader(KeyOf(e))(ValueBytes(e) + rest) == Some((e, rest))
  {
    match e
    case Schema(s) => TextRoundTrip(1, s, rest);
    case RpId(s) => TextRoundTrip(8, s, rest);
    case First(b) => BytesRoundTrip(5, b, rest);
    case Second(b) => BytesRoundTrip(6, b, rest);
    case Version(n) => NumberRoundTrip(2, n, rest);
    case Kind(n) => NumberRoundTrip(3, n, rest);
    case KeyType(n) => NumberRoundTrip(4, n, rest);
    case Prefix(b) => BoolRoundTrip(b, rest);
  }

  lemma EntryRoundTrip(e: Field, rest: seq<byte>)
    ensures EntryReader()(EntryBytes(e) + rest) == Some((e, rest))
  {
    assert EntryBytes(e) + rest == Head(UNSIGNED, KeyOf(e)) + (ValueBytes(e) + rest);
    UnsignedRoundTrip(KeyOf(e), ValueBytes(e) + rest);
    ValueRoundTrip(e, rest);
    PairReads(ReadUnsigned, ValueReader, EntryBytes(e) + rest, KeyOf(e), ValueBytes(e) + rest);
  }

  lemma EntryReads(e: Field)
    ensures Reads(EntryReader(), EntryBytes(e), e)
  {
    forall rest ensures EntryReader()(EntryBytes(e) + rest) == Some((e, rest)) {
      EntryRoundTrip(e, rest);
    }
  }

  // -------------------------------------------------------- reading is local

  lemma ValueReaderIsLocal(key: u64)
    ensures Local(ValueReader(key))
  {
    if key == 1 || key == 8 {
      StringReaderIsLocal(TEXT);
      MadeIsLocal(StringReader(TEXT), MakeText(key));
    } else if key == 5 || key == 6 {
      StringReaderIsLocal(BYTES);
      MadeIsLocal(StringReader(BYTES), MakeBytes(key));
    } else if key == 7 {
      BoolReaderIsLocal();
      MadeIsLocal(ReadBool, MakeFlag());
    } else if 2 <= key <= 4 {
      UnsignedReaderIsLocal();
      MadeIsLocal(ReadUnsigned, MakeNumber(key));
    }
  }

  /** An entry is the bytes of a key and of its value, in whatever form they are. */
  lemma EntryIsLocal()
    ensures Local(EntryReader())
  {
    UnsignedReaderIsLocal();
    forall key ensures Local(ValueReader(key)) { ValueReaderIsLocal(key); }
    PairIsLocal(ReadUnsigned, ValueReader);
  }
}
