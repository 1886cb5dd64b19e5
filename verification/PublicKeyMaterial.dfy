/** Stored public keys: a CBOR map with integer keys, written in one order and read
    in any order.  The cryptographic validity checks are parameters. */
module PublicKeyMaterial {
  import opened Common
  import opened Cbor
  import opened CborMap
  import opened PublicKeyEntries

  datatype Construction = MlKem768P256 | MlKem768X25519 | MlKem1024P384

  datatype Material =
    | Rsa(n: nat, e: nat)
    | Ec(parameters: seq<byte>, point: seq<byte>)
    | MlDsa(parameterSet: nat, key: seq<byte>)
    | MlKem(parameterSet: nat, key: seq<byte>)
    | HybridKem(construction: Construction, key: seq<byte>)

  datatype PublicKey = PublicKey(keyType: u64, material: Material, rpId: Option<seq<byte>>)

  datatype Checks = Checks(
    schema: seq<byte>,
    rsaValid: (nat, nat) -> bool,
    mlDsaValid: (nat, seq<byte>) -> bool,
    mlKemValid: (nat, seq<byte>) -> bool,
    hybridLength: Construction -> nat)

  /** The schema name is ASCII. */
  type Context = c: Checks | Sized(c.schema) && forall i | 0 <= i < |c.schema| :: c.schema[i] < 0x80
    witness Checks([], (_, _) => false, (_, _) => false, (_, _) => false, _ => 0)

  datatype DataInvalid = DataInvalid

  const CKK_RSA: u64 := 0
  const CKK_EC: u64 := 3
  const CKK_EC_EDWARDS: u64 := 0x40
  const CKK_EC_MONTGOMERY: u64 := 0x41
  const CKK_ML_KEM: u64 := 0x49
  const CKK_ML_DSA: u64 := 0x4a

  function HybridKeyType(c: Construction): u64 {
    match c
    case MlKem768P256 => 0xd053_0010
    case MlKem768X25519 => 0xd053_0011
    case MlKem1024P384 => 0xd053_0012
  }

  function HybridCode(c: Construction): byte {
    match c
    case MlKem768P256 => 1
    case MlKem768X25519 => 2
    case MlKem1024P384 => 3
  }

  /** The key type matches the kind of key and the cryptographic checks accept it. */
  predicate ValidKey(ctx: Context, k: PublicKey) {
    match k.material
    case Rsa(n, e) => k.keyType == CKK_RSA && ctx.rsaValid(n, e)
    case Ec(_, _) => k.keyType == CKK_EC || k.keyType == CKK_EC_EDWARDS || k.keyType == CKK_EC_MONTGOMERY
    case MlDsa(set', key) => k.keyType == CKK_ML_DSA && set' < 256 && ctx.mlDsaValid(set', key)
    case MlKem(set', key) => k.keyType == CKK_ML_KEM && set' < 256 && ctx.mlKemValid(set', key)
    case HybridKem(c, key) => k.keyType == HybridKeyType(c) && |key| == ctx.hybridLength(c)
  }

  // ------------------------------------------------------- from fields to key

  type Fields = map<u64, Field>

  function MaterialOf(ctx: Context, kind: u64, keyType: u64, first: seq<byte>, second: seq<byte>, prefix: bool)
    : Option<Material>
  {
    if kind == 1 && keyType == CKK_RSA && !prefix then
      var n, e := FromBigEndian(first), FromBigEndian(second);
      if ctx.rsaValid(n, e) then Some(Rsa(n, e)) else None
    else if kind == 2 && (keyType == CKK_EC || keyType == CKK_EC_EDWARDS || keyType == CKK_EC_MONTGOMERY) then
      if prefix == (keyType == CKK_EC) then Some(Ec(first, second)) else None
    else if kind == 3 && keyType == CKK_ML_DSA && !prefix then
      if |first| == 1 && ctx.mlDsaValid(first[0], second) then Some(MlDsa(first[0], second)) else None
    else if kind == 4 && keyType == CKK_ML_KEM && !prefix then
      if |first| == 1 && ctx.mlKemValid(first[0], second) then Some(MlKem(first[0], second)) else None
    else if kind == 5 && !prefix && |first| == 1 && 1 <= first[0] <= 3 then
      var c := if first[0] == 1 then MlKem768P256 else if first[0] == 2 then MlKem768X25519 else MlKem1024P384;
      if keyType == HybridKeyType(c) && |second| == ctx.hybridLength(c) then Some(HybridKem(c, second)) else None
    else None
  }

  predicate Complete(schema: seq<byte>, f: Fields) {
    && 1 in f && f[1] == Schema(schema) && 2 in f && f[2] == Version(1)
    && 3 in f && f[3].Kind? && 4 in f && f[4].KeyType? && 5 in f && f[5].First?
    && 6 in f && f[6].Second? && 7 in f && f[7].Prefix?
  }

  function Finish(ctx: Context, f: Fields): Result<PublicKey, DataInvalid> {
    if !Complete(ctx.schema, f) then Err(DataInvalid)
    else
      var material := MaterialOf(ctx, f[3].number, f[4].number, f[5].bytes, f[6].bytes, f[7].flag);
      if material.None? then Err(DataInvalid)
      else Ok(PublicKey(f[4].number, material.value, if 8 in f && f[8].RpId? then Some(f[8].text) else None))
  }

  function Decode(ctx: Context, x: seq<byte>): Result<PublicKey, DataInvalid> {
    var count := ReadCount(MAP, x);
    if count.None? || count.value.0.None? then Err(DataInvalid)
    else
      var read := ReadEntries(EntryReader(), KeyOf, count.value.1, count.value.0.value, map[]);
      if read.None? || read.value.1 != [] then Err(DataInvalid) else Finish(ctx, read.value.0)
  }

  method DecodePublicKey(ctx: Context, x: seq<byte>) returns (r: Result<PublicKey, DataInvalid>)
    ensures r == Decode(ctx, x)
  {
    var count := ReadCount(MAP, x);
    if count.None? || count.value.0.None? { return Err(DataInvalid); }
    var read := ReadAll(EntryReader(), KeyOf, count.value.1, count.value.0.value);
    if read.None? || read.value.1 != [] { return Err(DataInvalid); }
    r := Finish(ctx, read.value.0);
  }

  // ---------------------------------------------------- any order, no surprises

  type Chunks = cs: seq<Chunk<Field>> | |cs| < 0x1_0000_0000_0000_0000

  /** A map head for `n` entries, in any accepted form. */
  ghost predicate MapHead(h: seq<byte>, n: u64) {
    forall rest :: ReadCount(MAP, h + rest) == Some((Some(n), rest))
  }

  /** Decoding a map head and any chunks: it fails on trailing bytes and on a repeated key,
      and otherwise depends only on the fields. */
  lemma DecodeOfChunks(ctx: Context, h: seq<byte>, cs: Chunks, trailing: seq<byte>)
    requires MapHead(h, |cs|) && AllRead(EntryReader(), cs)
    ensures Decode(ctx, h + (Flat(cs) + trailing)) ==
            var f := Gather(KeyOf, map[], Entries(cs));
            if trailing == [] && f.Some? then Finish(ctx, f.value) else Err(DataInvalid)
  {
    ChunksRead(EntryReader(), KeyOf, cs, map[], trailing);
  }

  /** The same entries decode alike, in any order and with any forms of their heads. */
  lemma DecodeDependsOnEntries(ctx: Context, h: seq<byte>, cs: Chunks, k: seq<byte>, ds: Chunks)
    requires MapHead(h, |cs|) && MapHead(k, |ds|) && AllRead(EntryReader(), cs) && AllRead(EntryReader(), ds)
    requires multiset(Entries(cs)) == multiset(Entries(ds))
    ensures Decode(ctx, h + Flat(cs)) == Decode(ctx, k + Flat(ds))
  {
    assert Flat(cs) + [] == Flat(cs) && Flat(ds) + [] == Flat(ds);
    DecodeOfChunks(ctx, h, cs, []);
    DecodeOfChunks(ctx, k, ds, []);
    GatherIgnoresOrder(KeyOf, map[], Entries(cs), Entries(ds));
  }

  lemma DecodeIgnoresOrder(ctx: Context, h: seq<byte>, cs: Chunks, ds: Chunks)
    requires MapHead(h, |cs|) && AllRead(EntryReader(), cs) && AllRead(EntryReader(), ds)
    requires multiset(cs) == multiset(ds)
    ensures Decode(ctx, h + Flat(cs)) == Decode(ctx, h + Flat(ds))
  {
    assert |cs| == |multiset(cs)| == |multiset(ds)| == |ds|;
    EntriesPermute(cs, ds);
    DecodeDependsOnEntries(ctx, h, cs, h, ds);
  }

  predicate HasKey(es: seq<Field>, k: u64) { exists i | 0 <= i < |es| :: KeyOf(es[i]) == k }

  predicate DistinctKeys(es: seq<Field>) { forall i, j | 0 <= i < j < |es| :: KeyOf(es[i]) != KeyOf(es[j]) }

  predicate RequiredKeys(es: seq<Field>) {
    && HasKey(es, 1) && HasKey(es, 2) && HasKey(es, 3) && HasKey(es, 4)
    && HasKey(es, 5) && HasKey(es, 6) && HasKey(es, 7)
  }

  lemma GatheredKeys(ctx: Context, es: seq<Field>)
    requires Gather(KeyOf, map[], es).Some? && Finish(ctx, Gather(KeyOf, map[], es).value).Ok?
    ensures DistinctKeys(es) && RequiredKeys(es)
  {
    GatherMeaning(KeyOf, map[], es);
  }

  lemma HeadOfMap(x: seq<byte>) returns (h: seq<byte>)
    requires ReadCount(MAP, x).Some? && ReadCount(MAP, x).value.0.Some?
    ensures x == h + ReadCount(MAP, x).value.1 && MapHead(h, ReadCount(MAP, x).value.0.value)
  {
    var (count, rest) := ReadCount(MAP, x).value;
    CountIsLocal(MAP, x, []);
    h := x[..|x| - |rest|];
    forall y ensures ReadCount(MAP, h + y) == Some((count, y)) { CountIsLocal(MAP, x, y); }
  }

  /** Every input that decodes is a map head and chunks, with nothing behind them, no
      repeated key and all seven required keys. */
  lemma DecodedAsChunks(ctx: Context, x: seq<byte>) returns (h: seq<byte>, cs: Chunks)
    requires Decode(ctx, x).Ok?
    ensures x == h + Flat(cs) && MapHead(h, |cs|) && AllRead(EntryReader(), cs)
    ensures DistinctKeys(Entries(cs)) && RequiredKeys(Entries(cs))
    ensures var f := Gather(KeyOf, map[], Entries(cs)); f.Some? && Decode(ctx, x) == Finish(ctx, f.value)
  {
    h := HeadOfMap(x);
    var (count, rest) := ReadCount(MAP, x).value;
    EntryIsLocal();
    cs := ReadAsChunks(EntryReader(), KeyOf, rest, count.value, map[]);
    assert Flat(cs) + [] == Flat(cs);
    GatheredKeys(ctx, Entries(cs));
  }

  // --------------------------------------------------- exactly what an input says

  /** The kind, the key type, the two byte strings and the prefix flag that stand for a key,
      and the checks it has to pass. */
  predicate Spells(ctx: Context, k: PublicKey, kind: u64, first: seq<byte>, second: seq<byte>, prefix: bool) {
    match k.material
    case Rsa(n, e) =>
      && kind == 1 && k.keyType == 0 && !prefix && n == FromBigEndian(first) && e == FromBigEndian(second)
      && ctx.rsaValid(n, e)
    case Ec(parameters, point) =>
      && kind == 2 && (k.keyType == 3 || k.keyType == 0x40 || k.keyType == 0x41) && prefix == (k.keyType == 3)
      && parameters == first && point == second
    case MlDsa(set', key) =>
      kind == 3 && k.keyType == 0x4a && !prefix && first == [set'] && key == second && ctx.mlDsaValid(set', key)
    case MlKem(set', key) =>
      kind == 4 && k.keyType == 0x49 && !prefix && first == [set'] && key == second && ctx.mlKemValid(set', key)
    case HybridKem(c, key) =>
      && kind == 5 && !prefix && key == second && |key| == ctx.hybridLength(c)
      && match c
         case MlKem768P256 => first == [1] && k.keyType == 0xd053_0010
         case MlKem768X25519 => first == [2] && k.keyType == 0xd053_0011
         case MlKem1024P384 => first == [3] && k.keyType == 0xd053_0012
  }

  lemma MaterialExactly(ctx: Context, k: PublicKey, kind: u64, first: seq<byte>, second: seq<byte>, prefix: bool)
    ensures MaterialOf(ctx, kind, k.keyType, first, second, prefix) == Some(k.material) <==>
            Spells(ctx, k, kind, first, second, prefix)
  {
    assert |first| == 1 ==> first == [first[0]];
  }

  /** The four fields that spell a key. */
  ghost predicate SpelledBy(ctx: Context, k: PublicKey, kind: Field, first: Field, second: Field, prefix: Field) {
    && kind.Kind? && first.First? && second.Second? && prefix.Prefix?
    && Spells(ctx, k, kind.number, first.bytes, second.bytes, prefix.flag)
  }

  /** The entries name this schema and version 1, and spell the key. */
  ghost predicate Describes(ctx: Context, es: seq<Field>, k: PublicKey) {
    && (exists e | e in es :: e == Schema(ctx.schema)) && Version(1) in es && KeyType(k.keyType) in es
    && (exists kind, first, second, prefix | kind in es && first in es && second in es && prefix in es ::
          SpelledBy(ctx, k, kind, first, second, prefix))
    && (forall e | e in es && e.RpId? :: k.rpId == Some(e.text))
    && (k.rpId.Some? ==> exists e | e in es :: e.RpId? && e.text == k.rpId.value)
  }

  function RpIdOf(f: Fields): Option<seq<byte>> { if 8 in f && f[8].RpId? then Some(f[8].text) else None }

  lemma FinishSpells(ctx: Context, f: Fields, k: PublicKey)
    ensures Finish(ctx, f) == Ok(k) <==>
            && Complete(ctx.schema, f) && f[4].number == k.keyType && k.rpId == RpIdOf(f)
            && Spells(ctx, k, f[3].number, f[5].bytes, f[6].bytes, f[7].flag)
  {
    if Complete(ctx.schema, f) { MaterialExactly(ctx, k, f[3].number, f[5].bytes, f[6].bytes, f[7].flag); }
  }

  /** The fields of `f` are the entries in `es`. */
  ghost predicate Holds(es: seq<Field>, f: Fields) {
    && (forall e: Field :: e in es <==> KeyOf(e) in f && f[KeyOf(e)] == e)
    && (forall n | n in f :: KeyOf(f[n]) == n)
  }

  lemma HeldField(es: seq<Field>, f: Fields, n: u64)
    requires Holds(es, f) && n in f
    ensures f[n] in es && KeyOf(f[n]) == n
  {
  }

  lemma FinishDescribes(ctx: Context, es: seq<Field>, f: Fields, k: PublicKey)
    requires Holds(es, f) && Finish(ctx, f) == Ok(k)
    ensures Describes(ctx, es, k)
  {
    FinishSpells(ctx, f, k);
    HeldField(es, f, 1);
    HeldField(es, f, 2);
    HeldField(es, f, 3);
    HeldField(es, f, 4);
    HeldField(es, f, 5);
    HeldField(es, f, 6);
    HeldField(es, f, 7);
    if 8 in f { HeldField(es, f, 8); }
    assert SpelledBy(ctx, k, f[3], f[5], f[6], f[7]);
  }

  lemma FieldOf(es: seq<Field>, f: Fields, e: Field)
    requires Holds(es, f) && e in es
    ensures KeyOf(e) in f && f[KeyOf(e)] == e
  {
  }

  lemma RpIdHeld(ctx: Context, es: seq<Field>, f: Fields, k: PublicKey)
    requires Holds(es, f) && Describes(ctx, es, k)
    ensures k.rpId == RpIdOf(f)
  {
    if k.rpId.Some? {
      var e :| e in es && e.RpId? && e.text == k.rpId.value;
      FieldOf(es, f, e);
    } else if 8 in f {
      HeldField(es, f, 8);
    }
  }

  lemma SpelledFinishes(ctx: Context, f: Fields, k: PublicKey)
    requires 1 in f && f[1] == Schema(ctx.schema) && 2 in f && f[2] == Version(1)
    requires 4 in f && f[4] == KeyType(k.keyType) && k.rpId == RpIdOf(f)
    requires 3 in f && 5 in f && 6 in f && 7 in f && SpelledBy(ctx, k, f[3], f[5], f[6], f[7])
    ensures Finish(ctx, f) == Ok(k)
  {
    FinishSpells(ctx, f, k);
  }

  lemma DescribedFinishes(ctx: Context, es: seq<Field>, f: Fields, k: PublicKey)
    requires Holds(es, f) && Describes(ctx, es, k)
    ensures Finish(ctx, f) == Ok(k)
  {
    var kind, first, second, prefix :|
      kind in es && first in es && second in es && prefix in es && SpelledBy(ctx, k, kind, first, second, prefix);
    var schema :| schema in es && schema == Schema(ctx.schema);
    FieldOf(es, f, schema);
    FieldOf(es, f, Version(1));
    FieldOf(es, f, KeyType(k.keyType));
    FieldOf(es, f, kind);
    FieldOf(es, f, first);
    FieldOf(es, f, second);
    FieldOf(es, f, prefix);
    RpIdHeld(ctx, es, f, k);
    SpelledFinishes(ctx, f, k);
  }

  lemma GatheredIn(es: seq<Field>, f: Fields, e: Field)
    requires Gather(KeyOf, map[], es) == Some(f)
    ensures e in es <==> KeyOf(e) in f && f[KeyOf(e)] == e
  {
    GatherMeaning(KeyOf, map[], es);
  }

  /** Whatever the heads and the order: entries decode to a key exactly when no key repeats
      and they describe it, so another schema, another version, a missing entry or a key type
      that does not belong to the kind is rejected. */
  lemma DecodedExactly(ctx: Context, h: seq<byte>, cs: Chunks, k: PublicKey)
    requires MapHead(h, |cs|) && AllRead(EntryReader(), cs)
    ensures Decode(ctx, h + Flat(cs)) == Ok(k) <==> DistinctKeys(Entries(cs)) && Describes(ctx, Entries(cs), k)
  {
    var es := Entries(cs);
    assert Flat(cs) + [] == Flat(cs);
    DecodeOfChunks(ctx, h, cs, []);
    GatherMeaning(KeyOf, map[], es);
    if DistinctKeys(es) {
      var f := Gather(KeyOf, map[], es).value;
      forall e: Field ensures e in es <==> KeyOf(e) in f && f[KeyOf(e)] == e { GatheredIn(es, f, e); }
      assert Holds(es, f);
      if Finish(ctx, f) == Ok(k) { FinishDescribes(ctx, es, f, k); }
      if Describes(ctx, es, k) { DescribedFinishes(ctx, es, f, k); }
    }
  }

  // --------------------------------------------------------------- round trip

  /** Minimal big-endian bytes, one zero byte for zero. */
  function MinimalBytes(n: nat): (r: seq<byte>)
    ensures r != []
  {
    if n < 256 then [n] else MinimalBytes(n / 256) + [n % 256]
  }

  lemma {:induction false} MinimalBytesRoundTrip(n: nat)
    ensures FromBigEndian(MinimalBytes(n)) == n
  {
    if n >= 256 {
      MinimalBytesRoundTrip(n / 256);
      assert MinimalBytes(n)[..|MinimalBytes(n)| - 1] == MinimalBytes(n / 256);
    } else {
      assert [n][..0] == [];
    }
  }

  lemma {:induction false} MinimalBytesAreShort(x: seq<byte>)
    ensures |MinimalBytes(FromBigEndian(x))| <= |x| || |MinimalBytes(FromBigEndian(x))| == 1
  {
    if x != [] {
      var m, b := FromBigEndian(x[..|x| - 1]), x[|x| - 1] as int;
      MinimalBytesAreShort(x[..|x| - 1]);
      assert (m * 256 + b) / 256 == m;
    }
  }

  /** The kind, first, second and prefix entries of a material. */
  function Parts(k: PublicKey): Option<(u64, seq<byte>, seq<byte>, bool)> {
    match k.material
    case Rsa(n, e) => Some((1, MinimalBytes(n), MinimalBytes(e), false))
    case Ec(parameters, point) => Some((2, parameters, point, k.keyType == CKK_EC))
    case MlDsa(set', key) => if set' > 255 then None else Some((3, [set'], key, false))
    case MlKem(set', key) => if set' > 255 then None else Some((4, [set'], key, false))
    case HybridKem(c, key) => Some((5, [HybridCode(c)], key, false))
  }

  /** The lengths fit 64 bits and the relying-party identifier is UTF-8. */
  predicate Storable(k: PublicKey) {
    && (Parts(k).Some? ==> Sized(Parts(k).value.1) && Sized(Parts(k).value.2))
    && (k.rpId.Some? ==> Sized(k.rpId.value) && ValidUtf8(k.rpId.value))
  }

  type FieldList = es: seq<Field> | |es| < 0x1_0000_0000_0000_0000

  function FieldsOf(schema: Field, kind: u64, keyType: u64, first: Field, second: Field, prefix: bool,
                    rpId: Option<Field>): FieldList
  {
    [schema, Version(1), Kind(kind), KeyType(keyType), first, second, Prefix(prefix)]
    + if rpId.Some? then [rpId.value] else []
  }

  function EntriesOf(ctx: Context, k: PublicKey): Option<FieldList>
    requires Storable(k)
  {
    if Parts(k).None? then None
    else
      var (kind, first, second, prefix) := Parts(k).value;
      AsciiIsUtf8(ctx.schema);
      Some(FieldsOf(Schema(ctx.schema), kind, k.keyType, First(first), Second(second), prefix,
                    if k.rpId.Some? then Some(RpId(k.rpId.value)) else None))
  }

  /** The entries as they are written, with shortest heads. */
  function Written(es: FieldList): (cs: Chunks)
    ensures |cs| == |es| && Entries(cs) == es
  {
    seq(|es|, i requires 0 <= i < |es| => Chunk(EntryBytes(es[i]), es[i]))
  }

  lemma WrittenReads(es: FieldList)
    ensures AllRead(EntryReader(), Written(es)) && MapHead(Head(MAP, |es|), |es|)
  {
    forall i | 0 <= i < |es| ensures Reads(EntryReader(), Written(es)[i].bytes, Written(es)[i].entry) {
      EntryReads(es[i]);
    }
    forall rest ensures ReadCount(MAP, Head(MAP, |es|) + rest) == Some((Some(|es|), rest)) {
      CountRoundTrip(MAP, |es|, rest);
    }
  }

  function Encode(ctx: Context, k: PublicKey): Result<seq<byte>, DataInvalid>
    requires Storable(k)
  {
    var es := EntriesOf(ctx, k);
    if es.Some? then Ok(Head(MAP, |es.value|) + Flat(Written(es.value))) else Err(DataInvalid)
  }

  lemma MaterialRoundTrip(ctx: Context, k: PublicKey)
    requires ValidKey(ctx, k)
    ensures Parts(k).Some?
    ensures var (kind, first, second, prefix) := Parts(k).value;
            MaterialOf(ctx, kind, k.keyType, first, second, prefix) == Some(k.material)
  {
    if k.material.Rsa? {
      MinimalBytesRoundTrip(k.material.n);
      MinimalBytesRoundTrip(k.material.e);
    }
  }

  lemma GatherOfKey(ctx: Context, k: PublicKey)
    requires Storable(k) && Parts(k).Some?
    ensures var f := Gather(KeyOf, map[], EntriesOf(ctx, k).value);
            && f.Some? && (8 in f.value ==> k.rpId.Some?)
            && forall i | 0 <= i < |EntriesOf(ctx, k).value| :: Has(KeyOf, f.value, EntriesOf(ctx, k).value[i])
  {
    var es := EntriesOf(ctx, k).value;
    assert forall i | 0 <= i < |es| :: KeyOf(es[i]) == i + 1;
    GatherMeaning(KeyOf, map[], es);
  }

  lemma FinishOfFields(ctx: Context, k: PublicKey, f: Fields)
    requires ValidKey(ctx, k) && Storable(k) && Parts(k).Some? && Complete(ctx.schema, f)
    requires (f[3].number, f[5].bytes, f[6].bytes, f[7].flag) == Parts(k).value && f[4].number == k.keyType
    requires if k.rpId.Some? then 8 in f && f[8] == RpId(k.rpId.value) else 8 !in f
    ensures Finish(ctx, f) == Ok(k)
  {
    MaterialRoundTrip(ctx, k);
  }

  /** Every key whose type matches its kind comes back from its encoding, with or
      without a relying-party identifier. */
  lemma RoundTrip(ctx: Context, k: PublicKey)
    requires ValidKey(ctx, k) && Storable(k)
    ensures Encode(ctx, k).Ok? && Decode(ctx, Encode(ctx, k).value) == Ok(k)
  {
    MaterialRoundTrip(ctx, k);
    var es := EntriesOf(ctx, k).value;
    GatherOfKey(ctx, k);
    var f := Gather(KeyOf, map[], es).value;
    FieldsFound(ctx, k, f);
    FinishOfFields(ctx, k, f);
    WrittenReads(es);
    assert Flat(Written(es)) + [] == Flat(Written(es));
    DecodeOfChunks(ctx, Head(MAP, |es|), Written(es), []);
  }

  lemma FieldsFound(ctx: Context, k: PublicKey, f: Fields)
    requires Storable(k) && Parts(k).Some?
    requires forall i | 0 <= i < |EntriesOf(ctx, k).value| :: Has(KeyOf, f, EntriesOf(ctx, k).value[i])
    ensures Complete(ctx.schema, f)
    ensures (f[3].number, f[5].bytes, f[6].bytes, f[7].flag) == Parts(k).value && f[4].number == k.keyType
    ensures k.rpId.Some? ==> 8 in f && f[8] == RpId(k.rpId.value)
  {
    var es := EntriesOf(ctx, k).value;
    assert Has(KeyOf, f, es[0]) && Has(KeyOf, f, es[1]) && Has(KeyOf, f, es[2]) && Has(KeyOf, f, es[3]);
    assert Has(KeyOf, f, es[4]) && Has(KeyOf, f, es[5]) && Has(KeyOf, f, es[6]);
    if k.rpId.Some? { assert Has(KeyOf, f, es[7]); }
  }

  lemma FinishedIsStorable(ctx: Context, f: Fields)
    requires Finish(ctx, f).Ok?
    ensures ValidKey(ctx, Finish(ctx, f).value) && Storable(Finish(ctx, f).value)
  {
    MinimalBytesAreShort(f[5].bytes);
    MinimalBytesAreShort(f[6].bytes);
  }

  /** Whatever decodes is valid, and its encoding decodes to the same key. */
  lemma DecodedIsStable(ctx: Context, x: seq<byte>)
    requires Decode(ctx, x).Ok?
    ensures var k := Decode(ctx, x).value;
            && ValidKey(ctx, k) && Storable(k)
            && Encode(ctx, k).Ok? && Decode(ctx, Encode(ctx, k).value) == Ok(k)
  {
    var count := ReadCount(MAP, x).value;
    var f := ReadEntries(EntryReader(), KeyOf, count.1, count.0.value, map[]).value.0;
    FinishedIsStorable(ctx, f);
    RoundTrip(ctx, Finish(ctx, f).value);
  }
}
