/** Reading a CBOR map whose entries may come in any order.  An entry knows its key;
    `read` reads one entry from the front of the input. */
module CborMap {
  import opened Common
  import opened Cbor

  /** Reads `count` entries; a repeated key is an error. */
  function ReadEntries<E>(read: Reader<E>, key: E -> u64, x: seq<byte>, count: nat, fields: map<u64, E>)
    : Option<(map<u64, E>, seq<byte>)>
    decreases count
  {
    if count == 0 then Some((fields, x))
    else
      var entry := read(x);
      if entry.None? || key(entry.value.0) in fields then None
      else ReadEntries(read, key, entry.value.1, count - 1, fields[key(entry.value.0) := entry.value.0])
  }

  method ReadAll<E>(read: Reader<E>, key: E -> u64, x: seq<byte>, count: nat)
    returns (r: Option<(map<u64, E>, seq<byte>)>)
    ensures r == ReadEntries(read, key, x, count, map[])
  {
    var rest, fields: map<u64, E> := x, map[];
    var i := 0;
    while i < count
      invariant 0 <= i <= count
      invariant ReadEntries(read, key, rest, count - i, fields) == ReadEntries(read, key, x, count, map[])
    {
      var entry := read(rest);
      if entry.None? || key(entry.value.0) in fields { return None; }
      fields := fields[key(entry.value.0) := entry.value.0];
      rest := entry.value.1;
      i := i + 1;
    }
    r := Some((fields, rest));
  }

  /** The fields of a list of entries, or `None` when a key occurs twice. */
  function Gather<E>(key: E -> u64, f: map<u64, E>, es: seq<E>): Option<map<u64, E>>
    decreases |es|
  {
    if es == [] then Some(f)
    else if key(es[0]) in f then None
    else Gather(key, f[key(es[0]) := es[0]], es[1..])
  }

  predicate Has<E(==)>(key: E -> u64, f: map<u64, E>, e: E) { key(e) in f && f[key(e)] == e }

  // ------------------------------------------------------- chunks of the input

  /** Bytes that read as an entry, whatever follows them; several chunks may read as the
      same entry. */
  datatype Chunk<E> = Chunk(bytes: seq<byte>, entry: E)

  ghost predicate Reads<E>(read: Reader<E>, b: seq<byte>, e: E) {
    forall rest :: read(b + rest) == Some((e, rest))
  }

  ghost predicate AllRead<E>(read: Reader<E>, cs: seq<Chunk<E>>) {
    forall i | 0 <= i < |cs| :: Reads(read, cs[i].bytes, cs[i].entry)
  }

  function Flat<E>(cs: seq<Chunk<E>>): seq<byte> {
    if cs == [] then [] else cs[0].bytes + Flat(cs[1..])
  }

  function Entries<E>(cs: seq<Chunk<E>>): (es: seq<E>)
    ensures |es| == |cs| && forall i | 0 <= i < |cs| :: es[i] == cs[i].entry
  {
    seq(|cs|, i requires 0 <= i < |cs| => cs[i].entry)
  }

  /** Reading chunks gathers their entries and leaves what follows them. */
  lemma {:induction false} ChunksRead<E>(read: Reader<E>, key: E -> u64, cs: seq<Chunk<E>>, f: map<u64, E>,
                                         trailing: seq<byte>)
    requires AllRead(read, cs)
    ensures ReadEntries(read, key, Flat(cs) + trailing, |cs|, f) ==
            var g := Gather(key, f, Entries(cs));
            if g.Some? then Some((g.value, trailing)) else None
    decreases |cs|
  {
    if cs == [] {
      assert Flat(cs) + trailing == trailing;
    } else {
      var c, rest := cs[0], Flat(cs[1..]) + trailing;
      assert Flat(cs) + trailing == c.bytes + rest;
      assert Reads(read, c.bytes, c.entry);
      assert Entries(cs)[1..] == Entries(cs[1..]);
      assert forall i | 0 <= i < |cs[1..]| :: cs[1..][i] == cs[i + 1];
      ChunksRead(read, key, cs[1..], f[key(c.entry) := c.entry], trailing);
    }
  }

  lemma ChunkOf<E>(read: Reader<E>, x: seq<byte>) returns (c: Chunk<E>)
    requires Local(read) && read(x).Some?
    ensures Reads(read, c.bytes, c.entry) && c.entry == read(x).value.0 && x == c.bytes + read(x).value.1
  {
    var (e, rest) := read(x).value;
    assert Again(x, read(x), [], read);
    c := Chunk(x[..|x| - |rest|], e);
    forall y ensures read(c.bytes + y) == Some((e, y)) { assert Again(x, read(x), y, read); }
  }

  /** Conversely, whatever is read came as chunks. */
  lemma {:induction false} ReadAsChunks<E>(read: Reader<E>, key: E -> u64, x: seq<byte>, count: nat, f: map<u64, E>)
    returns (cs: seq<Chunk<E>>)
    requires Local(read) && ReadEntries(read, key, x, count, f).Some?
    ensures |cs| == count && AllRead(read, cs)
    ensures x == Flat(cs) + ReadEntries(read, key, x, count, f).value.1
    ensures Gather(key, f, Entries(cs)) == Some(ReadEntries(read, key, x, count, f).value.0)
    decreases count
  {
    if count == 0 {
      cs := [];
    } else {
      var (e, rest) := read(x).value;
      var c := ChunkOf(read, x);
      var more := ReadAsChunks(read, key, rest, count - 1, f[key(e) := e]);
      cs := [c] + more;
      assert cs[1..] == more && Entries(cs)[1..] == Entries(more);
    }
  }

  lemma {:induction false} EntriesPermute<E>(cs: seq<Chunk<E>>, ds: seq<Chunk<E>>)
    requires multiset(cs) == multiset(ds)
    ensures multiset(Entries(cs)) == multiset(Entries(ds))
    decreases |cs|
  {
    if cs == [] {
      assert |multiset(ds)| == 0;
    } else {
      var p, q := WithoutOne(cs, ds);
      EntriesPermute(cs[1..], p + q);
      assert Entries(ds) == Entries(p) + [cs[0].entry] + Entries(q);
      assert Entries(p + q) == Entries(p) + Entries(q);
      assert Entries(cs) == [] + [cs[0].entry] + Entries(cs[1..]) && [] + Entries(cs[1..]) == Entries(cs[1..]);
      Middle(Entries(p), cs[0].entry, Entries(q));
      Middle([], cs[0].entry, Entries(cs[1..]));
    }
  }

  lemma {:induction false} GatherMove<E>(key: E -> u64, f: map<u64, E>, p: seq<E>, e: E, q: seq<E>)
    ensures Gather(key, f, p + [e] + q) == Gather(key, f, [e] + (p + q))
    decreases |p|
  {
    if p == [] {
      assert p + [e] + q == [e] + (p + q);
    } else {
      var a := p[0];
      assert (p + [e] + q)[1..] == p[1..] + [e] + q;
      assert ([e] + (p + q))[1..] == p + q && (p + q)[1..] == p[1..] + q;
      assert ([e] + (p[1..] + q))[1..] == p[1..] + q;
      if key(a) !in f {
        GatherMove(key, f[key(a) := a], p[1..], e, q);
        if key(a) != key(e) {
          assert f[key(a) := a][key(e) := e] == f[key(e) := e][key(a) := a];
        }
      }
    }
  }

  lemma Middle<E>(p: seq<E>, e: E, q: seq<E>)
    ensures multiset(p + [e] + q) == multiset{e} + multiset(p + q)
  {
  }

  lemma Cancel<E>(e: E, a: multiset<E>, b: multiset<E>)
    requires multiset{e} + a == multiset{e} + b
    ensures a == b
  {
    assert a == (multiset{e} + a) - multiset{e};
    assert b == (multiset{e} + b) - multiset{e};
  }

  lemma SplitAt<E>(ds: seq<E>, e: E) returns (p: seq<E>, q: seq<E>)
    requires e in multiset(ds)
    ensures ds == p + [e] + q
  {
    var i :| 0 <= i < |ds| && ds[i] == e;
    p, q := ds[..i], ds[i + 1..];
  }

  lemma WithoutOne<E>(es: seq<E>, ds: seq<E>) returns (p: seq<E>, q: seq<E>)
    requires es != [] && multiset(es) == multiset(ds)
    ensures ds == p + [es[0]] + q && multiset(es[1..]) == multiset(p + q)
  {
    p, q := SplitAt(ds, es[0]);
    Middle(p, es[0], q);
    Middle([], es[0], es[1..]);
    assert [] + es[1..] == es[1..] && [] + [es[0]] + es[1..] == es;
    Cancel(es[0], multiset(es[1..]), multiset(p + q));
  }

  /** The order of the entries does not matter. */
  lemma {:induction false} GatherIgnoresOrder<E>(key: E -> u64, f: map<u64, E>, es: seq<E>, ds: seq<E>)
    requires multiset(es) == multiset(ds)
    ensures Gather(key, f, es) == Gather(key, f, ds)
    decreases |es|
  {
    if es == [] {
      assert |multiset(ds)| == 0;
    } else {
      var p, q := WithoutOne(es, ds);
      var e := es[0];
      GatherMove(key, f, p, e, q);
      assert ([e] + (p + q))[1..] == p + q;
      if key(e) !in f { GatherIgnoresOrder(key, f[key(e) := e], es[1..], p + q); }
    }
  }

  /** Gathering succeeds exactly when no key is repeated, and then every field is the
      entry with that key. */
  lemma {:induction false} GatherMeaning<E>(key: E -> u64, f: map<u64, E>, es: seq<E>)
    ensures Gather(key, f, es).Some? <==>
            (forall i | 0 <= i < |es| :: key(es[i]) !in f) &&
            (forall i, j | 0 <= i < j < |es| :: key(es[i]) != key(es[j]))
    ensures Gather(key, f, es).Some? ==>
            (forall k | k in f :: k in Gather(key, f, es).value && Gather(key, f, es).value[k] == f[k]) &&
            (forall i | 0 <= i < |es| :: Has(key, Gather(key, f, es).value, es[i])) &&
            (forall k | k in Gather(key, f, es).value :: k in f || exists i | 0 <= i < |es| :: key(es[i]) == k)
    decreases |es|
  {
    if es != [] && key(es[0]) !in f {
      var g := f[key(es[0]) := es[0]];
      GatherMeaning(key, g, es[1..]);
      assert forall i | 0 < i < |es| :: es[i] == es[1..][i - 1];
    }
  }
}
