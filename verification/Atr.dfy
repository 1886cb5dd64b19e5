/** Parsing of the answer to reset (section 8.2 of ISO/IEC 7816-3): finding the
    historical bytes behind a chain of interface bytes, and the card capabilities
    in their compact-TLV entries. */
module Atr {
  import opened Common
  import opened Iso7816

  // ------------------------------------------------------- interface bytes

  /** The high nibble of T0 or TD: which of TA, TB, TC and TD follow. */
  datatype Nibble = Nibble(ta: bool, tb: bool, tc: bool, td: bool)

  function Bit(b: bool): nat { if b then 1 else 0 }

  /** What is left of a byte below its bit of weight 128, 64, 32 and 16. */
  function Below(b: nat, weight: nat): nat { if b >= weight then b - weight else b }

  function High(b: byte): Nibble {
    var b7 := Below(b, 128);
    var b6 := Below(b7, 64);
    Nibble(Below(b6, 32) >= 16, b6 >= 32, b7 >= 64, b >= 128)
  }

  function Low(b: byte): nat { Below(Below(Below(Below(b, 128), 64), 32), 16) }

  function Pack(n: Nibble, low: nat): byte
    requires low < 16
  {
    16 * Bit(n.ta) + 32 * Bit(n.tb) + 64 * Bit(n.tc) + 128 * Bit(n.td) + low
  }

  lemma PackHighLow(n: Nibble, low: nat)
    requires low < 16
    ensures High(Pack(n, low)) == n && Low(Pack(n, low)) == low
  {
  }

  lemma HighLowPack(b: byte)
    ensures Low(b) < 16 && Pack(High(b), Low(b)) == b
  {
  }

  /** These are the bits 4 to 7 and the bits 0 to 3. */
  lemma NibblesAreBits(b: byte)
    ensures High(b) == Nibble(b / 16 % 2 == 1, b / 32 % 2 == 1, b / 64 % 2 == 1, b / 128 == 1)
    ensures Low(b) == b % 16
  {
    HighLowPack(b);
    assert b / 16 == Bit(High(b).ta) + 2 * Bit(High(b).tb) + 4 * Bit(High(b).tc) + 8 * Bit(High(b).td);
    assert b / 32 == Bit(High(b).tb) + 2 * Bit(High(b).tc) + 4 * Bit(High(b).td);
    assert b / 64 == Bit(High(b).tc) + 2 * Bit(High(b).td);
  }

  function Announced(n: Nibble): nat { Bit(n.ta) + Bit(n.tb) + Bit(n.tc) }

  /** The offset behind the interface bytes, or `None` if a TD byte is missing. */
  function SkipInterface(atr: seq<byte>, offset: nat, n: Nibble): Option<nat>
    decreases |atr| - offset
  {
    var next := offset + Announced(n);
    if !n.td then Some(next)
    else if next >= |atr| then None
    else SkipInterface(atr, next + 1, High(atr[next]))
  }

  function Historical(atr: seq<byte>): Option<seq<byte>> {
    if |atr| < 2 then None
    else
      var offset := SkipInterface(atr, 2, High(atr[1]));
      if offset.None? || offset.value + Low(atr[1]) > |atr| then None
      else Some(atr[offset.value..offset.value + Low(atr[1])])
  }

  method HistoricalBytes(atr: seq<byte>) returns (r: Option<seq<byte>>)
    ensures r == Historical(atr)
  {
    if |atr| < 2 { return None; }
    var length, flags, offset := Low(atr[1]), High(atr[1]), 2;
    while true
      invariant offset >= 2
      invariant SkipInterface(atr, offset, flags) == SkipInterface(atr, 2, High(atr[1]))
      decreases |atr| - offset
    {
      if flags.ta { offset := offset + 1; }
      if flags.tb { offset := offset + 1; }
      if flags.tc { offset := offset + 1; }
      if !flags.td { break; }
      if offset >= |atr| { return None; }
      flags := High(atr[offset]);
      offset := offset + 1;
    }
    if offset + length > |atr| { return None; }
    r := Some(atr[offset..offset + length]);
  }

  // ------------------------------------------- well-formed answers to reset

  /** One group of interface bytes and the protocol number of its TD byte. */
  datatype Group = Group(ta: Option<byte>, tb: Option<byte>, tc: Option<byte>, protocol: nat)

  predicate ValidGroups(gs: seq<Group>) {
    gs != [] && forall i | 0 <= i < |gs| :: gs[i].protocol < 16
  }

  function Optional(b: Option<byte>): seq<byte> { if b.Some? then [b.value] else [] }

  function Flags(gs: seq<Group>): Nibble
    requires gs != []
  {
    Nibble(gs[0].ta.Some?, gs[0].tb.Some?, gs[0].tc.Some?, |gs| > 1)
  }

  function GroupBytes(g: Group): seq<byte> {
    Optional(g.ta) + Optional(g.tb) + Optional(g.tc)
  }

  /** Every group but the last is followed by the TD byte that announces the next. */
  function InterfaceBytes(gs: seq<Group>): seq<byte>
    requires ValidGroups(gs)
  {
    if |gs| == 1 then GroupBytes(gs[0])
    else GroupBytes(gs[0]) + [Pack(Flags(gs[1..]), gs[0].protocol)] + InterfaceBytes(gs[1..])
  }

  function Encode(ts: byte, gs: seq<Group>, historical: seq<byte>, tail: seq<byte>): seq<byte>
    requires ValidGroups(gs) && |historical| < 16
  {
    [ts, Pack(Flags(gs), |historical|)] + InterfaceBytes(gs) + historical + tail
  }

  /** One group with its TD byte is stepped over. */
  lemma SkipStep(pre: seq<byte>, group: seq<byte>, td: byte, post: seq<byte>, n: Nibble)
    requires n.td && |group| == Announced(n)
    ensures SkipInterface(pre + (group + [td] + post), |pre|, n) ==
            SkipInterface(pre + group + [td] + post, |pre + group + [td]|, High(td))
  {
    assert pre + (group + [td] + post) == pre + group + [td] + post;
  }

  lemma {:induction false} SkipGroups(pre: seq<byte>, gs: seq<Group>, post: seq<byte>)
    requires ValidGroups(gs)
    ensures SkipInterface(pre + (InterfaceBytes(gs) + post), |pre|, Flags(gs)) == Some(|pre| + |InterfaceBytes(gs)|)
    decreases |gs|
  {
    if |gs| > 1 {
      var group, td := GroupBytes(gs[0]), Pack(Flags(gs[1..]), gs[0].protocol);
      PackHighLow(Flags(gs[1..]), gs[0].protocol);
      var more := InterfaceBytes(gs[1..]) + post;
      assert InterfaceBytes(gs) + post == group + [td] + more;
      SkipStep(pre, group, td, more, Flags(gs));
      SkipGroups(pre + group + [td], gs[1..], post);
    }
  }

  /** On every well-formed answer to reset, with any number of interface groups and
      anything after them, the parser returns exactly the historical bytes. */
  lemma WellFormedAtr(ts: byte, gs: seq<Group>, historical: seq<byte>, tail: seq<byte>)
    requires ValidGroups(gs) && |historical| < 16
    ensures Historical(Encode(ts, gs, historical, tail)) == Some(historical)
  {
    var pre: seq<byte> := [ts, Pack(Flags(gs), |historical|)];
    PackHighLow(Flags(gs), |historical|);
    SkipGroups(pre, gs, historical + tail);
    assert pre + (InterfaceBytes(gs) + (historical + tail)) == Encode(ts, gs, historical, tail);
  }

  lemma SkipGrows(atr: seq<byte>, offset: nat, n: Nibble)
    requires SkipInterface(atr, offset, n).Some?
    ensures SkipInterface(atr, offset, n).value >= offset + Announced(n) + Bit(n.td)
    decreases |atr| - offset
  {
  }

  lemma Split<T>(s: seq<T>, i: nat, j: nat, k: nat)
    requires i <= j <= k <= |s|
    ensures s[i..k] == s[i..j] + s[j..k]
  {
  }

  lemma RecoverByte(atr: seq<byte>, i: nat, announced: bool) returns (o: Option<byte>)
    requires i + Bit(announced) <= |atr|
    ensures o.Some? == announced && Optional(o) == atr[i..i + Bit(announced)]
  {
    o := if announced then Some(atr[i]) else None;
  }

  lemma RecoverGroup(atr: seq<byte>, offset: nat, n: Nibble, protocol: nat) returns (g: Group)
    requires offset + Announced(n) <= |atr|
    ensures g.protocol == protocol && g.ta.Some? == n.ta && g.tb.Some? == n.tb && g.tc.Some? == n.tc
    ensures GroupBytes(g) == atr[offset..offset + Announced(n)]
  {
    var b, c, end := offset + Bit(n.ta), offset + Bit(n.ta) + Bit(n.tb), offset + Announced(n);
    var ta := RecoverByte(atr, offset, n.ta);
    var tb := RecoverByte(atr, b, n.tb);
    var tc := RecoverByte(atr, c, n.tc);
    g := Group(ta, tb, tc, protocol);
    Split(atr, offset, b, c);
    Split(atr, offset, c, end);
  }

  lemma Around<T>(s: seq<T>, i: nat, j: nat, k: nat)
    requires i <= j < k <= |s|
    ensures s[i..k] == s[i..j] + [s[j]] + s[j + 1..k]
  {
  }

  lemma OneMoreGroup(g: Group, gs: seq<Group>)
    requires ValidGroups(gs) && g.protocol < 16
    ensures ValidGroups([g] + gs)
    ensures Flags([g] + gs) == Nibble(g.ta.Some?, g.tb.Some?, g.tc.Some?, true)
    ensures InterfaceBytes([g] + gs) == GroupBytes(g) + [Pack(Flags(gs), g.protocol)] + InterfaceBytes(gs)
  {
    assert ([g] + gs)[1..] == gs;
  }

  lemma {:induction false} RecoverGroups(atr: seq<byte>, offset: nat, n: Nibble, end: nat) returns (gs: seq<Group>)
    requires SkipInterface(atr, offset, n) == Some(end) && end <= |atr|
    ensures ValidGroups(gs) && Flags(gs) == n && offset <= end && InterfaceBytes(gs) == atr[offset..end]
    decreases |atr| - offset
  {
    SkipGrows(atr, offset, n);
    var next := offset + Announced(n);
    if n.td {
      var td := atr[next];
      HighLowPack(td);
      var g := RecoverGroup(atr, offset, n, Low(td));
      var rest := RecoverGroups(atr, next + 1, High(td), end);
      OneMoreGroup(g, rest);
      gs := [g] + rest;
      Around(atr, offset, next, end);
    } else {
      var g := RecoverGroup(atr, offset, n, 0);
      gs := [g];
    }
  }

  /** Conversely, whatever the parser accepts is such an answer. */
  lemma AcceptedAtr(atr: seq<byte>) returns (gs: seq<Group>, tail: seq<byte>)
    requires Historical(atr).Some?
    ensures ValidGroups(gs) && |Historical(atr).value| < 16
    ensures atr == Encode(atr[0], gs, Historical(atr).value, tail)
  {
    var offset := SkipInterface(atr, 2, High(atr[1])).value;
    gs := RecoverGroups(atr, 2, High(atr[1]), offset);
    HighLowPack(atr[1]);
    var end := offset + Low(atr[1]);
    tail := atr[end..];
    Split(atr, 0, 2, offset);
    Split(atr, 0, offset, end);
    Split(atr, 0, end, |atr|);
    assert atr[0..2] == [atr[0], atr[1]] && atr[0..|atr|] == atr;
  }

  // -------------------------------------------------------- compact TLV walk

  /** The entry at `offset` lies within the historical bytes. */
  predicate Complete(h: seq<byte>, offset: nat)
    requires offset < |h|
  {
    offset + 1 + h[offset] % 16 <= |h|
  }

  function Walk(h: seq<byte>, offset: nat): Option<Capabilities>
    decreases |h| - offset
  {
    if offset >= |h| || !Complete(h, offset) then None
    else if h[offset] == 0x73 then
      Some(Capabilities(h[offset + 3] / 128 % 2 == 1, h[offset + 3] / 64 % 2 == 1))
    else Walk(h, offset + 1 + h[offset] % 16)
  }

  method ApduCapabilities(atr: seq<byte>) returns (r: Option<Capabilities>)
    ensures r == if Historical(atr).Some? then Walk(Historical(atr).value, 1) else None
  {
    var historical := HistoricalBytes(atr);
    if historical.None? { return None; }
    var h := historical.value;
    var offset := 1;
    while offset < |h|
      invariant offset >= 1 && Walk(h, offset) == Walk(h, 1)
      decreases |h| - offset
    {
      var tag, length := h[offset] / 16, h[offset] % 16;
      var end := offset + 1 + length;
      if end > |h| { return None; }
      if tag == 7 && length == 3 {
        var flags := h[offset + 3];
        return Some(Capabilities(flags >= 128, flags / 64 % 2 == 1));
      }
      offset := end;
    }
    r := None;
  }

  /** A compact-TLV entry: a tag nibble and at most 15 bytes. */
  datatype Tlv = Tlv(head: byte, value: seq<byte>)

  predicate ValidTlv(t: Tlv) { |t.value| == t.head % 16 }

  function TlvBytes(ts: seq<Tlv>): seq<byte> {
    if ts == [] then [] else [ts[0].head] + ts[0].value + TlvBytes(ts[1..])
  }

  /** One entry that is not tag 7 with length 3 is stepped over. */
  lemma WalkStep(pre: seq<byte>, t: Tlv, post: seq<byte>)
    requires ValidTlv(t) && t.head != 0x73
    ensures Walk(pre + ([t.head] + t.value + post), |pre|) ==
            Walk(pre + [t.head] + t.value + post, |pre + [t.head] + t.value|)
  {
    assert pre + ([t.head] + t.value + post) == pre + [t.head] + t.value + post;
  }

  /** The first tag-7 length-3 entry decides: whatever entries come before it and
      whatever bytes follow, its third byte gives the capabilities. */
  lemma {:induction false} FirstCapabilitiesWin(pre: seq<byte>, ts: seq<Tlv>, a: byte, b: byte, flags: byte,
                                                rest: seq<byte>)
    requires forall i | 0 <= i < |ts| :: ValidTlv(ts[i]) && ts[i].head != 0x73
    ensures Walk(pre + (TlvBytes(ts) + [0x73, a, b, flags] + rest), |pre|) ==
            Some(Capabilities(flags >= 128, flags % 128 >= 64))
    decreases |ts|
  {
    if ts == [] {
      var h := pre + (TlvBytes(ts) + [0x73, a, b, flags] + rest);
      assert h[|pre|] == 0x73 && h[|pre| + 3] == flags;
    } else {
      var post := TlvBytes(ts[1..]) + [0x73, a, b, flags] + rest;
      assert TlvBytes(ts) + [0x73, a, b, flags] + rest == [ts[0].head] + ts[0].value + post;
      WalkStep(pre, ts[0], post);
      FirstCapabilitiesWin(pre + [ts[0].head] + ts[0].value, ts[1..], a, b, flags, rest);
    }
  }

  /** Without such an entry there are no capabilities, also when the last entry is
      cut short. */
  lemma {:induction false} NoCapabilities(pre: seq<byte>, ts: seq<Tlv>, cut: seq<byte>)
    requires forall i | 0 <= i < |ts| :: ValidTlv(ts[i]) && ts[i].head != 0x73
    requires cut == [] || 1 + cut[0] % 16 > |cut|
    ensures Walk(pre + (TlvBytes(ts) + cut), |pre|) == None
    decreases |ts|
  {
    if ts == [] {
      assert TlvBytes(ts) + cut == cut;
    } else {
      var post := TlvBytes(ts[1..]) + cut;
      assert TlvBytes(ts) + cut == [ts[0].head] + ts[0].value + post;
      WalkStep(pre, ts[0], post);
      NoCapabilities(pre + [ts[0].head] + ts[0].value, ts[1..], cut);
    }
  }

  lemma TlvBefore(t: Tlv, ts: seq<Tlv>, post: seq<byte>)
    ensures TlvBytes([t] + ts) + post == [t.head] + t.value + (TlvBytes(ts) + post)
  {
    assert ([t] + ts)[1..] == ts;
  }

  lemma EntryHere(h: seq<byte>, offset: nat)
    requires offset < |h| && h[offset] == 0x73 && Walk(h, offset).Some?
    ensures offset + 4 <= |h| && h[offset..] == [0x73] + h[offset + 1..offset + 4] + h[offset + 4..]
    ensures Walk(h, offset) == Some(Capabilities(h[offset + 3] >= 128, h[offset + 3] % 128 >= 64))
  {
  }

  /** Conversely, capabilities are only reported from such an entry. */
  lemma {:induction false} CapabilitiesComeFromAnEntry(h: seq<byte>, offset: nat)
    returns (ts: seq<Tlv>, value: seq<byte>, rest: seq<byte>)
    requires offset <= |h| && Walk(h, offset).Some?
    ensures forall i | 0 <= i < |ts| :: ValidTlv(ts[i]) && ts[i].head != 0x73
    ensures |value| == 3 && h[offset..] == TlvBytes(ts) + ([0x73] + value + rest)
    ensures Walk(h, offset) == Some(Capabilities(value[2] >= 128, value[2] % 128 >= 64))
    decreases |h| - offset
  {
    var end := offset + 1 + h[offset] % 16;
    if h[offset] == 0x73 {
      EntryHere(h, offset);
      ts, value, rest := [], h[offset + 1..offset + 4], h[offset + 4..];
    } else {
      var t := Tlv(h[offset], h[offset + 1..end]);
      ts, value, rest := CapabilitiesComeFromAnEntry(h, end);
      assert h[offset..] == [t.head] + t.value + h[end..];
      TlvBefore(t, ts, [0x73] + value + rest);
      ts := [t] + ts;
    }
  }
}
