/** CTAPHID framing (section 11.2.4 of CTAP 2.1): splitting a message into
    64-byte reports and reassembling it from a stream that other channels share. */
module CtapHid {
  import opened Common

  type Packet = p: seq<byte> | |p| == 64 witness seq(64, i => 0)
  /** A 32-bit channel, as its four big-endian bytes. */
  type Channel = c: seq<byte> | |c| == 4 witness [0, 0, 0, 0]

  /** An initial report carries 57 payload bytes, each of at most 128 continuation
      reports 59. */
  const MAX_MESSAGE: nat := 57 + 128 * 59
  const KEEPALIVE: byte := 0x3b
  const ERROR: byte := 0x3f
  const INVALID_CHANNEL: byte := 0x0b

  datatype HidError = ArgumentsBad | InvalidChannel | Device

  // ------------------------------------------------------------------ layout

  function ChannelOf(p: Packet): Channel { p[..4] }

  /** The payload length in bytes 5 and 6 of an initial report. */
  function LengthOf(p: Packet): int { p[5] as int * 256 + p[6] as int }

  function Zeros(n: nat): (r: seq<byte>)
    ensures |r| == n
  {
    seq(n, i => 0)
  }

  function InitialPacket(c: Channel, command: byte, payload: seq<byte>): Packet
    requires command < 128 && |payload| <= MAX_MESSAGE
  {
    var n := Min(|payload|, 57);
    c + [command + 128, |payload| / 256, |payload| % 256] + payload[..n] + Zeros(57 - n)
  }

  function ContinuationPacket(c: Channel, sequence: byte, chunk: seq<byte>): Packet
    requires |chunk| <= 59
  {
    c + [sequence] + chunk + Zeros(59 - |chunk|)
  }

  function Continuations(c: Channel, sequence: nat, data: seq<byte>): (r: seq<Packet>)
    requires |data| <= (128 - sequence) * 59
    decreases |data|
  {
    if data == [] then []
    else
      var n := Min(|data|, 59);
      [ContinuationPacket(c, sequence, data[..n])] + Continuations(c, sequence + 1, data[n..])
  }

  /** The reports that carry one message. */
  function Packets(c: Channel, command: byte, payload: seq<byte>): seq<Packet>
    requires command < 128 && |payload| <= MAX_MESSAGE
  {
    [InitialPacket(c, command, payload)] +
    Continuations(c, 0, payload[Min(|payload|, 57)..])
  }

  // -------------------------------------------------------------- reassembly

  predicate ValidKeepalive(p: Packet) {
    p[4] == KEEPALIVE + 128 && LengthOf(p) == 1 && (p[7] == 1 || p[7] == 2)
  }

  /** Reads the rest of a message of `length` bytes.  The response so far fixes the
      sequence number, so the counter stays a byte. */
  function ReadRest(stream: seq<Packet>, c: Channel, length: nat, response: seq<byte>, sequence: byte)
    : (Result<seq<byte>, HidError>, seq<Packet>)
    requires length <= MAX_MESSAGE && |response| == Min(length, 57 + sequence * 59)
    decreases |stream|
  {
    if |response| == length then (Ok(response), stream)
    else if stream == [] then (Err(Device), [])
    else
      var p := stream[0];
      if ChannelOf(p) != c then ReadRest(stream[1..], c, length, response, sequence)
      else if p[4] != sequence then (Err(Device), stream[1..])
      else
        var n := Min(length - |response|, 59);
        ReadRest(stream[1..], c, length, response + p[5..5 + n], sequence + 1)
  }

  function ReadMessage(stream: seq<Packet>, c: Channel, expected: byte)
    : (Result<seq<byte>, HidError>, seq<Packet>)
    decreases |stream|
  {
    if stream == [] then (Err(Device), [])
    else
      var p, rest := stream[0], stream[1..];
      var length := LengthOf(p);
      if ChannelOf(p) != c then ReadMessage(rest, c, expected)
      else if p[4] < 128 || length > MAX_MESSAGE then (Err(Device), rest)
      else if p[4] == KEEPALIVE + 128 then
        if ValidKeepalive(p) then ReadMessage(rest, c, expected) else (Err(Device), rest)
      else if p[4] == ERROR + 128 then
        (Err(if length == 1 && p[7] == INVALID_CHANNEL then InvalidChannel else Device), rest)
      else if p[4] != expected + 128 then (Err(Device), rest)
      else ReadRest(rest, c, length, p[7..7 + Min(length, 57)], 0)
  }

  // --------------------------------------------------- noise does not matter

  function OnChannel(stream: seq<Packet>, c: Channel): (r: seq<Packet>)
    ensures forall i | 0 <= i < |r| :: ChannelOf(r[i]) == c
  {
    if stream == [] then []
    else if ChannelOf(stream[0]) == c then [stream[0]] + OnChannel(stream[1..], c)
    else OnChannel(stream[1..], c)
  }

  lemma {:induction false} RestIgnoresNoise(stream: seq<Packet>, c: Channel, length: nat, response: seq<byte>,
                                            sequence: byte)
    requires length <= MAX_MESSAGE && |response| == Min(length, 57 + sequence * 59)
    ensures var (r, rest) := ReadRest(stream, c, length, response, sequence);
            ReadRest(OnChannel(stream, c), c, length, response, sequence) == (r, OnChannel(rest, c))
    decreases |stream|
  {
    if |response| != length && stream != [] {
      var p := stream[0];
      if ChannelOf(p) != c {
        RestIgnoresNoise(stream[1..], c, length, response, sequence);
      } else {
        assert OnChannel(stream, c)[1..] == OnChannel(stream[1..], c);
        if p[4] == sequence {
          var n := Min(length - |response|, 59);
          RestIgnoresNoise(stream[1..], c, length, response + p[5..5 + n], sequence + 1);
        }
      }
    }
  }

  /** Reports of other channels change neither the result nor what is left for
      this channel. */
  lemma {:induction false} ReadIgnoresNoise(stream: seq<Packet>, c: Channel, expected: byte)
    ensures var (r, rest) := ReadMessage(stream, c, expected);
            ReadMessage(OnChannel(stream, c), c, expected) == (r, OnChannel(rest, c))
    decreases |stream|
  {
    if stream != [] {
      var p := stream[0];
      var length := LengthOf(p);
      if ChannelOf(p) != c || (p[4] == KEEPALIVE + 128 && ValidKeepalive(p)) {
        ReadIgnoresNoise(stream[1..], c, expected);
        assert ChannelOf(p) == c ==> OnChannel(stream, c)[1..] == OnChannel(stream[1..], c);
      } else {
        assert OnChannel(stream, c)[1..] == OnChannel(stream[1..], c);
        if p[4] >= 128 && length <= MAX_MESSAGE {
          RestIgnoresNoise(stream[1..], c, length, p[7..7 + Min(length, 57)], 0);
        }
      }
    }
  }

  // -------------------------------------------------------------- round trip

  lemma ContinuationsHead(c: Channel, sequence: byte, data: seq<byte>, tail: seq<Packet>)
    requires 0 < |data| <= (128 - sequence) * 59
    ensures var n := Min(|data|, 59);
            var stream := Continuations(c, sequence, data) + tail;
            && ChannelOf(stream[0]) == c && stream[0][4] == sequence && stream[0][5..5 + n] == data[..n]
            && stream[1..] == Continuations(c, sequence + 1, data[n..]) + tail
  {
  }

  /** One continuation report of this channel, read in sequence. */
  lemma RestStep(stream: seq<Packet>, c: Channel, length: nat, response: seq<byte>, sequence: byte, chunk: seq<byte>)
    requires length <= MAX_MESSAGE && |response| == Min(length, 57 + sequence * 59) < length
    requires stream != [] && ChannelOf(stream[0]) == c && stream[0][4] == sequence
    requires |chunk| == Min(length - |response|, 59) && chunk == stream[0][5..5 + |chunk|]
    ensures ReadRest(stream, c, length, response, sequence) ==
            ReadRest(stream[1..], c, length, response + chunk, sequence + 1)
  {
  }

  lemma {:induction false} ContinuationsRoundTrip(c: Channel, sequence: byte, done: seq<byte>, data: seq<byte>,
                                                  tail: seq<Packet>)
    requires |done| + |data| <= MAX_MESSAGE && sequence <= 128
    requires |done| == Min(|done| + |data|, 57 + sequence * 59)
    requires |data| <= (128 - sequence) * 59
    ensures ReadRest(Continuations(c, sequence, data) + tail, c, |done| + |data|, done, sequence) ==
            (Ok(done + data), tail)
    decreases |data|
  {
    var stream := Continuations(c, sequence, data) + tail;
    if data == [] {
      assert done + data == done && stream == tail;
    } else {
      var chunk, data' := data[..Min(|data|, 59)], data[Min(|data|, 59)..];
      ContinuationsHead(c, sequence, data, tail);
      RestStep(stream, c, |done| + |data|, done, sequence, chunk);
      ContinuationsRoundTrip(c, sequence + 1, done + chunk, data', tail);
      assert done + chunk + data' == done + data;
    }
  }

  lemma MessageRoundTrip(c: Channel, command: byte, payload: seq<byte>, tail: seq<Packet>)
    requires command < 128 && command != KEEPALIVE && command != ERROR && |payload| <= MAX_MESSAGE
    ensures ReadMessage(Packets(c, command, payload) + tail, c, command) == (Ok(payload), tail)
  {
    var n := Min(|payload|, 57);
    var p := InitialPacket(c, command, payload);
    var stream := Packets(c, command, payload) + tail;
    assert stream[0] == p && stream[1..] == Continuations(c, 0, payload[n..]) + tail;
    assert p[..4] == c && p[7..7 + n] == payload[..n];
    assert LengthOf(p) == |payload|;
    ContinuationsRoundTrip(c, 0, payload[..n], payload[n..], tail);
    assert payload[..n] + payload[n..] == payload;
  }

  lemma {:induction false} KeepalivesAreSkipped(ks: seq<Packet>, stream: seq<Packet>, c: Channel, command: byte)
    requires forall i | 0 <= i < |ks| :: ChannelOf(ks[i]) == c && ValidKeepalive(ks[i])
    ensures ReadMessage(ks + stream, c, command) == ReadMessage(stream, c, command)
    decreases |ks|
  {
    if ks == [] {
      assert ks + stream == stream;
    } else {
      assert (ks + stream)[0] == ks[0] && (ks + stream)[1..] == ks[1..] + stream;
      KeepalivesAreSkipped(ks[1..], stream, c, command);
    }
  }

  lemma CleanRoundTrip(ks: seq<Packet>, c: Channel, command: byte, payload: seq<byte>, tail: seq<Packet>)
    requires command < 128 && command != KEEPALIVE && command != ERROR && |payload| <= MAX_MESSAGE
    requires forall i | 0 <= i < |ks| :: ChannelOf(ks[i]) == c && ValidKeepalive(ks[i])
    ensures ReadMessage(ks + Packets(c, command, payload) + tail, c, command) == (Ok(payload), tail)
  {
    var ps := Packets(c, command, payload);
    assert ks + ps + tail == ks + (ps + tail);
    KeepalivesAreSkipped(ks, ps + tail, c, command);
    MessageRoundTrip(c, command, payload, tail);
  }

  /** Framing is invertible on a shared, noisy channel: if what this channel sees
      is any number of valid keepalives, the reports of one message and anything
      after them, then the message is returned and the rest is left unread. */
  lemma RoundTrip(stream: seq<Packet>, ks: seq<Packet>, c: Channel, command: byte, payload: seq<byte>,
                  tail: seq<Packet>)
    requires command < 128 && command != KEEPALIVE && command != ERROR && |payload| <= MAX_MESSAGE
    requires forall i | 0 <= i < |ks| :: ChannelOf(ks[i]) == c && ValidKeepalive(ks[i])
    requires OnChannel(stream, c) == ks + Packets(c, command, payload) + tail
    ensures ReadMessage(stream, c, command).0 == Ok(payload)
    ensures OnChannel(ReadMessage(stream, c, command).1, c) == tail
  {
    CleanRoundTrip(ks, c, command, payload, tail);
    ReadIgnoresNoise(stream, c, command);
  }

  // ---------------------------------------------------------------- converse

  /** `p` and `q` agree on everything but the padding after `used` bytes. */
  ghost predicate SameUpTo(p: Packet, q: Packet, used: int) {
    0 <= used <= 64 && p[..used] == q[..used]
  }

  /** The continuation reports `ps` carry `data`, whatever their padding. */
  ghost predicate CarriesRest(ps: seq<Packet>, c: Channel, sequence: nat, data: seq<byte>)
    requires |data| <= (128 - sequence) * 59
  {
    var qs := Continuations(c, sequence, data);
    && |ps| == |qs|
    && forall i | 0 <= i < |ps| :: SameUpTo(ps[i], qs[i], 5 + Min(59, |data| - i * 59))
  }

  ghost predicate Carries(ps: seq<Packet>, c: Channel, command: byte, payload: seq<byte>)
    requires command < 128 && |payload| <= MAX_MESSAGE
  {
    && ps != []
    && SameUpTo(ps[0], InitialPacket(c, command, payload), 7 + Min(|payload|, 57))
    && CarriesRest(ps[1..], c, 0, payload[Min(|payload|, 57)..])
  }

  lemma CarriesCons(p: Packet, ps: seq<Packet>, c: Channel, sequence: nat, data: seq<byte>)
    requires 0 < |data| <= (128 - sequence) * 59
    requires var n := Min(|data|, 59);
             && SameUpTo(p, ContinuationPacket(c, sequence, data[..n]), 5 + n)
             && CarriesRest(ps, c, sequence + 1, data[n..])
    ensures CarriesRest([p] + ps, c, sequence, data)
  {
  }

  lemma ContinuationCarries(p: Packet, c: Channel, sequence: byte, chunk: seq<byte>)
    requires |chunk| <= 59
    requires ChannelOf(p) == c && p[4] == sequence && p[5..5 + |chunk|] == chunk
    ensures SameUpTo(p, ContinuationPacket(c, sequence, chunk), 5 + |chunk|)
  {
  }

  lemma {:induction false} RestConverse(stream: seq<Packet>, c: Channel, length: nat, response: seq<byte>,
                                        sequence: byte)
    returns (ps: seq<Packet>)
    requires length <= MAX_MESSAGE && |response| == Min(length, 57 + sequence * 59)
    requires forall i | 0 <= i < |stream| :: ChannelOf(stream[i]) == c
    requires ReadRest(stream, c, length, response, sequence).0.Ok?
    ensures var (r, rest) := ReadRest(stream, c, length, response, sequence);
            && |r.value| == length && response <= r.value
            && stream == ps + rest
            && (|response| == length ==> ps == [])
            && (|response| < length ==> sequence < 128 && CarriesRest(ps, c, sequence, r.value[|response|..]))
    decreases |stream|
  {
    ps := [];
    if |response| < length {
      var p := stream[0];
      var n := Min(length - |response|, 59);
      var chunk := p[5..5 + n];
      RestStep(stream, c, length, response, sequence, chunk);
      ps := RestConverse(stream[1..], c, length, response + chunk, sequence + 1);
      var data := ReadRest(stream, c, length, response, sequence).0.value[|response|..];
      assert data[..n] == chunk;
      assert CarriesRest(ps, c, sequence + 1, data[n..]) by { if n == |data| { assert data[n..] == []; } }
      ContinuationCarries(p, c, sequence, chunk);
      CarriesCons(p, ps, c, sequence, data);
      ps := [p] + ps;
    }
  }

  /** Every accepted response is the payload of the reports it was read from: what
      this channel saw is valid keepalives, then reports that equal the packetized
      response up to padding, then what is left unread. */
  lemma {:induction false} AcceptedIsPacketized(stream: seq<Packet>, c: Channel, command: byte)
    returns (ks: seq<Packet>, ps: seq<Packet>)
    requires command < 128
    requires ReadMessage(stream, c, command).0.Ok?
    ensures var (r, rest) := ReadMessage(stream, c, command);
            && |r.value| <= MAX_MESSAGE
            && (forall i | 0 <= i < |ks| :: ValidKeepalive(ks[i]))
            && Carries(ps, c, command, r.value)
            && OnChannel(stream, c) == ks + ps + OnChannel(rest, c)
  {
    ReadIgnoresNoise(stream, c, command);
    ks, ps := CleanConverse(OnChannel(stream, c), c, command);
  }

  lemma InitialCarries(p: Packet, c: Channel, command: byte, r: seq<byte>)
    requires command < 128 && |r| <= MAX_MESSAGE
    requires ChannelOf(p) == c && p[4] == command + 128 && LengthOf(p) == |r|
    requires p[7..7 + Min(|r|, 57)] == r[..Min(|r|, 57)]
    ensures SameUpTo(p, InitialPacket(c, command, r), 7 + Min(|r|, 57))
  {
  }

  lemma {:induction false} CleanConverse(stream: seq<Packet>, c: Channel, command: byte)
    returns (ks: seq<Packet>, ps: seq<Packet>)
    requires command < 128
    requires forall i | 0 <= i < |stream| :: ChannelOf(stream[i]) == c
    requires ReadMessage(stream, c, command).0.Ok?
    ensures var (r, rest) := ReadMessage(stream, c, command);
            && |r.value| <= MAX_MESSAGE
            && (forall i | 0 <= i < |ks| :: ValidKeepalive(ks[i]))
            && Carries(ps, c, command, r.value)
            && stream == ks + ps + rest
    decreases |stream|
  {
    var p := stream[0];
    if p[4] == KEEPALIVE + 128 {
      ks, ps := CleanConverse(stream[1..], c, command);
      ks := [p] + ks;
    } else {
      ks := [];
      ps := MessageConverse(stream, c, command);
    }
  }

  lemma MessageConverse(stream: seq<Packet>, c: Channel, command: byte) returns (ps: seq<Packet>)
    requires command < 128 && stream != [] && stream[0][4] != KEEPALIVE + 128
    requires forall i | 0 <= i < |stream| :: ChannelOf(stream[i]) == c
    requires ReadMessage(stream, c, command).0.Ok?
    ensures var (r, rest) := ReadMessage(stream, c, command);
            |r.value| <= MAX_MESSAGE && Carries(ps, c, command, r.value) && stream == ps + rest
  {
    var p := stream[0];
    var length := LengthOf(p);
    var n := Min(length, 57);
    ps := RestConverse(stream[1..], c, length, p[7..7 + n], 0);
    var (r, rest) := ReadMessage(stream, c, command);
    assert (r, rest) == ReadRest(stream[1..], c, length, p[7..7 + n], 0);
    InitialCarries(p, c, command, r.value);
    assert stream == [p] + ps + rest;
    if length <= 57 { assert r.value[n..] == []; }
    ps := [p] + ps;
    assert ps[1..] + rest == stream[1..];
  }

  // ------------------------------------------------------------ the wire format

  lemma {:induction false} ContinuationFormat(c: Channel, sequence: nat, data: seq<byte>, i: nat, j: nat)
    requires |data| <= (128 - sequence) * 59 && i < |Continuations(c, sequence, data)| && j < 64
    ensures |Continuations(c, sequence, data)| == (|data| + 58) / 59
    ensures Continuations(c, sequence, data)[i][j] ==
            if j < 4 then c[j] else if j == 4 then sequence + i
            else if 59 * i + j - 5 < |data| then data[59 * i + j - 5] else 0
    decreases |data|
  {
    if |data| > 59 && i > 0 { ContinuationFormat(c, sequence + 1, data[59..], i - 1, j); }
    else if |data| > 59 { ContinuationFormat(c, sequence + 1, data[59..], 0, j); }
  }

  /** The bytes of the reports of a message: the channel; 0x80 added to the command, and the
      payload length, high byte first, or the sequence number; the payload in order; zeros. */
  lemma ReportFormat(c: Channel, command: byte, payload: seq<byte>, i: nat, j: nat)
    requires command < 128 && |payload| <= 7609 && i < |Packets(c, command, payload)| && j < 64
    ensures |Packets(c, command, payload)| == if |payload| <= 57 then 1 else 1 + (|payload| - 57 + 58) / 59
    ensures Packets(c, command, payload)[i][j] ==
            if j < 4 then c[j]
            else if i == 0 then
              if j == 4 then command + 0x80 else if j == 5 then |payload| / 256 else if j == 6 then |payload| % 256
              else if j - 7 < |payload| then payload[j - 7] else 0
            else if j == 4 then i - 1
            else if 57 + 59 * (i - 1) + j - 5 < |payload| then payload[57 + 59 * (i - 1) + j - 5] else 0
  {
    var rest := payload[Min(|payload|, 57)..];
    if i > 0 { ContinuationFormat(c, 0, rest, i - 1, j); }
    else if rest != [] { ContinuationFormat(c, 0, rest, 0, j); }
  }

  // --------------------------------------------------------------- what fails

  /** A keepalive of one byte, 1 or 2. */
  predicate Waits(p: Packet) { p[4] == 0xbb && p[5] == 0 && p[6] == 1 && (p[7] == 1 || p[7] == 2) }

  /** An error report of one byte, 0x0b. */
  predicate Disowns(p: Packet) { p[4] == 0xbf && p[5] == 0 && p[6] == 1 && p[7] == 0x0b }

  /** The first report of the channel that is not such a keepalive, and what follows it. */
  function Decisive(stream: seq<Packet>, c: Channel): Option<(Packet, seq<Packet>)> {
    if stream == [] then None
    else if stream[0][..4] == c && !Waits(stream[0]) then Some((stream[0], stream[1..]))
    else Decisive(stream[1..], c)
  }

  lemma {:induction false} RestFailsAsDevice(stream: seq<Packet>, c: Channel, length: nat, response: seq<byte>,
                                             sequence: byte)
    requires length <= MAX_MESSAGE && |response| == Min(length, 57 + sequence * 59)
    ensures var r := ReadRest(stream, c, length, response, sequence).0; r.Err? ==> r.error == Device
    decreases |stream|
  {
    if |response| != length && stream != [] {
      var p := stream[0];
      if ChannelOf(p) != c {
        RestFailsAsDevice(stream[1..], c, length, response, sequence);
      } else if p[4] == sequence {
        var n := Min(length - |response|, 59);
        RestFailsAsDevice(stream[1..], c, length, response + p[5..5 + n], sequence + 1);
      }
    }
  }

  lemma WaitsAreKeepalives(p: Packet)
    ensures ValidKeepalive(p) <==> Waits(p)
    ensures LengthOf(p) == 1 <==> p[5] == 0 && p[6] == 1
  {
  }

  /** The decisive report decides: the channel is disowned exactly by an error report with
      that code, and the reader then stops behind it; a message is only read if it is an
      initial report of the expected command. */
  lemma {:induction false} DecisiveDecides(stream: seq<Packet>, c: Channel, expected: byte)
    requires expected < 128 && expected != 0x3b && expected != 0x3f
    ensures var (r, rest) := ReadMessage(stream, c, expected);
            var d := Decisive(stream, c);
            && (r == Err(InvalidChannel) <==> d.Some? && Disowns(d.value.0))
            && (d.Some? && d.value.0[4] != expected + 0x80 ==> r.Err? && rest == d.value.1)
            && (d.None? ==> r == Err(Device) && rest == [])
            && (r.Err? && r.error != InvalidChannel ==> r.error == Device)
    decreases |stream|
  {
    if stream != [] {
      var p := stream[0];
      WaitsAreKeepalives(p);
      if ChannelOf(p) != c || Waits(p) {
        DecisiveDecides(stream[1..], c, expected);
      } else if p[4] == expected + 128 && LengthOf(p) <= MAX_MESSAGE {
        RestFailsAsDevice(stream[1..], c, LengthOf(p), p[7..7 + Min(LengthOf(p), 57)], 0);
      }
    }
  }

  /** A decisive report that holds a whole message is that message. */
  lemma {:induction false} ShortMessageIsRead(stream: seq<Packet>, c: Channel, expected: byte)
    requires expected < 128 && expected != 0x3b && expected != 0x3f
    requires var d := Decisive(stream, c); d.Some? && d.value.0[4] == expected + 0x80 && LengthOf(d.value.0) <= 57
    ensures var (p, rest) := Decisive(stream, c).value;
            ReadMessage(stream, c, expected) == (Ok(p[7..7 + LengthOf(p)]), rest)
    decreases |stream|
  {
    var p := stream[0];
    WaitsAreKeepalives(p);
    if ChannelOf(p) != c || Waits(p) { ShortMessageIsRead(stream[1..], c, expected); }
  }
}
