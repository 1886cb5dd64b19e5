/** The CTAPHID code in its own form: packet buffers filled in place, a reader that
    consumes a report stream, and the transport that owns the connection. */
module CtapHidTransport {
  import opened Common
  import opened CtapHid

  const CTAPHID_INIT: byte := 0x06
  const CTAPHID_CBOR: byte := 0x10
  const BROADCAST: Channel := [255, 255, 255, 255]

  // ------------------------------------------------------------- packetizing

  method CopyInto(buffer: array<byte>, offset: nat, data: seq<byte>)
    requires offset + |data| <= buffer.Length
    modifies buffer
    ensures buffer[..] == old(buffer[..offset]) + data + old(buffer[offset + |data|..])
  {
    forall i | 0 <= i < |data| { buffer[offset + i] := data[i]; }
  }

  /** Splits a message into reports, or refuses it. */
  method Packetize(c: Channel, command: byte, payload: seq<byte>) returns (r: Result<seq<Packet>, HidError>)
    ensures r.Ok? <==> command < 128 && |payload| <= MAX_MESSAGE
    ensures r.Ok? ==> r.value == Packets(c, command, payload)
    ensures r.Err? ==> r.error == ArgumentsBad
  {
    if command >= 128 || |payload| > MAX_MESSAGE { return Err(ArgumentsBad); }
    var offset := Min(|payload|, 57);
    var initial := FillInitial(c, command, payload);
    var packets: seq<Packet> := [initial];
    var sequence := 0;
    while offset < |payload|
      invariant offset == Min(|payload|, 57 + 59 * sequence)
      invariant packets + Continuations(c, sequence, payload[offset..]) == Packets(c, command, payload)
      decreases |payload| - offset
    {
      if sequence >= 128 { return Err(ArgumentsBad); }
      var chunk := payload[offset..Min(|payload|, offset + 59)];
      ContinuationsUnfold(c, sequence, payload, offset);
      var continuation := FillContinuation(c, sequence, chunk);
      packets := packets + [continuation];
      offset := offset + |chunk|;
      sequence := sequence + 1;
    }
    assert payload[offset..] == [];
    r := Ok(packets);
  }

  lemma ContinuationsUnfold(c: Channel, sequence: byte, payload: seq<byte>, offset: nat)
    requires offset < |payload| && |payload| - offset <= (128 - sequence) * 59
    ensures var next := Min(|payload|, offset + 59);
            Continuations(c, sequence, payload[offset..]) ==
            [ContinuationPacket(c, sequence, payload[offset..next])] + Continuations(c, sequence + 1, payload[next..])
  {
    var data, next := payload[offset..], Min(|payload|, offset + 59);
    assert data[..next - offset] == payload[offset..next] && data[next - offset..] == payload[next..];
  }

  method FillInitial(c: Channel, command: byte, payload: seq<byte>) returns (p: Packet)
    requires command < 128 && |payload| <= MAX_MESSAGE
    ensures p == InitialPacket(c, command, payload)
  {
    var buffer := new byte[64](_ => 0);
    assert buffer[..] == Zeros(64);
    CopyInto(buffer, 0, c);
    buffer[4] := command + 128;
    buffer[5], buffer[6] := |payload| / 256, |payload| % 256;
    ghost var head := c + [command + 128, |payload| / 256, |payload| % 256];
    assert buffer[..] == head + Zeros(57);
    var n := Min(|payload|, 57);
    CopyInto(buffer, 7, payload[..n]);
    assert (head + Zeros(57))[..7] == head && (head + Zeros(57))[7 + n..] == Zeros(57 - n);
    p := buffer[..];
  }

  method FillContinuation(c: Channel, sequence: byte, chunk: seq<byte>) returns (p: Packet)
    requires |chunk| <= 59
    ensures p == ContinuationPacket(c, sequence, chunk)
  {
    var buffer := new byte[64](_ => 0);
    assert buffer[..] == Zeros(64);
    CopyInto(buffer, 0, c);
    buffer[4] := sequence;
    CopyInto(buffer, 5, chunk);
    p := buffer[..];
  }

  // ------------------------------------------------------------ the transport

  datatype Init = Init(channel: Channel, protocolVersion: byte, firmware: (byte, byte, byte), capabilities: byte)

  predicate SupportsCbor(i: Init) { i.capabilities / 4 % 2 == 1 }

  /** The answer to a channel allocation with this nonce. */
  function ParseInit(response: seq<byte>, nonce: seq<byte>): Option<Init> {
    if |nonce| != 8 || |response| < 17 || response[..8] != nonce then None
    else if response[8..12] == [0, 0, 0, 0] || response[8..12] == BROADCAST then None
    else Some(Init(response[8..12], response[12], (response[13], response[14], response[15]), response[16]))
  }

  // --------------------------------------------------------- one transaction

  /** The reports still to be read, the ones written, and the number of reports that
      the device still takes before a write fails. */
  datatype Wire = Wire(incoming: seq<Packet>, outgoing: seq<Packet>, writable: nat)

  function Written(w: Wire, ps: seq<Packet>): (Wire, bool) {
    if w.writable >= |ps| then (w.(outgoing := w.outgoing + ps, writable := w.writable - |ps|), true)
    else (w.(outgoing := w.outgoing + ps[..w.writable], writable := 0), false)
  }

  /** A message that cannot be packetized is refused before anything is written. */
  function Sent(w: Wire, c: Channel, command: byte, payload: seq<byte>): (Wire, Option<HidError>) {
    if command >= 128 || |payload| > MAX_MESSAGE then (w, Some(ArgumentsBad))
    else
      var (w1, written) := Written(w, Packets(c, command, payload));
      (w1, if written then None else Some(Device))
  }

  function Exchanged(w: Wire, c: Channel, command: byte, payload: seq<byte>): (Wire, Result<seq<byte>, HidError>) {
    var (w1, failure) := Sent(w, c, command, payload);
    if failure.Some? then (w1, Err(failure.value))
    else
      var (r, rest) := ReadMessage(w1.incoming, c, command);
      (w1.(incoming := rest), r)
  }

  function Initialized(w: Wire, nonce: seq<byte>): (Wire, Result<Init, HidError>)
    requires |nonce| == 8
  {
    var (w1, response) := Exchanged(w, BROADCAST, CTAPHID_INIT, nonce);
    if response.Err? then (w1, Err(Device))
    else
      var parsed := ParseInit(response.value, nonce);
      (w1, if parsed.None? then Err(Device) else Ok(parsed.value))
  }

  /** One CTAP transaction: once more on a new channel, only when the device disowned
      the old one; any other failure disconnects. */
  function Transacted(w: Wire, init: Option<Init>, request: seq<byte>, nonce: seq<byte>)
    : (Wire, Option<Init>, Result<seq<byte>, HidError>)
    requires |nonce| == 8
  {
    if request == [] || |request| > MAX_MESSAGE then (w, init, Err(ArgumentsBad))
    else if init.None? then (w, None, Err(Device))
    else
      var (w1, r) := Exchanged(w, init.value.channel, CTAPHID_CBOR, request);
      if r.Ok? then (w1, init, r)
      else if r.error != InvalidChannel then (w1, None, r)
      else
        var (w2, renewed) := Initialized(w1, nonce);
        if renewed.Err? || !SupportsCbor(renewed.value) then (w2, None, Err(Device))
        else
          var (w3, again) := Exchanged(w2, renewed.value.channel, CTAPHID_CBOR, request);
          if again.Ok? then (w3, Some(renewed.value), again) else (w3, None, Err(Device))
  }

  /** A message with a command byte below 128 and at most 7609 bytes is written report by
      report, as far as the device takes it; any other is refused and nothing is written. */
  lemma SentExactly(w: Wire, c: Channel, command: byte, payload: seq<byte>)
    ensures var (w', failure) := Sent(w, c, command, payload);
            if command >= 128 || |payload| > 7609 then w' == w && failure == Some(ArgumentsBad)
            else
              var ps := Packets(c, command, payload);
              var n := Min(w.writable, |ps|);
              && w' == Wire(w.incoming, w.outgoing + ps[..n], w.writable - n)
              && failure == if n == |ps| then None else Some(Device)
  {
    if command < 128 && |payload| <= MAX_MESSAGE {
      var ps := Packets(c, command, payload);
      assert ps[..|ps|] == ps;
    }
  }

  /** Which answers grant a channel, and what they say. */
  lemma ParseInitExactly(response: seq<byte>, nonce: seq<byte>, i: Init)
    requires |nonce| == 8
    ensures ParseInit(response, nonce) == Some(i) <==>
            && |response| >= 17 && response[..8] == nonce && i.channel == response[8..12]
            && response[8..12] != [0, 0, 0, 0] && response[8..12] != [255, 255, 255, 255]
            && i.protocolVersion == response[12] && i.capabilities == response[16]
            && i.firmware.0 == response[13] && i.firmware.1 == response[14] && i.firmware.2 == response[15]
  {
  }

  /** An empty or too long request is refused and nothing changes; a transport without a
      channel fails and nothing is written; every other failure is a device error. */
  lemma FailuresOfATransaction(w: Wire, init: Option<Init>, request: seq<byte>, nonce: seq<byte>)
    requires |nonce| == 8
    ensures var (w', init', r) := Transacted(w, init, request, nonce);
            if |request| == 0 || |request| > 7609 then w' == w && init' == init && r == Err(ArgumentsBad)
            else if init == None then w' == w && init' == None && r == Err(Device)
            else r.Err? ==> r == Err(Device) && init' == None
    ensures var r := Initialized(w, nonce).1; r.Err? ==> r == Err(Device)
  {
    if init.Some? { DecisiveDecides(w.incoming, init.value.channel, CTAPHID_CBOR); }
  }

  /** A response is what was read on the channel that is allocated afterwards.  The
      request was written once, or, only after the device disowned the channel, once more
      on a freshly allocated channel.  A well-formed request that fails leaves the
      transport disconnected. */
  lemma TransactionMeaning(w: Wire, init: Option<Init>, request: seq<byte>, nonce: seq<byte>)
    requires |nonce| == 8 && 0 < |request| <= MAX_MESSAGE
    ensures var (w', init', r) := Transacted(w, init, request, nonce);
            && (r.Ok? <==> init'.Some?)
            && (r.Ok? ==>
                  && init.Some?
                  && var once := w.outgoing + Packets(init.value.channel, CTAPHID_CBOR, request);
                  && var first := ReadMessage(w.incoming, init.value.channel, CTAPHID_CBOR);
                  if first.0.Ok? then
                    init' == init && w'.outgoing == once && (r, w'.incoming) == first
                  else
                    && first.0 == Err(InvalidChannel)
                    && var granted := ReadMessage(first.1, BROADCAST, CTAPHID_INIT);
                    && granted.0.Ok? && ParseInit(granted.0.value, nonce) == init' && SupportsCbor(init'.value)
                    && w'.outgoing == once + Packets(BROADCAST, CTAPHID_INIT, nonce)
                                      + Packets(init'.value.channel, CTAPHID_CBOR, request)
                    && (r, w'.incoming) == ReadMessage(granted.1, init'.value.channel, CTAPHID_CBOR))
  {
  }

  /** On a connected transport that can write the request, a device that answers with a
      packetized response, after any keepalives and among any reports of other channels,
      has that response returned. */
  lemma AnswerIsReturned(w: Wire, i: Init, request: seq<byte>, nonce: seq<byte>, ks: seq<Packet>,
                         response: seq<byte>, tail: seq<Packet>)
    requires |nonce| == 8 && 0 < |request| <= MAX_MESSAGE && |response| <= MAX_MESSAGE
    requires w.writable >= |Packets(i.channel, CTAPHID_CBOR, request)|
    requires forall k | 0 <= k < |ks| :: ChannelOf(ks[k]) == i.channel && ValidKeepalive(ks[k])
    requires OnChannel(w.incoming, i.channel) == ks + Packets(i.channel, CTAPHID_CBOR, response) + tail
    ensures Transacted(w, Some(i), request, nonce).1 == Some(i)
    ensures Transacted(w, Some(i), request, nonce).2 == Ok(response)
    ensures OnChannel(Transacted(w, Some(i), request, nonce).0.incoming, i.channel) == tail
  {
    RoundTrip(w.incoming, ks, i.channel, CTAPHID_CBOR, response, tail);
  }

  /** Unless the device disowns the channel with that error report, the request is written
      once, as far as the device takes it, and nothing else is. */
  lemma WrittenOnceUnlessDisowned(w: Wire, i: Init, request: seq<byte>, nonce: seq<byte>)
    requires |nonce| == 8 && 0 < |request| <= MAX_MESSAGE
    requires var d := Decisive(w.incoming, i.channel); d.None? || !Disowns(d.value.0)
    ensures var (w', init', r) := Transacted(w, Some(i), request, nonce);
            var ps := Packets(i.channel, 0x10, request);
            && w'.outgoing == w.outgoing + ps[..Min(w.writable, |ps|)]
            && (r.Err? ==> r == Err(Device) && init' == None)
            && (w.writable < |ps| ==> r.Err? && w'.incoming == w.incoming)
  {
    DecisiveDecides(w.incoming, i.channel, CTAPHID_CBOR);
    var ps := Packets(i.channel, 0x10, request);
    assert ps[..|ps|] == ps;
  }

  /** The report grants a channel for this nonce to a device that speaks CBOR: 17 bytes or
      more in one report, with the nonce, a channel that is neither zero nor the broadcast
      one, four version bytes and the capabilities, whose bit 2 is set. */
  predicate Grants(p: Packet, nonce: seq<byte>) {
    && p[4] == 0x86 && p[5] == 0 && 17 <= p[6] <= 57 && p[7..15] == nonce
    && p[15..19] != [0, 0, 0, 0] && p[15..19] != [255, 255, 255, 255] && p[23] / 4 % 2 == 1
  }

  lemma SliceOfSlice(p: seq<byte>, a: nat, b: nat, i: nat, j: nat)
    requires a <= b <= |p| && i <= j <= b - a
    ensures p[a..b][i..j] == p[a + i..a + j]
  {
    assert forall k | 0 <= k < j - i :: p[a..b][i..j][k] == p[a + i..a + j][k];
  }

  lemma GrantedChannel(w: Wire, nonce: seq<byte>)
    requires |nonce| == 8 && w.writable > 0
    requires var d := Decisive(w.incoming, [255, 255, 255, 255]); d.Some? && Grants(d.value.0, nonce)
    ensures var (p, rest) := Decisive(w.incoming, [255, 255, 255, 255]).value;
            var (w', granted) := Initialized(w, nonce);
            && granted == Ok(Init(p[15..19], p[19], (p[20], p[21], p[22]), p[23])) && SupportsCbor(granted.value)
            && w' == Wire(rest, w.outgoing + Packets([255, 255, 255, 255], 0x06, nonce), w.writable - 1)
  {
    var p := Decisive(w.incoming, BROADCAST).value.0;
    ShortMessageIsRead(w.incoming, BROADCAST, CTAPHID_INIT);
    SliceOfSlice(p, 7, 7 + LengthOf(p), 0, 8);
    SliceOfSlice(p, 7, 7 + LengthOf(p), 8, 12);
    assert p[7..7 + LengthOf(p)][0..8] == p[7..7 + LengthOf(p)][..8];
  }

  /** A device that disowns the channel, grants a new one on request and answers there has
      that answer returned, and the transport goes on with the new channel. */
  lemma RenewedChannelAnswers(w: Wire, i: Init, request: seq<byte>, nonce: seq<byte>, ks: seq<Packet>,
                              response: seq<byte>, tail: seq<Packet>)
    requires |nonce| == 8 && 0 < |request| <= MAX_MESSAGE && |response| <= MAX_MESSAGE
    requires var d := Decisive(w.incoming, i.channel); d.Some? && Disowns(d.value.0)
    requires var d := Decisive(Decisive(w.incoming, i.channel).value.1, [255, 255, 255, 255]);
             d.Some? && Grants(d.value.0, nonce)
    requires var (p, rest) := Decisive(Decisive(w.incoming, i.channel).value.1, [255, 255, 255, 255]).value;
             && (forall k | 0 <= k < |ks| :: ChannelOf(ks[k]) == p[15..19] && ValidKeepalive(ks[k]))
             && OnChannel(rest, p[15..19]) == ks + Packets(p[15..19], 0x10, response) + tail
             && w.writable > |Packets(i.channel, 0x10, request)| + |Packets(p[15..19], 0x10, request)|
    ensures var p := Decisive(Decisive(w.incoming, i.channel).value.1, [255, 255, 255, 255]).value.0;
            var (w', init', r) := Transacted(w, Some(i), request, nonce);
            && r == Ok(response) && init' == Some(Init(p[15..19], p[19], (p[20], p[21], p[22]), p[23]))
            && w'.outgoing == w.outgoing + Packets(i.channel, 0x10, request)
                              + Packets([255, 255, 255, 255], 0x06, nonce) + Packets(p[15..19], 0x10, request)
  {
    DecisiveDecides(w.incoming, i.channel, CTAPHID_CBOR);
    var (w1, _) := Exchanged(w, i.channel, CTAPHID_CBOR, request);
    assert w1.incoming == Decisive(w.incoming, i.channel).value.1;
    GrantedChannel(w1, nonce);
    var (p, rest) := Decisive(w1.incoming, [255, 255, 255, 255]).value;
    RoundTrip(rest, ks, p[15..19], CTAPHID_CBOR, response, tail);
  }

  /** `writable` is the number of reports that the device still takes before a
      write fails. */
  class Transport {
    var incoming: seq<Packet>
    var outgoing: seq<Packet>
    var writable: nat
    var open: bool
    var init: Option<Init>

    ghost predicate Valid()
      reads this
    {
      open <==> init.Some?
    }

    function View(): Wire
      reads this
    {
      Wire(incoming, outgoing, writable)
    }

    method ReadPacket() returns (p: Option<Packet>)
      modifies this`incoming
      ensures old(incoming) == [] ==> p == None && incoming == []
      ensures old(incoming) != [] ==> p == Some(old(incoming)[0]) && incoming == old(incoming)[1..]
    {
      if incoming == [] { return None; }
      p := Some(incoming[0]);
      incoming := incoming[1..];
    }

    method ReceiveMessage(c: Channel, expected: byte) returns (r: Result<seq<byte>, HidError>)
      modifies this`incoming
      ensures (r, incoming) == ReadMessage(old(incoming), c, expected)
    {
      while incoming != []
        invariant ReadMessage(incoming, c, expected) == ReadMessage(old(incoming), c, expected)
        decreases |incoming|
      {
        var packet := ReadPacket();
        var p := packet.value;
        if ChannelOf(p) != c { continue; }
        if p[4] < 128 { return Err(Device); }
        var command, length := p[4] - 128, LengthOf(p);
        if length > MAX_MESSAGE { return Err(Device); }
        if command == KEEPALIVE {
          if length != 1 || (p[7] != 1 && p[7] != 2) { return Err(Device); }
          continue;
        }
        if command == ERROR {
          return Err(if length == 1 && p[7] == INVALID_CHANNEL then InvalidChannel else Device);
        }
        if command != expected { return Err(Device); }
        r := ReceiveRest(c, length, p[7..7 + Min(length, 57)]);
        return;
      }
      r := Err(Device);
    }

    method ReceiveRest(c: Channel, length: nat, first: seq<byte>) returns (r: Result<seq<byte>, HidError>)
      requires length <= MAX_MESSAGE && |first| == Min(length, 57)
      modifies this`incoming
      ensures (r, incoming) == ReadRest(old(incoming), c, length, first, 0)
    {
      var response, sequence: byte := first, 0;
      while |response| < length
        invariant |response| == Min(length, 57 + sequence * 59)
        invariant ReadRest(incoming, c, length, response, sequence) == ReadRest(old(incoming), c, length, first, 0)
        decreases |incoming|, length - |response|
      {
        var packet := ReadPacket();
        if packet.None? { return Err(Device); }
        var p := packet.value;
        if ChannelOf(p) != c { continue; }
        if p[4] != sequence { return Err(Device); }
        response := response + p[5..5 + Min(length - |response|, 59)];
        sequence := sequence + 1;
      }
      r := Ok(response);
    }

    method WriteMessage(c: Channel, command: byte, payload: seq<byte>) returns (failure: Option<HidError>)
      modifies this`outgoing, this`writable
      ensures (View(), failure) == Sent(old(View()), c, command, payload)
    {
      var packets := Packetize(c, command, payload);
      if packets.Err? { return Some(packets.error); }
      var ps := packets.value;
      var i := 0;
      while i < |ps|
        invariant 0 <= i <= |ps| && i <= old(writable)
        invariant writable == old(writable) - i && outgoing == old(outgoing) + ps[..i]
      {
        if writable == 0 { return Some(Device); }
        outgoing := outgoing + [ps[i]];
        writable := writable - 1;
        i := i + 1;
      }
      assert ps[..|ps|] == ps;
      failure := None;
    }

    method Exchange(c: Channel, command: byte, payload: seq<byte>) returns (r: Result<seq<byte>, HidError>)
      modifies this`incoming, this`outgoing, this`writable
      ensures (View(), r) == Exchanged(old(View()), c, command, payload)
    {
      var failure := WriteMessage(c, command, payload);
      if failure.Some? { return Err(failure.value); }
      r := ReceiveMessage(c, command);
    }

    method InitializeChannel(nonce: seq<byte>) returns (r: Result<Init, HidError>)
      requires |nonce| == 8
      modifies this`incoming, this`outgoing, this`writable
      ensures (View(), r) == Initialized(old(View()), nonce)
    {
      var response := Exchange(BROADCAST, CTAPHID_INIT, nonce);
      if response.Err? { return Err(Device); }
      var parsed := ParseInit(response.value, nonce);
      r := if parsed.None? then Err(Device) else Ok(parsed.value);
    }

    method Disconnect()
      modifies this`open, this`init
      ensures !open && init == None
    {
      open, init := false, None;
    }

    /** Replaces the connection only when the new one allocates a channel and
        supports CBOR; `this` then talks to the new device. */
    method Reconnect(device: Transport, nonce: seq<byte>) returns (r: Result<Init, HidError>)
      requires |nonce| == 8 && device != this && Valid()
      modifies this, device`incoming, device`outgoing, device`writable
      ensures Valid()
      ensures var (w, granted) := Initialized(old(device.View()), nonce);
              if granted.Ok? && SupportsCbor(granted.value)
              then r == granted && open && init == Some(granted.value) && View() == w
              else r == Err(Device) && open == old(open) && init == old(init) && View() == old(View())
    {
      r := device.InitializeChannel(nonce);
      if r.Err? { return; }
      if !SupportsCbor(r.value) { return Err(Device); }
      incoming, outgoing, writable := device.incoming, device.outgoing, device.writable;
      open, init := true, Some(r.value);
    }

    method Transact(request: seq<byte>, nonce: seq<byte>) returns (r: Result<seq<byte>, HidError>)
      requires |nonce| == 8 && Valid()
      modifies this
      ensures Valid()
      ensures (View(), init, r) == Transacted(old(View()), old(init), request, nonce)
    {
      if request == [] || |request| > MAX_MESSAGE { return Err(ArgumentsBad); }
      if !open { return Err(Device); }
      r := Exchange(init.value.channel, CTAPHID_CBOR, request);
      if r.Ok? { return; }
      if r.error != InvalidChannel {
        Disconnect();
        return;
      }
      var renewed := InitializeChannel(nonce);
      if renewed.Err? || !SupportsCbor(renewed.value) {
        Disconnect();
        return Err(Device);
      }
      init := Some(renewed.value);
      r := Exchange(renewed.value.channel, CTAPHID_CBOR, request);
      if r.Err? {
        Disconnect();
        return Err(Device);
      }
    }
  }
}
