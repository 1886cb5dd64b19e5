/** The ISO 7816 exchange in its own form: loops that send commands to a card. */
module Iso7816Connector {
  import opened Common
  import opened Iso7816

  function Drop(script: Script, n: nat): Script {
    if n <= |script| then script[n..] else []
  }

  /** The command repeated with the length that a 6Cxx status names. */
  function Corrected(c: Command, s: Status): Command {
    c.(le := Some(Available(s)))
  }

  class Connector {
    var script: Script
    var sent: seq<Command>

    method TransmitApdu(c: Command) returns (r: Result<Response, Code>)
      modifies this
      ensures !Encodable(c) ==> r == Err(DataLenRange) && sent == old(sent) && script == old(script)
      ensures Encodable(c) ==> sent == old(sent) + [c] && script == Drop(old(script), 1)
      ensures Encodable(c) ==>
                r == if old(script) == [] || old(script)[0].None? then Err(DeviceError) else Ok(old(script)[0].value)
    {
      if !Encodable(c) { return Err(DataLenRange); }
      sent := sent + [c];
      if script == [] { return Err(DeviceError); }
      var answer := script[0];
      script := script[1..];
      r := if answer.None? then Err(DeviceError) else Ok(answer.value);
    }

    /** Sends the plan of the command, as far as the replies allow. */
    method TransmitCommand(c: Command, caps: Capabilities) returns (r: Result<Response, Code>)
      modifies this
      ensures var plan := Plan(c, caps);
              if plan.Err? then r == Err(plan.error) && sent == old(sent) && script == old(script)
              else (r, sent, script) == Play(plan.value, old(script), old(sent))
    {
      if !NeedsExtended(c) || caps.extended {
        r := TransmitApdu(c.(extended := NeedsExtended(c) && caps.extended));
        return;
      }
      if c.le.Some? && c.le.value > 256 { return Err(DataLenRange); }
      if !caps.chaining || c.data == [] || Chained(c.cla) { return Err(ArgumentsBad); }
      var offset := 0;
      assert c.data[0..] == c.data;
      while true
        invariant offset < |c.data|
        invariant Play(Segments(c.(data := c.data[offset..])), script, sent) ==
                  Play(Segments(c), old(script), old(sent))
        decreases |c.data| - offset
      {
        var data := c.data[offset..Min(|c.data|, offset + 255)];
        var last := offset + |data| == |c.data|;
        var segment := Command(if last then c.cla else c.cla + 16, c.ins, c.p1, c.p2, data,
                               if last then c.le else None, false);
        SegmentsUnfold(c, offset);
        assert segment == Segments(c.(data := c.data[offset..]))[0];
        r := TransmitApdu(segment);
        if r.Err? || last { return; }
        if r.value != Response([], 0x9000) { return Err(DeviceError); }
        offset := offset + |data|;
      }
    }

    /** Collects the chain that starts with `first`, asking with instruction `ins`. */
    method CollectResponseChain(first: Response, ins: byte) returns (r: Result<Response, Code>)
      modifies this
      ensures (r, sent, script) == Collect(ins, [], 0, first, old(script), old(sent))
    {
      var data: seq<byte> := [];
      var segments := 0;
      var response := first;
      while response.status / 256 == 0x61
        invariant Collect(ins, data, segments, response, script, sent) ==
                  Collect(ins, [], 0, first, old(script), old(sent))
        decreases |script|
      {
        if segments + 1 > 256 || (segments > 0 && response.data == []) { return Err(DeviceError); }
        if |data| + |response.data| > 65536 { return Err(DeviceError); }
        var command := GetResponse(ins, response.status);
        data := data + response.data;
        r := TransmitApdu(command);
        if r.Err? { return Err(DeviceError); }
        segments := segments + 1;
        response := r.value;
      }
      if |data| + |response.data| > 65536 { return Err(DeviceError); }
      r := Ok(Response(data + response.data, response.status));
    }

    /** A whole exchange: the plan of the command, once more with the corrected
        length if the card asks for it, and the response chain. */
    method TransmitWithCapabilities(c: Command, caps: Capabilities) returns (r: Result<Response, Code>)
      modifies this
      ensures (r, sent, script) == Converse(c, caps, old(script), old(sent))
    {
      var command := c;
      r := TransmitCommand(command, caps);
      if r.Err? { return; }
      if r.value.status / 256 == 0x6c {
        command := Corrected(c, r.value.status);
        r := TransmitCommand(command, caps);
        if r.Err? { return; }
      }
      r := CollectResponseChain(r.value, 0xc0);
    }
  }

  /** Sending the plan of a command, or nothing when there is none. */
  function Started(c: Command, caps: Capabilities, script: Script, sent: seq<Command>)
    : (Result<Response, Code>, seq<Command>, Script)
  {
    var plan := Plan(c, caps);
    if plan.Err? then (Err(plan.error), sent, script) else Play(plan.value, script, sent)
  }

  function Converse(c: Command, caps: Capabilities, script: Script, sent: seq<Command>)
    : (Result<Response, Code>, seq<Command>, Script)
  {
    var first := Started(c, caps, script, sent);
    var last :=
      if first.0.Ok? && first.0.value.status / 256 == 0x6c
      then Started(Corrected(c, first.0.value.status), caps, first.2, first.1) else first;
    if last.0.Err? then last else Collect(0xc0, [], 0, last.0.value, last.2, last.1)
  }

  /** A result is complete and bounded, every planned command was sent, and the exchange
      is finite. */
  lemma ConverseIsComplete(c: Command, caps: Capabilities, script: Script, sent: seq<Command>)
    requires Converse(c, caps, script, sent).0.Ok?
    ensures var (r, sent', script') := Converse(c, caps, script, sent);
            && !MoreData(r.value.status) && |r.value.data| <= 65536
            && var plan := Plan(c, caps);
            && plan.Ok?
            && var first := Play(plan.value, script, sent).0;
            && first.Ok?
            && var sw := first.value.status;
            && var again := if sw / 256 == 0x6c
                            then Plan(c.(le := Some(if sw % 256 == 0 then 256 else sw % 256)), caps) else Ok([]);
            && again.Ok? && sent + plan.value + again.value <= sent'
            && |sent'| <= |sent| + |plan.value| + |again.value| + 256
  {
    PlaySendsThePlan(Plan(c, caps).value, script, sent);
    var first := Started(c, caps, script, sent);
    var last := first;
    if first.0.value.status / 256 == 0x6c {
      var retry := Corrected(c, first.0.value.status);
      PlaySendsThePlan(Plan(retry, caps).value, first.2, first.1);
      last := Started(retry, caps, first.2, first.1);
    }
    CollectIsBounded(0xc0, [], 0, last.0.value, last.2, last.1);
    CollectIsExact(0xc0, [], 0, last.0.value, last.2, last.1);
  }

  lemma SegmentsUnfold(c: Command, offset: nat)
    requires !Chained(c.cla) && offset < |c.data|
    ensures var now := c.(data := c.data[offset..]);
            var next := Min(|c.data|, offset + 255);
            Segments(now) ==
            if next == |c.data| then [now.(extended := false)]
            else [Command(c.cla + 16, c.ins, c.p1, c.p2, c.data[offset..next], None, false)]
                 + Segments(c.(data := c.data[next..]))
  {
    var now := c.(data := c.data[offset..]);
    if offset + 255 < |c.data| {
      assert now.data[..255] == c.data[offset..offset + 255] && now.data[255..] == c.data[offset + 255..];
    }
  }
}
