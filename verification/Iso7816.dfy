/** Short-APDU command chaining (section 5.1.1.1 of ISO/IEC 7816-4:2005) and
    response collection, against an abstract card. */
module Iso7816 {
  import opened Common

  type Status = s: int | 0 <= s < 0x1_0000

  datatype Code = ArgumentsBad | DataLenRange | DeviceError

  datatype Command = Command(cla: byte, ins: byte, p1: byte, p2: byte, data: seq<byte>, le: Option<nat>, extended: bool)
  datatype Response = Response(data: seq<byte>, status: Status)
  datatype Capabilities = Capabilities(chaining: bool, extended: bool)

  /** What the card or the transport answers, one entry per command; `None` is a
      failed transfer. */
  type Script = seq<Option<Response>>

  // ------------------------------------------------------- splitting commands

  predicate Chained(cla: byte) { cla / 16 % 2 == 1 }

  predicate NeedsExtended(c: Command) {
    |c.data| > 255 || (c.le.Some? && c.le.value > 256)
  }

  /** The lengths that the APDU encoder accepts. */
  predicate Encodable(c: Command) {
    |c.data| <= 65535 && (c.le.Some? ==> 0 < c.le.value <= 65536)
  }

  function Segments(c: Command): (r: seq<Command>)
    requires !Chained(c.cla)
    ensures r != []
    decreases |c.data|
  {
    if |c.data| <= 255 then [c.(extended := false)]
    else [Command(c.cla + 16, c.ins, c.p1, c.p2, c.data[..255], None, false)] + Segments(c.(data := c.data[255..]))
  }

  /** The commands that stand for `c`, or why there are none. */
  function Plan(c: Command, caps: Capabilities): (r: Result<seq<Command>, Code>)
    ensures r.Ok? ==> r.value != []
  {
    if !NeedsExtended(c) || caps.extended then Ok([c.(extended := NeedsExtended(c) && caps.extended)])
    else if c.le.Some? && c.le.value > 256 then Err(DataLenRange)
    else if !caps.chaining || Chained(c.cla) then Err(ArgumentsBad)
    else Ok(Segments(c))
  }

  /** Le fits a short command. */
  predicate ShortLe(c: Command) { c.le.None? || c.le.value <= 256 }

  /** A plan exists exactly for a short command, on a card with extended lengths, or, with
      a short Le and a class outside chaining, on a card with command chaining; an Le that is
      too long is the first thing refused. */
  lemma PlanExactly(c: Command, caps: Capabilities)
    ensures var plan := Plan(c, caps);
            var short := |c.data| <= 255 && ShortLe(c);
            && (plan.Ok? <==> short || caps.extended || (caps.chaining && c.cla / 16 % 2 == 0 && ShortLe(c)))
            && (plan.Err? ==> plan.error == if ShortLe(c) then ArgumentsBad else DataLenRange)
            && (plan.Ok? && (short || caps.extended) ==> plan.value == [c.(extended := !short)])
            && (plan.Ok? && !short && !caps.extended ==> |plan.value| > 1 && caps.chaining)
            && (plan.Ok? ==> forall i | 0 <= i < |plan.value| :: plan.value[i].extended ==> caps.extended)
  {
    if NeedsExtended(c) && !caps.extended && ShortLe(c) && caps.chaining && !Chained(c.cla) {
      forall i | 0 <= i < |Segments(c)| ensures !Segments(c)[i].extended { SegmentShape(c, i); }
      SegmentShape(c, 0);
    }
  }

  /** Sends the commands of a plan after those in `sent`: every reply but the last
      must be an empty 9000.  Returns the result, all commands sent and the replies
      not yet used. */
  function Play(plan: seq<Command>, script: Script, sent: seq<Command>): (Result<Response, Code>, seq<Command>, Script)
    requires plan != []
    decreases |plan|
  {
    if !Encodable(plan[0]) then (Err(DataLenRange), sent, script)
    else
      var sent1 := sent + [plan[0]];
      if script == [] then (Err(DeviceError), sent1, [])
      else if script[0].None? then (Err(DeviceError), sent1, script[1..])
      else if |plan| == 1 then (Ok(script[0].value), sent1, script[1..])
      else if script[0].value != Response([], 0x9000) then (Err(DeviceError), sent1, script[1..])
      else Play(plan[1..], script[1..], sent1)
  }

  /** Only commands of the plan are sent, in order; success means all of them. */
  lemma {:induction false} PlaySendsThePlan(plan: seq<Command>, script: Script, sent: seq<Command>)
    requires plan != []
    ensures sent <= Play(plan, script, sent).1 <= sent + plan
    ensures Play(plan, script, sent).0.Ok? ==>
              && Play(plan, script, sent).1 == sent + plan
              && |plan| <= |script| && Play(plan, script, sent).2 == script[|plan|..]
              && script[|plan| - 1] == Some(Play(plan, script, sent).0.value)
    decreases |plan|
  {
    assert sent + [plan[0]] + plan[1..] == sent + plan;
    if |plan| > 1 && script != [] { PlaySendsThePlan(plan[1..], script[1..], sent + [plan[0]]); }
  }

  /** A plan plays to the end exactly when every command can be encoded and answered, all
      but the last with an empty 9000. */
  lemma {:induction false} PlaySucceedsExactly(plan: seq<Command>, script: Script, sent: seq<Command>)
    requires plan != []
    ensures Play(plan, script, sent).0.Ok? <==>
            && |plan| <= |script|
            && (forall i | 0 <= i < |plan| ::
                  |plan[i].data| <= 65535 && (plan[i].le.Some? ==> 0 < plan[i].le.value <= 65536))
            && (forall i | 0 <= i < |plan| - 1 :: script[i] == Some(Response([], 0x9000)))
            && script[|plan| - 1].Some?
    decreases |plan|
  {
    if |plan| > 1 && script != [] {
      PlaySucceedsExactly(plan[1..], script[1..], sent + [plan[0]]);
      assert forall i | 0 < i < |plan| :: plan[i] == plan[1..][i - 1];
      assert forall i | 0 < i < |script| :: script[i] == script[1..][i - 1];
    }
  }

  /** A plan that fails is refused for a length, after answers that were all in order, or
      else fails as a device error. */
  lemma {:induction false} PlayFails(plan: seq<Command>, script: Script, sent: seq<Command>)
    requires plan != [] && Play(plan, script, sent).0.Err?
    ensures var (r, sent', _) := Play(plan, script, sent);
            var n := |sent'| - |sent|;
            && 0 <= n <= |plan| && (r.error == DataLenRange || r.error == DeviceError)
            && (r.error == DataLenRange <==>
                && n < |plan| && n <= |script| && (forall i | 0 <= i < n :: script[i] == Some(Response([], 0x9000)))
                && !(|plan[n].data| <= 65535 && (plan[n].le.Some? ==> 0 < plan[n].le.value <= 65536)))
    decreases |plan|
  {
    PlaySendsThePlan(plan, script, sent);
    if Encodable(plan[0]) && |plan| > 1 && script != [] && script[0] == Some(Response([], 0x9000)) {
      PlayFails(plan[1..], script[1..], sent + [plan[0]]);
      assert forall i | 0 < i < |plan| :: plan[i] == plan[1..][i - 1];
      assert forall i | 0 < i < |script| :: script[i] == script[1..][i - 1];
    }
  }

  // ---------------------------------------------------------- abstract card

  /** A complete command as the card's application sees it. */
  datatype Logical = Logical(cla: byte, ins: byte, p1: byte, p2: byte, data: seq<byte>, le: Option<nat>)

  datatype Card = Card(pending: Option<Logical>, delivered: seq<Logical>)

  predicate Continues(p: Option<Logical>, cla: byte, c: Command) {
    p.Some? && p.value.cla == cla && p.value.ins == c.ins && p.value.p1 == c.p1 && p.value.p2 == c.p2
  }

  /** Accumulates segments with class bit 0x10 and delivers the whole command when
      the bit is clear; a different header starts afresh. */
  function Receive(card: Card, c: Command): Card {
    var cla: byte := if Chained(c.cla) then c.cla - 16 else c.cla;
    var data := if Continues(card.pending, cla, c) then card.pending.value.data + c.data else c.data;
    if Chained(c.cla) then card.(pending := Some(Logical(cla, c.ins, c.p1, c.p2, data, None)))
    else Card(None, card.delivered + [Logical(cla, c.ins, c.p1, c.p2, data, c.le)])
  }

  function ReceiveAll(card: Card, cs: seq<Command>): Card
    decreases |cs|
  {
    if cs == [] then card else ReceiveAll(Receive(card, cs[0]), cs[1..])
  }

  lemma ChainBit(cla: byte)
    requires !Chained(cla)
    ensures cla + 16 < 256 && Chained(cla + 16)
  {
    assert (cla + 16) / 16 == cla / 16 + 1;
  }

  /** A segment with the chaining bit leaves the card waiting for the others. */
  lemma ReceiveSegment(card: Card, cla: byte, s: Command, done: seq<byte>)
    requires s.cla == cla + 16 && Chained(s.cla)
    requires if done == [] then card.pending.None?
             else card.pending == Some(Logical(cla, s.ins, s.p1, s.p2, done, None))
    ensures Receive(card, s) == Card(Some(Logical(cla, s.ins, s.p1, s.p2, done + s.data, None)), card.delivered)
  {
    assert done == [] ==> done + s.data == s.data;
  }

  lemma {:induction false} SegmentsDeliver(card: Card, c: Command, done: seq<byte>)
    requires !Chained(c.cla)
    requires if done == [] then card.pending.None?
             else card.pending == Some(Logical(c.cla, c.ins, c.p1, c.p2, done, None))
    ensures ReceiveAll(card, Segments(c)) ==
            Card(None, card.delivered + [Logical(c.cla, c.ins, c.p1, c.p2, done + c.data, c.le)])
    decreases |c.data|
  {
    var cs := Segments(c);
    if |c.data| <= 255 {
      assert ReceiveAll(card, cs) == ReceiveAll(Receive(card, cs[0]), []);
      assert [] + c.data == c.data;
    } else {
      var next := c.(data := c.data[255..]);
      assert cs[1..] == Segments(next);
      ChainBit(c.cla);
      ReceiveSegment(card, c.cla, cs[0], done);
      assert done + c.data[..255] != [] && done + c.data[..255] + c.data[255..] == done + c.data;
      SegmentsDeliver(Receive(card, cs[0]), next, done + c.data[..255]);
    }
  }

  /** Whatever the data length and the capabilities, an idle card that receives the
      planned commands ends up exactly as if it had received the one command. */
  lemma PlanDeliversTheCommand(c: Command, caps: Capabilities, delivered: seq<Logical>)
    requires Plan(c, caps).Ok?
    ensures ReceiveAll(Card(None, delivered), Plan(c, caps).value) == ReceiveAll(Card(None, delivered), [c])
  {
    var plan := Plan(c, caps).value;
    assert ReceiveAll(Card(None, delivered), [c]) == ReceiveAll(Receive(Card(None, delivered), c), []);
    if NeedsExtended(c) && !caps.extended {
      SegmentsDeliver(Card(None, delivered), c, []);
      assert [] + c.data == c.data;
    } else {
      assert ReceiveAll(Card(None, delivered), plan) == ReceiveAll(Receive(Card(None, delivered), plan[0]), []);
    }
  }

  /** Every segment but the last is full, chained and without Le; the last one has
      1 to 255 bytes, the original class and Le. */
  lemma {:induction false} SegmentShape(c: Command, i: nat)
    requires !Chained(c.cla) && c.data != [] && i < |Segments(c)|
    ensures |Segments(c)| == (|c.data| + 254) / 255
    ensures var s := Segments(c)[i];
            && s.ins == c.ins && s.p1 == c.p1 && s.p2 == c.p2 && !s.extended
            && (if i == |Segments(c)| - 1
                then s.cla == c.cla && s.le == c.le && s.data == c.data[255 * i..] && 1 <= |s.data| <= 255
                else s.cla == c.cla + 16 && s.le == None && 255 * (i + 1) < |c.data|
                     && s.data == c.data[255 * i..255 * (i + 1)])
    decreases |c.data|
  {
    if |c.data| > 255 {
      var next := c.(data := c.data[255..]);
      SegmentShape(next, if i == 0 then 0 else i - 1);
    }
  }

  // ------------------------------------------------------ collecting responses

  predicate MoreData(s: Status) { s / 256 == 0x61 }

  /** Le of the next GET RESPONSE. */
  function Available(s: Status): nat { if s % 256 == 0 then 256 else s % 256 }

  function GetResponse(ins: byte, s: Status): Command {
    Command(0, ins, 0, 0, [], Some(Available(s)), false)
  }

  /** Collects a response chain, asking with instruction `ins` after the commands in
      `sent`; returns the result, all commands sent and the replies not yet used. */
  function Collect(ins: byte, data: seq<byte>, segments: nat, response: Response, script: Script, sent: seq<Command>)
    : (Result<Response, Code>, seq<Command>, Script)
    decreases |script|
  {
    var all := data + response.data;
    if !MoreData(response.status) then
      (if |all| > 65536 then Err(DeviceError) else Ok(Response(all, response.status)), sent, script)
    else if segments + 1 > 256 || (segments > 0 && response.data == []) || |all| > 65536
    then (Err(DeviceError), sent, script)
    else
      var sent1 := sent + [GetResponse(ins, response.status)];
      if script == [] then (Err(DeviceError), sent1, [])
      else if script[0].None? then (Err(DeviceError), sent1, script[1..])
      else Collect(ins, all, segments + 1, script[0].value, script[1..], sent1)
  }

  function Concat(script: Script): seq<byte> {
    if script == [] then []
    else (if script[0].Some? then script[0].value.data else []) + Concat(script[1..])
  }

  predicate Continuation(ins: byte, c: Command) {
    c == Command(0, ins, 0, 0, [], c.le, false) && c.le.Some? && 1 <= c.le.value <= 256
  }

  /** Collection stops within 256 continuation commands. */
  lemma {:induction false} CollectIsBounded(ins: byte, data: seq<byte>, segments: nat, response: Response,
                                            script: Script, sent: seq<Command>)
    requires segments <= 256
    ensures var (r, sent', _) := Collect(ins, data, segments, response, script, sent);
            && sent <= sent' && segments + |sent'| - |sent| <= 256 && (r.Err? ==> r.error == DeviceError)
            && (|data| + |response.data| > 65536 ==> sent' == sent)
            && (forall i | |sent| <= i < |sent'| :: Continuation(ins, sent'[i]))
    decreases |script|
  {
    if MoreData(response.status) && segments < 256 && script != [] && script[0].Some? {
      CollectIsBounded(ins, data + response.data, segments + 1, script[0].value, script[1..],
                       sent + [GetResponse(ins, response.status)]);
    }
  }

  /** A collected response holds exactly the bytes of the replies that were used, in
      order, at most 65536 of them, one reply per command, and its status does not
      ask for more. */
  lemma {:induction false} CollectIsExact(ins: byte, data: seq<byte>, segments: nat, response: Response,
                                          script: Script, sent: seq<Command>)
    requires Collect(ins, data, segments, response, script, sent).0.Ok?
    ensures var (r, sent', script') := Collect(ins, data, segments, response, script, sent);
            var n := |sent'| - |sent|;
            && 0 <= n <= |script| && script' == script[n..]
            && r.value.data == data + response.data + Concat(script[..n])
            && |r.value.data| <= 65536 && !MoreData(r.value.status)
    decreases |script|
  {
    var all := data + response.data;
    if !MoreData(response.status) {
      assert all + Concat(script[..0]) == all;
    } else {
      var sent1 := sent + [GetResponse(ins, response.status)];
      CollectIsExact(ins, all, segments + 1, script[0].value, script[1..], sent1);
      var n := |Collect(ins, all, segments + 1, script[0].value, script[1..], sent1).1| - |sent|;
      assert script[..n][1..] == script[1..][..n - 1];
      var more := Concat(script[1..][..n - 1]);
      assert all + (script[0].value.data + more) == all + script[0].value.data + more;
    }
  }

  /** The first `n` replies continue what `response` began: everything before the last one
      asks for more, and after the first answer never without bringing data. */
  predicate Chains(response: Response, script: Script, n: nat, first: bool) {
    && n <= |script|
    && (forall i | 0 <= i < n :: script[i].Some?)
    && (if n == 0 then response.status / 256 != 0x61
        else response.status / 256 == 0x61 && (first || response.data != [])
             && (forall i | 0 <= i < n - 1 :: script[i].value.status / 256 == 0x61 && script[i].value.data != [])
             && script[n - 1].value.status / 256 != 0x61)
  }

  /** What is asked after `response` and each of the first `n` - 1 replies: as many bytes as
      the second status byte announces, 256 when it is zero. */
  function Questions(ins: byte, response: Response, script: Script, n: nat): seq<Command>
    requires n <= |script| && forall i | 0 <= i < n :: script[i].Some?
    decreases n
  {
    if n == 0 then []
    else
      var low := response.status % 256;
      [Command(0, ins, 0, 0, [], Some(if low == 0 then 256 else low), false)]
      + Questions(ins, script[0].value, script[1..], n - 1)
  }

  lemma ChainsRest(response: Response, script: Script, n: nat, first: bool)
    requires script != [] && script[0].Some? && n > 0
    ensures Chains(response, script, n, first) <==>
            && response.status / 256 == 0x61 && (first || response.data != [])
            && Chains(script[0].value, script[1..], n - 1, false)
  {
    assert forall i | 0 < i < |script| :: script[i] == script[1..][i - 1];
  }

  /** Collection succeeds exactly on a chain of at most 256 continuations and 65536 bytes; its
      answer is all the data with the last status, and each continuation asks for what the
      reply before it announced. */
  lemma {:induction false} CollectSucceeds(ins: byte, data: seq<byte>, segments: nat, response: Response,
                                           script: Script, sent: seq<Command>, n: nat)
    requires Chains(response, script, n, segments == 0) && segments + n <= 256
    requires |data| + |response.data| + |Concat(script[..n])| <= 65536
    ensures var last := if n == 0 then response else script[n - 1].value;
            var (r, sent', script') := Collect(ins, data, segments, response, script, sent);
            && r == Ok(Response(data + response.data + Concat(script[..n]), last.status))
            && script' == script[n..] && sent' == sent + Questions(ins, response, script, n)
    decreases n
  {
    var all := data + response.data;
    if n == 0 {
      assert script[..0] == [] && all + [] == all;
    } else {
      var sent1 := sent + [GetResponse(ins, response.status)];
      ChainsRest(response, script, n, segments == 0);
      assert script[..n][1..] == script[1..][..n - 1] && script[..n][0] == script[0];
      var more := Concat(script[1..][..n - 1]);
      assert Concat(script[..n]) == script[0].value.data + more;
      CollectSucceeds(ins, all, segments + 1, script[0].value, script[1..], sent1, n - 1);
      assert all + script[0].value.data + more == all + (script[0].value.data + more);
      var rest := Questions(ins, script[0].value, script[1..], n - 1);
      assert sent1 + rest == sent + ([GetResponse(ins, response.status)] + rest);
    }
  }

  /** Conversely, whatever is collected is such a chain. */
  lemma {:induction false} CollectedChains(ins: byte, data: seq<byte>, segments: nat, response: Response,
                                           script: Script, sent: seq<Command>)
    requires Collect(ins, data, segments, response, script, sent).0.Ok? && segments <= 256
    ensures var n := |Collect(ins, data, segments, response, script, sent).1| - |sent|;
            0 <= n && segments + n <= 256 && Chains(response, script, n, segments == 0)
    decreases |script|
  {
    if MoreData(response.status) {
      var sent1 := sent + [GetResponse(ins, response.status)];
      CollectedChains(ins, data + response.data, segments + 1, script[0].value, script[1..], sent1);
      var n := |Collect(ins, data, segments, response, script, sent).1| - |sent|;
      ChainsRest(response, script, n, segments == 0);
    }
  }

  // ------------------------------------------------- a card that serves a body

  function More(n: nat): Status { if n >= 256 then 0x6100 else 0x6100 + n }

  /** The replies of a card that owes `body` and is asked with the Le that follows
      from its previous status word. */
  function Served(body: seq<byte>, last: Status, final: Status): Script
    decreases |body|
  {
    var k := Min(Available(last), |body|);
    if k == |body| then [Some(Response(body, final))]
    else [Some(Response(body[..k], More(|body| - k)))] + Served(body[k..], More(|body| - k), final)
  }

  /** A body that a card announces with 61xx and serves in full segments comes back
      intact exactly when it fits into 65536 bytes, however many of its bytes the
      first reply already carried, even none. */
  lemma {:induction false} ServedBody(ins: byte, data: seq<byte>, segments: nat, chunk: seq<byte>, rest: seq<byte>,
                                      final: Status, sent: seq<Command>)
    requires rest != [] && !MoreData(final)
    requires segments > 0 ==> chunk != []
    requires segments == 0 || |data| + |chunk| >= 256 * segments
    ensures var (r, sent', script') := Collect(ins, data, segments, Response(chunk, More(|rest|)),
                                               Served(rest, More(|rest|), final), sent);
            if |data| + |chunk| + |rest| <= 65536
            then r == Ok(Response(data + chunk + rest, final)) && script' == []
                 && |sent'| == |sent| + (|rest| + 255) / 256
            else r == Err(DeviceError)
    decreases |rest|
  {
    var all := data + chunk;
    var k := Min(256, |rest|);
    assert Available(More(|rest|)) == k;
    var sent1 := sent + [GetResponse(ins, More(|rest|))];
    if segments < 256 && |all| <= 65536 {
      if k == |rest| {
        assert Collect(ins, all, segments + 1, Response(rest, final), [], sent1).1 == sent1;
      } else {
        ServedBody(ins, all, segments + 1, rest[..k], rest[k..], final, sent1);
        assert all + rest[..k] + rest[k..] == data + chunk + rest;
        var script := Served(rest, More(|rest|), final);
        assert script[1..] == Served(rest[k..], More(|rest| - k), final);
      }
    }
  }
}
