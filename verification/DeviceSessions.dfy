/** The serial-owned device under the applets of a reader: which of its steps replace the
    connection that the applets talk over, and which of them the applets can see in the
    published epoch. */
module DeviceSessions {
  import opened Common
  import B = DeviceBinding
  import opened SecureChannel
  import opened SecureChannelRuns
  import opened SecureChannelTheorems

  /** The reader and generation that an APDU goes to now. */
  function PlaceNow(d: B.State): Place {
    var reader := B.Selected(d.binding);
    (reader, d.generations(reader))
  }

  /** What the applets meet when the device goes from `d` to `d'`. */
  function Met(d: B.State, d': B.State): seq<Interlude> {
    var published := d'.binding.epoch != d.binding.epoch;
    if published || PlaceNow(d') != PlaceNow(d) then [Replacement(PlaceNow(d'), published)] else []
  }

  function MetAll(w: B.World, d: B.State, ops: seq<B.Op>): seq<Interlude>
    decreases |ops|
  {
    if ops == [] || !B.Enabled(w, d, ops[0]) then []
    else
      var d' := B.Step(w, d, ops[0]).0;
      Met(d, d') + MetAll(w, d', ops[1..])
  }

  /** A step that binds another reader, or accepts a new generation. */
  predicate Binds(w: B.World, d: B.State, op: B.Op)
    requires B.Enabled(w, d, op)
  {
    && B.Step(w, d, op).1.Success?
    && (op.Rebind? || (op.RefreshNow? && op.reply.generation != d.binding.observed))
  }

  /** A step that moves the bound reader to a generation that is not accepted, or that was
      accepted before it was reached. */
  predicate Slips(w: B.World, d: B.State, op: B.Op)
    requires B.Enabled(w, d, op)
  {
    && !Binds(w, d, op)
    && (|| (op.Reconnect? && op.reader == d.binding.current)
        || (op.RefreshNow? && d.binding.present && op.reply.generation != d.generations(d.binding.current)))
  }

  /** The published epoch grows by one exactly at the steps that bind, and the connection is
      replaced without it exactly at the steps that slip. */
  lemma MetExactly(w: B.World, d: B.State, op: B.Op)
    requires B.Exclusive(d) && B.Enabled(w, d, op)
    ensures var d' := B.Step(w, d, op).0;
            && d'.binding.epoch == d.binding.epoch + (if Binds(w, d, op) then 1 else 0)
            && Met(d, d') == if Binds(w, d, op) then [Replacement(PlaceNow(d'), true)]
                             else if Slips(w, d, op) then [Replacement(PlaceNow(d'), false)]
                             else []
  {
    B.ExclusiveStep(w, d, op);
  }

  /** While an operation has claimed its reader, APDUs go to that reader. */
  lemma ClaimKeepsReader(w: B.World, d: B.State, op: B.Op)
    requires B.Exclusive(d) && B.Enabled(w, d, op) && d.binding.active.Some?
    ensures PlaceNow(B.Step(w, d, op).0).0 == PlaceNow(d).0
  {
    B.ExclusiveStep(w, d, op);
  }

  /** The reader state has the device's epoch as that of its base, and its place. */
  ghost predicate Follows(s: State, d: B.State) {
    s.base == d.binding.epoch && PlaceOf(s.trace) == Some(PlaceNow(d))
  }

  lemma FollowsStep(w: B.World, d: B.State, op: B.Op, s: State)
    requires B.Exclusive(d) && B.Enabled(w, d, op) && Follows(s, d)
    ensures var d' := B.Step(w, d, op).0;
            Follows(Meanwhile(s, Met(d, d')), d') && Follows(Held(s, Met(d, d')), d')
  {
    MetExactly(w, d, op);
    var d' := B.Step(w, d, op).0;
    OneReplacement(s, PlaceNow(d'), true);
    OneReplacement(s, PlaceNow(d'), false);
  }

  lemma {:induction false} MeanwhileBoth(s: State, first: seq<Interlude>, second: seq<Interlude>)
    ensures Meanwhile(s, first + second) == Meanwhile(Meanwhile(s, first), second)
    ensures Held(s, first + second) == Held(Held(s, first), second)
    decreases |first|
  {
    if first == [] {
      assert [] + second == second;
    } else {
      assert (first + second)[1..] == first[1..] + second;
      match first[0] {
        case Replacement(place, published) => MeanwhileBoth(Replace(s, place, published), first[1..], second);
        case Query =>
          MeanwhileBoth(Sync(s), first[1..], second);
          MeanwhileBoth(s, first[1..], second);
      }
    }
  }

  /** Every run of the device is something the applets can meet: it leads the reader state to
      the device's epoch and place. */
  lemma {:induction false} DeviceDrivesReader(w: B.World, d: B.State, ops: seq<B.Op>, d': B.State, s: State)
    requires B.Exclusive(d) && B.Run(w, d, ops, d') && Follows(s, d)
    ensures Follows(Meanwhile(s, MetAll(w, d, ops)), d') && Follows(Held(s, MetAll(w, d, ops)), d')
    decreases |ops|
  {
    if ops != [] {
      var d1 := B.Step(w, d, ops[0]).0;
      var rest := MetAll(w, d1, ops[1..]);
      B.ExclusiveStep(w, d, ops[0]);
      FollowsStep(w, d, ops[0], s);
      MeanwhileBoth(s, Met(d, d1), rest);
      DeviceDrivesReader(w, d1, ops[1..], d', Meanwhile(s, Met(d, d1)));
      DeviceDrivesReader(w, d1, ops[1..], d', Held(s, Met(d, d1)));
    }
  }

  /** So a protected APDU, sent when the device is as in `now`, goes to the reader and
      generation on which its session was opened, when the device was as in `then'`, unless
      the connection was replaced after the entry check of the call or silently. */
  lemma ProtectedOnItsReader(config: Config, ops: seq<Op>, before: Trace, a: Aid, n: Session) returns (u: Trace)
    requires Within(Run(Initial(config), ops).trace, Then(before, Protected(a, n)))
    requires !Outrun(before) && !Slipped(before)
    ensures u.Then? && u.last == Established(a, n) && Within(before, u)
    ensures forall s, now, t, then' | Follows(s, now) && s.trace == before && Follows(t, then') && t.trace == u ::
              PlaceNow(now) == PlaceNow(then')
  {
    u := ProtectedOnItsConnection(config, ops, before, a, n);
  }
}
