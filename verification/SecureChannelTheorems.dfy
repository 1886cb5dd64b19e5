/** The main results about the secure-channel state machine. */
module SecureChannelTheorems {
  import opened Common
  import opened SecureChannel
  import opened SecureChannelRuns

  // ------------------------------------------------------- reading the trace

  /** `u` is the trace at some earlier moment of `t`. */
  ghost predicate Within(t: Trace, u: Trace) {
    t == u || (t.Then? && Within(t.before, u))
  }

  /** Nothing since `u` has ended the session: no accepted SELECT, no plain APDU,
      no new authentication and no noticed reconnection. */
  ghost predicate Undisturbed(t: Trace, u: Trace) {
    t == u ||
    (t.Then? && !t.last.Plain? && !t.last.Authenticate? && !t.last.Reconnected? && !t.last.Established?
     && !(t.last.Select? && t.last.accepted) && Undisturbed(t.before, u))
  }

  /** Nothing since `u` has made the cached key doubtful. */
  ghost predicate StillTrusted(t: Trace, u: Trace, k: CacheKey) {
    t == u ||
    (t.Then? && !t.last.Reconnected? && !t.last.Administered? && t.last != Evicted(k)
     && StillTrusted(t.before, u, k))
  }

  lemma {:induction false} SafeWithin(recreate: bool, t: Trace, before: Trace, e: Event)
    requires Safe(recreate, t) && Within(t, Then(before, e))
    ensures Safe(recreate, before) && Admissible(recreate, before, e)
    decreases t
  {
    if t != Then(before, e) { SafeWithin(recreate, t.before, before, e); }
  }

  lemma {:induction false} CarrierMeaning(t: Trace, a: Aid, n: Session)
    requires Carrier(t) == Some((a, n))
    ensures exists u :: Within(t, Then(u, Established(a, n))) && Undisturbed(t, Then(u, Established(a, n)))
  {
    if t.last == Established(a, n) {
      assert Within(t, Then(t.before, Established(a, n))) && Undisturbed(t, Then(t.before, Established(a, n)));
    } else {
      CarrierMeaning(t.before, a, n);
      var u :| Within(t.before, Then(u, Established(a, n))) && Undisturbed(t.before, Then(u, Established(a, n)));
      assert Within(t, Then(u, Established(a, n))) && Undisturbed(t, Then(u, Established(a, n)));
    }
  }

  lemma {:induction false} TrustedMeaning(t: Trace, k: CacheKey)
    requires k in Trusted(t)
    ensures exists u :: Within(t, Then(u, Stored(k, Trusted(t)[k])))
                        && StillTrusted(t, Then(u, Stored(k, Trusted(t)[k])), k)
  {
    var p := Trusted(t)[k];
    if t.last == Stored(k, p) {
      assert Within(t, Then(t.before, Stored(k, p))) && StillTrusted(t, Then(t.before, Stored(k, p)), k);
    } else {
      TrustedMeaning(t.before, k);
      var u :| Within(t.before, Then(u, Stored(k, p))) && StillTrusted(t.before, Then(u, Stored(k, p)), k);
      assert Within(t, Then(u, Stored(k, p))) && StillTrusted(t, Then(u, Stored(k, p)), k);
    }
  }

  lemma Reachable(config: Config, ops: seq<Op>)
    ensures Inv(Run(Initial(config), ops)) && Run(Initial(config), ops).config == config
  {
    forall a ensures AppletOk(Initial(config), a) { }
    RunInv(Initial(config), ops);
  }

  // ------------------------------------------------------------ main results

  /** In every interleaved run, an application APDU that leaves in plain leaves
      through an applet whose channel is not open and that was selected last. */
  lemma NoPlainThroughOpenChannel(config: Config, ops: seq<Op>, before: Trace, a: Aid)
    requires Within(Run(Initial(config), ops).trace, Then(before, Plain(a)))
    ensures !ChannelOpen(before, a)
    ensures LastSelected(before) == Some(a)
  {
    Reachable(config, ops);
    SafeWithin(config.recreate, Run(Initial(config), ops).trace, before, Plain(a));
  }

  /** A protected APDU is carried by the session that was established last for its own
      applet; since then nothing that ends a session was sent, and no reconnection was
      noticed. */
  lemma ProtectedByItsSession(config: Config, ops: seq<Op>, before: Trace, a: Aid, n: Session)
    requires Within(Run(Initial(config), ops).trace, Then(before, Protected(a, n)))
    ensures ChannelOpen(before, a) && LastSelected(before) == Some(a)
    ensures exists u :: Within(before, Then(u, Established(a, n))) && Undisturbed(before, Then(u, Established(a, n)))
  {
    Reachable(config, ops);
    SafeWithin(config.recreate, Run(Initial(config), ops).trace, before, Protected(a, n));
    CarrierMeaning(before, a, n);
  }

  /** One more APDU was sent through `a`, last and protected. */
  ghost predicate SentProtected(s: State, t: State, a: Aid) {
    var sent := if t.trace.Then? && t.trace.last.Administered? then t.trace.before else t.trace;
    sent.Then? && sent.last.Protected? && sent.last.aid == a && Apdus(t.trace, a) == Apdus(s.trace, a) + 1
  }

  /** A call succeeded with an APDU protected by the live session, or failed without sending
      a plain one. */
  ghost predicate ProtectedOrRefused(s: State, t: State, a: Aid, rv: Rv) {
    if rv.Success?
    then && LiveSession(t, a) && t.trace.Then? && t.trace.last == Protected(a, t.selected.value.session.value)
         && SentProtected(s, t, a)
    else Apdus(t.trace, a) == Apdus(s.trace, a) || SentProtected(s, t, a)
  }

  /** What a started applet is left with once a channel is ensured and others have acted. */
  lemma StartedEnsure(s: State, a: Aid, card: Card, gap: seq<Interlude>)
    requires Inv(s) && a in s.applets && a !in s.pending && s.applets[a].started
    ensures var (s1, rv) := Ensure(s, a, card);
            && Apdus(s1.trace, a) == Apdus(s.trace, a)
            && (rv.Success? ==>
                  var s2 := Meanwhile(s1, gap);
                  && Inv(s2) && a in s2.applets && a !in s2.pending && s2.applets[a].started
                  && ActiveProtocol(s2.applets[a]).Some? && s2.applets[a].enabled
                  && Apdus(s2.trace, a) == Apdus(s.trace, a) && (s2.selected.Some? ==> LiveSession(s2, a)))
  {
    EnsureInv(s, a, card);
    EnsureLocal(s, a, card, a);
    var (s1, rv) := Ensure(s, a, card);
    MeanwhileInv(s1, gap);
    MeanwhileLocal(s1, gap, a);
  }

  lemma ExchangeIsProtected(s: State, a: Aid, delivery: Delivery)
    requires a in s.applets && ActiveProtocol(s.applets[a]).Some? && s.applets[a].enabled
    requires s.selected.Some? ==> LiveSession(s, a)
    ensures var (t, rv) := Exchange(s, a, delivery);
            ProtectedOrRefused(s, t, a, rv)
  {
  }

  /** Once the channel of an applet has started, a send ends in one of two ways:
      the APDU is the last thing sent and it is protected by the live session, or
      the call fails and no plain APDU was sent. */
  lemma StartedSendIsProtectedOrRefused(s: State, a: Aid, card: Card, gap: seq<Interlude>, delivery: Delivery)
    requires Inv(s) && a in s.applets && a !in s.pending && s.applets[a].started
    ensures var (t, rv) := Send(s, a, card, gap, delivery);
            ProtectedOrRefused(s, t, a, rv)
  {
    StartedEnsure(s, a, card, gap);
    var (s1, rv) := Ensure(s, a, card);
    if rv.Success? { ExchangeIsProtected(Meanwhile(s1, gap), a, delivery); }
  }

  /** So does the raw-bytes entry point, which decodes and then sends. */
  lemma StartedTransmitIsProtectedOrRefused(s: State, a: Aid, card: Card, gap: seq<Interlude>, decodes: bool,
                                            card2: Card, gap2: seq<Interlude>, delivery: Delivery, fits: bool)
    requires Inv(s) && a in s.applets && a !in s.pending && s.applets[a].started
    ensures var (t, rv) := Transmit(s, a, card, gap, decodes, card2, gap2, delivery, fits);
            ProtectedOrRefused(s, t, a, rv)
  {
    StartedEnsure(s, a, card, gap);
    var (s1, rv) := Ensure(s, a, card);
    if rv.Success? { StartedSendIsProtectedOrRefused(Meanwhile(s1, gap), a, card2, gap2, delivery); }
  }

  lemma CommandIsProtected(s: State, a: Aid, scp11: bool, prepared: bool, delivery: Delivery)
    requires a in s.applets
    ensures var (t, rv) := Command(s, a, scp11, prepared, delivery);
            SentProtected(s, t, a) || (rv.Failure? && t.trace == s.trace)
  {
    if s.selected.Some? && s.selected.value.session.Some? {
      var sent := Then(s.trace, Protected(a, s.selected.value.session.value));
      assert Apdus(Then(sent, Administered), a) == Apdus(sent, a);
    }
  }

  lemma EnsureSendsNone(s: State, a: Aid, card: Card, gap: seq<Interlude>)
    requires Inv(s) && a in s.applets
    ensures var s1 := Ensure(s, a, card).0;
            && Apdus(s1.trace, a) == Apdus(s.trace, a)
            && a in Meanwhile(s1, gap).applets && Apdus(Meanwhile(s1, gap).trace, a) == Apdus(s.trace, a)
  {
    EnsureLocal(s, a, card, a);
    EnsureFrame(s, a, card);
    MeanwhileKeepsApplets(Ensure(s, a, card).0, gap);
    MeanwhileLocal(Ensure(s, a, card).0, gap, a);
  }

  /** An administration sends at most one APDU, protected by the live session, and only
      with it succeeds. */
  lemma AdministrationIsProtected(s: State, a: Aid, card: Card, gap: seq<Interlude>, scp11: bool, prepared: bool,
                                  delivery: Delivery)
    requires Inv(s) && a in s.applets && a !in s.pending
    ensures var (t, rv) := Administer(s, a, card, gap, scp11, prepared, delivery);
            SentProtected(s, t, a) || (rv.Failure? && Apdus(t.trace, a) == Apdus(s.trace, a))
  {
    EnsureSendsNone(s, a, card, gap);
    var (s1, rv) := Ensure(s, a, card);
    if rv.Success? { CommandIsProtected(Meanwhile(s1, gap), a, scp11, prepared, delivery); }
  }

  /** Without `recreate_sessions` a channel is established only when no channel
      of that applet has been established since its last reset. */
  lemma OneChannelBetweenResets(config: Config, ops: seq<Op>, before: Trace, a: Aid, n: Session)
    requires !config.recreate
    requires Within(Run(Initial(config), ops).trace, Then(before, Established(a, n)))
    ensures !ChannelOpen(before, a)
  {
    Reachable(config, ops);
    SafeWithin(config.recreate, Run(Initial(config), ops).trace, before, Established(a, n));
  }

  /** In every run the live session belongs to the selected applet, its protocol is
      recorded, and its owner is enabled, has an active protocol and, unless it is being
      cleared, has started; no other applet has a session or reports a login. */
  lemma SessionBelongsToItsApplet(config: Config, ops: seq<Op>, a: Aid)
    ensures var s := Run(Initial(config), ops);
            && (LiveSession(s, a) ==>
                  && a in s.applets && s.selected.value.protocol.Some? && s.applets[a].enabled
                  && ActiveProtocol(s.applets[a]).Some? && (a !in s.pending ==> s.applets[a].started)
                  && Chosen(s, a))
            && (LiveSession(s, a) || LoginOf(s, a) != Public ==>
                  forall b | b != a :: !LiveSession(s, b) && LoginOf(s, b) == Public)
  {
    Reachable(config, ops);
  }

  // ------------------------------------------ whom a plain APDU reaches

  /** An applet that is selected on the card was selected last, and nothing has ended its
      selection. */
  lemma {:induction false} AddressedExcludes(recreate: bool, t: Trace)
    requires Safe(recreate, t)
    ensures Addressed(t).Some? ==> Addressed(t) == LastSelected(t) && !Lapsed(t) && !Overtaken(t)
  {
    if t.Then? { AddressedExcludes(recreate, t.before); }
  }

  lemma {:induction false} BearerExcludes(t: Trace)
    ensures Bearer(t).Some? ==> !Slipped(t) && !Outrun(t)
  {
    if t.Then? { BearerExcludes(t.before); }
  }

  /** Nothing is replaced. */
  predicate Still(gap: seq<Interlude>) { forall i | 0 <= i < |gap| :: gap[i].Query? }

  lemma StillRest(gap: seq<Interlude>)
    requires gap != []
    ensures Still(gap) <==> gap[0].Query? && Still(gap[1..])
  {
    assert forall i | 0 < i < |gap| :: gap[i] == gap[1..][i - 1];
  }

  lemma {:induction false} MeanwhileReplaces(s: State, gap: seq<Interlude>)
    ensures Addressed(Meanwhile(s, gap).trace) == if Still(gap) then Addressed(s.trace) else None
    ensures Bearer(Meanwhile(s, gap).trace) == if Still(gap) then Bearer(s.trace) else None
    decreases |gap|
  {
    if gap != [] {
      StillRest(gap);
      MeanwhileReplaces(match gap[0] case Replacement(place, published) => Replace(s, place, published)
                                     case Query => Sync(s), gap[1..]);
    }
  }

  lemma {:induction false} HeldReplaces(s: State, gap: seq<Interlude>)
    ensures Addressed(Held(s, gap).trace) == if Still(gap) then Addressed(s.trace) else None
    decreases |gap|
  {
    if gap != [] {
      StillRest(gap);
      HeldReplaces(match gap[0] case Replacement(place, published) => Replace(s, place, published)
                                case Query => s, gap[1..]);
    }
  }

  predicate InPlain(s: State, a: Aid)
    requires a in s.applets
  {
    ActiveProtocol(s.applets[a]).None? || !s.applets[a].enabled
  }

  /** The selection the call starts from passes its entry check. */
  predicate Keeps(s: State, a: Aid) { IsSelected(s, a) && s.epoch == s.base }

  /** A SELECT leaves a lapsed selection if and only if the connection is replaced between
      its answer and reading the epoch. */
  lemma SelectLapses(s: State, a: Aid, card: Card)
    requires SelectAnew(s, a, card).1.Success?
    ensures var t := SelectAnew(s, a, card).0;
            && (Lapsed(t.trace) <==> !Still(card.after))
            && Addressed(t.trace) == if Still(card.after) then Some(a) else None
  {
    HeldReplaces(Log(Held(s.(selected := None), card.before), Select(a, card.selects)), card.after);
  }

  lemma PlainEnsure(s: State, a: Aid, card: Card)
    requires Inv(s) && a in s.applets && a !in s.pending && InPlain(s, a) && Ensure(s, a, card).1.Success?
    ensures var t := Ensure(s, a, card).0;
            && t.applets == s.applets
            && (Addressed(t.trace) == Some(a) <==> if Keeps(s, a) then !Lapsed(s.trace) else Still(card.after))
  {
    ReselectFrame(s, a, card);
    assert Ensure(s, a, card).0 == Reselect(s, a, card).0;
    if Keeps(s, a) {
      AddressedExcludes(s.config.recreate, s.trace);
    } else {
      SelectLapses(Log(Sync(s), Checked), a, card);
    }
  }

  /** A plain send goes to a card on which the applet is selected if and only if the
      connection is not replaced after the SELECT of the call, or after its entry check when
      it needs no SELECT, and in that case the selection had not lapsed. */
  lemma PlainReachesApplet(s: State, a: Aid, card: Card, gap: seq<Interlude>, delivery: Delivery)
    requires Inv(s) && a in s.applets && a !in s.pending && InPlain(s, a) && Ensure(s, a, card).1.Success?
    requires !delivery.Unsent?
    ensures var s2 := Meanwhile(Ensure(s, a, card).0, gap);
            && Send(s, a, card, gap, delivery).0.trace == Then(s2.trace, Plain(a))
            && (Addressed(s2.trace) == Some(a) <==>
                Still(gap) && if Keeps(s, a) then !Lapsed(s.trace) else Still(card.after))
  {
    PlainEnsure(s, a, card);
    MeanwhileKeepsApplets(Ensure(s, a, card).0, gap);
    MeanwhileReplaces(Ensure(s, a, card).0, gap);
  }

  /** A protected send goes to a card on which its session is live if and only if the
      connection is not replaced after opening the session, or after the entry check when it
      was open, and in that case no replacement since it was opened was left unpublished. */
  lemma ProtectedReachesSession(s: State, a: Aid, card: Card, gap: seq<Interlude>, delivery: Delivery)
    requires Inv(s) && a in s.applets && a !in s.pending && !InPlain(s, a) && Ensure(s, a, card).1.Success?
    requires !delivery.Unsent? && LiveSession(Meanwhile(Ensure(s, a, card).0, gap), a)
    ensures var s2 := Meanwhile(Ensure(s, a, card).0, gap);
            && Send(s, a, card, gap, delivery).0.trace == Then(s2.trace, Protected(a, s2.selected.value.session.value))
            && (Bearer(s2.trace) == Some((a, s2.selected.value.session.value)) <==>
                Still(gap) && (Keeps(s, a) && LiveSession(s, a) ==> !Slipped(s.trace)))
  {
    var s1 := Ensure(s, a, card).0;
    EnsureInv(s, a, card);
    MeanwhileKeepsApplets(s1, gap);
    MeanwhileReplaces(s1, gap);
    BearerEnsured(s, a, card);
  }

  lemma BearerEnsured(s: State, a: Aid, card: Card)
    requires Inv(s) && a in s.applets && a !in s.pending && !InPlain(s, a) && Ensure(s, a, card).1.Success?
    ensures var t := Ensure(s, a, card).0;
            && LiveSession(t, a)
            && (Bearer(t.trace) == Some((a, t.selected.value.session.value)) <==>
                (Keeps(s, a) && LiveSession(s, a) ==> !Slipped(s.trace)))
  {
    EnsureInv(s, a, card);
    BearerExcludes(s.trace);
    ReselectFrame(s, a, card);
    var s1 := Reselect(s, a, card).0;
    HeldKeeps(s1, card.opening);
  }

  /** A refresh leaves a lapsed selection if and only if the connection is replaced between
      its SELECT and recording it. */
  lemma RefreshLapses(s: State, a: Aid, link: Link)
    requires Inv(s) && a in s.applets
    requires link.refreshes && link.present && !s.config.stableTopology && SelectableAid(a) && link.selects
    requires var s1 := Sync(Meanwhile(s, link.refreshing));
             s1.selected.Some? ==> s1.selected.value.login == Public
    ensures Lapsed(Refresh(s, a, link).0.trace) <==> !Still(link.after)
  {
    MeanwhileKeepsApplets(s, link.refreshing);
    var s1 := Sync(Meanwhile(s, link.refreshing));
    MeanwhileReplaces(Log(Meanwhile(s1.(selected := None), link.before), Select(a, true)), link.after);
  }

  /** Where the connection was at the end of the trace, if it was ever replaced. */
  ghost function PlaceOf(t: Trace): Option<Place> {
    if t.Start? then None else
    match t.last
    case Replaced(place, _) => Some(place)
    case _ => PlaceOf(t.before)
  }

  /** Since `u` no applet was selected. */
  ghost predicate SameSelection(t: Trace, u: Trace) {
    t == u || (t.Then? && !(t.last.Select? && t.last.accepted) && SameSelection(t.before, u))
  }

  /** Since `u` the connection was not replaced. */
  ghost predicate SameConnection(t: Trace, u: Trace) {
    t == u || (t.Then? && !t.last.Replaced? && SameConnection(t.before, u))
  }

  lemma {:induction false} SameConnectionSamePlace(t: Trace, u: Trace)
    requires SameConnection(t, u)
    ensures PlaceOf(t) == PlaceOf(u)
  {
    if t != u { SameConnectionSamePlace(t.before, u); }
  }

  lemma {:induction false} AddressedMeaning(t: Trace, a: Aid) returns (u: Trace)
    requires LastSelected(t) == Some(a)
    ensures u.Then? && u.last == Select(a, true) && Within(t, u) && SameSelection(t, u)
    ensures Addressed(t) == Some(a) <==> SameConnection(t, u)
  {
    if t.last == Select(a, true) {
      u := t;
    } else {
      u := AddressedMeaning(t.before, a);
      SmallerWithin(t.before, u);
    }
  }

  lemma {:induction false} SmallerWithin(t: Trace, u: Trace)
    requires Within(t, u)
    ensures u == t || u < t
  {
    if t != u { SmallerWithin(t.before, u); }
  }

  lemma {:induction false} BearerMeaning(t: Trace, a: Aid, n: Session) returns (u: Trace)
    requires Bearer(t) == Some((a, n))
    ensures u.Then? && u.last == Established(a, n) && Within(t, u) && SameConnection(t, u)
  {
    if t.last == Established(a, n) { u := t; } else { u := BearerMeaning(t.before, a, n); }
  }

  /** In every run a plain APDU follows an accepted SELECT of its applet with no other one
      between, and goes to the connection that answered it if and only if the connection was
      not replaced after the call's entry check and that SELECT, and the selection had not
      lapsed. */
  lemma PlainFollowsItsSelect(config: Config, ops: seq<Op>, before: Trace, a: Aid) returns (u: Trace)
    requires Within(Run(Initial(config), ops).trace, Then(before, Plain(a)))
    ensures u.Then? && u.last == Select(a, true) && Within(before, u) && SameSelection(before, u)
    ensures SameConnection(before, u) <==> !Overtaken(before) && !Lapsed(before)
    ensures SameConnection(before, u) ==> PlaceOf(before) == PlaceOf(u)
  {
    NoPlainThroughOpenChannel(config, ops, before, a);
    u := AddressedMeaning(before, a);
    Reachable(config, ops);
    SafeWithin(config.recreate, Run(Initial(config), ops).trace, before, Plain(a));
    AddressedExcludes(config.recreate, before);
    if SameConnection(before, u) { SameConnectionSamePlace(before, u); }
  }

  /** In every run a protected APDU goes to the reader and generation on which its session
      was established, if and only if the connection was not replaced after the call's entry
      check and the establishment, and no replacement since then was left unpublished. */
  lemma ProtectedOnItsConnection(config: Config, ops: seq<Op>, before: Trace, a: Aid, n: Session)
    returns (u: Trace)
    requires Within(Run(Initial(config), ops).trace, Then(before, Protected(a, n)))
    ensures Bearer(before) == Some((a, n)) <==> !Outrun(before) && !Slipped(before)
    ensures !Outrun(before) && !Slipped(before) ==>
              && u.Then? && u.last == Established(a, n) && Within(before, u)
              && SameConnection(before, u) && PlaceOf(before) == PlaceOf(u)
  {
    Reachable(config, ops);
    SafeWithin(config.recreate, Run(Initial(config), ops).trace, before, Protected(a, n));
    BearerExcludes(before);
    u := Start;
    if Bearer(before) == Some((a, n)) {
      u := BearerMeaning(before, a, n);
      SameConnectionSamePlace(before, u);
    }
  }

  /** A card that accepts the SELECT and opens no channel. */
  function Answering(after: seq<Interlude>): Card {
    Card([], true, after, None, [], (_, _) => AuthFailed(false, false, false))
  }

  lemma RunFirst(s: State, op: Op, ops: seq<Op>)
    requires Enabled(s, op)
    ensures Run(s, [op] + ops) == Run(Step(s, op).0, ops)
  {
    assert ([op] + ops)[1..] == ops;
  }

  lemma OneReplacement(s: State, place: Place, published: bool)
    ensures Meanwhile(s, [Replacement(place, published)]) == Replace(s, place, published)
    ensures Held(s, [Replacement(place, published)]) == Replace(s, place, published)
  {
    assert [Replacement(place, published)][1..] == [];
  }

  /** The applet is selected and talks in plain. */
  predicate Idle(s: State, a: Aid) {
    && SelectableAid(a) && IsSelected(s, a) && a !in s.pending
    && a in s.applets && s.applets[a] == Applet(None, false, true, false, None, None)
  }

  const Probe: Aid -> Op := a => DiscoverOp(a, true, [], None, true)

  function Found(config: Config, a: Aid): State
    requires SelectableAid(a)
  {
    Discover(Initial(config), a, true, [], None, true)
  }

  lemma SendKept(s: State, a: Aid, gap: seq<Interlude>)
    requires Idle(s, a) && s.epoch == s.base
    ensures var op := SendOp(a, Answering([]), gap, Delivered);
            Enabled(s, op) && Step(s, op).0 == Log(Meanwhile(Log(s, Checked), gap), Plain(a))
  {
    MeanwhileKeepsApplets(Log(s, Checked), gap);
  }

  lemma SendReselects(s: State, a: Aid, place: Place)
    requires Idle(s, a) && s.epoch != s.base
    ensures var op := SendOp(a, Answering([Replacement(place, true)]), [], Delivered);
            && Enabled(s, op)
            && var t := Step(s, op).0;
            Idle(t, a) && t.epoch == t.base && Lapsed(t.trace) && Addressed(t.trace).None?
  {
    var card := Answering([Replacement(place, true)]);
    assert !Still(card.after) by { assert card.after[0].Replacement?; }
    OneReplacement(Log(Log(Sync(s), Checked).(selected := None), Select(a, true)), place, true);
    SelectLapses(Log(Sync(s), Checked), a, card);
  }

  /** A published replacement between the entry check and the APDU, which nothing notices, ... */
  lemma PlainCanMissItsApplet(config: Config, a: Aid, place: Place)
    requires SelectableAid(a)
    ensures var ops := [Probe(a)] + ([SendOp(a, Answering([]), [Replacement(place, true)], Delivered)] + []);
            var before := Then(Then(Found(config, a).trace, Checked), Replaced(place, true));
            && Run(Initial(config), ops).trace == Then(before, Plain(a))
            && Overtaken(before) && Addressed(before).None?
  {
    var s1 := Found(config, a);
    var send := SendOp(a, Answering([]), [Replacement(place, true)], Delivered);
    RunFirst(Initial(config), Probe(a), [send] + []);
    SendKept(s1, a, [Replacement(place, true)]);
    OneReplacement(Log(s1, Checked), place, true);
    RunFirst(s1, send, []);
  }

  /** ... a replacement that the base connector does not publish, ... */
  lemma PlainCanMissSilently(config: Config, a: Aid, place: Place)
    requires SelectableAid(a)
    ensures var ops := [Probe(a)] + ([BetweenOp(a, [Replacement(place, false)])]
                                     + ([SendOp(a, Answering([]), [], Delivered)] + []));
            var before := Then(Then(Found(config, a).trace, Replaced(place, false)), Checked);
            && Run(Initial(config), ops).trace == Then(before, Plain(a))
            && Lapsed(before) && !Overtaken(before) && Addressed(before).None?
  {
    var s1 := Found(config, a);
    var between, send := BetweenOp(a, [Replacement(place, false)]), SendOp(a, Answering([]), [], Delivered);
    RunFirst(Initial(config), Probe(a), [between] + ([send] + []));
    OneReplacement(s1, place, false);
    RunFirst(s1, between, [send] + []);
    SendKept(Replace(s1, place, false), a, []);
    RunFirst(Replace(s1, place, false), send, []);
  }

  /** ... and one between the SELECT of an earlier call and reading the epoch after it, whose
      selection the next call then keeps. */
  lemma PlainCanUseLapsedSelection(config: Config, a: Aid, first: Place, second: Place)
    requires SelectableAid(a)
    ensures var ops := [Probe(a)] + ([BetweenOp(a, [Replacement(first, true)])]
                                     + ([SendOp(a, Answering([Replacement(second, true)]), [], Delivered)]
                                        + ([SendOp(a, Answering([]), [], Delivered)] + [])));
            var t := Run(Initial(config), ops).trace;
            && t.Then? && t.last == Plain(a) && t.before.Then? && t.before.last == Checked
            && Lapsed(t.before) && !Overtaken(t.before) && Addressed(t.before).None?
  {
    var s1 := Found(config, a);
    var between := BetweenOp(a, [Replacement(first, true)]);
    var reselect := SendOp(a, Answering([Replacement(second, true)]), [], Delivered);
    var send := SendOp(a, Answering([]), [], Delivered);
    RunFirst(Initial(config), Probe(a), [between] + ([reselect] + ([send] + [])));
    OneReplacement(s1, first, true);
    RunFirst(s1, between, [reselect] + ([send] + []));
    var s2 := Replace(s1, first, true);
    SendReselects(s2, a, second);
    RunFirst(s2, reselect, [send] + []);
    var s3 := Step(s2, reselect).0;
    SendKept(s3, a, []);
    RunFirst(s3, send, []);
  }

  /** A card on which SCP03 succeeds. */
  const Opening: Card := Card([], true, [], Some(KeySet(true, None, None)), [], (_, _) => AuthOk(0, None))

  /** An applet with a channel that has just been opened. */
  function Open(config: Config, a: Aid): State
    requires SelectableAid(a)
  {
    Establish(Discover(Initial(config), a, true, [], Some(Scp03), true), a, a, Opening).0
  }

  lemma OpenIsLive(config: Config, a: Aid)
    requires SelectableAid(a)
    ensures var s := Open(config, a);
            && a in s.applets && LiveSession(s, a) && s.selected.value.session == Some(0) && s.epoch == s.base
            && s.applets[a] == Applet(Some(Scp03), true, true, true, None, None) && s.pending == map[]
  {
  }

  lemma SendThrough(s: State, a: Aid, gap: seq<Interlude>)
    requires a in s.applets && LiveSession(s, a) && s.epoch == s.base && a !in s.pending
    requires s.applets[a] == Applet(Some(Scp03), true, true, true, None, None)
    requires Meanwhile(Log(s, Checked), gap).selected == s.selected
    ensures var op := SendOp(a, Answering([]), gap, Delivered);
            && Enabled(s, op)
            && Step(s, op).0 == Log(Meanwhile(Log(s, Checked), gap), Protected(a, s.selected.value.session.value))
  {
    MeanwhileKeepsApplets(Log(s, Checked), gap);
  }

  /** In the same way a protected APDU can leave after a replacement that nothing notices. */
  lemma ProtectedCanMissItsSession(config: Config, a: Aid, place: Place)
    requires SelectableAid(a)
    ensures var ops := [DiscoverOp(a, true, [], Some(Scp03), true)]
                       + ([EstablishOp(a, a, Opening)]
                          + ([SendOp(a, Answering([]), [Replacement(place, true)], Delivered)] + []));
            var before := Then(Then(Open(config, a).trace, Checked), Replaced(place, true));
            && Run(Initial(config), ops).trace == Then(before, Protected(a, 0))
            && Outrun(before) && Bearer(before).None?
  {
    var establish := EstablishOp(a, a, Opening);
    var send := SendOp(a, Answering([]), [Replacement(place, true)], Delivered);
    var s1 := Discover(Initial(config), a, true, [], Some(Scp03), true);
    RunFirst(Initial(config), DiscoverOp(a, true, [], Some(Scp03), true), [establish] + ([send] + []));
    RunFirst(s1, establish, [send] + []);
    var s2 := Open(config, a);
    OpenIsLive(config, a);
    OneReplacement(Log(s2, Checked), place, true);
    SendThrough(s2, a, [Replacement(place, true)]);
    RunFirst(s2, send, []);
  }

  // ------------------------------------------------------- dropped credentials

  /** A login chose the protocol, its credential is gone, and no session is left. */
  ghost predicate Dormant(s: State, a: Aid) {
    && a in s.applets && CredentialMissing(s.applets[a]) && !LiveSession(s, a)
    && (a in s.pending ==> !s.pending[a].PrepareTail?)
  }

  lemma DormantEnsure(s: State, a: Aid, card: Card)
    requires Dormant(s, a)
    ensures Ensure(s, a, card).1.Failure?
    ensures Dormant(Ensure(s, a, card).0, a)
  {
    ReselectFrame(s, a, card);
    ReselectLocal(s, a, card, a);
  }

  lemma DormantStep(s: State, op: Op, a: Aid)
    requires Inv(s) && Dormant(s, a) && Enabled(s, op) && !(op.PrepareOp? && op.aid == a)
    ensures Dormant(Step(s, op).0, a)
    ensures Apdus(Step(s, op).0.trace, a) == Apdus(s.trace, a)
    ensures op.aid == a && (op.SendOp? || op.TransmitOp? || op.AdministerOp?) ==> Step(s, op).1.Failure?
  {
    if op.aid != a {
      StepLocal(s, op, a);
    } else if op.SendOp? || op.TransmitOp? || op.AdministerOp? || op.SetLoginOp? {
      DormantEnsure(s, a, op.card);
      EnsureLocal(s, a, op.card, a);
    } else if op.EstablishOp? {
      DormantEstablish(s, a, op.target, op.card);
    } else if op.RefreshOp? {
      DormantRefresh(s, a, op.link);
    } else if op.ResumeOp? {
      DormantResume(s, a);
    } else if op.BetweenOp? || op.DiscoverOp? {
      DormantProbe(s, op, a);
    } else {
      DormantLifecycle(s, op, a);
    }
  }

  lemma DormantEstablish(s: State, a: Aid, target: Aid, card: Card)
    requires Inv(s) && Dormant(s, a) && a !in s.pending
    ensures Dormant(Establish(s, a, target, card).0, a)
    ensures Apdus(Establish(s, a, target, card).0.trace, a) == Apdus(s.trace, a)
  {
    var s0 := WithApplet(s, a, s.applets[a].(enabled := true));
    forall c ensures AppletOk(s0, c) { assert AppletOk(s, c); }
    DormantEnsure(s0, a, card);
    EnsureLocal(s0, a, card, a);
  }

  lemma DormantRediscover(s: State, a: Aid, link: Link)
    requires Dormant(s, a)
    ensures Dormant(Rediscover(s, a, link).0, a)
    ensures Apdus(Rediscover(s, a, link).0.trace, a) == Apdus(s.trace, a)
  {
    MeanwhileLocal(s.(selected := None), link.before, a);
    var s1 := Meanwhile(s.(selected := None), link.before);
    MeanwhileLocal(Log(s1, Select(a, true)), link.after, a);
  }

  lemma DormantRefresh(s: State, a: Aid, link: Link)
    requires Dormant(s, a)
    ensures Dormant(Refresh(s, a, link).0, a)
    ensures Apdus(Refresh(s, a, link).0.trace, a) == Apdus(s.trace, a)
  {
    MeanwhileLocal(s, link.refreshing, a);
    DormantRediscover(Sync(Meanwhile(s, link.refreshing)), a, link);
  }

  lemma DormantBegin(s: State, a: Aid)
    requires Dormant(s, a)
    ensures Dormant(BeginClear(s, a), a) && Apdus(BeginClear(s, a).trace, a) == Apdus(s.trace, a)
    ensures Dormant(BeginClearForLogin(s, a), a) && Apdus(BeginClearForLogin(s, a).trace, a) == Apdus(s.trace, a)
  {
  }

  lemma DormantDrop(s: State, a: Aid)
    requires Dormant(s, a)
    ensures Dormant(DropCredential(s, a), a) && Apdus(DropCredential(s, a).trace, a) == Apdus(s.trace, a)
    ensures Dormant(BeginReconcile(s, a), a) && Apdus(BeginReconcile(s, a).trace, a) == Apdus(s.trace, a)
  {
  }

  lemma DormantLifecycle(s: State, op: Op, a: Aid)
    requires Dormant(s, a) && Enabled(s, op) && op.aid == a
    requires op.FinishOp? || op.ReconcileOp? || op.ClearOp? || op.ClearForLoginOp?
    ensures Dormant(Step(s, op).0, a)
    ensures Apdus(Step(s, op).0.trace, a) == Apdus(s.trace, a)
  {
    DormantBegin(s, a);
    DormantDrop(s, a);
  }

  lemma DormantResume(s: State, a: Aid)
    requires Dormant(s, a) && a in s.pending
    ensures Dormant(Resume(s, a), a)
    ensures Apdus(Resume(s, a).trace, a) == Apdus(s.trace, a)
  {
  }

  lemma DormantProbe(s: State, op: Op, a: Aid)
    requires Dormant(s, a) && op.aid == a && (op.BetweenOp? || op.DiscoverOp?)
    ensures Dormant(Step(s, op).0, a)
    ensures Apdus(Step(s, op).0.trace, a) == Apdus(s.trace, a)
  {
    if op.BetweenOp? {
      MeanwhileLocal(s, op.gap, a);
    } else {
      HeldLocal(Log(s, Select(a, true)), op.after, a);
    }
  }

  /** Once a login-selected protocol has lost its credential and no session is
      live, no application APDU leaves through that applet, whatever all applets
      do, until its next login prepare. */
  lemma {:induction false} DormantRun(s: State, ops: seq<Op>, a: Aid)
    requires Inv(s) && Dormant(s, a)
    requires forall i | 0 <= i < |ops| :: !(ops[i].PrepareOp? && ops[i].aid == a)
    ensures Dormant(Run(s, ops), a)
    ensures Apdus(Run(s, ops).trace, a) == Apdus(s.trace, a)
    decreases |ops|
  {
    if ops != [] {
      if Enabled(s, ops[0]) {
        StepInv(s, ops[0]);
        DormantStep(s, ops[0], a);
        DormantRun(Step(s, ops[0]).0, ops[1..], a);
      } else {
        DormantRun(s, ops[1..], a);
      }
    }
  }

  // -------------------------------------------------------------------- logins

  /** No new epoch is published. */
  predicate Unpublished(gap: seq<Interlude>) {
    forall i | 0 <= i < |gap| :: gap[i].Replacement? ==> !gap[i].published
  }

  lemma {:induction false} MeanwhileKeepsSelection(s: State, gap: seq<Interlude>)
    requires s.epoch <= s.base
    ensures var t := Sync(Meanwhile(s, gap));
            if s.epoch == s.base && Unpublished(gap) then t.selected == s.selected && t.epoch == t.base == s.epoch
            else t.selected == None
    decreases |gap|
  {
    if gap != [] {
      var s1 := match gap[0] case Replacement(place, published) => Replace(s, place, published)
                             case Query => Sync(s);
      assert forall i | 0 < i < |gap| :: gap[i] == gap[1..][i - 1];
      MeanwhileKeepsSelection(s1, gap[1..]);
    }
  }

  /** A refresh that succeeds keeps the login of the reader exactly when the base
      connector reports the device present and its epoch has not moved. */
  lemma RefreshKeepsLogin(s: State, a: Aid, link: Link, b: Aid)
    requires Inv(s) && a in s.applets && LoginOf(s, b) != Public
    requires Refresh(s, a, link).1.Success?
    ensures var kept := link.present && s.epoch == s.base && Unpublished(link.refreshing);
            && (LoginOf(Refresh(s, a, link).0, b) == LoginOf(s, b) <==> kept)
            && (kept ==> Refresh(s, a, link).0.selected == s.selected)
    ensures forall c | c != b :: LoginOf(Refresh(s, a, link).0, c) == Public
  {
    MeanwhileKeepsSelection(s, link.refreshing);
    MeanwhileKeepsApplets(s, link.refreshing);
  }

  lemma LoginIsSet(s: State, a: Aid, login: Login, card: Card, gap: seq<Interlude>)
    requires Inv(s) && a in s.applets && a !in s.pending
    ensures var (t, rv) := SetLogin(s, a, login, card, gap); rv.Success? ==> LoginOf(t, a) == login
  {
    EnsureInv(s, a, card);
    MeanwhileKeepsApplets(Ensure(s, a, card).0, gap);
  }

  /** The present device is needed: in a run that discovers an applet and logs in, a refresh
      succeeds at an unchanged epoch and still drops the login. */
  lemma RefreshCanDropLogin(config: Config, a: Aid)
    requires SelectableAid(a)
    ensures var ops := [Probe(a)] + ([SetLoginOp(a, User, Answering([]), [])] + []);
            var s := Run(Initial(config), ops);
            var link := Link([], true, false, [], true, []);
            && a in s.applets && LoginOf(s, a) == User && s.epoch == s.base
            && Refresh(s, a, link).1.Success? && LoginOf(Refresh(s, a, link).0, a) == Public
  {
    var login := SetLoginOp(a, User, Answering([]), []);
    RunFirst(Initial(config), Probe(a), [login] + []);
    RunFirst(Found(config, a), login, []);
  }

  /** Any number of successful refreshes, of any applets, at the same epoch and
      with the device present, keeps the login and the session behind it. */
  lemma {:induction false} LoginSurvivesRefreshes(s: State, ops: seq<Op>, b: Aid)
    requires Inv(s) && LoginOf(s, b) != Public && s.epoch == s.base
    requires forall i | 0 <= i < |ops| ::
               && ops[i].RefreshOp? && ops[i].link.refreshes
               && ops[i].link.present && Unpublished(ops[i].link.refreshing)
    ensures var t := Run(s, ops); t.selected == s.selected && t.epoch == t.base == s.epoch
    decreases |ops|
  {
    if ops != [] {
      if Enabled(s, ops[0]) {
        StepInv(s, ops[0]);
        MeanwhileKeepsSelection(s, ops[0].link.refreshing);
        MeanwhileKeepsApplets(s, ops[0].link.refreshing);
        LoginSurvivesRefreshes(Step(s, ops[0]).0, ops[1..], b);
      } else {
        LoginSurvivesRefreshes(s, ops[1..], b);
      }
    }
  }

  // ------------------------------------------------------- SCP11 trust cache

  /** In every run, each cached card key was validated and stored after the last noticed
      reconnection and the last successful SCP11 administration. */
  lemma CacheIsFresh(config: Config, ops: seq<Op>, k: CacheKey)
    requires k in Run(Initial(config), ops).validated
    ensures var s := Run(Initial(config), ops);
            exists u :: Within(s.trace, Then(u, Stored(k, s.validated[k]))) &&
                        StillTrusted(s.trace, Then(u, Stored(k, s.validated[k])), k)
  {
    Reachable(config, ops);
    TrustedMeaning(Run(Initial(config), ops).trace, k);
  }

  /** A card that answers an attempt the same way whether or not an earlier
      attempt failed. */
  ghost predicate Unaffected(card: Card) {
    forall i: nat, j: nat, p :: card.auth(i, p) == card.auth(j, p)
  }

  /** The cache refines the uncached path: with such a card, establishment with
      the cache succeeds whenever it would have succeeded without it. */
  lemma CacheRefinesUncached(s: State, a: Aid, proto: Protocol, card: Card)
    requires Unaffected(card)
    ensures OpenScp11(s.(validated := map[]), a, proto, card).1.Some? ==> OpenScp11(s, a, proto, card).1.Some?
    ensures OpenScp11(s, a, proto, card).1.Some? <==>
            card.keys.Some? &&
            var k := card.keys.value;
            var cached := CachedPoint(s, CacheKeyOf(k));
            || Outcome(s.config, k, cached, card.auth(0, cached)).AuthOk?
            || Outcome(s.config, k, None, card.auth(0, None)).AuthOk?
  {
    assert card.auth(1, None) == card.auth(0, None);
  }
}
