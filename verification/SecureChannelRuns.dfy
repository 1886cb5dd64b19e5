/** Safety of the secure-channel state machine over every interleaved run. */
module SecureChannelRuns {
  import opened Common
  import opened SecureChannel

  // ------------------------------------------------ what a trace says so far

  /** The channel of `a` was established and not reset since. */
  ghost predicate ChannelOpen(t: Trace, a: Aid) {
    t.Then? &&
    match t.last
    case Established(b, _) => b == a || ChannelOpen(t.before, a)
    case Reset(b) => b != a && ChannelOpen(t.before, a)
    case _ => ChannelOpen(t.before, a)
  }

  /** The applet named by the last accepted SELECT. */
  ghost function LastSelected(t: Trace): Option<Aid> {
    if t.Start? then None else
    match t.last
    case Select(a, true) => Some(a)
    case _ => LastSelected(t.before)
  }

  /** The applet that is selected on the card: a replacement ends the selection. */
  ghost function Addressed(t: Trace): Option<Aid> {
    if t.Start? then None else
    match t.last
    case Select(a, true) => Some(a)
    case Replaced(_, _) => None
    case _ => Addressed(t.before)
  }

  /** The connection was replaced after the last entry check and the last accepted SELECT. */
  ghost predicate Overtaken(t: Trace) {
    t.Then? &&
    match t.last
    case Replaced(_, _) => true
    case Checked => false
    case Select(_, true) => false
    case _ => Overtaken(t.before)
  }

  /** The selection in use has ended where no entry check can see it: it was recorded after a
      replacement, or the replacement was not published. */
  ghost predicate Lapsed(t: Trace) {
    t.Then? &&
    match t.last
    case Recorded(a) => Addressed(t.before) != Some(a)
    case Replaced(_, published) => !published || Lapsed(t.before)
    case Select(_, true) => false
    case Reconnected(_) => false
    case _ => Lapsed(t.before)
  }

  /** The session established last, provided that nothing sent since then, and no noticed
      reconnection, has ended it. */
  ghost function Carrier(t: Trace): Option<(Aid, Session)> {
    if t.Start? then None else
    match t.last
    case Established(a, n) => Some((a, n))
    case Select(_, true) => None
    case Authenticate(_, _) => None
    case Plain(_) => None
    case Reconnected(_) => None
    case _ => Carrier(t.before)
  }

  /** The session that is live on the card: a replacement ends it. */
  ghost function Bearer(t: Trace): Option<(Aid, Session)> {
    if t.Start? then None else
    match t.last
    case Established(a, n) => Some((a, n))
    case Select(_, true) => None
    case Authenticate(_, _) => None
    case Plain(_) => None
    case Replaced(_, _) => None
    case _ => Bearer(t.before)
  }

  /** The connection was replaced after the last entry check and the last establishment. */
  ghost predicate Outrun(t: Trace) {
    t.Then? &&
    match t.last
    case Replaced(_, _) => true
    case Checked => false
    case Established(_, _) => false
    case _ => Outrun(t.before)
  }

  /** A replacement since the last establishment was not published. */
  ghost predicate Slipped(t: Trace) {
    t.Then? &&
    match t.last
    case Replaced(_, published) => !published || Slipped(t.before)
    case Established(_, _) => false
    case _ => Slipped(t.before)
  }

  /** The handshake sent last to the applet that is selected. */
  ghost function Handshake(t: Trace): Option<(Aid, Protocol)> {
    if t.Start? then None else
    match t.last
    case Authenticate(a, proto) => Some((a, proto))
    case Select(_, true) => None
    case _ => Handshake(t.before)
  }

  /** The card keys validated since the last noticed reconnection and the last
      security-domain administration. */
  ghost function Trusted(t: Trace): map<CacheKey, Point> {
    if t.Start? then map[] else
    match t.last
    case Stored(k, p) => Trusted(t.before)[k := p]
    case Evicted(k) => Trusted(t.before) - {k}
    case Reconnected(_) => map[]
    case Administered => map[]
    case _ => Trusted(t.before)
  }

  /** How many application APDUs went out through `a`. */
  ghost function Apdus(t: Trace, a: Aid): nat {
    if t.Start? then 0
    else Apdus(t.before, a) + if t.last == Plain(a) || (t.last.Protected? && t.last.aid == a) then 1 else 0
  }

  /** What must have been true before an event for it to be admissible. */
  ghost predicate Admissible(recreate: bool, t: Trace, e: Event) {
    match e
    case Plain(a) =>
      && !ChannelOpen(t, a) && LastSelected(t) == Some(a)
      && (Addressed(t) == Some(a) || Overtaken(t) || Lapsed(t))
    case Protected(a, n) =>
      && Carrier(t) == Some((a, n)) && ChannelOpen(t, a) && LastSelected(t) == Some(a)
      && (Bearer(t) == Some((a, n)) || Outrun(t) || Slipped(t))
    case Established(a, _) =>
      && LastSelected(t) == Some(a) && (recreate || !ChannelOpen(t, a))
      && Handshake(t).Some? && Handshake(t).value.0 == a
    case Authenticate(a, _) => LastSelected(t) == Some(a)
    case Recorded(a) => LastSelected(t) == Some(a)
    case _ => true
  }

  ghost predicate Safe(recreate: bool, t: Trace) {
    t.Then? ==> Safe(recreate, t.before) && Admissible(recreate, t.before, t.last)
  }

  // ---------------------------------------------------------- the invariant

  ghost predicate AppletOk(s: State, a: Aid) {
    if a in s.applets then
      && (s.applets[a].started <==> ChannelOpen(s.trace, a))
      && (s.applets[a].started ==> ActiveProtocol(s.applets[a]).Some?)
    else !ChannelOpen(s.trace, a)
  }

  /** `a` was selected last and still is on the card, unless its selection lapsed or the
      replacement that ended it will be noticed by the next entry check. */
  ghost predicate Chosen(s: State, a: Aid) {
    && LastSelected(s.trace) == Some(a)
    && (Addressed(s.trace) == Some(a) || if s.epoch == s.base then Lapsed(s.trace) else Overtaken(s.trace))
  }

  /** The same inside a call, whose entry check has passed. */
  ghost predicate Directed(s: State, a: Aid) {
    && LastSelected(s.trace) == Some(a)
    && (Addressed(s.trace) == Some(a) || Overtaken(s.trace) || (s.epoch == s.base && Lapsed(s.trace)))
  }

  /** The session was established last and still is live on the card, unless a replacement
      was not published or will be noticed by the next entry check. */
  ghost predicate Carried(s: State, a: Aid, n: Session) {
    && Carrier(s.trace) == Some((a, n))
    && (Bearer(s.trace) == Some((a, n)) || if s.epoch == s.base then Slipped(s.trace) else Outrun(s.trace))
  }

  /** The selection matches what was sent, and a live session belongs to the
      selected applet, has its protocol recorded, and its owner is enabled, has
      an active protocol and, unless a clear call is under way, has started. */
  ghost predicate SelectionOk(s: State, sel: Selected) {
    && Chosen(s, sel.aid)
    && (sel.session.Some? ==>
          && sel.protocol.Some? && Handshake(s.trace) == Some((sel.aid, sel.protocol.value))
          && sel.aid in s.applets
          && Carried(s, sel.aid, sel.session.value)
          && s.applets[sel.aid].enabled
          && ActiveProtocol(s.applets[sel.aid]).Some?
          && (if sel.aid in s.pending then s.pending[sel.aid].ClearTail? else s.applets[sel.aid].started))
  }

  ghost predicate Inv(s: State) {
    && s.pending.Keys <= s.applets.Keys && s.epoch <= s.base
    && Safe(s.config.recreate, s.trace)
    && s.validated == Trusted(s.trace)
    && (s.selected.Some? ==> SelectionOk(s, s.selected.value))
    && (forall a :: AppletOk(s, a))
  }

  // --------------------------------------------- every call keeps the invariant

  /** Changes that leave the applets and their open channels alone. */
  lemma SameApplets(s: State, t: State)
    requires Inv(s)
    requires t.applets == s.applets && t.pending == s.pending && t.config == s.config
    requires Safe(t.config.recreate, t.trace) && t.validated == Trusted(t.trace) && t.epoch <= t.base
    requires forall b :: ChannelOpen(t.trace, b) == ChannelOpen(s.trace, b)
    requires t.selected.Some? ==> SelectionOk(t, t.selected.value)
    ensures Inv(t)
  {
    forall a ensures AppletOk(t, a) { assert AppletOk(s, a); }
  }

  lemma SyncInv(s: State)
    requires Inv(s)
    ensures Inv(Sync(s))
  {
    SameApplets(s, Sync(s));
  }

  lemma CheckedInv(s: State)
    requires Inv(s) && s.epoch == s.base
    ensures Inv(Log(s, Checked))
  {
    SameApplets(s, Log(s, Checked));
  }

  lemma ReplaceInv(s: State, place: Place, published: bool)
    requires Inv(s)
    ensures Inv(Replace(s, place, published))
  {
    SameApplets(s, Replace(s, place, published));
  }

  /** What other threads and the outside world do either leaves the selection alone or
      drops it. */
  lemma MeanwhileInv(s: State, gap: seq<Interlude>)
    requires Inv(s)
    ensures var t := Meanwhile(s, gap);
            && Inv(t) && (t.selected == s.selected || t.selected == None)
            && LastSelected(t.trace) == LastSelected(s.trace)
            && t.applets == s.applets && t.config == s.config && t.pending == s.pending
    decreases |gap|
  {
    if gap != [] {
      match gap[0]
      case Replacement(place, published) =>
        ReplaceInv(s, place, published);
        MeanwhileInv(Replace(s, place, published), gap[1..]);
      case Query =>
        SyncInv(s);
        MeanwhileInv(Sync(s), gap[1..]);
    }
  }

  lemma MeanwhileDirected(s: State, gap: seq<Interlude>, a: Aid)
    requires Directed(s, a)
    ensures Directed(Meanwhile(s, gap), a)
    decreases |gap|
  {
    if gap != [] {
      MeanwhileDirected(match gap[0] case Replacement(place, published) => Replace(s, place, published)
                                     case Query => Sync(s), gap[1..], a);
    }
  }

  lemma HeldInv(s: State, gap: seq<Interlude>)
    requires Inv(s)
    ensures Inv(Held(s, gap))
    decreases |gap|
  {
    if gap != [] {
      match gap[0]
      case Replacement(place, published) =>
        ReplaceInv(s, place, published);
        HeldInv(Replace(s, place, published), gap[1..]);
      case Query => HeldInv(s, gap[1..]);
    }
  }

  lemma HeldDirected(s: State, gap: seq<Interlude>, a: Aid)
    requires Directed(s, a)
    ensures Directed(Held(s, gap), a)
    decreases |gap|
  {
    if gap != [] {
      HeldDirected(match gap[0] case Replacement(place, published) => Replace(s, place, published)
                                case Query => s, gap[1..], a);
    }
  }

  lemma DeselectInv(s: State)
    requires Inv(s)
    ensures Inv(s.(selected := None))
  {
    SameApplets(s, s.(selected := None));
  }

  lemma SelectSentInv(s: State, a: Aid, accepted: bool)
    requires Inv(s) && s.selected.None?
    ensures Inv(Log(s, Select(a, accepted)))
  {
    SameApplets(s, Log(s, Select(a, accepted)));
  }

  lemma RecordedInv(s: State, a: Aid)
    requires Inv(s) && s.selected.None? && Directed(s, a)
    ensures Inv(Log(s.(selected := Some(Unselected(a))), Recorded(a)))
  {
    SameApplets(s, Log(s.(selected := Some(Unselected(a))), Recorded(a)));
  }

  lemma SelectAnewInv(s: State, a: Aid, card: Card)
    requires Inv(s)
    ensures Inv(SelectAnew(s, a, card).0)
  {
    DeselectInv(s);
    var s1 := s.(selected := None);
    HeldInv(s1, card.before);
    HeldKeeps(s1, card.before);
    SelectSentInv(Held(s1, card.before), a, card.selects);
    var s2 := Log(Held(s1, card.before), Select(a, card.selects));
    if card.selects {
      HeldInv(s2, card.after);
      HeldKeeps(s2, card.after);
      HeldDirected(s2, card.after, a);
      SyncInv(Held(s2, card.after));
      RecordedInv(Sync(Held(s2, card.after)), a);
    }
  }

  lemma ReselectInv(s: State, a: Aid, card: Card)
    requires Inv(s)
    ensures var (t, rv) := Reselect(s, a, card);
            && Inv(t) && t.applets == s.applets && t.pending == s.pending && t.config == s.config
            && (if rv.Success? then IsSelected(t, a) else t.selected.None?)
  {
    SyncInv(s);
    CheckedInv(Sync(s));
    SelectAnewInv(Log(Sync(s), Checked), a, card);
    ReselectFrame(s, a, card);
  }

  /** What an authentication attempt leaves in the trace. */
  ghost predicate Attempted(s: State, t: State) {
    && t.(validated := s.validated, trace := s.trace) == s
    && Safe(s.config.recreate, t.trace)
    && t.validated == Trusted(t.trace)
    && (forall b :: ChannelOpen(t.trace, b) == ChannelOpen(s.trace, b))
    && (forall b :: Apdus(t.trace, b) == Apdus(s.trace, b))
  }

  lemma AttemptedLog(s: State, t: State, e: Event)
    requires Attempted(s, t) && (e.Select? || e.Authenticate?) && Admissible(s.config.recreate, t.trace, e)
    ensures Attempted(s, Log(t, e))
  {
  }

  /** The applet is selected and was sent this handshake. */
  ghost predicate Shaken(s: State, a: Aid, proto: Protocol) {
    Chosen(s, a) && Handshake(s.trace) == Some((a, proto))
  }

  lemma FetchReaches(t: State, a: Aid, proto: Protocol, asked: bool, back: bool, sent: bool)
    ensures var u := Fetch(t, a, proto, asked, back, sent);
            (back ==> Chosen(u, a)) && (asked && back && sent ==> Shaken(u, a, proto))
  {
  }

  lemma FetchTrace(s: State, t: State, a: Aid, proto: Protocol, asked: bool, back: bool, sent: bool)
    requires Attempted(s, t)
    ensures Attempted(s, Fetch(t, a, proto, asked, back, sent))
  {
    var u := t;
    if SelectableAid(t.config.issuer) {
      AttemptedLog(s, t, Select(t.config.issuer, asked));
      u := Log(t, Select(t.config.issuer, asked));
    }
    AttemptedLog(s, u, Select(a, back));
    if asked && back && sent { AttemptedLog(s, Log(u, Select(a, back)), Authenticate(a, proto)); }
  }

  lemma AttemptTrace(s: State, t: State, a: Aid, proto: Protocol, k: KeySet, cached: Option<Point>, o: AuthOutcome)
    requires Attempted(s, t) && (k.fixed || cached.Some? ==> Chosen(t, a))
    ensures var u := Attempt(t, a, proto, k, cached, o);
            && Attempted(s, u)
            && (k.fixed || cached.Some? ==> Chosen(u, a))
            && (o.AuthOk? ==> Shaken(u, a, proto))
  {
    if k.fixed || cached.Some? {
      AttemptedLog(s, t, Authenticate(a, proto));
    } else {
      FetchTrace(s, t, a, proto, o.AuthOk? || o.issuer, o.AuthOk? || o.reselected, o.AuthOk? || o.sent);
      FetchReaches(t, a, proto, o.AuthOk? || o.issuer, o.AuthOk? || o.reselected, o.AuthOk? || o.sent);
    }
  }

  lemma RememberTrace(s: State, t: State, key: Option<CacheKey>, o: AuthOutcome)
    requires Attempted(s, t)
    ensures Attempted(s, Remember(t, key, o))
  {
  }

  lemma RememberKeepsShaken(t: State, key: Option<CacheKey>, o: AuthOutcome, a: Aid, proto: Protocol)
    requires Shaken(t, a, proto)
    ensures Shaken(Remember(t, key, o), a, proto)
  {
  }

  lemma OpenScp11Trace(s: State, a: Aid, proto: Protocol, card: Card)
    requires Attempted(s, s) && Chosen(s, a)
    ensures var (t, n) := OpenScp11(s, a, proto, card);
            Attempted(s, t) && (n.Some? ==> Shaken(t, a, proto))
  {
    if card.keys.Some? {
      var k := card.keys.value;
      var key := CacheKeyOf(k);
      var cached := CachedPoint(s, key);
      var first := Outcome(s.config, k, cached, card.auth(0, cached));
      AttemptTrace(s, s, a, proto, k, cached, first);
      var s1 := Attempt(s, a, proto, k, cached, first);
      if first.AuthFailed? && cached.Some? {
        var s2 := Log(s1.(validated := s1.validated - {key.value}), Evicted(key.value));
        assert Attempted(s, s2);
        var second := Outcome(s.config, k, None, card.auth(1, None));
        AttemptTrace(s, s2, a, proto, k, None, second);
        var s3 := Attempt(s2, a, proto, k, None, second);
        RememberTrace(s, s3, key, second);
        if second.AuthOk? { RememberKeepsShaken(s3, key, second, a, proto); }
      } else {
        RememberTrace(s, s1, key, first);
        if first.AuthOk? { RememberKeepsShaken(s1, key, first, a, proto); }
      }
    }
  }

  lemma EstablishedInv(s: State, t: State, a: Aid, sel: Selected)
    requires Inv(s) && a in s.applets && a !in s.pending && Attempted(s, t)
    requires ActiveProtocol(s.applets[a]).Some? && s.applets[a].enabled
    requires s.applets[a].started ==> s.config.recreate
    requires sel.aid == a && sel.session.Some? && sel.protocol.Some? && Shaken(t, a, sel.protocol.value)
    ensures Inv(Log(WithApplet(t.(selected := Some(sel)), a, s.applets[a].(started := true)),
                    Established(a, sel.session.value)))
  {
    var u := Log(WithApplet(t.(selected := Some(sel)), a, s.applets[a].(started := true)),
                 Established(a, sel.session.value));
    assert AppletOk(s, a);
    forall b ensures AppletOk(u, b) { assert AppletOk(s, b); }
  }

  lemma DisabledInv(s: State, t: State, a: Aid, p: Applet)
    requires Inv(s) && a in s.applets && Attempted(s, t)
    requires p == s.applets[a].(enabled := p.enabled, credential := p.credential, present := p.present)
    ensures Inv(WithApplet(t.(selected := None), a, p))
  {
    var u := WithApplet(t.(selected := None), a, p);
    assert AppletOk(s, a);
    forall b ensures AppletOk(u, b) { assert AppletOk(s, b); }
  }

  lemma OpenSessionTrace(s: State, a: Aid, proto: Protocol, card: Card)
    requires Attempted(s, s) && Chosen(s, a)
    ensures var (t, n) := OpenSession(s, a, proto, card);
            Attempted(s, t) && (n.Some? ==> Shaken(t, a, proto))
  {
    if proto == Scp03 { AttemptedLog(s, s, Authenticate(a, Scp03)); } else { OpenScp11Trace(s, a, proto, card); }
  }

  lemma ConcludeInv(s: State, s1: State, a: Aid, proto: Protocol, session: Option<Session>, card: Card)
    requires Inv(s) && a in s.applets && a !in s.pending && IsSelected(s, a)
    requires Attempted(s, s1) && (session.Some? ==> Shaken(s1, a, proto))
    requires ActiveProtocol(s.applets[a]).Some? && s.applets[a].enabled
    requires s.applets[a].started ==> s.config.recreate
    ensures Inv(Conclude(s, s1, a, proto, session, card).0)
  {
    var p := s.applets[a];
    if session.None? {
      DisabledInv(s, s1, a, p.(enabled := false, credential := None));
    } else {
      EstablishedInv(s, s1, a, s.selected.value.(session := session, protocol := Some(proto),
                                                 description := DescriptionOf(p, proto, card)));
    }
  }

  /** What opening the channel of the selected applet leaves. */
  ghost predicate Opened(s: State, t: State, a: Aid, rv: Rv)
    requires a in s.applets && a in t.applets
  {
    && Inv(t)
    && (rv.Success? ==>
          && IsSelected(t, a) && t.applets[a].enabled == s.applets[a].enabled
          && (ActiveProtocol(t.applets[a]).None? || !t.applets[a].enabled ==> !t.applets[a].started)
          && (ActiveProtocol(t.applets[a]).Some? && t.applets[a].enabled ==> LiveSession(t, a)))
    && (rv.Failure? ==> !LiveSession(t, a))
    && (s.applets[a].started ==> t.applets[a].started)
  }

  lemma OpenChannelInv(s: State, a: Aid, card: Card)
    requires Inv(s) && a in s.applets && a !in s.pending && IsSelected(s, a)
    ensures var (t, rv) := OpenChannel(s, a, card);
            a in t.applets && Opened(s, t, a, rv)
  {
    OpenChannelFrame(s, a, card);
    var p := s.applets[a];
    assert AppletOk(s, a);
    if ActiveProtocol(p).Some? && p.enabled && (p.started ==> s.config.recreate) {
      HeldInv(s, card.opening);
      HeldKeeps(s, card.opening);
      var s0, proto := Held(s, card.opening), ActiveProtocol(p).value;
      OpenSessionTrace(s0, a, proto, card);
      var (s1, session) := OpenSession(s0, a, proto, card);
      ConcludeInv(s0, s1, a, proto, session, card);
    }
  }

  /** After a successful `Ensure` the applet is selected, and it either talks in
      plain because it has never started, or it has a live session. */
  lemma EnsureInv(s: State, a: Aid, card: Card)
    requires Inv(s) && a in s.applets && a !in s.pending
    ensures var (t, rv) := Ensure(s, a, card);
            Framed(s, t, a) && Opened(s, t, a, rv)
  {
    ReselectInv(s, a, card);
    EnsureFrame(s, a, card);
    var (s1, rv) := Reselect(s, a, card);
    if rv.Success? { OpenChannelInv(s1, a, card); }
  }

  lemma PlainSentInv(s: State, a: Aid)
    requires Inv(s) && a in s.applets && !s.applets[a].started && Directed(s, a)
    requires s.selected.Some? ==> s.selected.value.aid == a && s.selected.value.session.None?
    ensures Inv(Log(s, Plain(a)))
  {
    assert AppletOk(s, a);
    SameApplets(s, Log(s, Plain(a)));
  }

  lemma ProtectedSentInv(s: State, a: Aid)
    requires Inv(s) && a in s.applets && a !in s.pending && LiveSession(s, a)
    ensures Inv(Log(s, Protected(a, s.selected.value.session.value)))
  {
    assert AppletOk(s, a);
    SameApplets(s, Log(s, Protected(a, s.selected.value.session.value)));
  }

  lemma DropChannelInv(s: State, a: Aid)
    requires Inv(s) && a in s.applets
    ensures Inv(DropChannel(s, a))
  {
    DisabledInv(s, s, a, s.applets[a].(enabled := false, credential := None));
  }

  lemma ExchangeInv(s: State, a: Aid, delivery: Delivery)
    requires Inv(s) && a in s.applets && a !in s.pending && Directed(s, a)
    requires ActiveProtocol(s.applets[a]).None? || !s.applets[a].enabled
             ==> !s.applets[a].started && !LiveSession(s, a)
    requires s.selected.Some? ==> s.selected.value.aid == a
    ensures Inv(Exchange(s, a, delivery).0)
  {
    var p := s.applets[a];
    if ActiveProtocol(p).None? || !p.enabled {
      var s1 := if delivery.Unsent? then s else Log(s, Plain(a));
      PlainSentInv(s, a);
      DeselectInv(s1);
    } else if LiveSession(s, a) {
      var s1 := if delivery.Unsent? then s else Log(s, Protected(a, s.selected.value.session.value));
      ProtectedSentInv(s, a);
      DropChannelInv(s1, a);
    }
  }

  lemma SendInv(s: State, a: Aid, card: Card, gap: seq<Interlude>, delivery: Delivery)
    requires Inv(s) && a in s.applets && a !in s.pending
    ensures Inv(Send(s, a, card, gap, delivery).0)
  {
    EnsureInv(s, a, card);
    var (s1, rv) := Ensure(s, a, card);
    MeanwhileInv(s1, gap);
    if rv.Success? {
      MeanwhileDirected(s1, gap, a);
      ExchangeInv(Meanwhile(s1, gap), a, delivery);
    }
  }

  lemma TransmitInv(s: State, a: Aid, card: Card, gap: seq<Interlude>, decodes: bool,
                    card2: Card, gap2: seq<Interlude>, delivery: Delivery, fits: bool)
    requires Inv(s) && a in s.applets && a !in s.pending
    ensures Inv(Transmit(s, a, card, gap, decodes, card2, gap2, delivery, fits).0)
  {
    EnsureInv(s, a, card);
    var (s1, rv) := Ensure(s, a, card);
    MeanwhileInv(s1, gap);
    if rv.Success? {
      MeanwhileDirected(s1, gap, a);
      ExchangeInv(Meanwhile(s1, gap), a, delivery);
      SendInv(Meanwhile(s1, gap), a, card2, gap2, delivery);
    }
  }

  lemma AdministeredInv(s: State)
    requires Inv(s)
    ensures Inv(Log(s.(validated := map[]), Administered))
  {
    SameApplets(s, Log(s.(validated := map[]), Administered));
  }

  lemma CommandInv(s: State, a: Aid, scp11: bool, prepared: bool, delivery: Delivery)
    requires Inv(s) && a in s.applets && a !in s.pending && (s.selected.Some? ==> s.selected.value.aid == a)
    ensures Inv(Command(s, a, scp11, prepared, delivery).0)
  {
    if LiveSession(s, a) {
      var s1 := if delivery.Unsent? then s else Log(s, Protected(a, s.selected.value.session.value));
      ProtectedSentInv(s, a);
      DeselectInv(s1);
      AdministeredInv(s1);
    }
  }

  lemma AdministerInv(s: State, a: Aid, card: Card, gap: seq<Interlude>, scp11: bool, prepared: bool,
                      delivery: Delivery)
    requires Inv(s) && a in s.applets && a !in s.pending
    ensures Inv(Administer(s, a, card, gap, scp11, prepared, delivery).0)
  {
    EnsureInv(s, a, card);
    var (s1, rv) := Ensure(s, a, card);
    MeanwhileInv(s1, gap);
    if rv.Success? { CommandInv(Meanwhile(s1, gap), a, scp11, prepared, delivery); }
  }

  lemma RediscoverInv(s: State, a: Aid, link: Link)
    requires Inv(s) && a in s.applets
    ensures Inv(Rediscover(s, a, link).0)
  {
    DeselectInv(s);
    MeanwhileInv(s.(selected := None), link.before);
    var s1 := Meanwhile(s.(selected := None), link.before);
    if !SelectableAid(a) {
      PresenceInv(s1, a, false);
    } else {
      SelectSentInv(s1, a, link.selects);
      var s2 := Log(s1, Select(a, link.selects));
      if link.selects {
        MeanwhileInv(s2, link.after);
        MeanwhileDirected(s2, link.after, a);
        RecordedInv(Meanwhile(s2, link.after), a);
        PresenceInv(Log(Meanwhile(s2, link.after).(selected := Some(Unselected(a))), Recorded(a)), a, true);
      } else {
        PresenceInv(s2, a, false);
      }
    }
  }

  lemma RefreshInv(s: State, a: Aid, link: Link)
    requires Inv(s) && a in s.applets && a !in s.pending
    ensures Inv(Refresh(s, a, link).0)
  {
    MeanwhileInv(s, link.refreshing);
    var s1 := Meanwhile(s, link.refreshing);
    if !link.refreshes || !link.present {
      DisabledInv(s1, s1, a, s.applets[a].(present := false, enabled := false, credential := None));
    } else {
      SyncInv(s1);
      PresenceInv(Sync(s1), a, true);
      RediscoverInv(Sync(s1), a, link);
    }
  }

  lemma PresenceInv(s: State, a: Aid, present: bool)
    requires Inv(s) && a in s.applets
    ensures Inv(WithApplet(s, a, s.applets[a].(present := present)))
  {
    var t := WithApplet(s, a, s.applets[a].(present := present));
    forall b ensures AppletOk(t, b) { assert AppletOk(s, b); }
  }

  lemma EnabledInv(s: State, a: Aid, enabled: bool)
    requires Inv(s) && a in s.applets && (enabled || !LiveSession(s, a))
    ensures Inv(WithApplet(s, a, s.applets[a].(enabled := enabled)))
  {
    var t := WithApplet(s, a, s.applets[a].(enabled := enabled));
    forall b ensures AppletOk(t, b) { assert AppletOk(s, b); }
  }

  lemma EstablishInv(s: State, a: Aid, target: Aid, card: Card)
    requires Inv(s) && a in s.applets && a !in s.pending
    ensures Inv(Establish(s, a, target, card).0)
  {
    if target == a {
      EnabledInv(s, a, true);
      var s0 := WithApplet(s, a, s.applets[a].(enabled := true));
      EnsureInv(s0, a, card);
      var (s1, rv) := Ensure(s0, a, card);
      if rv.Failure? { EnabledInv(s1, a, false); }
    }
  }

  lemma SetLoginInv(s: State, a: Aid, login: Login, card: Card, gap: seq<Interlude>)
    requires Inv(s) && a in s.applets && a !in s.pending
    ensures Inv(SetLogin(s, a, login, card, gap).0)
  {
    if login == Public {
      SyncInv(s);
      var s1 := Sync(s);
      if IsSelected(s1, a) { SameApplets(s1, s1.(selected := Some(s1.selected.value.(login := Public)))); }
    } else {
      EnsureInv(s, a, card);
      var (s1, rv) := Ensure(s, a, card);
      MeanwhileInv(s1, gap);
      var s2 := Meanwhile(s1, gap);
      if rv.Success? && s2.selected.Some? {
        SameApplets(s2, s2.(selected := Some(s2.selected.value.(login := login))));
      }
    }
  }

  lemma ClearLockedInv(s: State, a: Aid)
    requires Inv(s) && a in s.applets
    ensures Inv(ClearLocked(s, a))
  {
    var t := ClearLocked(s, a);
    forall b ensures AppletOk(t, b) { assert AppletOk(s, b); }
  }

  /** Resetting `started` is sound when no session of `a` is live, or when the
      clear call that ends it is under way. */
  lemma ResetInv(s: State, a: Aid)
    requires Inv(s) && a in s.applets
    requires !LiveSession(s, a) || a in s.pending
    ensures Inv(ResetStarted(s, a))
  {
    var t := ResetStarted(s, a);
    forall b ensures AppletOk(t, b) { assert AppletOk(s, b); }
  }

  lemma DropCredentialInv(s: State, a: Aid)
    requires Inv(s) && a in s.applets
    ensures Inv(DropCredential(s, a))
  {
    var t := DropCredential(s, a);
    forall b ensures AppletOk(t, b) { assert AppletOk(s, b); }
  }

  /** A call may be suspended; only a clear call leaves a live session behind. */
  lemma SuspendInv(s: State, a: Aid, tail: Tail)
    requires Inv(s) && a in s.applets
    requires tail.ClearTail? || !LiveSession(s, a)
    ensures Inv(s.(pending := s.pending[a := tail]))
  {
    var t := s.(pending := s.pending[a := tail]);
    forall b ensures AppletOk(t, b) { assert AppletOk(s, b); }
  }

  lemma BeginClearInv(s: State, a: Aid)
    requires Inv(s) && a in s.applets
    ensures Inv(BeginClear(s, a))
  {
    DropCredentialInv(s, a);
    var s1 := DropCredential(s, a);
    SuspendInv(s1, a, ClearTail);
    ResetInv(s1.(pending := s1.pending[a := ClearTail]), a);
  }

  lemma UnsuspendInv(s: State, a: Aid)
    requires Inv(s) && a in s.pending && !LiveSession(s, a)
    ensures Inv(s.(pending := s.pending - {a}))
  {
    var t := s.(pending := s.pending - {a});
    forall b ensures AppletOk(t, b) { assert AppletOk(s, b); }
  }

  lemma PreparedInv(s: State, a: Aid, protocol: Option<Protocol>, credential: Option<Credential>)
    requires Inv(s) && a in s.applets && !LiveSession(s, a)
    ensures Inv(ResetStarted(WithApplet(s, a, s.applets[a].(protocol := protocol, credential := credential)), a))
  {
    var t := ResetStarted(WithApplet(s, a, s.applets[a].(protocol := protocol, credential := credential)), a);
    forall b ensures AppletOk(t, b) { assert AppletOk(s, b); }
  }

  lemma ResumeInv(s: State, a: Aid)
    requires Inv(s) && a in s.applets && a in s.pending
    ensures Inv(Resume(s, a))
  {
    match s.pending[a]
    case ClearTail =>
      ClearLockedInv(s, a);
      UnsuspendInv(ClearLocked(s, a), a);
    case ResetTail =>
      UnsuspendInv(s, a);
      ResetInv(s.(pending := s.pending - {a}), a);
    case PrepareTail(protocol, credential) =>
      UnsuspendInv(s, a);
      PreparedInv(s.(pending := s.pending - {a}), a, protocol, credential);
  }

  lemma HeldSelected(s: State, selected: Option<Selected>, gap: seq<Interlude>)
    ensures Held(s.(selected := selected), gap) == Held(s, gap).(selected := selected)
    decreases |gap|
  {
    if gap != [] {
      HeldSelected(match gap[0] case Replacement(place, published) => Replace(s, place, published)
                                case Query => s, selected, gap[1..]);
    }
  }

  lemma RegisteredInv(s: State, a: Aid, p: Applet)
    requires Inv(s) && a !in s.applets && !p.started
    ensures Inv(WithApplet(s, a, p))
  {
    var t := WithApplet(s, a, p);
    forall b ensures AppletOk(t, b) { assert AppletOk(s, b); }
  }

  lemma ProbedInv(s: State, a: Aid, after: seq<Interlude>)
    requires Inv(s)
    ensures Inv(Log(Held(Log(s, Select(a, true)), after).(selected := Some(Unselected(a))), Recorded(a)))
  {
    DeselectInv(s);
    SelectSentInv(s.(selected := None), a, true);
    var s1 := Log(s.(selected := None), Select(a, true));
    HeldInv(s1, after);
    HeldKeeps(s1, after);
    HeldDirected(s1, after, a);
    HeldSelected(Log(s, Select(a, true)), None, after);
    RecordedInv(Held(s1, after), a);
  }

  lemma DiscoverInv(s: State, a: Aid, accepted: bool, after: seq<Interlude>, configured: Option<Protocol>,
                    present: bool)
    requires Inv(s)
    ensures Inv(Discover(s, a, accepted, after, configured, present))
  {
    if !accepted {
      SameApplets(s, Log(s, Select(a, false)));
    } else {
      ProbedInv(s, a, after);
      HeldKeeps(Log(s, Select(a, true)), after);
      if a !in s.applets {
        RegisteredInv(Log(Held(Log(s, Select(a, true)), after).(selected := Some(Unselected(a))), Recorded(a)), a,
                      Applet(configured, false, present, false, None, None));
      }
    }
  }

  lemma BeginPrepareInv(s: State, a: Aid, choice: Option<(Protocol, Credential)>)
    requires Inv(s) && a in s.applets
    ensures Inv(BeginPrepare(s, a, choice))
  {
    ClearLockedInv(s, a);
    SuspendInv(ClearLocked(s, a), a, BeginPrepare(s, a, choice).pending[a]);
  }

  lemma BeginReconcileInv(s: State, a: Aid)
    requires Inv(s) && a in s.applets
    ensures Inv(BeginReconcile(s, a))
  {
    DropCredentialInv(s, a);
    SuspendInv(DropCredential(s, a), a, ClearTail);
  }

  lemma BeginClearForLoginInv(s: State, a: Aid)
    requires Inv(s) && a in s.applets
    ensures Inv(BeginClearForLogin(s, a))
  {
    ClearLockedInv(s, a);
    SuspendInv(ClearLocked(s, a), a, ResetTail);
  }

  lemma FinishLoginInv(s: State, a: Aid, success: bool)
    requires Inv(s) && a in s.applets
    ensures Inv(FinishLogin(s, a, success))
  {
    DropCredentialInv(s, a);
    BeginClearInv(s, a);
  }

  lemma StepInv(s: State, op: Op)
    requires Inv(s) && Enabled(s, op)
    ensures Inv(Step(s, op).0)
  {
    match op
    case SendOp(a, card, gap, delivery) => SendInv(s, a, card, gap, delivery);
    case TransmitOp(a, card, gap, decodes, card2, gap2, delivery, fits) =>
      TransmitInv(s, a, card, gap, decodes, card2, gap2, delivery, fits);
    case AdministerOp(a, card, gap, scp11, prepared, delivery) =>
      AdministerInv(s, a, card, gap, scp11, prepared, delivery);
    case RefreshOp(a, link) => RefreshInv(s, a, link);
    case EstablishOp(a, target, card) => EstablishInv(s, a, target, card);
    case SetLoginOp(a, login, card, gap) => SetLoginInv(s, a, login, card, gap);
    case ResumeOp(a) => ResumeInv(s, a);
    case BetweenOp(_, gap) => MeanwhileInv(s, gap);
    case DiscoverOp(a, accepted, after, configured, present) =>
      DiscoverInv(s, a, accepted, after, configured, present);
    case PrepareOp(a, choice) => BeginPrepareInv(s, a, choice);
    case FinishOp(a, success) => FinishLoginInv(s, a, success);
    case ReconcileOp(a) => BeginReconcileInv(s, a);
    case ClearOp(a) => BeginClearInv(s, a);
    case ClearForLoginOp(a) => BeginClearForLoginInv(s, a);
  }

  // ------------------------------------------- steps of one applet are local

  /** Nothing that belongs to applet `b` changed, except that its session may
      have been lost. */
  ghost predicate Untouched(s: State, t: State, b: Aid) {
    && t.config == s.config
    && (b in s.applets <==> b in t.applets)
    && (b in s.applets ==> t.applets[b] == s.applets[b])
    && (b in s.pending <==> b in t.pending)
    && (b in s.pending ==> t.pending[b] == s.pending[b])
    && Apdus(t.trace, b) == Apdus(s.trace, b)
    && (LiveSession(t, b) ==> LiveSession(s, b))
  }

  lemma MeanwhileLocal(s: State, gap: seq<Interlude>, b: Aid)
    ensures Untouched(s, Meanwhile(s, gap), b)
    decreases |gap|
  {
    if gap != [] {
      var t := match gap[0] case Replacement(place, published) => Replace(s, place, published)
                            case Query => Sync(s);
      assert Untouched(s, t, b);
      MeanwhileLocal(t, gap[1..], b);
    }
  }

  lemma HeldLocal(s: State, gap: seq<Interlude>, b: Aid)
    ensures Untouched(s, Held(s, gap), b)
    decreases |gap|
  {
    if gap != [] {
      var t := match gap[0] case Replacement(place, published) => Replace(s, place, published)
                            case Query => s;
      assert Untouched(s, t, b);
      HeldLocal(t, gap[1..], b);
    }
  }

  lemma SelectAnewLocal(s: State, a: Aid, card: Card, b: Aid)
    ensures Untouched(s, SelectAnew(s, a, card).0, b)
  {
    var s1 := s.(selected := None);
    HeldLocal(s1, card.before, b);
    var s2 := Log(Held(s1, card.before), Select(a, card.selects));
    assert Untouched(s, s2, b);
    HeldLocal(s2, card.after, b);
    assert Untouched(s, Sync(Held(s2, card.after)), b);
  }

  lemma ReselectLocal(s: State, a: Aid, card: Card, b: Aid)
    ensures Untouched(s, Reselect(s, a, card).0, b)
  {
    assert Untouched(s, Sync(s), b);
    var s1 := Log(Sync(s), Checked);
    assert Untouched(Sync(s), s1, b);
    SelectAnewLocal(s1, a, card, b);
  }

  lemma NegotiateLocal(s: State, a: Aid, card: Card, b: Aid)
    requires Inv(s) && a in s.applets && IsSelected(s, a) && ActiveProtocol(s.applets[a]).Some?
    ensures b != a ==> Untouched(s, Negotiate(s, a, card).0, b)
    ensures Apdus(Negotiate(s, a, card).0.trace, b) == Apdus(s.trace, b)
  {
    OpenSessionTrace(s, a, ActiveProtocol(s.applets[a]).value, card);
  }

  lemma EnsureLocal(s: State, a: Aid, card: Card, b: Aid)
    requires Inv(s) && a in s.applets
    ensures b != a ==> Untouched(s, Ensure(s, a, card).0, b)
    ensures Apdus(Ensure(s, a, card).0.trace, b) == Apdus(s.trace, b)
  {
    ReselectInv(s, a, card);
    ReselectLocal(s, a, card, b);
    var (s1, rv) := Reselect(s, a, card);
    if rv.Success? && ActiveProtocol(s1.applets[a]).Some? {
      HeldInv(s1, card.opening);
      HeldKeeps(s1, card.opening);
      HeldLocal(s1, card.opening, b);
      NegotiateLocal(Held(s1, card.opening), a, card, b);
    }
  }

  lemma ExchangeLocal(s: State, a: Aid, delivery: Delivery, b: Aid)
    requires a in s.applets && b != a
    ensures Untouched(s, Exchange(s, a, delivery).0, b)
  {
  }

  lemma SendLocal(s: State, a: Aid, card: Card, gap: seq<Interlude>, delivery: Delivery, b: Aid)
    requires Inv(s) && a in s.applets && b != a
    ensures Untouched(s, Send(s, a, card, gap, delivery).0, b)
  {
    EnsureLocal(s, a, card, b);
    EnsureFrame(s, a, card);
    var (s1, rv) := Ensure(s, a, card);
    MeanwhileLocal(s1, gap, b);
    MeanwhileKeepsApplets(s1, gap);
    if rv.Success? { ExchangeLocal(Meanwhile(s1, gap), a, delivery, b); }
  }

  lemma TransmitLocal(s: State, a: Aid, card: Card, gap: seq<Interlude>, decodes: bool,
                      card2: Card, gap2: seq<Interlude>, delivery: Delivery, fits: bool, b: Aid)
    requires Inv(s) && a in s.applets && a !in s.pending && b != a
    ensures Untouched(s, Transmit(s, a, card, gap, decodes, card2, gap2, delivery, fits).0, b)
  {
    EnsureLocal(s, a, card, b);
    EnsureInv(s, a, card);
    var (s1, rv) := Ensure(s, a, card);
    MeanwhileLocal(s1, gap, b);
    MeanwhileInv(s1, gap);
    if rv.Success? {
      ExchangeLocal(Meanwhile(s1, gap), a, delivery, b);
      SendLocal(Meanwhile(s1, gap), a, card2, gap2, delivery, b);
    }
  }

  lemma CommandLocal(s: State, a: Aid, scp11: bool, prepared: bool, delivery: Delivery, b: Aid)
    requires a in s.applets && b != a
    ensures Untouched(s, Command(s, a, scp11, prepared, delivery).0, b)
  {
  }

  lemma AdministerLocal(s: State, a: Aid, card: Card, gap: seq<Interlude>, scp11: bool, prepared: bool,
                        delivery: Delivery, b: Aid)
    requires Inv(s) && a in s.applets && b != a
    ensures Untouched(s, Administer(s, a, card, gap, scp11, prepared, delivery).0, b)
  {
    EnsureLocal(s, a, card, b);
    EnsureFrame(s, a, card);
    var (s1, rv) := Ensure(s, a, card);
    MeanwhileLocal(s1, gap, b);
    MeanwhileKeepsApplets(s1, gap);
    if rv.Success? { CommandLocal(Meanwhile(s1, gap), a, scp11, prepared, delivery, b); }
  }

  lemma SetLoginLocal(s: State, a: Aid, login: Login, card: Card, gap: seq<Interlude>, b: Aid)
    requires Inv(s) && a in s.applets && b != a
    ensures Untouched(s, SetLogin(s, a, login, card, gap).0, b)
  {
    if login != Public {
      EnsureLocal(s, a, card, b);
      MeanwhileLocal(Ensure(s, a, card).0, gap, b);
    } else {
      assert Untouched(s, Sync(s), b);
    }
  }

  lemma RediscoverLocal(s: State, a: Aid, link: Link, b: Aid)
    requires a in s.applets && b != a
    ensures Untouched(s, Rediscover(s, a, link).0, b)
  {
    var s1 := Meanwhile(s.(selected := None), link.before);
    MeanwhileKeepsApplets(s.(selected := None), link.before);
    MeanwhileLocal(s.(selected := None), link.before, b);
    assert Untouched(s, s1, b);
    var s2 := Log(s1, Select(a, link.selects));
    assert Untouched(s1, s2, b);
    MeanwhileLocal(s2, link.after, b);
  }

  lemma RefreshLocal(s: State, a: Aid, link: Link, b: Aid)
    requires a in s.applets && b != a
    ensures Untouched(s, Refresh(s, a, link).0, b)
  {
    MeanwhileKeepsApplets(s, link.refreshing);
    MeanwhileLocal(s, link.refreshing, b);
    var s1 := Sync(Meanwhile(s, link.refreshing));
    assert Untouched(s, s1, b);
    RediscoverLocal(s1, a, link, b);
  }

  lemma ResumeLocal(s: State, a: Aid, b: Aid)
    requires a in s.applets && a in s.pending && b != a
    ensures Untouched(s, Resume(s, a), b)
  {
  }

  lemma BeginLocal(s: State, a: Aid, choice: Option<(Protocol, Credential)>, b: Aid)
    requires a in s.applets && b != a
    ensures Untouched(s, BeginPrepare(s, a, choice), b) && Untouched(s, BeginClearForLogin(s, a), b)
  {
  }

  lemma BeginClearLocal(s: State, a: Aid, b: Aid)
    requires a in s.applets && b != a
    ensures Untouched(s, BeginClear(s, a), b) && Untouched(s, BeginReconcile(s, a), b)
    ensures Untouched(s, DropCredential(s, a), b)
  {
  }

  lemma LifecycleLocal(s: State, op: Op, b: Aid)
    requires op.PrepareOp? || op.FinishOp? || op.ReconcileOp? || op.ClearOp? || op.ClearForLoginOp?
    requires Enabled(s, op) && b != op.aid
    ensures Untouched(s, Step(s, op).0, b)
  {
    BeginLocal(s, op.aid, if op.PrepareOp? then op.choice else None, b);
    BeginClearLocal(s, op.aid, b);
  }

  lemma EstablishLocal(s: State, a: Aid, target: Aid, card: Card, b: Aid)
    requires Inv(s) && a in s.applets && b != a
    ensures Untouched(s, Establish(s, a, target, card).0, b)
  {
    var s0 := WithApplet(s, a, s.applets[a].(enabled := true));
    forall c ensures AppletOk(s0, c) { assert AppletOk(s, c); }
    EnsureLocal(s0, a, card, b);
    EnsureFrame(s0, a, card);
  }

  lemma DiscoverLocal(s: State, a: Aid, accepted: bool, after: seq<Interlude>, configured: Option<Protocol>,
                      present: bool, b: Aid)
    requires b != a
    ensures Untouched(s, Discover(s, a, accepted, after, configured, present), b)
  {
    HeldLocal(Log(s, Select(a, true)), after, b);
  }

  lemma StepLocal(s: State, op: Op, b: Aid)
    requires Inv(s) && Enabled(s, op) && b != op.aid
    ensures Untouched(s, Step(s, op).0, b)
  {
    match op
    case SendOp(a, card, gap, delivery) => SendLocal(s, a, card, gap, delivery, b);
    case TransmitOp(a, card, gap, decodes, card2, gap2, delivery, fits) =>
      TransmitLocal(s, a, card, gap, decodes, card2, gap2, delivery, fits, b);
    case AdministerOp(a, card, gap, scp11, prepared, delivery) =>
      AdministerLocal(s, a, card, gap, scp11, prepared, delivery, b);
    case EstablishOp(a, target, card) => EstablishLocal(s, a, target, card, b);
    case SetLoginOp(a, login, card, gap) => SetLoginLocal(s, a, login, card, gap, b);
    case RefreshOp(a, link) => RefreshLocal(s, a, link, b);
    case ResumeOp(a) => ResumeLocal(s, a, b);
    case BetweenOp(_, gap) => MeanwhileLocal(s, gap, b);
    case DiscoverOp(a, accepted, after, configured, present) =>
      DiscoverLocal(s, a, accepted, after, configured, present, b);
    case _ => LifecycleLocal(s, op, b);
  }

  lemma {:induction false} RunInv(s: State, ops: seq<Op>)
    requires Inv(s)
    ensures Inv(Run(s, ops)) && Run(s, ops).config == s.config
    decreases |ops|
  {
    if ops != [] {
      if Enabled(s, ops[0]) {
        StepInv(s, ops[0]);
        StepLocal(s, ops[0], ops[0].aid + [0]);  // any other applet sees the same configuration
        RunInv(Step(s, ops[0]).0, ops[1..]);
      } else {
        RunInv(s, ops[1..]);
      }
    }
  }

  lemma {:induction false} RunAppend(s: State, ops: seq<Op>, op: Op)
    ensures var t := Run(s, ops);
            Run(s, ops + [op]) == if Enabled(t, op) then Step(t, op).0 else t
    decreases |ops|
  {
    if ops == [] {
      assert ([] + [op])[1..] == [];
    } else {
      assert (ops + [op])[1..] == ops[1..] + [op];
      RunAppend(if Enabled(s, ops[0]) then Step(s, ops[0]).0 else s, ops[1..], op);
    }
  }
}
