/** What the secure-channel state machine does when nothing stands in its way: logins open
    their channels, and sends, administrations and logins succeed. */
module SecureChannelLogin {
  import opened Common
  import opened SecureChannel
  import opened SecureChannelRuns
  import opened SecureChannelTheorems

  // ------------------------------------------------------------------- runs

  lemma {:induction false} RunJoin(s: State, first: seq<Op>, second: seq<Op>)
    ensures Run(s, first + second) == Run(Run(s, first), second)
    decreases |first|
  {
    if first == [] {
      assert [] + second == second;
    } else {
      assert (first + second)[1..] == first[1..] + second;
      RunJoin(if Enabled(s, first[0]) then Step(s, first[0]).0 else s, first[1..], second);
    }
  }

  /** Steps of other applets only. */
  predicate Elsewhere(ops: seq<Op>, a: Aid) { forall i | 0 <= i < |ops| :: ops[i].aid != a }

  lemma {:induction false} ElsewhereKeeps(s: State, ops: seq<Op>, a: Aid)
    requires Inv(s) && Elsewhere(ops, a)
    ensures Inv(Run(s, ops)) && Untouched(s, Run(s, ops), a)
    decreases |ops|
  {
    if ops != [] {
      if Enabled(s, ops[0]) {
        StepInv(s, ops[0]);
        StepLocal(s, ops[0], a);
        ElsewhereKeeps(Step(s, ops[0]).0, ops[1..], a);
      } else {
        ElsewhereKeeps(s, ops[1..], a);
      }
    }
  }

  // ------------------------------------------------------------- opening a channel

  /** The card accepts the SELECT, its keys load, and every authentication ends in session
      `n`. */
  ghost predicate Agrees(card: Card, n: Session) {
    && card.selects && card.keys.Some?
    && forall i, p :: card.auth(i, p).AuthOk? && card.auth(i, p).session == n
  }

  /** SCP11 with a card key that is not fixed fetches certificates from the issuer domain. */
  predicate CanFetch(config: Config, proto: Protocol, card: Card) {
    proto == Scp03 || (card.keys.Some? && card.keys.value.fixed) || SelectableAid(config.issuer)
  }

  lemma SessionOpens(s: State, a: Aid, proto: Protocol, card: Card, n: Session)
    requires Agrees(card, n) && CanFetch(s.config, proto, card)
    ensures OpenSession(s, a, proto, card).1 == Some(n)
  {
  }

  /** What an applet is told by its connector and its last login. */
  predicate Speaks(p: Applet, proto: Protocol, credential: Option<Credential>) {
    if p.protocol.Some? then p.protocol.value == proto && p.credential == credential && credential.Some?
    else p.configured == Some(proto) && credential.None? && p.credential.None?
  }

  function Described(proto: Protocol, credential: Option<Credential>, card: Card): Option<string> {
    if credential.Some? then Some(credential.value.description)
    else if proto != Scp03 && card.keys.Some? then card.keys.value.description
    else None
  }

  /** The applet has a live session of this protocol with the right owner's description. */
  ghost predicate LoggedIn(t: State, a: Aid, proto: Protocol, n: Session, description: Option<string>) {
    && LiveSession(t, a) && t.selected.value.session == Some(n) && t.selected.value.protocol == Some(proto)
    && t.selected.value.description == description
    && a in t.applets && t.applets[a].enabled && t.applets[a].started
  }

  lemma ChannelOpens(s: State, a: Aid, proto: Protocol, credential: Option<Credential>, card: Card, n: Session)
    requires a in s.applets && SelectableAid(a) && !LiveSession(s, a)
    requires !s.applets[a].started && s.applets[a].enabled && Speaks(s.applets[a], proto, credential)
    requires Agrees(card, n) && CanFetch(s.config, proto, card)
    ensures var (t, rv) := Ensure(s, a, card);
            rv == Success && LoggedIn(t, a, proto, n, Described(proto, credential, card))
  {
    ReselectFrame(s, a, card);
    ReselectLocal(s, a, card, a);
    var s1 := Reselect(s, a, card).0;
    HeldKeeps(s1, card.opening);
    SessionOpens(Held(s1, card.opening), a, proto, card, n);
    OpenScp11Frame(Held(s1, card.opening), a, proto, card);
  }

  /** A login that names a credential uses its protocol, and one that does not uses the
      configured protocol: whatever other applets do meanwhile, preparing the login and then
      establishing the channel succeeds on a card that agrees. */
  lemma LoginOpensChannel(s: State, a: Aid, choice: Option<(Protocol, Credential)>, proto: Protocol,
                          first: seq<Op>, second: seq<Op>, card: Card, n: Session)
    requires Inv(s) && a in s.applets && a !in s.pending && SelectableAid(a)
    requires Elsewhere(first, a) && Elsewhere(second, a)
    requires if choice.Some? then choice.value.0 == proto else s.applets[a].configured == Some(proto)
    requires Agrees(card, n) && CanFetch(s.config, proto, card)
    ensures var prepared := Run(s, [PrepareOp(a, choice)] + first + [ResumeOp(a)] + second);
            && Enabled(prepared, EstablishOp(a, a, card))
            && var (t, rv) := Step(prepared, EstablishOp(a, a, card));
            && rv == Success
            && LoggedIn(t, a, proto, n, if choice.Some? then Some(choice.value.1.description)
                                        else Described(proto, None, card))
  {
    var s3 := PreparedRun(s, a, choice, first, second);
    var credential := if choice.Some? then Some(choice.value.1) else None;
    var s4 := WithApplet(s3, a, s3.applets[a].(enabled := true));
    ChannelOpens(s4, a, proto, credential, card, n);
  }

  /** After the prepare the applet has the protocol and the credential of the login, and no
      channel. */
  lemma PreparedRun(s: State, a: Aid, choice: Option<(Protocol, Credential)>, first: seq<Op>, second: seq<Op>)
    returns (t: State)
    requires Inv(s) && a in s.applets && a !in s.pending && Elsewhere(first, a) && Elsewhere(second, a)
    ensures t == Run(s, [PrepareOp(a, choice)] + first + [ResumeOp(a)] + second)
    ensures Inv(t) && t.config == s.config && a !in t.pending && a in t.applets && !LiveSession(t, a)
    ensures t.applets[a] == s.applets[a].(enabled := false, started := false,
                                          protocol := if choice.Some? then Some(choice.value.0) else None,
                                          credential := if choice.Some? then Some(choice.value.1) else None)
  {
    var paused, resumed;
    paused, resumed, t := PausedRun(s, a, PrepareOp(a, choice), first, second);
  }

  /** A call that works partly outside the gate, with steps of other applets before the rest
      of it and after it. */
  lemma PausedRun(s: State, a: Aid, begin: Op, first: seq<Op>, second: seq<Op>)
    returns (paused: State, resumed: State, t: State)
    requires Inv(s) && Enabled(s, begin) && Elsewhere(first, a) && Elsewhere(second, a)
    ensures Inv(paused) && Untouched(Step(s, begin).0, paused, a)
    ensures resumed == if Enabled(paused, ResumeOp(a)) then Step(paused, ResumeOp(a)).0 else paused
    ensures t == Run(s, [begin] + first + [ResumeOp(a)] + second)
    ensures Inv(t) && Untouched(resumed, t, a)
  {
    var resume := ResumeOp(a);
    RunJoin(s, [begin] + first + [resume], second);
    RunJoin(s, [begin] + first, [resume]);
    RunJoin(s, [begin], first);
    assert Run(s, [begin]) == Step(s, begin).0 by { assert [begin][1..] == []; }
    StepInv(s, begin);
    ElsewhereKeeps(Step(s, begin).0, first, a);
    paused := Run(Step(s, begin).0, first);
    resumed := if Enabled(paused, resume) then Step(paused, resume).0 else paused;
    assert Run(paused, [resume]) == resumed by { assert [resume][1..] == []; }
    if Enabled(paused, resume) { StepInv(paused, resume); }
    ElsewhereKeeps(resumed, second, a);
    t := Run(resumed, second);
  }

  // ------------------------------------------------------------- ending a login

  /** A call that ends a login or finishes making one. */
  predicate EndsLogin(op: Op) { op.FinishOp? || op.ReconcileOp? || op.ClearOp? || op.ClearForLoginOp? }

  /** It closes the channel, unless the login succeeded or a lost one can be made again. */
  predicate Closes(config: Config, op: Op) {
    match op
    case FinishOp(_, success) => !success
    case ReconcileOp(_) => !config.recreate
    case _ => true
  }

  /** The credential outlives a success and a loss only where channels are made again, and
      always the closing that a next login begins with. */
  predicate KeepsCredential(config: Config, op: Op) {
    op.ClearForLoginOp? || (config.recreate && (op.ReconcileOp? || (op.FinishOp? && op.success)))
  }

  /** A channel that was opened once is only forgotten where a new one may follow. */
  predicate Forgets(op: Op) { op.ClearOp? || op.ClearForLoginOp? || (op.FinishOp? && !op.success) }

  /** What such a call leaves of the applet, ... */
  function Ended(config: Config, p: Applet, op: Op): Applet {
    p.(enabled := p.enabled && !Closes(config, op), started := p.started && !Forgets(op),
       credential := if KeepsCredential(config, op) then p.credential else None)
  }

  /** ... the part of it that is done before the rest waits for the gate, ... */
  lemma EndBegins(s: State, a: Aid, op: Op)
    requires a in s.applets && a !in s.pending && op.aid == a && EndsLogin(op)
    ensures var t, p := Step(s, op).0, Ended(s.config, s.applets[a], op);
            && (a in t.pending <==> Closes(s.config, op)) && t.config == s.config && a in t.applets
            && (!Closes(s.config, op) ==> t.applets[a] == p && t.selected == s.selected)
            && (Closes(s.config, op) && !op.ClearForLoginOp? ==>
                  t.pending[a] == ClearTail && t.applets[a] == p.(enabled := s.applets[a].enabled))
            && (op.ClearForLoginOp? ==>
                  && t.pending[a] == ResetTail && t.applets[a] == p.(started := s.applets[a].started)
                  && !LiveSession(t, a))
  {
    match op
    case FinishOp(_, _) =>
    case ReconcileOp(_) =>
    case ClearOp(_) =>
    case ClearForLoginOp(_) =>
  }

  /** ... and the rest. */
  lemma EndResumes(s: State, a: Aid)
    requires a in s.applets && a in s.pending && !s.pending[a].PrepareTail?
    ensures var t := Step(s, ResumeOp(a)).0;
            && a in t.applets && a !in t.pending
            && (s.pending[a] == ClearTail ==>
                  t.applets[a] == s.applets[a].(enabled := false) && !LiveSession(t, a))
            && (s.pending[a] == ResetTail ==>
                  t.applets[a] == s.applets[a].(started := false) && t.selected == s.selected)
  {
  }

  /** Whatever other applets do meanwhile, such a call leaves the applet its protocol, closes
      its channel or leaves it open, and drops its credential or keeps it, as said. */
  lemma LoginEnds(s: State, a: Aid, op: Op, first: seq<Op>, second: seq<Op>)
    requires Inv(s) && a in s.applets && a !in s.pending && op.aid == a && EndsLogin(op)
    requires Elsewhere(first, a) && Elsewhere(second, a)
    ensures var t := Run(s, [op] + first + [ResumeOp(a)] + second);
            && Inv(t) && a in t.applets && a !in t.pending && t.applets[a] == Ended(s.config, s.applets[a], op)
            && (LiveSession(t, a) ==> LiveSession(s, a) && !Closes(s.config, op))
  {
    var paused, resumed, t := PausedRun(s, a, op, first, second);
    EndBegins(s, a, op);
    if a in paused.pending { EndResumes(paused, a); }
  }

  // ------------------------------------------------------------- using the channel

  lemma StillKeeps(s: State, gap: seq<Interlude>)
    requires s.epoch == s.base && Still(gap)
    ensures Meanwhile(s, gap) == s
    decreases |gap|
  {
    if gap != [] {
      StillRest(gap);
      StillKeeps(s, gap[1..]);
    }
  }

  /** The applet has session `n` on the current connection and may use it. */
  ghost predicate Ready(s: State, a: Aid, n: Session) {
    && a in s.applets && a !in s.pending && s.applets[a].enabled && ActiveProtocol(s.applets[a]).Some?
    && LiveSession(s, a) && s.selected.value.session == Some(n) && s.epoch == s.base
  }

  lemma ReadyEnsure(s: State, a: Aid, card: Card, gap: seq<Interlude>, n: Session)
    requires Ready(s, a, n) && Still(gap)
    ensures Ensure(s, a, card) == (Log(s, Checked), Success)
    ensures Meanwhile(Log(s, Checked), gap) == Log(s, Checked)
  {
    StillKeeps(Log(s, Checked), gap);
  }

  /** While the connection stands, every APDU of a ready applet goes out once, protected by
      its session, and an answer is success. */
  lemma ReadySends(s: State, a: Aid, card: Card, gap: seq<Interlude>, n: Session)
    requires Ready(s, a, n) && Still(gap)
    ensures var (t, rv) := Step(s, SendOp(a, card, gap, Delivered));
            rv == Success && Ready(t, a, n) && t.trace == Then(Then(s.trace, Checked), Protected(a, n))
  {
    ReadyEnsure(s, a, card, gap, n);
  }

  lemma ReadyTransmits(s: State, a: Aid, card: Card, gap: seq<Interlude>, card2: Card, gap2: seq<Interlude>,
                       fits: bool, n: Session)
    requires Ready(s, a, n) && Still(gap) && Still(gap2)
    ensures var (t, rv) := Step(s, TransmitOp(a, card, gap, true, card2, gap2, Delivered, fits));
            && rv == (if fits then Success else Failure(DeviceError)) && Ready(t, a, n)
            && t.trace == Then(Then(Then(s.trace, Checked), Checked), Protected(a, n))
    ensures Step(s, TransmitOp(a, card, gap, false, card2, gap2, Delivered, fits)) ==
            (Log(s, Checked), Failure(ArgumentsBad))
  {
    ReadyEnsure(s, a, card, gap, n);
    ReadyEnsure(Log(s, Checked), a, card2, gap2, n);
  }

  /** An administration of a ready applet succeeds with its one protected command, and a
      change of the SCP11 keys, and nothing else, forgets the cached card keys. */
  lemma ReadyAdministers(s: State, a: Aid, card: Card, gap: seq<Interlude>, scp11: bool, n: Session)
    requires Ready(s, a, n) && Still(gap)
    ensures var (t, rv) := Step(s, AdministerOp(a, card, gap, scp11, true, Delivered));
            var sent := Then(Then(s.trace, Checked), Protected(a, n));
            && rv == Success && Ready(t, a, n) && t.validated == (if scp11 then map[] else s.validated)
            && t.trace == if scp11 then Then(sent, Administered) else sent
  {
    ReadyEnsure(s, a, card, gap, n);
  }

  /** An APDU without an answer, or refused before sending, ends the selection; a lost
      application APDU also ends the login of its applet. */
  lemma LossEndsTheChannel(s: State, a: Aid, card: Card, gap: seq<Interlude>, delivery: Delivery, scp11: bool,
                           n: Session)
    requires Ready(s, a, n) && Still(gap) && !delivery.Delivered?
    ensures var (t, rv) := Step(s, SendOp(a, card, gap, delivery));
            && rv == Failure(Foreign) && t.selected == None
            && a in t.applets && !t.applets[a].enabled && t.applets[a].credential == None
            && (delivery.Unsent? <==> Apdus(t.trace, a) == Apdus(s.trace, a))
    ensures var (t, rv) := Step(s, AdministerOp(a, card, gap, scp11, true, delivery));
            && rv == Failure(Foreign) && t.selected == None && t.applets == s.applets && t.validated == s.validated
            && (delivery.Unsent? <==> Apdus(t.trace, a) == Apdus(s.trace, a))
    ensures Step(s, AdministerOp(a, card, gap, scp11, false, delivery)) == (Log(s, Checked), Failure(Foreign))
  {
    ReadyEnsure(s, a, card, gap, n);
  }

  /** The applet can be selected: it is already, on the current connection, or the card
      accepts the SELECT. */
  predicate CanSelect(s: State, a: Aid, card: Card) {
    Keeps(s, a) || (5 <= |a| <= 16 && card.selects)
  }

  /** Why ensuring the selection is refused before anything is authenticated: a login that
      lost its credential and has no session, a channel that was disabled after it had
      started, or one that is gone and must not be opened again. */
  predicate Refused(s: State, a: Aid)
    requires a in s.applets
  {
    var p := s.applets[a];
    var live := Keeps(s, a) && s.selected.value.session.Some?;
    || (p.protocol.Some? && p.credential.None? && !live)
    || (p.started && !p.enabled)
    || (p.started && p.enabled && ActiveProtocol(p).Some? && !live && !s.config.recreate)
  }

  /** Nothing more is needed once the applet is selected: it talks in plain or its session is
      live. */
  predicate Settled(s: State, a: Aid)
    requires a in s.applets
  {
    InPlain(s, a) || (Keeps(s, a) && s.selected.value.session.Some?)
  }

  /** What ensuring the selection answers, from the flags of the applet: the SELECT is refused
      first, then the login, and otherwise it succeeds at once or opens a channel. */
  lemma EnsureDecides(s: State, a: Aid, card: Card)
    requires a in s.applets
    ensures var rv := Ensure(s, a, card).1;
            && (!CanSelect(s, a, card) ==> rv == Failure(if 5 <= |a| <= 16 then Foreign else ArgumentsBad))
            && (CanSelect(s, a, card) && Refused(s, a) ==> rv == Failure(UserNotLoggedIn))
            && (CanSelect(s, a, card) && !Refused(s, a) && Settled(s, a) ==> rv == Success)
            && (CanSelect(s, a, card) && !Refused(s, a) && !Settled(s, a) ==> rv == Success || rv == Failure(Foreign))
  {
    ReselectFrame(s, a, card);
    var (s1, rv1) := Reselect(s, a, card);
    HeldKeeps(s1, card.opening);
    if !Keeps(s, a) { ReselectedAnew(s, a, card); }
  }

  lemma ReselectedAnew(s: State, a: Aid, card: Card)
    requires !Keeps(s, a)
    ensures var (t, rv) := Reselect(s, a, card);
            && (rv == if !(5 <= |a| <= 16) then Failure(ArgumentsBad)
                      else if card.selects then Success else Failure(Foreign))
            && (rv.Success? ==> t.selected == Some(Unselected(a)))
  {
    HeldKeeps(s.(selected := None), card.before);
  }

  /** A plain applet that is not refused sends its APDU once, in plain, and an answer is
      success; without an answer only the selection ends. */
  lemma PlainSends(s: State, a: Aid, card: Card, gap: seq<Interlude>, delivery: Delivery)
    requires a in s.applets && a !in s.pending && InPlain(s, a) && CanSelect(s, a, card) && !Refused(s, a)
    ensures var (t, rv) := Step(s, SendOp(a, card, gap, delivery));
            && rv == (if delivery.Delivered? then Success else Failure(Foreign))
            && t.applets == s.applets && (!delivery.Delivered? ==> t.selected == None)
            && (!delivery.Unsent? ==> t.trace.Then? && t.trace.last == Plain(a))
  {
    EnsureDecides(s, a, card);
    ReselectFrame(s, a, card);
    MeanwhileKeepsApplets(Ensure(s, a, card).0, gap);
  }

  /** The raw bytes of a plain applet are sent as they are, whether or not they decode. */
  lemma PlainTransmits(s: State, a: Aid, card: Card, gap: seq<Interlude>, decodes: bool, card2: Card,
                       gap2: seq<Interlude>, delivery: Delivery, fits: bool)
    requires a in s.applets && a !in s.pending && InPlain(s, a) && CanSelect(s, a, card) && !Refused(s, a)
    ensures Step(s, TransmitOp(a, card, gap, decodes, card2, gap2, delivery, fits)) ==
            Step(s, SendOp(a, card, gap, delivery))
  {
    EnsureDecides(s, a, card);
    ReselectFrame(s, a, card);
    MeanwhileKeepsApplets(Ensure(s, a, card).0, gap);
  }

  // ------------------------------------------------------- the APDUs of a handshake

  /** The handshake alone. */
  predicate Direct(t: Trace, u: Trace, a: Aid, proto: Protocol) { t == Then(u, Authenticate(a, proto)) }

  /** The handshake after the issuer domain was asked and the applet selected again. */
  predicate Fetched(t: Trace, u: Trace, issuer: Aid, a: Aid, proto: Protocol) {
    t == Then(Then(Then(u, Select(issuer, true)), Select(a, true)), Authenticate(a, proto))
  }

  lemma AttemptApdus(s: State, a: Aid, proto: Protocol, k: KeySet, cached: Option<Point>, o: AuthOutcome)
    requires Outcome(s.config, k, cached, o).AuthOk?
    ensures var t := Attempt(s, a, proto, k, cached, Outcome(s.config, k, cached, o)).trace;
            if k.fixed || cached.Some? then Direct(t, s.trace, a, proto)
            else Fetched(t, s.trace, s.config.issuer, a, proto)
  {
  }

  /** Without what was remembered at the end. */
  function Sent(t: Trace): Trace { if t.Then? && t.last.Stored? then t.before else t }

  lemma RememberSends(s: State, key: Option<CacheKey>, o: AuthOutcome)
    requires s.trace.Then? && !s.trace.last.Stored?
    ensures Sent(Remember(s, key, o).trace) == s.trace
  {
  }

  /** SCP11 sends the handshake of its own variant last: directly with a fixed card key or a
      cached one, otherwise after asking the issuer domain. */
  lemma Scp11Apdus(s: State, a: Aid, proto: Protocol, card: Card) returns (u: Trace)
    requires OpenScp11(s, a, proto, card).1.Some?
    ensures card.keys.Some?
    ensures var sent := Sent(OpenScp11(s, a, proto, card).0.trace);
            if card.keys.value.fixed then Direct(sent, s.trace, a, proto)
            else || (CachedPoint(s, card.keys.value.trust).Some? && Direct(sent, s.trace, a, proto))
                 || Fetched(sent, u, s.config.issuer, a, proto)
  {
    var k := card.keys.value;
    var key := CacheKeyOf(k);
    var cached := CachedPoint(s, key);
    var first := Outcome(s.config, k, cached, card.auth(0, cached));
    var s1 := Attempt(s, a, proto, k, cached, first);
    u := s.trace;
    if first.AuthOk? {
      AttemptApdus(s, a, proto, k, cached, card.auth(0, cached));
      RememberSends(s1, key, first);
    } else {
      AttemptFrame(s, a, proto, k, cached, first);
      var s2 := Log(s1.(validated := s1.validated - {key.value}), Evicted(key.value));
      u := s2.trace;
      var second := Outcome(s.config, k, None, card.auth(1, None));
      AttemptApdus(s2, a, proto, k, None, card.auth(1, None));
      RememberSends(Attempt(s2, a, proto, k, None, second), key, second);
    }
  }

  /** SCP03 sends its handshake and nothing else. */
  lemma Scp03Apdus(s: State, a: Aid, card: Card)
    requires OpenSession(s, a, Scp03, card).1.Some?
    ensures Direct(OpenSession(s, a, Scp03, card).0.trace, s.trace, a, Scp03)
  {
  }

  /** In every run the protocol recorded for a live session is that of the last handshake,
      which was sent to the session's applet. */
  lemma SessionFollowsItsHandshake(config: Config, ops: seq<Op>, a: Aid)
    requires LiveSession(Run(Initial(config), ops), a)
    ensures var s := Run(Initial(config), ops);
            s.selected.value.protocol.Some? && Handshake(s.trace) == Some((a, s.selected.value.protocol.value))
  {
    Reachable(config, ops);
  }

  // --------------------------------------------------------- logins and refreshes

  /** A login can be set whenever the applet can be selected, is not refused and needs no
      handshake, and the connection stands; it can always be dropped. */
  lemma LoginCanBeSet(s: State, a: Aid, login: Login, card: Card, gap: seq<Interlude>)
    requires a in s.applets && a !in s.pending
    ensures login == Public ==> Step(s, SetLoginOp(a, login, card, gap)).1 == Success
    ensures CanSelect(s, a, card) && !Refused(s, a) && Settled(s, a) && Still(gap) ==>
              Step(s, SetLoginOp(a, login, card, gap)).1 == Success
  {
    EnsureDecides(s, a, card);
    EnsureFrame(s, a, card);
    if CanSelect(s, a, card) && !Refused(s, a) && Settled(s, a) && Still(gap) && login != Public {
      ReselectIsCurrent(s, a, card);
      ReselectFrame(s, a, card);
      StillKeeps(Ensure(s, a, card).0, gap);
    }
  }

  lemma ReselectIsCurrent(s: State, a: Aid, card: Card)
    requires Reselect(s, a, card).1.Success?
    ensures var t := Reselect(s, a, card).0; t.epoch == t.base
  {
  }

  /** A login keeps its selection through a refresh. */
  predicate Guarded(s: State, link: Link) {
    && s.selected.Some? && s.selected.value.login != Public
    && s.epoch == s.base && Unpublished(link.refreshing)
  }

  /** What a refresh answers and leaves: a failed or absent device disables the applet; a
      device with a stable topology is present; otherwise a login is left alone, and without
      one the applet is present exactly if it can be selected again. */
  lemma RefreshLeaves(s: State, a: Aid, link: Link)
    requires Inv(s) && a in s.applets && a !in s.pending
    ensures var (t, rv) := Step(s, RefreshOp(a, link));
            var p := s.applets[a];
            if !link.refreshes || !link.present then
              && rv == (if link.refreshes then Success else Failure(Foreign)) && t.selected == None
              && t.applets == s.applets[a := p.(present := false, enabled := false, credential := None)]
            else if s.config.stableTopology then
              rv == Success && t.applets == s.applets[a := p.(present := true)]
            else if Guarded(s, link) then rv == Success && t.applets == s.applets && t.selected == s.selected
            else if 5 <= |a| <= 16 && link.selects then
              && rv == Success && t.applets == s.applets[a := p.(present := true)]
              && t.selected == Some(Selected(a, None, None, None, Public))
            else
              && rv == Failure(if 5 <= |a| <= 16 then Foreign else ArgumentsBad)
              && t.applets == s.applets[a := p.(present := false)] && t.selected == None
  {
    MeanwhileKeepsSelection(s, link.refreshing);
    MeanwhileKeepsApplets(s, link.refreshing);
    var s1 := Sync(Meanwhile(s, link.refreshing)).(selected := None);
    MeanwhileKeepsApplets(s1, link.before);
    MeanwhileKeepsApplets(Log(Meanwhile(s1, link.before), Select(a, true)), link.after);
  }
}
