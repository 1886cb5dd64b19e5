/** The reader as the connector keeps it: one object whose calls update the
    selected applet, the SCP11 key cache, the connection epoch and the applets in
    place, over a base connector that publishes an epoch of its own.  `Valid` says that the
    object's whole life is a run of the state machine in `SecureChannel`, so everything
    proved about runs holds of it. */
module PcscReader {
  import opened Common
  import opened SecureChannel
  import opened SecureChannelRuns
  import opened SecureChannelTheorems

  class Reader {
    const config: Config
    var selected: Option<Selected>
    var validated: map<CacheKey, Point>
    var epoch: nat
    var base: nat
    var applets: map<Aid, Applet>
    ghost var trace: Trace
    ghost var ops: seq<Op>

    ghost function View(): State
      reads this
    {
      State(config, selected, validated, epoch, base, applets, map[], trace)
    }

    /** The calls made so far, as steps of the state machine, lead to this state. */
    ghost predicate Valid()
      reads this
    {
      View() == Run(Initial(config), ops)
    }

    constructor (config: Config)
      ensures Valid() && this.config == config && ops == [] && View() == Initial(config)
    {
      this.config := config;
      selected, validated, epoch, base, applets, trace, ops := None, map[], 0, 0, map[], Start, [];
    }

    /** A valid reader meets the invariant of every run. */
    lemma Reached()
      requires Valid()
      ensures Inv(View())
    {
      Reachable(config, ops);
    }

    ghost method Did(op: Op)
      requires Enabled(Run(Initial(config), ops), op) && View() == Step(Run(Initial(config), ops), op).0
      modifies `ops
      ensures Valid() && ops == old(ops) + [op]
    {
      RunAppend(Initial(config), ops, op);
      ops := ops + [op];
    }

    ghost method DidBoth(first: Op, second: Op)
      requires Enabled(Run(Initial(config), ops), first)
      requires Enabled(Step(Run(Initial(config), ops), first).0, second)
      requires View() == Step(Step(Run(Initial(config), ops), first).0, second).0
      modifies `ops
      ensures Valid() && ops == old(ops) + [first, second]
    {
      RunAppend(Initial(config), ops, first);
      RunAppend(Initial(config), ops + [first], second);
      assert ops + [first] + [second] == ops + [first, second];
      ops := ops + [first, second];
    }

    // ------------------------------------------------- SecureChannelState

    method SynchronizeConnection(connectionEpoch: nat)
      requires connectionEpoch == base
      modifies this`selected, this`validated, this`epoch, this`trace
      ensures View() == Sync(old(View()))
    {
      if epoch != connectionEpoch {
        selected := None;
        validated := map[];
        epoch := connectionEpoch;
        trace := Then(trace, Reconnected(connectionEpoch));
      }
    }

    /** The connection under the base connector is replaced. */
    method Reconnect(place: Place, published: bool)
      modifies this`base, this`trace
      ensures View() == Replace(old(View()), place, published)
    {
      if published { base := base + 1; }
      trace := Then(trace, Replaced(place, published));
    }

    /** Replacements, and queries of other threads that take only the state lock. */
    method Interfere(gap: seq<Interlude>)
      modifies this`selected, this`validated, this`epoch, this`base, this`trace
      ensures View() == Meanwhile(old(View()), gap)
    {
      var i := 0;
      while i < |gap|
        invariant 0 <= i <= |gap|
        invariant Meanwhile(View(), gap[i..]) == Meanwhile(old(View()), gap)
      {
        match gap[i] {
          case Replacement(place, published) => Reconnect(place, published);
          case Query => SynchronizeConnection(base);
        }
        i := i + 1;
      }
    }

    /** The same while the state lock is held. */
    method InterfereLocked(gap: seq<Interlude>)
      modifies this`base, this`trace
      ensures View() == Held(old(View()), gap)
    {
      var i := 0;
      while i < |gap|
        invariant 0 <= i <= |gap|
        invariant Held(View(), gap[i..]) == Held(old(View()), gap)
      {
        if gap[i].Replacement? { Reconnect(gap[i].place, gap[i].published); }
        i := i + 1;
      }
    }

    method SelectApplication(aid: Aid, accepted: bool) returns (rv: Rv)
      modifies this`trace
      ensures SelectableAid(aid) ==> trace == Then(old(trace), Select(aid, accepted)) && (rv.Success? <==> accepted)
      ensures SelectableAid(aid) && !accepted ==> rv == Failure(Foreign)
      ensures !SelectableAid(aid) ==> trace == old(trace) && rv == Failure(ArgumentsBad)
    {
      if |aid| < 5 || |aid| > 16 { return Failure(ArgumentsBad); }
      trace := Then(trace, Select(aid, accepted));
      rv := if accepted then Success else Failure(Foreign);
    }

    // ------------------------------------------------------ opening a channel

    method FetchCertificates(aid: Aid, proto: Protocol, o: AuthOutcome)
      modifies this`trace
      ensures View() == Fetch(old(View()), aid, proto, o.AuthOk? || o.issuer, o.AuthOk? || o.reselected,
                              o.AuthOk? || o.sent)
    {
      var asked, back := o.AuthOk? || o.issuer, o.AuthOk? || o.reselected;
      var domain := SelectApplication(config.issuer, asked);
      trace := Then(trace, Select(aid, back));
      if asked && back && (o.AuthOk? || o.sent) { trace := Then(trace, Event.Authenticate(aid, proto)); }
    }

    method Authenticate(aid: Aid, proto: Protocol, k: KeySet, cached: Option<Point>, o: AuthOutcome)
      modifies this`trace
      ensures View() == Attempt(old(View()), aid, proto, k, cached, o)
    {
      if k.fixed || cached.Some? {
        if o.AuthOk? || o.sent { trace := Then(trace, Event.Authenticate(aid, proto)); }
        return;
      }
      FetchCertificates(aid, proto, o);
    }

    method EstablishScp11(aid: Aid, proto: Protocol, card: Card) returns (session: Option<Session>)
      modifies this`trace, this`validated
      ensures (View(), session) == OpenScp11(old(View()), aid, proto, card)
    {
      if card.keys.None? { return None; }
      var k := card.keys.value;
      var key := CacheKeyOf(k);
      var cached := if key.Some? && key.value in validated then Some(validated[key.value]) else None;
      var outcome := Outcome(config, k, cached, card.auth(0, cached));
      Authenticate(aid, proto, k, cached, outcome);
      if outcome.AuthFailed? && cached.Some? {
        validated := validated - {key.value};
        trace := Then(trace, Evicted(key.value));
        outcome := Outcome(config, k, None, card.auth(1, None));
        Authenticate(aid, proto, k, None, outcome);
      }
      if outcome.AuthFailed? { return None; }
      if key.Some? && outcome.validated.Some? {
        validated := validated[key.value := outcome.validated.value];
        trace := Then(trace, Stored(key.value, outcome.validated.value));
      }
      session := Some(outcome.session);
    }

    method NegotiateIfNeeded(aid: Aid, card: Card) returns (rv: Rv)
      requires aid in applets && IsSelected(View(), aid)
      modifies this
      ensures (View(), rv) == OpenChannel(old(View()), aid, card) && ops == old(ops)
    {
      var p := applets[aid];
      var live := selected.value.session.Some?;
      if p.protocol.Some? && p.credential.None? && !live { return Failure(UserNotLoggedIn); }
      if p.started && !p.enabled { return Failure(UserNotLoggedIn); }
      var active := ActiveProtocol(p);
      if active.None? || !p.enabled || live { return Success; }
      if p.started && !config.recreate { return Failure(UserNotLoggedIn); }
      HeldKeeps(View(), card.opening);
      InterfereLocked(card.opening);
      var session: Option<Session> := None;
      if active.value == Scp03 {
        if card.keys.Some? {
          var outcome := card.auth(0, None);
          if outcome.AuthOk? || outcome.sent { trace := Then(trace, Event.Authenticate(aid, Scp03)); }
          session := if outcome.AuthOk? then Some(outcome.session) else None;
        }
      } else {
        session := EstablishScp11(aid, active.value, card);
      }
      if session.None? {
        selected := None;
        applets := applets[aid := p.(enabled := false, credential := None)];
        return Failure(Foreign);
      }
      selected := Some(selected.value.(session := session, protocol := active,
                                       description := DescriptionOf(p, active.value, card)));
      applets := applets[aid := p.(started := true)];
      trace := Then(trace, Established(aid, session.value));
      rv := Success;
    }

    /** Sending the SELECT may acquire or replace the card, so the epoch is read again before
        the selection is recorded. */
    method SelectAgain(aid: Aid, card: Card) returns (rv: Rv)
      modifies this`selected, this`validated, this`epoch, this`base, this`trace
      ensures (View(), rv) == SelectAnew(old(View()), aid, card)
    {
      selected := None;
      if |aid| < 5 || |aid| > 16 { return Failure(ArgumentsBad); }
      InterfereLocked(card.before);
      rv := SelectApplication(aid, card.selects);
      if rv.Failure? { return; }
      InterfereLocked(card.after);
      SynchronizeConnection(base);
      selected := Some(Unselected(aid));
      trace := Then(trace, Recorded(aid));
    }

    method EnsureSelected(aid: Aid, card: Card) returns (rv: Rv)
      requires aid in applets
      modifies this
      ensures (View(), rv) == Ensure(old(View()), aid, card) && ops == old(ops)
    {
      ReselectFrame(View(), aid, card);
      SynchronizeConnection(base);
      trace := Then(trace, Checked);
      if selected.None? || selected.value.aid != aid {
        rv := SelectAgain(aid, card);
        if rv.Failure? { return; }
      }
      rv := NegotiateIfNeeded(aid, card);
    }

    // ------------------------------------------------------ application APDUs

    method ExchangeApdu(aid: Aid, delivery: Delivery) returns (rv: Rv)
      requires aid in applets
      modifies this`trace, this`selected, this`applets
      ensures (View(), rv) == Exchange(old(View()), aid, delivery)
    {
      var p := applets[aid];
      if ActiveProtocol(p).None? || !p.enabled {
        if !delivery.Unsent? { trace := Then(trace, Plain(aid)); }
        if delivery.Delivered? { return Success; }
        selected := None;
        return Failure(Foreign);
      }
      if selected.None? { return Failure(DeviceError); }
      if selected.value.session.None? { return Failure(UserNotLoggedIn); }
      if !delivery.Unsent? { trace := Then(trace, Protected(aid, selected.value.session.value)); }
      if delivery.Delivered? { return Success; }
      selected := None;
      applets := applets[aid := p.(enabled := false, credential := None)];
      rv := Failure(Foreign);
    }

    method SendApduLocked(aid: Aid, card: Card, gap: seq<Interlude>, delivery: Delivery) returns (rv: Rv)
      requires aid in applets
      modifies this
      ensures (View(), rv) == Send(old(View()), aid, card, gap, delivery) && ops == old(ops)
    {
      rv := EnsureSelected(aid, card);
      if rv.Failure? { return; }
      EnsureFrame(old(View()), aid, card);
      MeanwhileKeepsApplets(View(), gap);
      Interfere(gap);
      rv := ExchangeApdu(aid, delivery);
    }

    /** Once the channel of the applet has started, the APDU is sent protected by the live
        session, or the call fails and no plain APDU was sent. */
    method SendApdu(aid: Aid, card: Card, gap: seq<Interlude>, delivery: Delivery) returns (rv: Rv)
      requires Valid() && aid in applets
      modifies this
      ensures Valid() && ops == old(ops) + [SendOp(aid, card, gap, delivery)]
      ensures old(applets[aid].started) ==> ProtectedOrRefused(old(View()), View(), aid, rv)
    {
      Reached();
      if applets[aid].started { StartedSendIsProtectedOrRefused(View(), aid, card, gap, delivery); }
      rv := SendApduLocked(aid, card, gap, delivery);
      Did(SendOp(aid, card, gap, delivery));
    }

    method TransmitLocked(aid: Aid, card: Card, gap: seq<Interlude>, decodes: bool,
                          card2: Card, gap2: seq<Interlude>, delivery: Delivery, fits: bool) returns (rv: Rv)
      requires aid in applets
      modifies this
      ensures (View(), rv) == Transmit(old(View()), aid, card, gap, decodes, card2, gap2, delivery, fits)
      ensures ops == old(ops)
    {
      rv := EnsureSelected(aid, card);
      if rv.Failure? { return; }
      EnsureFrame(old(View()), aid, card);
      MeanwhileKeepsApplets(View(), gap);
      Interfere(gap);
      if ActiveProtocol(applets[aid]).None? || !applets[aid].enabled {
        rv := ExchangeApdu(aid, delivery);
        return;
      }
      if !decodes { return Failure(ArgumentsBad); }
      rv := SendApduLocked(aid, card2, gap2, delivery);
      if rv.Success? && !fits { rv := Failure(DeviceError); }
    }

    method TransmitBytes(aid: Aid, card: Card, gap: seq<Interlude>, decodes: bool,
                         card2: Card, gap2: seq<Interlude>, delivery: Delivery, fits: bool) returns (rv: Rv)
      requires Valid() && aid in applets
      modifies this
      ensures Valid() && ops == old(ops) + [TransmitOp(aid, card, gap, decodes, card2, gap2, delivery, fits)]
      ensures old(applets[aid].started) ==> ProtectedOrRefused(old(View()), View(), aid, rv)
    {
      Reached();
      if applets[aid].started {
        StartedTransmitIsProtectedOrRefused(View(), aid, card, gap, decodes, card2, gap2, delivery, fits);
      }
      rv := TransmitLocked(aid, card, gap, decodes, card2, gap2, delivery, fits);
      Did(TransmitOp(aid, card, gap, decodes, card2, gap2, delivery, fits));
    }

    method AdministerLocked(aid: Aid, card: Card, gap: seq<Interlude>, scp11: bool,
                            prepared: bool, delivery: Delivery) returns (rv: Rv)
      requires aid in applets
      modifies this
      ensures (View(), rv) == Administer(old(View()), aid, card, gap, scp11, prepared, delivery)
      ensures ops == old(ops)
    {
      rv := EnsureSelected(aid, card);
      if rv.Failure? { return; }
      EnsureFrame(old(View()), aid, card);
      MeanwhileKeepsApplets(View(), gap);
      Interfere(gap);
      if !applets[aid].enabled { return Failure(UserNotLoggedIn); }
      if selected.None? { return Failure(DeviceError); }
      if selected.value.session.None? { return Failure(UserNotLoggedIn); }
      if !prepared { return Failure(Foreign); }
      if !delivery.Unsent? { trace := Then(trace, Protected(aid, selected.value.session.value)); }
      if !delivery.Delivered? {
        selected := None;
        return Failure(Foreign);
      }
      if scp11 {
        validated := map[];
        trace := Then(trace, Administered);
      }
      rv := Success;
    }

    /** Only a protected APDU is sent, if any, and only with it the call succeeds. */
    method AdministerSecurityDomain(aid: Aid, card: Card, gap: seq<Interlude>, scp11: bool,
                                    prepared: bool, delivery: Delivery) returns (rv: Rv)
      requires Valid() && aid in applets
      modifies this
      ensures Valid() && ops == old(ops) + [AdministerOp(aid, card, gap, scp11, prepared, delivery)]
      ensures SentProtected(old(View()), View(), aid) || (rv.Failure? && Apdus(trace, aid) == Apdus(old(trace), aid))
    {
      Reached();
      AdministrationIsProtected(View(), aid, card, gap, scp11, prepared, delivery);
      rv := AdministerLocked(aid, card, gap, scp11, prepared, delivery);
      Did(AdministerOp(aid, card, gap, scp11, prepared, delivery));
    }

    // -------------------------------------------------- refresh and discovery

    method RediscoverApplet(aid: Aid, link: Link) returns (rv: Rv)
      requires aid in applets
      modifies this
      ensures (View(), rv) == Rediscover(old(View()), aid, link) && ops == old(ops)
    {
      if selected.Some? && selected.value.login != Public { return Success; }
      var p := applets[aid];
      selected := None;
      MeanwhileKeepsApplets(View(), link.before);
      Interfere(link.before);
      rv := SelectApplication(aid, link.selects);
      if rv.Failure? {
        applets := applets[aid := p.(present := false)];
        return;
      }
      MeanwhileKeepsApplets(View(), link.after);
      Interfere(link.after);
      selected := Some(Unselected(aid));
      trace := Then(trace, Recorded(aid));
      applets := applets[aid := p.(present := true)];
    }

    method RefreshLocked(aid: Aid, link: Link) returns (rv: Rv)
      requires aid in applets
      modifies this
      ensures (View(), rv) == Refresh(old(View()), aid, link) && ops == old(ops)
    {
      var p := applets[aid];
      MeanwhileKeepsApplets(View(), link.refreshing);
      Interfere(link.refreshing);
      if !link.refreshes || !link.present {
        applets := applets[aid := p.(present := false, enabled := false, credential := None)];
        selected := None;
        return if link.refreshes then Success else Failure(Foreign);
      }
      SynchronizeConnection(base);
      if config.stableTopology {
        applets := applets[aid := p.(present := true)];
        return Success;
      }
      rv := RediscoverApplet(aid, link);
    }

    /** A refresh that succeeds keeps a login if and only if the device is reported present
        at an unchanged epoch. */
    method RefreshApplet(aid: Aid, link: Link) returns (rv: Rv)
      requires Valid() && aid in applets
      modifies this
      ensures Valid() && ops == old(ops) + [RefreshOp(aid, link)]
      ensures forall b | rv.Success? && LoginOf(old(View()), b) != Public ::
                LoginOf(View(), b) == LoginOf(old(View()), b) <==>
                link.present && old(epoch == base) && Unpublished(link.refreshing)
    {
      Reached();
      rv := RefreshLocked(aid, link);
      forall b | rv.Success? && LoginOf(old(View()), b) != Public
        ensures LoginOf(View(), b) == LoginOf(old(View()), b) <==>
                link.present && old(epoch == base) && Unpublished(link.refreshing)
      {
        RefreshKeepsLogin(old(View()), aid, link, b);
      }
      Did(RefreshOp(aid, link));
    }

    method DiscoverApplet(aid: Aid, accepted: bool, after: seq<Interlude>, configured: Option<Protocol>, present: bool)
      requires Valid()
      modifies this
      ensures Valid() && ops == old(ops) + [DiscoverOp(aid, accepted, after, configured, present)]
      ensures if accepted && 5 <= |aid| <= 16 then
                && IsSelected(View(), aid) && !LiveSession(View(), aid) && LoginOf(View(), aid) == Public
                && applets == if aid in old(applets) then old(applets)
                              else old(applets)[aid := Applet(configured, false, present, false, None, None)]
              else applets == old(applets) && selected == old(selected)
    {
      var rv := SelectApplication(aid, accepted);
      if rv.Success? {
        HeldKeeps(View(), after);
        InterfereLocked(after);
        selected := Some(Unselected(aid));
        trace := Then(trace, Recorded(aid));
        if aid !in applets { applets := applets[aid := Applet(configured, false, present, false, None, None)]; }
      }
      Did(DiscoverOp(aid, accepted, after, configured, present));
    }

    /** What happens between two calls. */
    method Wait(aid: Aid, gap: seq<Interlude>)
      requires Valid()
      modifies this
      ensures Valid() && ops == old(ops) + [BetweenOp(aid, gap)]
    {
      Interfere(gap);
      Did(BetweenOp(aid, gap));
    }

    // ---------------------------------------------------------- login lifecycle

    method ClearSecureChannelLocked(aid: Aid)
      requires aid in applets
      modifies this`applets, this`selected
      ensures View() == ClearLocked(old(View()), aid)
    {
      applets := applets[aid := applets[aid].(enabled := false)];
      if selected.Some? && selected.value.aid == aid { selected := Some(Unselected(aid)); }
    }

    method StoreStarted(aid: Aid)
      requires aid in applets
      modifies this`applets, this`trace
      ensures View() == ResetStarted(old(View()), aid)
    {
      applets := applets[aid := applets[aid].(started := false)];
      trace := Then(trace, Reset(aid));
    }

    method TakeCredential(aid: Aid)
      requires aid in applets
      modifies this`applets
      ensures View() == DropCredential(old(View()), aid)
    {
      applets := applets[aid := applets[aid].(credential := None)];
    }

    method PrepareLogin(aid: Aid, resolved: Result<Option<(Protocol, Credential)>, Code>) returns (rv: Rv)
      requires Valid() && aid in applets
      modifies this
      ensures Valid() && rv == if resolved.Ok? then Success else Failure(resolved.error)
      ensures ops == old(ops) + if resolved.Ok? then [PrepareOp(aid, resolved.value), ResumeOp(aid)] else []
      ensures aid in applets && (resolved.Err? ==> View() == old(View()))
      ensures resolved.Ok? ==>
                && !LiveSession(View(), aid) && !applets[aid].enabled && !applets[aid].started
                && applets[aid].configured == old(applets[aid].configured)
                && applets[aid].protocol == (if resolved.value.Some? then Some(resolved.value.value.0) else None)
                && applets[aid].credential == if resolved.value.Some? then Some(resolved.value.value.1) else None
    {
      if resolved.Err? { return Failure(resolved.error); }
      ClearSecureChannelLocked(aid);
      var choice := resolved.value;
      applets := applets[aid := applets[aid].(protocol := if choice.Some? then Some(choice.value.0) else None,
                                              credential := if choice.Some? then Some(choice.value.1) else None)];
      StoreStarted(aid);
      rv := Success;
      assert map[aid := BeginPrepare(old(View()), aid, choice).pending[aid]] - {aid} == map[];
      DidBoth(PrepareOp(aid, choice), ResumeOp(aid));
    }

    method ClearLockedAfterReset(aid: Aid)
      requires aid in applets
      modifies this`applets, this`selected, this`trace
      ensures View() == Resume(BeginClear(old(View()), aid), aid)
    {
      TakeCredential(aid);
      StoreStarted(aid);
      ClearSecureChannelLocked(aid);
      assert map[aid := ClearTail] - {aid} == map[];
    }

    method ClearSecureChannel(aid: Aid)
      requires Valid() && aid in applets
      modifies this
      ensures Valid() && ops == old(ops) + [ClearOp(aid), ResumeOp(aid)]
      ensures !LiveSession(View(), aid) && aid in applets && !applets[aid].started && applets[aid].credential.None?
    {
      ClearLockedAfterReset(aid);
      DidBoth(ClearOp(aid), ResumeOp(aid));
    }

    method FinishSecureChannelLogin(aid: Aid, success: bool)
      requires Valid() && aid in applets
      modifies this
      ensures Valid() && ops == old(ops) + [FinishOp(aid, success)] + if success then [] else [ResumeOp(aid)]
      ensures aid in applets && applets[aid].protocol == old(applets[aid].protocol)
      ensures success ==>
                && selected == old(selected) && applets[aid].started == old(applets[aid].started)
                && applets[aid].enabled == old(applets[aid].enabled)
                && applets[aid].credential == if config.recreate then old(applets[aid].credential) else None
      ensures !success ==>
                && !LiveSession(View(), aid) && !applets[aid].enabled && !applets[aid].started
                && applets[aid].credential == None
    {
      if !success {
        ClearLockedAfterReset(aid);
        DidBoth(FinishOp(aid, success), ResumeOp(aid));
      } else {
        if !config.recreate { TakeCredential(aid); }
        Did(FinishOp(aid, success));
      }
    }

    method ReconcileLostLogin(aid: Aid)
      requires Valid() && aid in applets
      modifies this
      ensures Valid() && ops == old(ops) + [ReconcileOp(aid)] + if config.recreate then [] else [ResumeOp(aid)]
      ensures config.recreate ==> View() == old(View())
      ensures !config.recreate ==>
                && !LiveSession(View(), aid) && aid in applets && !applets[aid].enabled
                && applets[aid].credential == None && applets[aid].started == old(applets[aid].started)
    {
      if config.recreate {
        Did(ReconcileOp(aid));
      } else {
        TakeCredential(aid);
        ClearSecureChannelLocked(aid);
        assert map[aid := ClearTail] - {aid} == map[];
        DidBoth(ReconcileOp(aid), ResumeOp(aid));
      }
    }

    method ClearSecureChannelForLogin(aid: Aid)
      requires Valid() && aid in applets
      modifies this
      ensures Valid() && ops == old(ops) + [ClearForLoginOp(aid), ResumeOp(aid)]
      ensures !LiveSession(View(), aid) && aid in applets && !applets[aid].started && !applets[aid].enabled
      ensures applets[aid].protocol == old(applets[aid].protocol)
      ensures applets[aid].credential == old(applets[aid].credential)
    {
      ClearSecureChannelLocked(aid);
      StoreStarted(aid);
      assert map[aid := ResetTail] - {aid} == map[];
      DidBoth(ClearForLoginOp(aid), ResumeOp(aid));
    }

    method EstablishSecureChannel(aid: Aid, target: Aid, card: Card) returns (rv: Rv)
      requires Valid() && aid in applets
      modifies this
      ensures Valid() && ops == old(ops) + [EstablishOp(aid, target, card)]
      ensures target != aid ==> rv == Failure(ArgumentsBad) && View() == old(View())
      ensures target == aid ==>
                && aid in applets && (applets[aid].enabled <==> rv.Success?)
                && (rv.Success? && ActiveProtocol(applets[aid]).Some? ==> LiveSession(View(), aid))
    {
      Reached();
      if target != aid {
        Did(EstablishOp(aid, target, card));
        return Failure(ArgumentsBad);
      }
      applets := applets[aid := applets[aid].(enabled := true)];
      ghost var s := View();
      rv := EnsureSelected(aid, card);
      EnsureFrame(s, aid, card);
      EnabledInv(old(View()), aid, true);
      EnsureInv(s, aid, card);
      if rv.Failure? { applets := applets[aid := applets[aid].(enabled := false)]; }
      Did(EstablishOp(aid, target, card));
    }

    method CcidLoginState(aid: Aid) returns (login: Login)
      requires Valid()
      modifies this
      ensures Valid() && ops == old(ops) + [BetweenOp(aid, [Query])]
      ensures login == LoginOf(View(), aid) && (old(base != epoch) ==> login == Public)
    {
      assert [Query][1..] == [];
      SynchronizeConnection(base);
      login := if selected.Some? && selected.value.aid == aid then selected.value.login else Public;
      Did(BetweenOp(aid, [Query]));
    }

    method SetLoginLocked(aid: Aid, login: Login, card: Card, gap: seq<Interlude>) returns (rv: Rv)
      requires aid in applets
      modifies this
      ensures (View(), rv) == SetLogin(old(View()), aid, login, card, gap) && ops == old(ops)
    {
      if login == Public {
        SynchronizeConnection(base);
        if selected.Some? && selected.value.aid == aid { selected := Some(selected.value.(login := login)); }
        return Success;
      }
      rv := EnsureSelected(aid, card);
      if rv.Failure? { return; }
      Interfere(gap);
      if selected.None? { return Failure(DeviceError); }
      selected := Some(selected.value.(login := login));
    }

    /** A login that was set is reported, and no other applet reports one. */
    method SetCcidLoginState(aid: Aid, login: Login, card: Card, gap: seq<Interlude>) returns (rv: Rv)
      requires Valid() && aid in applets
      modifies this
      ensures Valid() && ops == old(ops) + [SetLoginOp(aid, login, card, gap)]
      ensures rv.Success? ==> LoginOf(View(), aid) == login
      ensures rv.Success? && login != Public ==> forall b | b != aid :: LoginOf(View(), b) == Public
    {
      Reached();
      LoginIsSet(View(), aid, login, card, gap);
      rv := SetLoginLocked(aid, login, card, gap);
      Did(SetLoginOp(aid, login, card, gap));
    }
  }
}
