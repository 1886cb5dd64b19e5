/** The reader-level secure-channel state machine, on values.

    Several applets share one reader.  The reader keeps one selected applet with
    at most one live SCP session; every applet keeps its own login state.  Each
    call of the connector is a function from the old state and the answers of
    the outside world (`Card`, `Link`) to the new state and a return code.  Calls
    that work partly outside the reader gate are split into a first part and a
    `Tail`, so that calls of other applets can run in between.  The connection under the
    reader can be replaced at any moment, between calls and inside them. */
module SecureChannel {
  import opened Common

  type Aid = seq<byte>
  type Session = nat
  type Point = seq<byte>
  type CacheKey = (byte, byte, seq<byte>)

  /** A reader and one of its connection generations. */
  type Place = (nat, nat)

  datatype Protocol = Scp03 | Scp11a | Scp11b | Scp11c
  datatype Login = Public | User | So
  datatype Credential = Credential(description: string)

  datatype Code = UserNotLoggedIn | DeviceError | ArgumentsBad | Foreign
  datatype Rv = Success | Failure(code: Code)

  datatype Selected = Selected(
    aid: Aid,
    session: Option<Session>,
    protocol: Option<Protocol>,
    description: Option<string>,
    login: Login)

  /** `configured` is the protocol of the connector; `protocol` and `credential`
      are the ones chosen by the last login. */
  datatype Applet = Applet(
    configured: Option<Protocol>,
    enabled: bool,
    present: bool,
    started: bool,
    protocol: Option<Protocol>,
    credential: Option<Credential>)

  datatype Config = Config(recreate: bool, stableTopology: bool, issuer: Aid)

  /** What the connector sends to the card, and the state changes that the
      properties are about. */
  datatype Event =
    | Select(aid: Aid, accepted: bool)
    | Authenticate(aid: Aid, protocol: Protocol)
    | Established(aid: Aid, session: Session)
    | Plain(aid: Aid)
    | Protected(aid: Aid, session: Session)
    | Reset(aid: Aid)
    | Reconnected(epoch: nat)
    | Stored(key: CacheKey, point: Point)
    | Evicted(key: CacheKey)
    | Administered
    | Recorded(aid: Aid)
    | Checked
    | Replaced(place: Place, published: bool)

  datatype Trace = Start | Then(before: Trace, last: Event)

  /** The part of a call that runs after it has left, or before it has entered,
      the reader gate. */
  datatype Tail =
    | ClearTail
    | ResetTail
    | PrepareTail(protocol: Option<Protocol>, credential: Option<Credential>)

  /** `epoch` is the connection epoch seen last, `base` the one that the base connector
      publishes now. */
  datatype State = State(
    config: Config,
    selected: Option<Selected>,
    validated: map<CacheKey, Point>,
    epoch: nat,
    base: nat,
    applets: map<Aid, Applet>,
    pending: map<Aid, Tail>,
    trace: Trace)

  /** A failed attempt may have been refused by the issuer security domain or when the
      applet was selected again, and `sent` says whether it got to authenticating. */
  datatype AuthOutcome =
    | AuthFailed(issuer: bool, reselected: bool, sent: bool)
    | AuthOk(session: Session, validated: Option<Point>)

  /** SCP11 key set; a fixed card key is never cached. */
  datatype KeySet = KeySet(fixed: bool, trust: Option<CacheKey>, description: Option<string>)

  /** What can happen between two parts of a call: the connection is replaced, by one in
      another place, and the base connector publishes a new epoch or not; or a query of
      another thread synchronizes. */
  datatype Interlude = Replacement(place: Place, published: bool) | Query

  /** What one `EnsureSelected` may meet: replacements before the SELECT is answered and
      between its answer and reading the epoch, its outcome, whether the keys load,
      replacements before the channel is opened, and the outcome of the n-th authentication
      attempt with a cached point. */
  datatype Card = Card(
    before: seq<Interlude>,
    selects: bool,
    after: seq<Interlude>,
    keys: Option<KeySet>,
    opening: seq<Interlude>,
    auth: (nat, Option<Point>) -> AuthOutcome)

  /** What a refresh may meet: what happens while the base connector refreshes, its answers,
      and what happens before and after the SELECT, while the state lock is free. */
  datatype Link = Link(
    refreshing: seq<Interlude>,
    refreshes: bool,
    present: bool,
    before: seq<Interlude>,
    selects: bool,
    after: seq<Interlude>)

  /** An APDU was answered, was sent without an answer, or was refused before sending. */
  datatype Delivery = Delivered | Lost | Unsent

  // ---------------------------------------------------------------- helpers

  function ActiveProtocol(p: Applet): Option<Protocol> {
    if p.protocol.Some? then p.protocol else p.configured
  }

  predicate CredentialMissing(p: Applet) {
    p.protocol.Some? && p.credential.None?
  }

  predicate IsSelected(s: State, a: Aid) {
    s.selected.Some? && s.selected.value.aid == a
  }

  predicate LiveSession(s: State, a: Aid) {
    IsSelected(s, a) && s.selected.value.session.Some?
  }

  function Unselected(a: Aid): Selected {
    Selected(a, None, None, None, Public)
  }

  function Log(s: State, e: Event): State {
    s.(trace := Then(s.trace, e))
  }

  function WithApplet(s: State, a: Aid, p: Applet): State {
    s.(applets := s.applets[a := p])
  }

  // ------------------------------------------------- SecureChannelState steps

  function Sync(s: State): State {
    if s.epoch == s.base then s
    else Log(s.(selected := None, validated := map[], epoch := s.base), Reconnected(s.base))
  }

  function Replace(s: State, place: Place, published: bool): State {
    Log(s.(base := if published then s.base + 1 else s.base), Replaced(place, published))
  }

  /** What happens while the state lock is free. */
  function Meanwhile(s: State, gap: seq<Interlude>): State
    decreases |gap|
  {
    if gap == [] then s
    else Meanwhile(match gap[0] case Replacement(place, published) => Replace(s, place, published)
                                case Query => Sync(s), gap[1..])
  }

  /** What happens while the state lock is held: queries have to wait. */
  function Held(s: State, gap: seq<Interlude>): State
    decreases |gap|
  {
    if gap == [] then s
    else Held(match gap[0] case Replacement(place, published) => Replace(s, place, published)
                           case Query => s, gap[1..])
  }

  predicate SelectableAid(a: Aid) { 5 <= |a| <= 16 }

  /** Sending the SELECT may acquire or replace the card. */
  function SelectAnew(s: State, a: Aid, card: Card): (State, Rv) {
    var s1 := s.(selected := None);
    if !SelectableAid(a) then (s1, Failure(ArgumentsBad))
    else
      var s2 := Log(Held(s1, card.before), Select(a, card.selects));
      if !card.selects then (s2, Failure(Foreign))
      else (Log(Sync(Held(s2, card.after)).(selected := Some(Unselected(a))), Recorded(a)), Success)
  }

  function Reselect(s: State, a: Aid, card: Card): (State, Rv) {
    var s1 := Log(Sync(s), Checked);
    if IsSelected(s1, a) then (s1, Success) else SelectAnew(s1, a, card)
  }

  // --------------------------------------------------------- authentication

  function CacheKeyOf(k: KeySet): Option<CacheKey> {
    if k.fixed then None else k.trust
  }

  function CachedPoint(s: State, key: Option<CacheKey>): Option<Point> {
    if key.Some? && key.value in s.validated then Some(s.validated[key.value]) else None
  }

  /** An attempt that needs the certificates fails when the issuer security domain cannot
      be selected at all. */
  function Outcome(config: Config, k: KeySet, cached: Option<Point>, o: AuthOutcome): AuthOutcome {
    if k.fixed || cached.Some? || SelectableAid(config.issuer) then o
    else AuthFailed(false, o.AuthOk? || o.reselected, false)
  }

  /** The certificates are fetched from the issuer security domain and the applet is
      selected again, also when the domain refused; only then it authenticates. */
  function Fetch(s: State, a: Aid, proto: Protocol, asked: bool, back: bool, sent: bool): State {
    var s1 := if SelectableAid(s.config.issuer) then Log(s, Select(s.config.issuer, asked)) else s;
    var s2 := Log(s1, Select(a, back));
    if asked && back && sent then Log(s2, Authenticate(a, proto)) else s2
  }

  /** With a fixed or cached card key nothing is fetched. */
  function Attempt(s: State, a: Aid, proto: Protocol, k: KeySet, cached: Option<Point>, o: AuthOutcome): State {
    var sent := o.AuthOk? || o.sent;
    if !k.fixed && cached.None? then Fetch(s, a, proto, o.AuthOk? || o.issuer, o.AuthOk? || o.reselected, sent)
    else if sent then Log(s, Authenticate(a, proto))
    else s
  }

  function Remember(s: State, key: Option<CacheKey>, o: AuthOutcome): State {
    if key.Some? && o.AuthOk? && o.validated.Some?
    then Log(s.(validated := s.validated[key.value := o.validated.value]), Stored(key.value, o.validated.value))
    else s
  }

  function OpenScp11(s: State, a: Aid, proto: Protocol, card: Card): (State, Option<Session>) {
    if card.keys.None? then (s, None)
    else
      var k := card.keys.value;
      var key := CacheKeyOf(k);
      var cached := CachedPoint(s, key);
      var first := Outcome(s.config, k, cached, card.auth(0, cached));
      var s1 := Attempt(s, a, proto, k, cached, first);
      if first.AuthFailed? && cached.Some? then
        var s2 := Log(s1.(validated := s1.validated - {key.value}), Evicted(key.value));
        var second := Outcome(s.config, k, None, card.auth(1, None));
        var s3 := Remember(Attempt(s2, a, proto, k, None, second), key, second);
        (s3, if second.AuthOk? then Some(second.session) else None)
      else
        (Remember(s1, key, first), if first.AuthOk? then Some(first.session) else None)
  }

  function OpenScp03(s: State, a: Aid, card: Card): (State, Option<Session>) {
    if card.keys.None? then (s, None)
    else
      var o := card.auth(0, None);
      (if o.AuthOk? || o.sent then Log(s, Authenticate(a, Scp03)) else s, if o.AuthOk? then Some(o.session) else None)
  }

  function DescriptionOf(p: Applet, proto: Protocol, card: Card): Option<string> {
    if p.credential.Some? then Some(p.credential.value.description)
    else if proto != Scp03 && card.keys.Some? then card.keys.value.description
    else None
  }

  function OpenSession(s: State, a: Aid, proto: Protocol, card: Card): (State, Option<Session>) {
    if proto == Scp03 then OpenScp03(s, a, card) else OpenScp11(s, a, proto, card)
  }

  /** `s1` is the state after the attempts made from `s`. */
  function Conclude(s: State, s1: State, a: Aid, proto: Protocol, session: Option<Session>, card: Card): (State, Rv)
    requires a in s.applets && IsSelected(s, a)
  {
    var p := s.applets[a];
    if session.None? then
      (WithApplet(s1.(selected := None), a, p.(enabled := false, credential := None)), Failure(Foreign))
    else
      var sel := s.selected.value.(session := session, protocol := Some(proto),
                                   description := DescriptionOf(p, proto, card));
      (Log(WithApplet(s1.(selected := Some(sel)), a, p.(started := true)), Established(a, session.value)), Success)
  }

  function Negotiate(s: State, a: Aid, card: Card): (State, Rv)
    requires a in s.applets && IsSelected(s, a) && ActiveProtocol(s.applets[a]).Some?
  {
    var proto := ActiveProtocol(s.applets[a]).value;
    var (s1, session) := OpenSession(s, a, proto, card);
    Conclude(s, s1, a, proto, session, card)
  }

  /** The decisions taken once the applet is selected. */
  function OpenChannel(s: State, a: Aid, card: Card): (State, Rv)
    requires a in s.applets && IsSelected(s, a)
  {
    var p := s.applets[a];
    var live := s.selected.value.session.Some?;
    if CredentialMissing(p) && !live then (s, Failure(UserNotLoggedIn))
    else if p.started && !p.enabled then (s, Failure(UserNotLoggedIn))
    else if ActiveProtocol(p).None? || !p.enabled || live then (s, Success)
    else if p.started && !s.config.recreate then (s, Failure(UserNotLoggedIn))
    else HeldKeeps(s, card.opening); Negotiate(Held(s, card.opening), a, card)
  }

  function Ensure(s: State, a: Aid, card: Card): (State, Rv)
    requires a in s.applets
  {
    ReselectFrame(s, a, card);
    var (s1, rv) := Reselect(s, a, card);
    if rv.Failure? then (s1, rv) else OpenChannel(s1, a, card)
  }

  // ------------------------------------------------------- application APDUs

  function DropChannel(s: State, a: Aid): State
    requires a in s.applets
  {
    WithApplet(s.(selected := None), a, s.applets[a].(enabled := false, credential := None))
  }

  function Exchange(s: State, a: Aid, delivery: Delivery): (State, Rv)
    requires a in s.applets
  {
    var p := s.applets[a];
    if ActiveProtocol(p).None? || !p.enabled then
      var s1 := if delivery.Unsent? then s else Log(s, Plain(a));
      if delivery.Delivered? then (s1, Success) else (s1.(selected := None), Failure(Foreign))
    else if s.selected.None? then (s, Failure(DeviceError))
    else if s.selected.value.session.None? then (s, Failure(UserNotLoggedIn))
    else
      var s1 := if delivery.Unsent? then s else Log(s, Protected(a, s.selected.value.session.value));
      if delivery.Delivered? then (s1, Success) else (DropChannel(s1, a), Failure(Foreign))
  }

  function Send(s: State, a: Aid, card: Card, gap: seq<Interlude>, delivery: Delivery): (State, Rv)
    requires a in s.applets
  {
    var (s1, rv) := Ensure(s, a, card);
    if rv.Failure? then (s1, rv)
    else EnsureFrame(s, a, card); MeanwhileKeepsApplets(s1, gap); Exchange(Meanwhile(s1, gap), a, delivery)
  }

  /** The raw-bytes entry point: a protected send decodes first and then runs the whole
      send again, and fails after it when the reply does not fit the caller's buffer. */
  function Transmit(s: State, a: Aid, card: Card, gap: seq<Interlude>, decodes: bool,
                    card2: Card, gap2: seq<Interlude>, delivery: Delivery, fits: bool): (State, Rv)
    requires a in s.applets
  {
    var (s1, rv) := Ensure(s, a, card);
    if rv.Failure? then (s1, rv)
    else
      EnsureFrame(s, a, card);
      MeanwhileKeepsApplets(s1, gap);
      var s2 := Meanwhile(s1, gap);
      var p := s2.applets[a];
      if ActiveProtocol(p).None? || !p.enabled then Exchange(s2, a, delivery)
      else if !decodes then (s2, Failure(ArgumentsBad))
      else
        var (s3, rv3) := Send(s2, a, card2, gap2, delivery);
        (s3, if rv3.Success? && !fits then Failure(DeviceError) else rv3)
  }

  /** A security-domain command through the live session; `prepared` is the host-side check
      made before the session is used. */
  function Command(s: State, a: Aid, scp11: bool, prepared: bool, delivery: Delivery): (State, Rv)
    requires a in s.applets
  {
    if !s.applets[a].enabled then (s, Failure(UserNotLoggedIn))
    else if s.selected.None? then (s, Failure(DeviceError))
    else if s.selected.value.session.None? then (s, Failure(UserNotLoggedIn))
    else if !prepared then (s, Failure(Foreign))
    else
      var s1 := if delivery.Unsent? then s else Log(s, Protected(a, s.selected.value.session.value));
      if !delivery.Delivered? then (s1.(selected := None), Failure(Foreign))
      else if scp11 then (Log(s1.(validated := map[]), Administered), Success)
      else (s1, Success)
  }

  /** Security-domain administration. */
  function Administer(s: State, a: Aid, card: Card, gap: seq<Interlude>, scp11: bool,
                      prepared: bool, delivery: Delivery): (State, Rv)
    requires a in s.applets
  {
    var (s1, rv) := Ensure(s, a, card);
    if rv.Failure? then (s1, rv)
    else
      EnsureFrame(s, a, card);
      MeanwhileKeepsApplets(s1, gap);
      Command(Meanwhile(s1, gap), a, scp11, prepared, delivery)
  }

  // -------------------------------------------------- refresh and discovery

  /** Discovery selects the applet again unless a login protects the selection.  The state
      lock is free around the SELECT. */
  function Rediscover(s: State, a: Aid, link: Link): (State, Rv)
    requires a in s.applets
  {
    if s.selected.Some? && s.selected.value.login != Public then (s, Success)
    else
      var s1 := Meanwhile(s.(selected := None), link.before);
      if !SelectableAid(a) then (WithApplet(s1, a, s.applets[a].(present := false)), Failure(ArgumentsBad))
      else if !link.selects then
        (WithApplet(Log(s1, Select(a, false)), a, s.applets[a].(present := false)), Failure(Foreign))
      else
        var s2 := Meanwhile(Log(s1, Select(a, true)), link.after);
        (WithApplet(Log(s2.(selected := Some(Unselected(a))), Recorded(a)), a, s.applets[a].(present := true)), Success)
  }

  function Refresh(s: State, a: Aid, link: Link): (State, Rv)
    requires a in s.applets
  {
    MeanwhileKeepsApplets(s, link.refreshing);
    var s1 := Meanwhile(s, link.refreshing);
    if !link.refreshes || !link.present then
      (WithApplet(s1.(selected := None), a,
                  s.applets[a].(present := false, enabled := false, credential := None)),
       if link.refreshes then Success else Failure(Foreign))
    else if s.config.stableTopology then (WithApplet(Sync(s1), a, s.applets[a].(present := true)), Success)
    else Rediscover(Sync(s1), a, link)
  }

  /** The first probe of an applet registers it; a failed probe leaves the
      reader as it was.  The slots of a reader under discovery are not yet visible to other
      threads, so no query comes between the SELECT and recording it. */
  function Discover(s: State, a: Aid, accepted: bool, after: seq<Interlude>,
                    configured: Option<Protocol>, present: bool): State {
    if !SelectableAid(a) then s
    else if !accepted then Log(s, Select(a, false))
    else
      var s1 := Held(Log(s, Select(a, true)), after);
      var s2 := Log(s1.(selected := Some(Unselected(a))), Recorded(a));
      if a in s.applets then s2
      else WithApplet(s2, a, Applet(configured, false, present, false, None, None))
  }

  // ---------------------------------------------------------- login lifecycle

  function ClearLocked(s: State, a: Aid): State
    requires a in s.applets
  {
    var s1 := WithApplet(s, a, s.applets[a].(enabled := false));
    if IsSelected(s, a) then s1.(selected := Some(Unselected(a))) else s1
  }

  function ResetStarted(s: State, a: Aid): State
    requires a in s.applets
  {
    Log(WithApplet(s, a, s.applets[a].(started := false)), Reset(a))
  }

  function DropCredential(s: State, a: Aid): State
    requires a in s.applets
  {
    WithApplet(s, a, s.applets[a].(credential := None))
  }

  /** `choice` is the login-selected protocol and credential, `None` when no
      credential source is named. */
  function BeginPrepare(s: State, a: Aid, choice: Option<(Protocol, Credential)>): State
    requires a in s.applets
  {
    var tail :=
      if choice.Some? then PrepareTail(Some(choice.value.0), Some(choice.value.1)) else PrepareTail(None, None);
    ClearLocked(s, a).(pending := s.pending[a := tail])
  }

  function BeginClear(s: State, a: Aid): State
    requires a in s.applets
  {
    ResetStarted(DropCredential(s, a), a).(pending := s.pending[a := ClearTail])
  }

  function BeginReconcile(s: State, a: Aid): State
    requires a in s.applets
  {
    if s.config.recreate then s
    else DropCredential(s, a).(pending := s.pending[a := ClearTail])
  }

  function BeginClearForLogin(s: State, a: Aid): State
    requires a in s.applets
  {
    ClearLocked(s, a).(pending := s.pending[a := ResetTail])
  }

  function Resume(s: State, a: Aid): State
    requires a in s.applets && a in s.pending
  {
    var s1 := s.(pending := s.pending - {a});
    match s.pending[a]
    case ClearTail => ClearLocked(s1, a)
    case ResetTail => ResetStarted(s1, a)
    case PrepareTail(protocol, credential) =>
      ResetStarted(WithApplet(s1, a, s.applets[a].(protocol := protocol, credential := credential)), a)
  }

  function FinishLogin(s: State, a: Aid, success: bool): State
    requires a in s.applets
  {
    if !success then BeginClear(s, a)
    else if !s.config.recreate then DropCredential(s, a)
    else s
  }

  function Establish(s: State, a: Aid, target: Aid, card: Card): (State, Rv)
    requires a in s.applets
  {
    if target != a then (s, Failure(ArgumentsBad))
    else
      var (s1, rv) := Ensure(WithApplet(s, a, s.applets[a].(enabled := true)), a, card);
      if rv.Failure? then
        EnsureFrame(WithApplet(s, a, s.applets[a].(enabled := true)), a, card);
        (WithApplet(s1, a, s1.applets[a].(enabled := false)), rv)
      else (s1, Success)
  }

  function LoginOf(s: State, a: Aid): Login {
    if IsSelected(s, a) then s.selected.value.login else Public
  }

  function SetLogin(s: State, a: Aid, login: Login, card: Card, gap: seq<Interlude>): (State, Rv)
    requires a in s.applets
  {
    if login == Public then
      var s1 := Sync(s);
      (if IsSelected(s1, a) then s1.(selected := Some(s1.selected.value.(login := Public))) else s1, Success)
    else
      var (s1, rv) := Ensure(s, a, card);
      if rv.Failure? then (s1, rv)
      else
        var s2 := Meanwhile(s1, gap);
        if s2.selected.None? then (s2, Failure(DeviceError))
        else (s2.(selected := Some(s2.selected.value.(login := login))), Success)
  }

  // -------------------------------------------------- frames of the functions

  /** A call of applet `a` keeps the configuration, the suspended calls, the
      other applets, and the protocol choices of `a` itself. */
  ghost predicate Framed(s: State, t: State, a: Aid) {
    && t.config == s.config && t.pending == s.pending
    && t.applets.Keys == s.applets.Keys
    && (forall b | b in s.applets && b != a :: t.applets[b] == s.applets[b])
    && (a in s.applets ==> t.applets[a].protocol == s.applets[a].protocol
                           && t.applets[a].configured == s.applets[a].configured)
  }

  lemma MeanwhileKeepsApplets(s: State, gap: seq<Interlude>)
    ensures Meanwhile(s, gap).applets == s.applets
    ensures Meanwhile(s, gap).pending == s.pending
    ensures Meanwhile(s, gap).config == s.config
    ensures Meanwhile(s, gap).selected == s.selected || Meanwhile(s, gap).selected == None
    decreases |gap|
  {
    if gap != [] {
      MeanwhileKeepsApplets(match gap[0] case Replacement(place, published) => Replace(s, place, published)
                                         case Query => Sync(s), gap[1..]);
    }
  }

  lemma HeldKeeps(s: State, gap: seq<Interlude>)
    ensures Held(s, gap) == s.(base := Held(s, gap).base, trace := Held(s, gap).trace)
    ensures Held(s, gap).base >= s.base
    decreases |gap|
  {
    if gap != [] {
      HeldKeeps(match gap[0] case Replacement(place, published) => Replace(s, place, published)
                             case Query => s, gap[1..]);
    }
  }

  /** Only the cache and the trace may differ. */
  predicate Kept(s: State, t: State) {
    && t.config == s.config && t.selected == s.selected && t.epoch == s.epoch && t.base == s.base
    && t.applets == s.applets && t.pending == s.pending
  }

  lemma AttemptFrame(s: State, a: Aid, proto: Protocol, k: KeySet, cached: Option<Point>, o: AuthOutcome)
    ensures Kept(s, Attempt(s, a, proto, k, cached, o))
  {
  }

  lemma OpenScp11Frame(s: State, a: Aid, proto: Protocol, card: Card)
    ensures Kept(s, OpenScp11(s, a, proto, card).0)
  {
    if card.keys.Some? {
      var k := card.keys.value;
      var key := CacheKeyOf(k);
      var cached := CachedPoint(s, key);
      var first := Outcome(s.config, k, cached, card.auth(0, cached));
      AttemptFrame(s, a, proto, k, cached, first);
      if first.AuthFailed? && cached.Some? {
        var s1 := Attempt(s, a, proto, k, cached, first);
        var s2 := Log(s1.(validated := s1.validated - {key.value}), Evicted(key.value));
        AttemptFrame(s2, a, proto, k, None, Outcome(s.config, k, None, card.auth(1, None)));
      }
    }
  }

  lemma NegotiateFrame(s: State, a: Aid, card: Card)
    requires a in s.applets && IsSelected(s, a) && ActiveProtocol(s.applets[a]).Some?
    ensures Framed(s, Negotiate(s, a, card).0, a)
  {
    OpenScp11Frame(s, a, ActiveProtocol(s.applets[a]).value, card);
  }

  lemma OpenChannelFrame(s: State, a: Aid, card: Card)
    requires a in s.applets && IsSelected(s, a)
    ensures Framed(s, OpenChannel(s, a, card).0, a)
  {
    HeldKeeps(s, card.opening);
    if ActiveProtocol(s.applets[a]).Some? { NegotiateFrame(Held(s, card.opening), a, card); }
  }

  lemma SelectAnewFrame(s: State, a: Aid, card: Card)
    ensures var (t, rv) := SelectAnew(s, a, card);
            && t.applets == s.applets && t.pending == s.pending && t.config == s.config
            && (if rv.Success? then IsSelected(t, a) else t.selected.None?)
  {
    HeldKeeps(s.(selected := None), card.before);
    HeldKeeps(Log(Held(s.(selected := None), card.before), Select(a, card.selects)), card.after);
  }

  lemma ReselectFrame(s: State, a: Aid, card: Card)
    ensures var (t, rv) := Reselect(s, a, card);
            && t.applets == s.applets && t.pending == s.pending && t.config == s.config
            && (if rv.Success? then IsSelected(t, a) else t.selected.None?)
  {
    SelectAnewFrame(Log(Sync(s), Checked), a, card);
  }

  lemma EnsureFrame(s: State, a: Aid, card: Card)
    requires a in s.applets
    ensures Framed(s, Ensure(s, a, card).0, a)
  {
    ReselectFrame(s, a, card);
    var (s1, rv) := Reselect(s, a, card);
    if rv.Success? { OpenChannelFrame(s1, a, card); }
  }

  // ------------------------------------------------------------------- steps

  /** One atomic step of the reader: a connector call of one applet, the first
      part of a call that works partly outside the gate, the rest of such a call,
      what happens between calls, or the probe that registers an applet. */
  datatype Op =
    | SendOp(aid: Aid, card: Card, gap: seq<Interlude>, delivery: Delivery)
    | TransmitOp(aid: Aid, card: Card, gap: seq<Interlude>, decodes: bool,
                 card2: Card, gap2: seq<Interlude>, delivery: Delivery, fits: bool)
    | AdministerOp(aid: Aid, card: Card, gap: seq<Interlude>, scp11: bool, prepared: bool, delivery: Delivery)
    | RefreshOp(aid: Aid, link: Link)
    | EstablishOp(aid: Aid, target: Aid, card: Card)
    | SetLoginOp(aid: Aid, login: Login, card: Card, gap: seq<Interlude>)
    | PrepareOp(aid: Aid, choice: Option<(Protocol, Credential)>)
    | FinishOp(aid: Aid, success: bool)
    | ReconcileOp(aid: Aid)
    | ClearOp(aid: Aid)
    | ClearForLoginOp(aid: Aid)
    | ResumeOp(aid: Aid)
    | BetweenOp(aid: Aid, gap: seq<Interlude>)
    | DiscoverOp(aid: Aid, accepted: bool, after: seq<Interlude>, configured: Option<Protocol>, present: bool)

  /** The calls of one applet follow each other: its slot is locked. */
  predicate Enabled(s: State, op: Op) {
    match op
    case BetweenOp(_, _) => true
    case DiscoverOp(_, _, _, _, _) => true
    case ResumeOp(a) => a in s.applets && a in s.pending
    case _ => op.aid in s.applets && op.aid !in s.pending
  }

  function Step(s: State, op: Op): (State, Rv)
    requires Enabled(s, op)
  {
    match op
    case SendOp(a, card, gap, delivery) => Send(s, a, card, gap, delivery)
    case TransmitOp(a, card, gap, decodes, card2, gap2, delivery, fits) =>
      Transmit(s, a, card, gap, decodes, card2, gap2, delivery, fits)
    case AdministerOp(a, card, gap, scp11, prepared, delivery) =>
      Administer(s, a, card, gap, scp11, prepared, delivery)
    case RefreshOp(a, link) => Refresh(s, a, link)
    case EstablishOp(a, target, card) => Establish(s, a, target, card)
    case SetLoginOp(a, login, card, gap) => SetLogin(s, a, login, card, gap)
    case PrepareOp(a, choice) => (BeginPrepare(s, a, choice), Success)
    case FinishOp(a, success) => (FinishLogin(s, a, success), Success)
    case ReconcileOp(a) => (BeginReconcile(s, a), Success)
    case ClearOp(a) => (BeginClear(s, a), Success)
    case ClearForLoginOp(a) => (BeginClearForLogin(s, a), Success)
    case ResumeOp(a) => (Resume(s, a), Success)
    case BetweenOp(_, gap) => (Meanwhile(s, gap), Success)
    case DiscoverOp(a, accepted, after, configured, present) =>
      (Discover(s, a, accepted, after, configured, present), Success)
  }

  /** A step that has to wait for a lock does not happen. */
  function Run(s: State, ops: seq<Op>): State
    decreases |ops|
  {
    if ops == [] then s
    else Run(if Enabled(s, ops[0]) then Step(s, ops[0]).0 else s, ops[1..])
  }

  function Initial(config: Config): State {
    State(config, None, map[], 0, 0, map[], map[], Start)
  }
}
