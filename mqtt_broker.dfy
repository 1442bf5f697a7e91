/**
 * The MQTT broker the host application embeds, as a state machine
 * driven by the application's settings: starting, restarting or stopping
 * the broker when the settings change, the configuration handed to it,
 * and the check of a connecting client's user name and password.
 *
 * The broker library is not modelled. What it is asked to do is recorded
 * as a list of events. Its one failure, `startServer` throwing, is a
 * parameter; so is the outcome of creating the data directory, and so are
 * that directory's path and the UTF-8 decoding of a password.
 */
module MqttBroker {
  import opened Wrappers
  import opened JavaLang

  /** The broker part of the application's settings; a null string is `None`. */
  datatype MqttSettings = MqttSettings(
    brokerEnabled: bool,
    host: Option<JString>,
    port: i32,
    websocketEnabled: bool,
    websocketPort: i32,
    allowAnonymous: bool,
    username: Option<JString>,
    password: Option<JString>)

  /** The settings a new settings object holds. */
  function DefaultSettings(): MqttSettings {
    MqttSettings(false, Some(Lit("0.0.0.0")), 1883, false, 8083, true, Some([]), Some([]))
  }

  datatype BrokerChange = STARTED | RESTARTED | STOPPED | NO_CHANGE

  /** Where the running broker listens. */
  datatype RuntimeInfo = RuntimeInfo(host: JString, port: i32, websocketEnabled: bool, websocketPort: i32)

  /** Why starting the broker failed. */
  datatype StartError =
    | NullHost          // `setProperty` with a null host value
    | DirectoryFailed   // creating the data directory
    | MissingUsername   // anonymous access off and no user name
    | ServerFailed      // `startServer` threw

  /** What `applySettings` gives back: a status, or the exception a failed start throws. */
  datatype Outcome = Status(change: BrokerChange, info: Option<RuntimeInfo>) | StartFailed(cause: StartError)

  /** The credentials a client must present. */
  datatype Authenticator = Authenticator(expectedUser: JString, expectedPassword: Option<JString>)

  /** A call into the broker library: a start with its configuration and authenticator, or a stop. */
  datatype ServerEvent = StartServer(config: map<JString, JString>, auth: Option<Authenticator>) | StopServer

  // ---------------------------------------------------------------------
  // Configuration
  // ---------------------------------------------------------------------

  const BACKSLASH: jchar := 0x5C
  const SLASH: jchar := 0x2F

  /** `replace("\\", "/")`: every backslash becomes a forward slash. */
  function ForwardSlashes(s: JString): (r: JString)
    ensures |r| == |s|
    ensures forall k :: 0 <= k < |s| ==> r[k] == (if s[k] == BACKSLASH then SLASH else s[k])
  {
    seq(|s|, k requires 0 <= k < |s| => if s[k] == BACKSLASH then SLASH else s[k])
  }

  const PROP_PORT: JString := Lit("port")
  const PROP_HOST: JString := Lit("host")
  const PROP_ALLOW_ANONYMOUS: JString := Lit("allow_anonymous")
  const PROP_NEED_CLIENT_AUTH: JString := Lit("need_client_auth")
  const PROP_DATA_PATH: JString := Lit("data_path")
  const PROP_PERSISTENCE_ENABLED: JString := Lit("persistence_enabled")
  const PROP_WS_ENABLED: JString := Lit("websocket_enabled")
  const PROP_WS_PORT: JString := Lit("websocket_port")
  const PROP_WS_PATH: JString := Lit("websocket_path")
  const WS_PATH: JString := Lit("/mqtt")

  /**
   * `buildProperties`, given the broker directory's path: null when the
   * host is null (`Properties` refuses a null value), otherwise the port,
   * host, anonymous-access and client-authentication flags, the data path
   * with forward slashes, persistence on, and the WebSocket entries.
   */
  function BuildProperties(s: MqttSettings, brokerDir: JString): (p: Option<map<JString, JString>>)
    ensures p.Some? <==> s.host.Some?
  {
    if s.host.None? then None
    else
      var base := map[
        PROP_PORT := Decimal(s.port),
        PROP_HOST := s.host.value,
        PROP_ALLOW_ANONYMOUS := BoolString(s.allowAnonymous),
        PROP_NEED_CLIENT_AUTH := BoolString(!s.allowAnonymous),
        PROP_DATA_PATH := ForwardSlashes(brokerDir),
        PROP_PERSISTENCE_ENABLED := BoolString(true)];
      if s.websocketEnabled then
        Some(base[PROP_WS_ENABLED := BoolString(true)][PROP_WS_PORT := Decimal(s.websocketPort)][PROP_WS_PATH := WS_PATH])
      else
        Some(base[PROP_WS_ENABLED := BoolString(false)])
  }

  /** The names present whatever the WebSocket setting. */
  const BASE_NAMES: set<JString> := {PROP_PORT, PROP_HOST, PROP_ALLOW_ANONYMOUS, PROP_NEED_CLIENT_AUTH,
                                     PROP_DATA_PATH, PROP_PERSISTENCE_ENABLED, PROP_WS_ENABLED}

  /** The nine property names are distinct. */
  lemma PropertyNamesDistinct()
    ensures |BASE_NAMES| == 7
    ensures PROP_WS_PORT !in BASE_NAMES && PROP_WS_PATH !in BASE_NAMES && PROP_WS_PORT != PROP_WS_PATH
  {
    assert PROP_PORT[0] != PROP_HOST[0] && PROP_WS_PORT[11] != PROP_WS_PATH[11];
  }

  /**
   * The configuration: the port and host as given, client authentication
   * needed exactly when anonymous access is off, a data path without
   * backslashes, and the WebSocket port and path when WebSockets are on.
   */
  lemma PropertiesContent(s: MqttSettings, brokerDir: JString)
    requires s.host.Some?
    ensures var p := BuildProperties(s, brokerDir).value;
      p[PROP_PORT] == Decimal(s.port) && p[PROP_HOST] == s.host.value
      && p[PROP_ALLOW_ANONYMOUS] == BoolString(s.allowAnonymous)
      && p[PROP_NEED_CLIENT_AUTH] == BoolString(!s.allowAnonymous)
      && p[PROP_DATA_PATH] == ForwardSlashes(brokerDir) && BACKSLASH !in p[PROP_DATA_PATH]
      && p[PROP_PERSISTENCE_ENABLED] == BoolString(true)
      && p[PROP_WS_ENABLED] == BoolString(s.websocketEnabled)
      && (s.websocketEnabled ==> p[PROP_WS_PORT] == Decimal(s.websocketPort) && p[PROP_WS_PATH] == WS_PATH)
  {
    PropertyNamesDistinct();
  }

  /** Nine entries with WebSockets on; without them the WebSocket port and path are absent, leaving seven. */
  lemma PropertiesKeys(s: MqttSettings, brokerDir: JString)
    requires s.host.Some?
    ensures var p := BuildProperties(s, brokerDir).value;
      (PROP_WS_PORT in p <==> s.websocketEnabled) && (PROP_WS_PATH in p <==> s.websocketEnabled)
      && |p.Keys| == if s.websocketEnabled then 9 else 7
  {
    PropertyNamesDistinct();
    var p := BuildProperties(s, brokerDir).value;
    if s.websocketEnabled {
      assert p.Keys == BASE_NAMES + {PROP_WS_PORT, PROP_WS_PATH};
    } else {
      assert p.Keys == BASE_NAMES;
    }
  }

  // ---------------------------------------------------------------------
  // Authentication
  // ---------------------------------------------------------------------

  /**
   * `buildAuthenticator`: the settings' user name and password; null (it
   * throws) when the user name is null or blank.
   */
  function BuildAuthenticator(s: MqttSettings): (a: Option<Authenticator>)
    ensures a.None? <==> s.username.None? || IsBlank(s.username.value)
  {
    if s.username.None? || IsBlank(s.username.value) then None
    else Some(Authenticator(s.username.value, s.password))
  }

  /**
   * The authenticator's check: a null or different user name is refused;
   * a missing password counts as the empty one; the (decoded) password
   * must equal the expected one, which a null expected password never
   * does.
   */
  function Authenticate(a: Authenticator, username: Option<JString>, password: Option<seq<int>>,
                        utf8: seq<int> -> JString): (ok: bool)
    ensures ok ==> username == Some(a.expectedUser) && a.expectedPassword.Some?
    ensures a.expectedPassword.None? ==> !ok
  {
    if username.None? then false
    else if a.expectedUser != username.value then false
    else
      var provided := if password.None? then [] else utf8(password.value);
      a.expectedPassword == Some(provided)
  }

  /** A client is let in exactly when it names the expected user and presents the expected password. */
  lemma AuthenticateIff(a: Authenticator, username: Option<JString>, password: Option<seq<int>>,
                        utf8: seq<int> -> JString)
    ensures Authenticate(a, username, password, utf8)
            <==> username == Some(a.expectedUser) && a.expectedPassword.Some?
                 && a.expectedPassword.value == (if password.None? then [] else utf8(password.value))
    ensures a.expectedPassword.None? ==> !Authenticate(a, username, password, utf8)
    ensures a.expectedPassword == Some([]) ==> Authenticate(a, Some(a.expectedUser), None, utf8)
  {
  }

  // ---------------------------------------------------------------------
  // The state machine
  // ---------------------------------------------------------------------

  /** The service's fields, and the calls made into the broker library so far. */
  datatype BrokerState = BrokerState(
    serverPresent: bool,
    running: bool,
    runtimeInfo: Option<RuntimeInfo>,
    cached: Option<MqttSettings>,
    events: seq<ServerEvent>)

  /**
   * The state between calls: either stopped with nothing recorded, or
   * running with a server, the enabled settings it was started with, and
   * the runtime information those settings give.
   */
  predicate Consistent(st: BrokerState) {
    (!st.running && !st.serverPresent && st.runtimeInfo.None? && st.cached.None?)
    || (st.running && st.serverPresent && st.cached.Some? && st.cached.value.brokerEnabled
        && st.cached.value.host.Some? && st.runtimeInfo == Some(InfoOf(st.cached.value)))
  }

  /** Where settings with a host make the broker listen. */
  function InfoOf(s: MqttSettings): RuntimeInfo
    requires s.host.Some?
  {
    RuntimeInfo(s.host.value, s.port, s.websocketEnabled, s.websocketPort)
  }

  /** `stopInternal`: the server, if any, is stopped (its errors ignored), and every field is cleared. */
  function Stop(st: BrokerState): (r: BrokerState)
    ensures Consistent(r) && !r.running
  {
    BrokerState(false, false, None, None, st.events + (if st.serverPresent then [StopServer] else []))
  }

  /** Why starting with `s` fails, if it does, in the order the steps are taken. */
  function FailureOf(s: MqttSettings, brokerDir: JString, dirOk: bool, serverOk: bool): Option<StartError> {
    if s.host.None? then Some(NullHost)
    else if !dirOk then Some(DirectoryFailed)
    else if !s.allowAnonymous && BuildAuthenticator(s).None? then Some(MissingUsername)
    else if !serverOk then Some(ServerFailed)
    else None
  }

  /** The authenticator a start installs: none with anonymous access, the settings' credentials otherwise. */
  function AuthOf(s: MqttSettings): Option<Authenticator> {
    if s.allowAnonymous then None else BuildAuthenticator(s)
  }

  /**
   * `startInternal` from a stopped state: the configuration is built, a
   * server created, the broker started; any failure stops everything
   * again.
   */
  function Start(st: BrokerState, s: MqttSettings, brokerDir: JString, dirOk: bool, serverOk: bool)
    : (r: (BrokerState, Option<StartError>))
    ensures r.1 == FailureOf(s, brokerDir, dirOk, serverOk)
    ensures r.1.Some? ==> Consistent(r.0) && !r.0.running
    ensures r.1.None? ==> s.host.Some? && r.0.running && r.0.serverPresent && r.0.runtimeInfo == Some(InfoOf(s))
    ensures st.events <= r.0.events
  {
    var err := FailureOf(s, brokerDir, dirOk, serverOk);
    if err == Some(NullHost) || err == Some(DirectoryFailed) then (Stop(st), err)
    else if err == Some(MissingUsername) then (Stop(st.(serverPresent := true)), err)
    else
      var started := st.(serverPresent := true,
                         events := st.events + [StartServer(BuildProperties(s, brokerDir).value, AuthOf(s))]);
      if err == Some(ServerFailed) then (Stop(started), err)
      else (started.(running := true, runtimeInfo := Some(InfoOf(s))), None)
  }

  /**
   * `applySettings`: null or disabled settings stop a running broker
   * (STOPPED) or do nothing (NO_CHANGE); while running, the settings it
   * runs with change nothing (NO_CHANGE with the current information);
   * other settings restart a running broker (RESTARTED) or start a stopped
   * one (STARTED), and the settings are cached only when the start
   * succeeds.
   */
  function Apply(st: BrokerState, settings: Option<MqttSettings>, brokerDir: JString, dirOk: bool, serverOk: bool)
    : (r: (BrokerState, Outcome))
    ensures settings.None? || !settings.value.brokerEnabled ==> !r.0.running
    ensures r.1.StartFailed? ==> !r.0.running
    ensures r.1.Status? && r.0.running ==> settings.Some? && r.0.cached == settings
    ensures st.events <= r.0.events
  {
    if settings.None? || !settings.value.brokerEnabled then
      if st.running then (Stop(st), Status(STOPPED, None)) else (st, Status(NO_CHANGE, None))
    else
      var snapshot := settings.value;
      var change := if st.running then RESTARTED else STARTED;
      if st.running && Some(snapshot) == st.cached then (st, Status(NO_CHANGE, st.runtimeInfo))
      else
        var stopped := if st.running then Stop(st) else st;
        var (started, err) := Start(stopped.(running := false), snapshot, brokerDir, dirOk, serverOk);
        if err.Some? then (started, StartFailed(err.value))
        else (started.(cached := Some(snapshot)), Status(change, started.runtimeInfo))
  }

  /** Every call and every outcome keeps the state consistent. */
  lemma ApplyConsistent(st: BrokerState, settings: Option<MqttSettings>, brokerDir: JString, dirOk: bool, serverOk: bool)
    requires Consistent(st)
    ensures Consistent(Apply(st, settings, brokerDir, dirOk, serverOk).0)
  {
  }

  /**
   * A successful start leaves the broker running with exactly the given
   * settings and reports where it listens; a failed one leaves it stopped.
   */
  lemma ApplyOutcome(st: BrokerState, s: MqttSettings, brokerDir: JString, dirOk: bool, serverOk: bool)
    requires Consistent(st) && s.brokerEnabled && !(st.running && st.cached == Some(s))
    ensures var (r, out) := Apply(st, Some(s), brokerDir, dirOk, serverOk);
      (FailureOf(s, brokerDir, dirOk, serverOk).None? ==>
         r.running && r.cached == Some(s)
         && out == Status(if st.running then RESTARTED else STARTED, Some(InfoOf(s))))
      && (FailureOf(s, brokerDir, dirOk, serverOk).Some? ==>
         !r.running && r.cached.None? && out == StartFailed(FailureOf(s, brokerDir, dirOk, serverOk).value))
  {
  }

  /** Applying the settings the broker just started with again changes nothing. */
  lemma ApplyIdempotent(st: BrokerState, s: MqttSettings, brokerDir: JString, dirOk: bool, serverOk: bool,
                        dirOk2: bool, serverOk2: bool)
    requires Consistent(st) && s.brokerEnabled
    requires Apply(st, Some(s), brokerDir, dirOk, serverOk).1.Status?
    ensures var r := Apply(st, Some(s), brokerDir, dirOk, serverOk).0;
      Apply(r, Some(s), brokerDir, dirOk2, serverOk2) == (r, Status(NO_CHANGE, r.runtimeInfo))
  {
  }

  /** Disabling always ends with the broker stopped, and stops the library's server if one was running. */
  lemma DisableStops(st: BrokerState, s: Option<MqttSettings>, brokerDir: JString, dirOk: bool, serverOk: bool)
    requires Consistent(st) && (s.None? || !s.value.brokerEnabled)
    ensures var (r, out) := Apply(st, s, brokerDir, dirOk, serverOk);
      !r.running && r.cached.None?
      && out == Status(if st.running then STOPPED else NO_CHANGE, None)
      && r.events == st.events + (if st.running then [StopServer] else [])
  {
  }

  /** Stopping twice is stopping once. */
  lemma StopIdempotent(st: BrokerState)
    ensures Stop(Stop(st)) == Stop(st)
  {
  }

  /** A restart stops the old server before the new one is started. */
  lemma RestartOrder(st: BrokerState, s: MqttSettings, brokerDir: JString, serverOk: bool)
    requires Consistent(st) && st.running && s.brokerEnabled && st.cached != Some(s) && s.host.Some?
    requires s.allowAnonymous || BuildAuthenticator(s).Some?
    ensures var r := Apply(st, Some(s), brokerDir, true, serverOk).0;
      |r.events| > |st.events| + 1 && r.events[..|st.events|] == st.events
      && r.events[|st.events|] == StopServer && r.events[|st.events| + 1].StartServer?
  {
  }

  class MqttBrokerService {
    var serverPresent: bool
    var running: bool
    var runtimeInfo: Option<RuntimeInfo>
    var cachedSettings: Option<MqttSettings>
    /** The calls made into the broker library, oldest first. */
    var events: seq<ServerEvent>

    function State(): BrokerState
      reads this
    {
      BrokerState(serverPresent, running, runtimeInfo, cachedSettings, events)
    }

    /** A new service: no server, not running. */
    constructor ()
      ensures State() == BrokerState(false, false, None, None, [])
    {
      serverPresent, running, runtimeInfo, cachedSettings, events := false, false, None, None, [];
    }

    /** `stopInternal`. */
    method StopInternal()
      modifies this
      ensures State() == Stop(old(State()))
    {
      if serverPresent {
        events := events + [StopServer];
      }
      serverPresent := false;
      running := false;
      runtimeInfo := None;
      cachedSettings := None;
    }

    /** `startInternal`, called only while stopped. */
    method StartInternal(settings: MqttSettings, brokerDir: JString, dirOk: bool, serverOk: bool)
      returns (err: Option<StartError>)
      requires !running
      modifies this
      ensures (State(), err) == Start(old(State()), settings, brokerDir, dirOk, serverOk)
    {
      var props := BuildProperties(settings, brokerDir);
      if props.None? {
        StopInternal();
        return Some(NullHost);
      }
      if !dirOk {
        StopInternal();
        return Some(DirectoryFailed);
      }
      serverPresent := true;
      var auth: Option<Authenticator> := None;
      if !settings.allowAnonymous {
        auth := BuildAuthenticator(settings);
        if auth.None? {
          StopInternal();
          return Some(MissingUsername);
        }
      }
      events := events + [StartServer(props.value, auth)];
      if !serverOk {
        StopInternal();
        return Some(ServerFailed);
      }
      running := true;
      runtimeInfo := Some(InfoOf(settings));
      return None;
    }

    /** `applySettings`. */
    method ApplySettings(settings: Option<MqttSettings>, brokerDir: JString, dirOk: bool, serverOk: bool)
      returns (out: Outcome)
      modifies this
      ensures (State(), out) == Apply(old(State()), settings, brokerDir, dirOk, serverOk)
    {
      if settings.None? || !settings.value.brokerEnabled {
        if running {
          StopInternal();
          return Status(STOPPED, None);
        }
        return Status(NO_CHANGE, None);
      }
      var snapshot := settings.value;
      var change := if running then RESTARTED else STARTED;
      if running && Some(snapshot) == cachedSettings {
        return Status(NO_CHANGE, runtimeInfo);
      }
      if running {
        StopInternal();
      }
      var err := StartInternal(snapshot, brokerDir, dirOk, serverOk);
      if err.Some? {
        return StartFailed(err.value);
      }
      cachedSettings := Some(snapshot);
      return Status(change, runtimeInfo);
    }

    /** `shutdown`. */
    method Shutdown()
      modifies this
      ensures State() == Stop(old(State()))
    {
      StopInternal();
    }
  }
}
