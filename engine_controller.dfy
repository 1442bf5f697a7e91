/**
 * The host's control of the Stockfish engine: whether an engine process
 * is running, for which executable, with which options, and which side
 * it plays, all driven by the application's engine settings.
 *
 * The engine process is not modelled. Whether `initialize` succeeds, how
 * many `setOption` calls go through before one throws, and the
 * exception's message are parameters. For characters outside ASCII, the
 * lower-case form `String.toLowerCase(Locale.ROOT)` gives is supplied by
 * the caller, one character at a time.
 */
module EngineControl {
  import opened Wrappers
  import opened JavaLang
  import opened ChessPiece

  /** The engine part of the application's settings; a null string is `None`. */
  datatype EngineSettings = EngineSettings(
    engineEnabled: bool,
    stockfishPath: Option<JString>,
    enginePlayAs: Option<JString>,
    thinkingTimeMs: i32,
    skillLevel: i32,
    threads: i32,
    hashSizeMB: i32)

  /** The settings a new settings object holds. */
  function DefaultSettings(): EngineSettings {
    EngineSettings(false, Some([]), Some(Lit("Disabled")), 1000, 20, 1, 128)
  }

  /** One `setOption` call sent to the engine. */
  datatype OptionCall = OptionCall(name: JString, value: JString)

  /** What `analyzePosition` does: fail the future at once, or hand the position to the engine. */
  datatype Analysis = Rejected(message: JString) | Submitted(fen: JString, thinkingTimeMs: i32)

  const PATH_NOT_CONFIGURED: JString := Lit("Stockfish path is not configured.")
  const INIT_FAILED: JString := Lit("Failed to initialize Stockfish at ")
  const CONFIGURE_FAILED: JString := Lit("Failed to configure Stockfish: ")
  const ENGINE_DISABLED: JString := Lit("Stockfish engine is disabled")

  /** One engine process, for one executable. */
  class ChessEngine {
    const path: JString
    var initialized: bool
    var shutDown: bool

    constructor (path: JString)
      ensures this.path == path && !initialized && !shutDown
    {
      this.path := path;
      initialized := false;
      shutDown := false;
    }

    /** `initialize`: the engine is initialised exactly when the handshake succeeds (`ok`). */
    method Initialize(ok: bool) returns (r: bool)
      modifies this
      ensures r == ok && initialized == (old(initialized) || ok) && shutDown == old(shutDown)
    {
      if ok {
        initialized := true;
      }
      return ok;
    }

    /** `shutdown`: the process is ended; the initialised flag is left as it was. */
    method Shutdown()
      modifies this
      ensures shutDown && initialized == old(initialized)
    {
      shutDown := true;
    }
  }

  /** The messages the error handler receives for `message`: none without a handler. */
  function Notice(hasHandler: bool, message: JString): seq<JString> {
    if hasHandler then [message] else []
  }

  /** The three options set on the engine, in order, from the settings. */
  function EngineOptions(s: EngineSettings): (o: seq<OptionCall>)
    ensures |o| == 3
  {
    [OptionCall(Lit("Skill Level"), Decimal(s.skillLevel)),
     OptionCall(Lit("Threads"), Decimal(s.threads)),
     OptionCall(Lit("Hash"), Decimal(s.hashSizeMB))]
  }

  /** The option calls that go through when the one after the first `failAt` throws. */
  function SentOptions(s: EngineSettings, failAt: nat): (o: seq<OptionCall>)
    ensures |o| <= 3 && o <= EngineOptions(s)
    ensures failAt >= 3 ==> o == EngineOptions(s)
  {
    if failAt >= 3 then EngineOptions(s) else EngineOptions(s)[..failAt]
  }

  /** A `String.toLowerCase(Locale.ROOT)` that maps ASCII letters itself and asks `otherLower` for the rest. */
  function LowerRoot(s: JString, otherLower: jchar -> JString): (r: JString)
    ensures IsAscii(s) ==> |r| == |s| && forall k :: 0 <= k < |s| ==> r[k] == AsciiLower(s[k])
    decreases |s|
  {
    if |s| == 0 then []
    else
      var last := s[|s| - 1];
      LowerRoot(s[..|s| - 1], otherLower) + (if last < 0x80 then [AsciiLower(last)] else otherLower(last))
  }

  /** "white" */
  const WHITE_TEXT: JString := [0x77, 0x68, 0x69, 0x74, 0x65]
  /** "black" */
  const BLACK_TEXT: JString := [0x62, 0x6C, 0x61, 0x63, 0x6B]

  /** The side named by a "play as" value: "white" or "black" in any case, otherwise none. */
  function SideOf(value: JString, otherLower: jchar -> JString): (side: Option<PieceColor>)
    ensures IsAscii(value) && side.Some? ==> |value| == 5
    ensures value == WHITE_TEXT ==> side == Some(WHITE)
    ensures value == BLACK_TEXT ==> side == Some(BLACK)
  {
    var v := LowerRoot(value, otherLower);
    assert value == WHITE_TEXT || value == BLACK_TEXT ==> v == value;
    if v == WHITE_TEXT then Some(WHITE)
    else if v == BLACK_TEXT then Some(BLACK)
    else None
  }

  /** On ASCII text the side is named by "white" or "black" in any mixture of cases and by nothing else. */
  lemma SideOfAscii(value: JString, otherLower: jchar -> JString)
    requires IsAscii(value)
    ensures SideOf(value, otherLower) == Some(WHITE)
            <==> |value| == 5 && forall k :: 0 <= k < 5 ==> AsciiLower(value[k]) == WHITE_TEXT[k]
    ensures SideOf(value, otherLower) == Some(BLACK)
            <==> |value| == 5 && forall k :: 0 <= k < 5 ==> AsciiLower(value[k]) == BLACK_TEXT[k]
  {
    var v := LowerRoot(value, otherLower);
    if |value| == 5 && forall k :: 0 <= k < 5 ==> AsciiLower(value[k]) == WHITE_TEXT[k] {
      assert v == WHITE_TEXT;
    }
    if |value| == 5 && forall k :: 0 <= k < 5 ==> AsciiLower(value[k]) == BLACK_TEXT[k] {
      assert v == BLACK_TEXT;
    }
  }

  /** The default value "Disabled" names no side. */
  lemma DefaultPlaysNoSide(otherLower: jchar -> JString)
    ensures SideOf([0x44, 0x69, 0x73, 0x61, 0x62, 0x6C, 0x65, 0x64], otherLower).None?
  {
    var disabled: JString := [0x44, 0x69, 0x73, 0x61, 0x62, 0x6C, 0x65, 0x64];
    assert IsAscii(disabled);
    assert |LowerRoot(disabled, otherLower)| == 8;
  }

  /** "White" names White. */
  lemma CapitalisedNamesSide(otherLower: jchar -> JString)
    ensures SideOf([0x57, 0x68, 0x69, 0x74, 0x65], otherLower) == Some(WHITE)
  {
    var white: JString := [0x57, 0x68, 0x69, 0x74, 0x65];
    assert IsAscii(white);
    assert LowerRoot(white, otherLower) == WHITE_TEXT;
  }

  /**
   * Full Unicode lowering counts too: with KELVIN SIGN lowering to "k",
   * as it does in Unicode, "blac" followed by a Kelvin sign names Black.
   */
  lemma KelvinSignNamesBlack(otherLower: jchar -> JString)
    requires otherLower(0x212A) == [0x6B]
    ensures SideOf([0x62, 0x6C, 0x61, 0x63, 0x212A], otherLower) == Some(BLACK)
  {
    var s: JString := [0x62, 0x6C, 0x61, 0x63, 0x212A];
    var blac: JString := [0x62, 0x6C, 0x61, 0x63];
    assert s[..4] == blac;
    assert IsAscii(blac);
    assert LowerRoot(blac, otherLower) == blac by {
      var r := LowerRoot(blac, otherLower);
      forall k | 0 <= k < 4
        ensures r[k] == blac[k]
      {
        assert r[k] == AsciiLower(blac[k]);
      }
    }
    assert LowerRoot(s, otherLower) == BLACK_TEXT;
  }

  class EngineController {
    /** Whether an error handler was given; only then are messages delivered. */
    const hasErrorHandler: bool
    var engine: ChessEngine?
    var settings: Option<EngineSettings>
    var currentPath: Option<JString>
    /** The messages handed to the error handler, oldest first. */
    var errors: seq<JString>
    /** The options sent to engines, oldest first. */
    var optionsSent: seq<OptionCall>

    /**
     * An installed engine is initialised and running, its executable is the
     * current path, and the settings enable it with that path; without an
     * engine there is no current path.
     */
    ghost predicate Valid()
      reads this, engine
    {
      (engine == null ==> currentPath.None?)
      && (engine != null ==>
            engine.initialized && !engine.shutDown && currentPath == Some(engine.path)
            && settings.Some? && settings.value.engineEnabled && settings.value.stockfishPath == Some(engine.path))
    }

    constructor (hasErrorHandler: bool)
      ensures Valid() && this.hasErrorHandler == hasErrorHandler
      ensures engine == null && settings.None? && errors == [] && optionsSent == []
    {
      this.hasErrorHandler := hasErrorHandler;
      engine := null;
      settings := None;
      currentPath := None;
      errors := [];
      optionsSent := [];
    }

    /** `isReady`: there is an engine and it is initialised. */
    function IsReady(): (ready: bool)
      reads this, engine
      ensures ready <==> engine != null && engine.initialized
    {
      engine != null && engine.initialized
    }

    /** `getEngineSide`: none without settings or without a value, else the side the value names. */
    function EngineSide(otherLower: jchar -> JString): (c: Option<PieceColor>)
      reads this
      ensures settings.None? || settings.value.enginePlayAs.None? ==> c.None?
    {
      if settings.None? || settings.value.enginePlayAs.None? then None
      else SideOf(settings.value.enginePlayAs.value, otherLower)
    }

    /** `playsAsOpponent`: a side is chosen and the engine is ready. */
    function PlaysAsOpponent(otherLower: jchar -> JString): (b: bool)
      reads this, engine
      ensures b <==> EngineSide(otherLower).Some? && IsReady()
    {
      EngineSide(otherLower) != None && IsReady()
    }

    /** `analyzePosition`: refused at once unless the engine is ready, else handed over with the thinking time. */
    function AnalyzePosition(fen: JString): (a: Analysis)
      requires Valid()
      reads this, engine
      ensures a.Rejected? <==> !IsReady()
      ensures a.Rejected? ==> a.message == ENGINE_DISABLED
      ensures a.Submitted? ==> a.fen == fen && a.thinkingTimeMs == settings.value.thinkingTimeMs
    {
      if !IsReady() then Rejected(ENGINE_DISABLED)
      else Submitted(fen, settings.value.thinkingTimeMs)
    }

    /** `notifyError`. */
    method NotifyError(message: JString)
      modifies this
      ensures errors == old(errors) + Notice(hasErrorHandler, message)
      ensures engine == old(engine) && settings == old(settings) && currentPath == old(currentPath)
      ensures optionsSent == old(optionsSent)
    {
      if hasErrorHandler {
        errors := errors + [message];
      }
    }

    /** `disableEngine`: an installed engine is shut down and dropped, and the current path cleared. */
    method DisableEngine()
      modifies this, engine
      ensures engine == null && currentPath.None? && Valid()
      ensures old(engine) != null ==> old(engine).shutDown
      ensures settings == old(settings) && errors == old(errors) && optionsSent == old(optionsSent)
    {
      if engine != null {
        engine.Shutdown();
        engine := null;
      }
      currentPath := None;
    }

    /** `shutdown`: the engine is disabled as by `disableEngine`; stopping the analysis thread is not modelled. */
    method Shutdown()
      modifies this, engine
      ensures engine == null && currentPath.None? && Valid()
      ensures old(engine) != null ==> old(engine).shutDown
      ensures settings == old(settings) && errors == old(errors) && optionsSent == old(optionsSent)
    {
      DisableEngine();
    }

    /**
     * `configureEngineOptions`: with a ready engine and settings, the three
     * options are sent; if a call throws after the first `failAt`, the rest
     * are not sent and one error is reported.
     */
    method ConfigureEngineOptions(failAt: nat, ioMessage: JString)
      requires Valid()
      modifies this
      ensures Valid() && engine == old(engine) && settings == old(settings) && currentPath == old(currentPath)
      ensures !IsReady() ==> optionsSent == old(optionsSent) && errors == old(errors)
      ensures IsReady() ==> optionsSent == old(optionsSent) + SentOptions(settings.value, failAt)
      ensures IsReady() ==>
        errors == old(errors) + (if failAt < 3 then Notice(hasErrorHandler, CONFIGURE_FAILED + ioMessage) else [])
    {
      if !IsReady() || settings.None? {
        return;
      }
      var all := EngineOptions(settings.value);
      var i := 0;
      while i < 3
        invariant i <= 3 && Valid()
        invariant engine == old(engine) && settings == old(settings) && currentPath == old(currentPath)
        invariant errors == old(errors)
        invariant i <= failAt && optionsSent == old(optionsSent) + all[..i]
      {
        if i == failAt {
          NotifyError(CONFIGURE_FAILED + ioMessage);
          return;
        }
        optionsSent := optionsSent + [all[i]];
        assert all[..i + 1] == all[..i] + [all[i]];
        i := i + 1;
      }
      assert all[..3] == all;
    }

    /**
     * `applySettings`. Disabled or missing settings: no engine. An enabled
     * engine without a usable path: no engine and one error. The same path
     * as the running engine's: the engine is kept and only reconfigured.
     * Otherwise the old engine is shut down and a new one started for the
     * path; it is installed only if it initialises, else one error is
     * reported.
     */
    method ApplySettings(newSettings: Option<EngineSettings>, initOk: bool, failAt: nat, ioMessage: JString)
      requires Valid()
      modifies this, engine
      ensures Valid() && settings == newSettings
      ensures newSettings.None? || !newSettings.value.engineEnabled ==>
        engine == null && currentPath.None? && errors == old(errors) && optionsSent == old(optionsSent)
        && (old(engine) != null ==> old(engine).shutDown)
      ensures newSettings.Some? && newSettings.value.engineEnabled
              && (newSettings.value.stockfishPath.None? || IsBlank(newSettings.value.stockfishPath.value)) ==>
        engine == null && currentPath.None? && optionsSent == old(optionsSent)
        && errors == old(errors) + Notice(hasErrorHandler, PATH_NOT_CONFIGURED)
        && (old(engine) != null ==> old(engine).shutDown)
      ensures KeepsEngine(newSettings, old(engine), old(currentPath)) ==>
        engine == old(engine) && !engine.shutDown
        && optionsSent == old(optionsSent) + SentOptions(newSettings.value, failAt)
        && errors == old(errors) + (if failAt < 3 then Notice(hasErrorHandler, CONFIGURE_FAILED + ioMessage) else [])
      ensures Restarts(newSettings, old(engine), old(currentPath)) ==>
        (old(engine) != null ==> old(engine).shutDown)
        && (initOk ==>
              engine != null && fresh(engine) && engine.path == newSettings.value.stockfishPath.value
              && optionsSent == old(optionsSent) + SentOptions(newSettings.value, failAt)
              && errors == old(errors) + (if failAt < 3 then Notice(hasErrorHandler, CONFIGURE_FAILED + ioMessage) else []))
        && (!initOk ==>
              engine == null && currentPath.None? && optionsSent == old(optionsSent)
              && errors == old(errors) + Notice(hasErrorHandler, INIT_FAILED + newSettings.value.stockfishPath.value))
    {
      settings := newSettings;
      if newSettings.None? || !newSettings.value.engineEnabled {
        DisableEngine();
        return;
      }
      var desiredPath := newSettings.value.stockfishPath;
      if desiredPath.None? || IsBlank(desiredPath.value) {
        DisableEngine();
        NotifyError(PATH_NOT_CONFIGURED);
        return;
      }
      if engine != null && desiredPath == currentPath && engine.initialized {
        ConfigureEngineOptions(failAt, ioMessage);
        return;
      }
      DisableEngine();
      var newEngine := new ChessEngine(desiredPath.value);
      var ok := newEngine.Initialize(initOk);
      if ok {
        engine := newEngine;
        currentPath := desiredPath;
        ConfigureEngineOptions(failAt, ioMessage);
      } else {
        NotifyError(INIT_FAILED + desiredPath.value);
      }
    }
  }

  /** Enabled settings with a usable path. */
  predicate UsablePath(s: Option<EngineSettings>) {
    s.Some? && s.value.engineEnabled && s.value.stockfishPath.Some? && !IsBlank(s.value.stockfishPath.value)
  }

  /** The settings name the path of the engine already running, so it is kept. */
  predicate KeepsEngine(s: Option<EngineSettings>, engine: ChessEngine?, currentPath: Option<JString>) {
    UsablePath(s) && engine != null && s.value.stockfishPath == currentPath
  }

  /** The settings ask for an engine other than the running one. */
  predicate Restarts(s: Option<EngineSettings>, engine: ChessEngine?, currentPath: Option<JString>) {
    UsablePath(s) && !KeepsEngine(s, engine, currentPath)
  }
}
