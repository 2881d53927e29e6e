/**
 * The state-changing HTTP routes of the fog server (server.js:316-478) and the
 * two scheduled callbacks of Auto-Fog (server.js:190-196, 207-210), over the
 * server's two module-level records. Each route is the handler's control flow
 * with its HTTP status; response bodies are not modelled.
 */
module Routes {
  import opened Wrappers
  import opened Validation
  import opened Stats
  import opened AutoFog
  import opened CodeArgument

  const OK: int := 200
  const BAD_REQUEST: int := 400
  const SERVER_ERROR: int := 500

  /** The status of a route that awaits `executeCommand`: 200 on success, 500 when it rejects. */
  function CommandStatus(outcome: CommandOutcome): int {
    if outcome == Succeeded then OK else SERVER_ERROR
  }

  /**
   * The custom code route as written (server.js:383-425): the status it
   * answers with and the `--code` argument it passes to `fog-controller.py
   * --command custom`, if it starts that subprocess at all. The code goes
   * over bare. When the script's `int(text, 0)` refuses it, argparse exits
   * with status 2 and the route answers 500 whatever else happens;
   * otherwise `mechanismOk` is whether the subprocess ends without error.
   */
  function CustomCodeRouteAsWritten(code: Option<string>, mechanismOk: bool): (r: (int, Option<string>))
    ensures r.1.Some? <==> code.Some? && MatchesHexCode(code.value)
    ensures r.1.Some? ==> r.1 == code
    ensures r.1.Some? && PythonInt(code.value).None? ==> r.0 == SERVER_ERROR
    ensures r.1.Some? && PythonInt(code.value).Some? ==> r.0 == (if mechanismOk then OK else SERVER_ERROR)
    ensures r.1.None? ==> r.0 == BAD_REQUEST
  {
    match CheckCustomCode(code)
    case MissingCode => (BAD_REQUEST, None)
    case BadFormat => (BAD_REQUEST, None)
    case Accepted(c) => (if PythonInt(c).Some? && mechanismOk then OK else SERVER_ERROR, Some(c))
  }

  /** As written, "1A2b" passes the route's check and then always fails in the script. */
  lemma AsWrittenRouteFailsOnLetters(mechanismOk: bool)
    ensures CustomCodeRouteAsWritten(Some("1A2b"), mechanismOk) == (SERVER_ERROR, Some("1A2b"))
  {
    BareCodeRefused();
  }

  /**
   * The custom code route with the code passed behind a "0x" prefix, so
   * that the script reads it in radix 16: the status and the `--code`
   * argument, if the subprocess starts. `mechanismOk` is whether the
   * subprocess ends without error.
   */
  function CustomCodeRoute(code: Option<string>, mechanismOk: bool): (r: (int, Option<string>))
    ensures r.1.Some? <==> code.Some? && MatchesHexCode(code.value)
    ensures r.1.Some? ==> PythonInt(r.1.value) == Some(HexValue(code.value))
    ensures r.1.Some? ==> r.0 == (if mechanismOk then OK else SERVER_ERROR)
    ensures r.1.None? ==> r.0 == BAD_REQUEST
  {
    match CheckCustomCode(code)
    case MissingCode => (BAD_REQUEST, None)
    case BadFormat => (BAD_REQUEST, None)
    case Accepted(c) => (if mechanismOk then OK else SERVER_ERROR, Some(HexArgument(c)))
  }

  /** With the prefix, a code of hex digits goes through as "0x" and the code. */
  lemma CustomCodeAccepted(mechanismOk: bool)
    ensures CustomCodeRoute(Some("1A2b"), mechanismOk).1 == Some("0x1A2b")
  {
    assert MatchesHexCode("1A2b");
    assert "0x" + "1A2b" == "0x1A2b";
  }

  /** A code with another character, an empty code and a missing code are refused. */
  lemma CustomCodeRefused(mechanismOk: bool)
    ensures CustomCodeRoute(Some("1A2Z"), mechanismOk) == (BAD_REQUEST, None)
    ensures CustomCodeRoute(Some(""), mechanismOk) == (BAD_REQUEST, None)
    ensures CustomCodeRoute(None, mechanismOk) == (BAD_REQUEST, None)
  {
    assert !IsHexDigit("1A2Z"[3]);
  }

  /** The server process: its `config` record and its `autoFogState` record. */
  class FogServer {
    const config: FogConfig
    const autoFog: AutoFogState

    constructor ()
      ensures fresh(config) && fresh(autoFog)
      ensures config.Value() == DEFAULT_CONFIG && autoFog.Value() == INITIAL
    {
      config := new FogConfig();
      autoFog := new AutoFogState();
    }

    /** POST /api/fog/on */
    method FogOn(now: int, mechanismOk: bool) returns (status: int)
      modifies config
      ensures config.Value() == AfterCommand(old(config.Value()), "on", now, mechanismOk).0
      ensures status == (if mechanismOk then OK else SERVER_ERROR)
    {
      var outcome := config.ExecuteCommand("on", now, mechanismOk);
      status := CommandStatus(outcome);
    }

    /** POST /api/fog/off */
    method FogOff(now: int, mechanismOk: bool) returns (status: int)
      modifies config
      ensures config.Value() == AfterCommand(old(config.Value()), "off", now, mechanismOk).0
      ensures status == (if mechanismOk then OK else SERVER_ERROR)
    {
      var outcome := config.ExecuteCommand("off", now, mechanismOk);
      status := CommandStatus(outcome);
    }

    /** POST /api/fog/toggle: sends the command opposite to `fogActive`. */
    method Toggle(now: int, mechanismOk: bool) returns (status: int, newState: string)
      modifies config
      ensures newState == ToggleCommand(old(config.fogActive))
      ensures config.Value() == AfterCommand(old(config.Value()), newState, now, mechanismOk).0
      ensures status == (if mechanismOk then OK else SERVER_ERROR)
      ensures mechanismOk ==> config.fogActive == !old(config.fogActive)
    {
      newState := ToggleCommand(config.fogActive);
      var outcome := config.ExecuteCommand(newState, now, mechanismOk);
      status := CommandStatus(outcome);
    }

    /** POST /api/stats/reset */
    method ResetStats() returns (status: int)
      modifies config
      ensures config.Value() == AfterReset(old(config.Value()))
      ensures status == OK
    {
      config.ResetStats();
      status := OK;
    }

    /**
     * POST /api/auto-fog/enable: a request whose interval does not parse to
     * 2, 5 or 10 gets 400 and never reaches `startAutoFog`; otherwise the
     * answer is 200 unless `startAutoFog` throws, including when Auto-Fog
     * was already running and the start did nothing.
     */
    method EnableAutoFog(field: IntervalField, now: int, job: Handle, timeout: Handle, fault: Fault)
      returns (status: int)
      modifies autoFog
      ensures CheckInterval(field).None? ==> status == BAD_REQUEST && autoFog.Value() == old(autoFog.Value())
      ensures CheckInterval(field).Some? ==>
        var r := StartTransition(old(autoFog.Value()), CheckInterval(field).value, now, job, timeout, fault);
        autoFog.Value() == r.0 && status == (if r.1 then OK else SERVER_ERROR)
      ensures CheckInterval(field).Some? && !CanStart(old(autoFog.Value())) ==>
        status == OK && autoFog.Value() == old(autoFog.Value())
      ensures IsAllowedInterval(old(autoFog.interval)) ==> IsAllowedInterval(autoFog.interval)
    {
      var interval := CheckInterval(field);
      if interval.None? {
        return BAD_REQUEST;
      }
      var ok := autoFog.StartAutoFog(interval.value, now, job, timeout, fault);
      status := if ok then OK else SERVER_ERROR;
    }

    /** POST /api/auto-fog/disable */
    method DisableAutoFog() returns (status: int)
      modifies autoFog
      ensures autoFog.Value() == StopTransition(old(autoFog.Value()))
      ensures status == OK
    {
      autoFog.StopAutoFog();
      status := OK;
    }

    /**
     * The cron job's callback: `executeCommand('on', 'auto')`, whose failure
     * is caught and logged. It never touches the Auto-Fog record, so a failed
     * automatic actuation does not stop Auto-Fog.
     */
    method CronFires(now: int, mechanismOk: bool)
      modifies config
      ensures config.Value() == AfterCommand(old(config.Value()), "on", now, mechanismOk).0
      ensures autoFog.Value() == old(autoFog.Value())
    {
      var _ := config.ExecuteCommand("on", now, mechanismOk);
    }

    /** The one-hour timeout's callback: `stopAutoFog()`. */
    method CeilingFires()
      modifies autoFog
      ensures autoFog.Value() == StopTransition(old(autoFog.Value()))
      ensures config.Value() == old(config.Value())
    {
      autoFog.StopAutoFog();
    }
  }
}
