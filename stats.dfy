/**
 * The statistics record `config` of the fog server (server.js:51-57, 71) and
 * the three ways the server changes it: a successful manual or automatic
 * actuation (`executeCommand`, server.js:245-289), the statistics reset
 * (server.js:372-375) and the toggle route's choice of command (server.js:355).
 */
module Stats {
  import opened Wrappers
  import opened Validation

  /**
   * The fields of `config` that the server reads and writes. `lastActivated`
   * is the clock reading of the last successful "on", in milliseconds (the
   * source stores it as an ISO date string made from that reading).
   */
  datatype Config = Config(
    lastCommand: Option<string>,
    fogActive: bool,
    lastActivated: Option<int>,
    activationCount: int)

  /** The record `loadConfig` returns when there is no saved file. */
  const DEFAULT_CONFIG: Config := Config(None, false, None, 0)

  /**
   * The invariant the server keeps from the default record on: the count is
   * never negative, and there is a last activation exactly when the count
   * is positive.
   */
  predicate StatsInvariant(c: Config) {
    c.activationCount >= 0 && (c.activationCount == 0 <==> c.lastActivated.None?)
  }

  /** How a call of `executeCommand` ends. */
  datatype CommandOutcome =
    | InvalidCommand    // rejected before the subprocess is started
    | ActuationFailed   // the subprocess reported an error
    | Succeeded         // the subprocess finished and `config` was updated

  /**
   * `executeCommand(command)`: the new record and the outcome. `mechanismOk`
   * is whether the `sudo python3 fog-controller.py --command ...` subprocess
   * ends without error, and `now` the clock reading at that point. The
   * outcome of an invalid command does not depend on `mechanismOk`: the
   * subprocess is never started for it.
   */
  function AfterCommand(c: Config, command: string, now: int, mechanismOk: bool): (r: (Config, CommandOutcome))
    ensures !IsValidCommand(command) ==> r == (c, InvalidCommand)
    ensures r.1 == Succeeded <==> IsValidCommand(command) && mechanismOk
    ensures r.1 != Succeeded ==> r.0 == c
    ensures r.1 == Succeeded ==> r.0.lastCommand == Some(command) && r.0.fogActive == (command == "on")
    ensures r.1 == Succeeded && command == "on" ==>
      r.0.activationCount == c.activationCount + 1 && r.0.lastActivated == Some(now)
    ensures command == "off" ==>
      r.0.activationCount == c.activationCount && r.0.lastActivated == c.lastActivated
    ensures StatsInvariant(c) ==> StatsInvariant(r.0)
  {
    if !IsValidCommand(command) then (c, InvalidCommand)
    else if !mechanismOk then (c, ActuationFailed)
    else
      var c' := c.(lastCommand := Some(command));
      var c'' :=
        if command == "on" then
          c'.(fogActive := true, lastActivated := Some(now), activationCount := c'.activationCount + 1)
        else if command == "off" then c'.(fogActive := false)
        else c';
      (c'', Succeeded)
  }

  /** The statistics reset: the counters are cleared, the last command and the fog state stay. */
  function AfterReset(c: Config): (r: Config)
    ensures r.activationCount == 0 && r.lastActivated.None?
    ensures r.lastCommand == c.lastCommand && r.fogActive == c.fogActive
    ensures StatsInvariant(r)
  {
    c.(activationCount := 0, lastActivated := None)
  }

  /** The toggle route's command: `config.fogActive ? 'off' : 'on'`. */
  function ToggleCommand(fogActive: bool): (command: string)
    ensures IsValidCommand(command)
    ensures command == "on" <==> !fogActive
  {
    if fogActive then "off" else "on"
  }

  /** A toggle whose actuation succeeds flips the fog state and never meets an invalid command. */
  lemma ToggleFlips(c: Config, now: int, mechanismOk: bool)
    ensures AfterCommand(c, ToggleCommand(c.fogActive), now, mechanismOk).1 != InvalidCommand
    ensures mechanismOk ==> AfterCommand(c, ToggleCommand(c.fogActive), now, mechanismOk).0.fogActive == !c.fogActive
  {
  }

  // ---------------------------------------------------------------------------
  // Histories of updates
  // ---------------------------------------------------------------------------

  /** One change to `config`: an `executeCommand` call or a statistics reset. */
  datatype Update = Command(command: string, now: int, mechanismOk: bool) | Reset

  function ApplyUpdate(c: Config, u: Update): Config {
    match u
    case Command(command, now, ok) => AfterCommand(c, command, now, ok).0
    case Reset => AfterReset(c)
  }

  /** The record after a history of updates, the last update applied last. */
  function Replay(c: Config, us: seq<Update>): Config
    decreases |us|
  {
    if us == [] then c else ApplyUpdate(Replay(c, us[..|us| - 1]), us[|us| - 1])
  }

  /** Whether an update is an "on" that reached the machine. */
  predicate IsSuccessfulOn(u: Update) {
    u.Command? && u.command == "on" && u.mechanismOk
  }

  /** The number of successful "on" updates since the last reset (or since the start). */
  function OnsSinceReset(us: seq<Update>): nat
    decreases |us|
  {
    if us == [] then 0
    else if us[|us| - 1].Reset? then 0
    else OnsSinceReset(us[..|us| - 1]) + (if IsSuccessfulOn(us[|us| - 1]) then 1 else 0)
  }

  /** The last command that reached the machine, if any. */
  function LastSuccessfulCommand(us: seq<Update>): Option<string>
    decreases |us|
  {
    if us == [] then None
    else
      var u := us[|us| - 1];
      if u.Command? && IsValidCommand(u.command) && u.mechanismOk then Some(u.command)
      else LastSuccessfulCommand(us[..|us| - 1])
  }

  /**
   * Starting from the default record, `activationCount` is exactly the
   * number of successful "on" actuations since the last reset, the fog is
   * active exactly when the last successful command was "on", and
   * `lastCommand` is that command.
   */
  lemma {:induction false} ReplayFromDefault(us: seq<Update>)
    ensures Replay(DEFAULT_CONFIG, us).activationCount == OnsSinceReset(us)
    ensures Replay(DEFAULT_CONFIG, us).lastCommand == LastSuccessfulCommand(us)
    ensures Replay(DEFAULT_CONFIG, us).fogActive <==> LastSuccessfulCommand(us) == Some("on")
    ensures StatsInvariant(Replay(DEFAULT_CONFIG, us))
    decreases |us|
  {
    if us != [] {
      ReplayFromDefault(us[..|us| - 1]);
    }
  }

  /**
   * The record `config` itself, which the server mutates field by field.
   */
  class FogConfig {
    var lastCommand: Option<string>
    var fogActive: bool
    var lastActivated: Option<int>
    var activationCount: int

    /** The record as a value. */
    function Value(): Config
      reads this
    {
      Config(lastCommand, fogActive, lastActivated, activationCount)
    }

    /** `loadConfig` when no file exists. */
    constructor ()
      ensures Value() == DEFAULT_CONFIG
    {
      lastCommand := None;
      fogActive := false;
      lastActivated := None;
      activationCount := 0;
    }

    /** `executeCommand(command)`, whose success branch writes the fields one at a time. */
    method ExecuteCommand(command: string, now: int, mechanismOk: bool) returns (outcome: CommandOutcome)
      modifies this
      ensures (Value(), outcome) == AfterCommand(old(Value()), command, now, mechanismOk)
    {
      if !IsValidCommand(command) {
        return InvalidCommand;
      }
      if !mechanismOk {
        return ActuationFailed;
      }
      lastCommand := Some(command);
      if command == "on" {
        fogActive := true;
        lastActivated := Some(now);
        activationCount := activationCount + 1;
      } else if command == "off" {
        fogActive := false;
      }
      outcome := Succeeded;
    }

    /** The statistics reset route's two assignments. */
    method ResetStats()
      modifies this
      ensures Value() == AfterReset(old(Value()))
    {
      activationCount := 0;
      lastActivated := None;
    }
  }
}
