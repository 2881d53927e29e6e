/**
 * The transmitter script's entry point (fog-controller.py:112-148): the
 * parsed command line picks ON, OFF or a custom code, the controller sends
 * it, and the chip is closed on the way out whenever a controller exists.
 */
module FogCli {
  import opened Wrappers
  import opened Rf433
  import opened CodeArgument

  /** The choices of `--command`. */
  datatype CliCommand = On | Off | Custom

  /**
   * The command line after argparse: `--code` still as its text, which its
   * converter `int(text, 0)` has yet to read; `--gpio` and `--repeats` as
   * integers.
   */
  datatype Args = Args(command: CliCommand, code: Option<string>, gpio: int, repeats: int)

  const EXIT_OK: int := 0
  const EXIT_FAILURE: int := 1
  /** argparse's exit status when an option's converter raises. */
  const EXIT_USAGE: int := 2

  /** Whether argparse gets past `--code`: it is absent, or `int(text, 0)` reads it. */
  predicate CodeConverts(args: Args) {
    args.code.None? || PythonInt(args.code.value).Some?
  }

  /**
   * `main()`. `chip` is what opening the chip and claiming the pin give:
   * `None` when either raises, otherwise the chip's handle. `pin` is every
   * write and sleep on the pin; `cleanedUp` is whether the chip was closed.
   */
  method RunCommand(args: Args, chip: Option<int>) returns (status: int, pin: seq<Event>, cleanedUp: bool)
    ensures !CodeConverts(args) ==> status == EXIT_USAGE && pin == [] && !cleanedUp
    ensures CodeConverts(args) && chip.None? ==> status == EXIT_FAILURE && pin == [] && !cleanedUp
    ensures CodeConverts(args) && chip.Some? ==> cleanedUp
    ensures CodeConverts(args) && chip.Some? && args.command == On ==>
      status == EXIT_OK && pin == [Write(Low)] + Transmission(CODE_ON, DEFAULT_LENGTH, args.repeats)
    ensures CodeConverts(args) && chip.Some? && args.command == Off ==>
      status == EXIT_OK && pin == [Write(Low)] + Transmission(CODE_OFF, DEFAULT_LENGTH, args.repeats)
    ensures CodeConverts(args) && chip.Some? && args.command == Custom && args.code.None? ==>
      status == EXIT_FAILURE && pin == [Write(Low)]
    ensures CodeConverts(args) && chip.Some? && args.command == Custom && args.code.Some? ==>
      status == EXIT_OK &&
      pin == [Write(Low)] + Transmission(PythonInt(args.code.value).value, DEFAULT_LENGTH, args.repeats)
  {
    if !CodeConverts(args) {
      return EXIT_USAGE, [], false;
    }
    if chip.None? {
      return EXIT_FAILURE, [], false;
    }
    var controller := new Rf433Controller(args.gpio, chip.value);
    controller.repeatTransmit := args.repeats;
    var success := false;
    match args.command {
      case On =>
        success := controller.TurnOn();
      case Off =>
        success := controller.TurnOff();
      case Custom =>
        if args.code.Some? {
          success := controller.SendCustomCode(PythonInt(args.code.value).value);
        }
    }
    status := if success then EXIT_OK else EXIT_FAILURE;
    controller.Cleanup();
    pin := controller.trace;
    cleanedUp := controller.closed;
  }
}
