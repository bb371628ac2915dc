/**
 * The decision skeleton of ravedude's `main` (ravedude/src/main.rs): dump a
 * board's configuration, or check avrdude, resolve the board, wait for a
 * reset, choose the port, flash the binary and open the console.
 */
module RavedudeMain {
  import opened Common
  import opened BoardConfigs
  import opened RavedudeConfigs
  import opened Host

  /** `MIN_VERSION_AVRDUDE`: avrdude 6.3 or newer is required. */
  const MinMajor := 6
  const MinMinor := 3

  const NoPortContext := "no matching serial port found, use -P or set RAVEDUDE_PORT in your environment"
  const BaudrateNeeded := "-b/--baudrate is needed for the serial console"
  const NeedsUsbSerial := "console can only be opened for devices with USB-to-Serial"

  /** `board::get_board`, which is not part of this model: a board name, or none, to a board. */
  type BoardLookup = Option<string> -> Result<ResolvedBoard>

  /**
   * The positional shift: when only one positional argument is given it is
   * the binary, not the board.
   */
  function ShiftPositional(args: Args): (r: Args)
    ensures args.board.Some? && args.bin.None? ==> r.bin == args.board && r.board.None?
    ensures args.board.None? || args.bin.Some? ==> r == args
    ensures r.(board := args.board, bin := args.bin) == args
    ensures r.board.Some? ==> r.bin.Some?
  {
    if args.board.Some? && args.bin.None? then args.(bin := args.board, board := None) else args
  }

  /** `dump_config`: resolve the named board and print it. */
  function DumpConfig(name: Option<string>, getBoard: BoardLookup, env: Environment): (e: Execution)
    ensures getBoard(name).Err? ==> e == Execution(Fail(getBoard(name).msg), [])
    ensures getBoard(name).Ok? ==> e.trace == [PrintConfig(getBoard(name).value)]
    ensures getBoard(name).Ok? ==> e.outcome == env.respond(PrintConfig(getBoard(name).value))
  {
    match getBoard(name)
    case Err(m) => Execution(Fail(m), [])
    case Ok(board) =>
      var dump := PrintConfig(board);
      Execution(env.respond(dump), [dump])
  }

  /**
   * The reset step: a positive delay sleeps, a zero delay assumes the board
   * was reset, and without a delay the user is prompted only when the board
   * cannot reset itself.
   */
  function ResetSteps(delay: Option<u64>, board: ResolvedBoard): (r: seq<Action>)
    ensures |r| <= 1
    ensures delay == Some(0) ==> r == []
    ensures delay.Some? && delay.value > 0 ==> r == [Sleep(delay.value)]
    ensures delay.None? ==> (r != [] <==> board.resetMessage.Some?)
    ensures delay.None? && board.resetMessage.Some? ==> r == [PromptReset(board.resetMessage.value)]
  {
    match delay
    case Some(ms) => if ms > 0 then [Sleep(ms)] else []
    case None => if board.resetMessage.Some? then [PromptReset(board.resetMessage.value)] else []
  }

  /**
   * The port: the one given on the command line, else the guessed one; a
   * failed guess is an error with a hint, no USB information means no port.
   */
  function ChoosePort(given: Option<Path>, board: ResolvedBoard, ports: seq<SerialPortInfo>)
    : (r: Result<Option<Path>>)
    ensures given.Some? ==> r == Ok(given)
    ensures given.None? ==>
              match Guess(board.usbInfo, ports)
              case None => r == Ok(None)
              case Some(Ok(p)) => r == Ok(Some(p))
              case Some(Err(e)) => r == Err(WithContext(NoPortContext, e))
  {
    if given.Some? then Ok(given)
    else
      match Guess(board.usbInfo, ports)
      case None => Ok(None)
      case Some(Ok(p)) => Ok(Some(p))
      case Some(Err(e)) => Err(WithContext(NoPortContext, e))
  }

  /** The steps after flashing: the console, or a hint when a port but no binary was given. */
  function ConsoleStep(args: Args, port: Option<Path>, env: Environment): (e: Execution)
    ensures args.openConsole && args.baudrate.None? ==> e == Execution(Fail(BaudrateNeeded), [])
    ensures args.openConsole && args.baudrate.Some? && port.None? ==> e == Execution(Fail(NeedsUsbSerial), [])
    ensures forall a | a in e.trace :: a.OpenConsole? ==>
              args.openConsole && port.Some? && args.baudrate.Some? &&
              a == OpenConsole(port.value, args.baudrate.value)
    ensures e.outcome.Fail? ==> args.openConsole
    ensures args.openConsole && args.baudrate.Some? && port.Some? ==>
              e == Execution(env.respond(OpenConsole(port.value, args.baudrate.value)),
                             [OpenConsole(port.value, args.baudrate.value)])
    ensures !args.openConsole ==>
              e == Execution(Pass, if args.bin.None? && port.Some? then [SuggestConsole] else [])
  {
    if args.openConsole then
      if args.baudrate.None? then Execution(Fail(BaudrateNeeded), [])
      else if port.None? then Execution(Fail(NeedsUsbSerial), [])
      else
        var open := OpenConsole(port.value, args.baudrate.value);
        Execution(env.respond(open), [open])
    else if args.bin.None? && port.Some? then Execution(Pass, [SuggestConsole])
    else Execution(Pass, [])
  }

  /** Everything after the port is known: flash when a binary was given, then the console step. */
  function FlashAndConsole(args: Args, board: ResolvedBoard, port: Option<Path>, env: Environment): (e: Execution)
    ensures args.bin.None? ==> e == ConsoleStep(args, port, env)
    ensures args.bin.Some? ==>
              var flash := RunAvrdude(board.avrdude, port, args.bin.value, args.debugAvrdude);
              (env.respond(flash).Fail? ==> e == Execution(env.respond(flash), [flash])) &&
              (env.respond(flash).Pass? ==>
                 e == Execution(ConsoleStep(args, port, env).outcome, [flash] + ConsoleStep(args, port, env).trace))
  {
    if args.bin.None? then ConsoleStep(args, port, env)
    else
      var flash := RunAvrdude(board.avrdude, port, args.bin.value, args.debugAvrdude);
      if env.respond(flash).Fail? then Execution(env.respond(flash), [flash])
      else
        var console := ConsoleStep(args, port, env);
        Execution(console.outcome, [flash] + console.trace)
  }

  /** Whether the reset step lets the run go on: no prompt, or one the user answered. */
  predicate ResetPasses(reset: seq<Action>, env: Environment) {
    reset == [] || !Fallible(reset[0]) || env.respond(reset[0]).Pass?
  }

  /** Everything after the board is resolved: reset, port, flash and console. */
  function WithBoard(args: Args, board: ResolvedBoard, env: Environment): (e: Execution)
    ensures !ResetPasses(ResetSteps(args.resetDelay, board), env) ==>
              e == Execution(env.respond(ResetSteps(args.resetDelay, board)[0]), ResetSteps(args.resetDelay, board))
    ensures ResetPasses(ResetSteps(args.resetDelay, board), env) && ChoosePort(args.port, board, env.ports).Err? ==>
              e == Execution(Fail(ChoosePort(args.port, board, env.ports).msg), ResetSteps(args.resetDelay, board))
    ensures ResetPasses(ResetSteps(args.resetDelay, board), env) && ChoosePort(args.port, board, env.ports).Ok? ==>
              var rest := FlashAndConsole(args, board, ChoosePort(args.port, board, env.ports).value, env);
              e == Execution(rest.outcome, ResetSteps(args.resetDelay, board) + rest.trace)
  {
    var reset := ResetSteps(args.resetDelay, board);
    if !ResetPasses(reset, env) then Execution(env.respond(reset[0]), reset)
    else
      match ChoosePort(args.port, board, env.ports)
      case Err(m) => Execution(Fail(m), reset)
      case Ok(port) =>
        var rest := FlashAndConsole(args, board, port, env);
        Execution(rest.outcome, reset + rest.trace)
  }

  /** `ravedude()`: the whole decision sequence of one invocation. */
  function Ravedude(args: Args, getBoard: BoardLookup, env: Environment): (e: Execution)
    ensures args.dumpConfig ==> e == DumpConfig(args.board, getBoard, env)
    ensures !args.dumpConfig ==> e.trace != [] && e.trace[0] == CheckAvrdudeVersion(MinMajor, MinMinor)
    ensures !args.dumpConfig && env.respond(CheckAvrdudeVersion(MinMajor, MinMinor)).Fail? ==>
              e == Execution(env.respond(CheckAvrdudeVersion(MinMajor, MinMinor)),
                             [CheckAvrdudeVersion(MinMajor, MinMinor)])
    ensures !args.dumpConfig && env.respond(CheckAvrdudeVersion(MinMajor, MinMinor)).Pass? &&
            getBoard(ShiftPositional(args).board).Err? ==>
              e == Execution(Fail(getBoard(ShiftPositional(args).board).msg), [CheckAvrdudeVersion(MinMajor, MinMinor)])
    ensures !args.dumpConfig && env.respond(CheckAvrdudeVersion(MinMajor, MinMinor)).Pass? &&
            getBoard(ShiftPositional(args).board).Ok? ==>
              var rest := WithBoard(ShiftPositional(args), getBoard(ShiftPositional(args).board).value, env);
              e == Execution(rest.outcome, [CheckAvrdudeVersion(MinMajor, MinMinor)] + rest.trace)
  {
    if args.dumpConfig then DumpConfig(args.board, getBoard, env)
    else
      var args := ShiftPositional(args);
      var version := CheckAvrdudeVersion(MinMajor, MinMinor);
      if env.respond(version).Fail? then Execution(env.respond(version), [version])
      else
        match getBoard(args.board)
        case Err(m) => Execution(Fail(m), [version])
        case Ok(board) =>
          var rest := WithBoard(args, board, env);
          Execution(rest.outcome, [version] + rest.trace)
  }

  /**
   * The run that gets past the version check, the board, the reset and the
   * port choice: the binary, when one remains after the shift, is flashed
   * with the board's avrdude options on the chosen port; after a successful
   * flash the console step follows, so with -c, -b and a port the console
   * opens there and its answer is the run's result.
   */
  lemma RavedudeFlashesThenConsole(args: Args, getBoard: BoardLookup, env: Environment)
    requires !args.dumpConfig
    requires env.respond(CheckAvrdudeVersion(MinMajor, MinMinor)).Pass?
    requires getBoard(ShiftPositional(args).board).Ok?
    requires ResetPasses(ResetSteps(args.resetDelay, getBoard(ShiftPositional(args).board).value), env)
    requires ChoosePort(args.port, getBoard(ShiftPositional(args).board).value, env.ports).Ok?
    ensures var a := ShiftPositional(args);
            var board := getBoard(a.board).value;
            var pre := [CheckAvrdudeVersion(MinMajor, MinMinor)] + ResetSteps(args.resetDelay, board);
            var port := ChoosePort(args.port, board, env.ports).value;
            var console := ConsoleStep(a, port, env);
            (a.bin.None? ==> Ravedude(args, getBoard, env) == Execution(console.outcome, pre + console.trace)) &&
            (a.bin.Some? ==>
               var flash := RunAvrdude(board.avrdude, port, a.bin.value, args.debugAvrdude);
               (env.respond(flash).Pass? ==>
                  Ravedude(args, getBoard, env) == Execution(console.outcome, pre + [flash] + console.trace)) &&
               (env.respond(flash).Fail? ==>
                  Ravedude(args, getBoard, env) == Execution(env.respond(flash), pre + [flash])))
  {
    var a := ShiftPositional(args);
    var board := getBoard(a.board).value;
    var version := CheckAvrdudeVersion(MinMajor, MinMinor);
    var reset := ResetSteps(args.resetDelay, board);
    var port := ChoosePort(args.port, board, env.ports).value;
    var console := ConsoleStep(a, port, env);
    if a.bin.Some? {
      var flash := RunAvrdude(board.avrdude, port, a.bin.value, args.debugAvrdude);
      assert [version] + (reset + ([flash] + console.trace)) == [version] + reset + [flash] + console.trace;
      assert [version] + (reset + [flash]) == [version] + reset + [flash];
    } else {
      assert [version] + (reset + console.trace) == [version] + reset + console.trace;
    }
  }

  /**
   * A requested console opens: with -c, -b and a port, once the binary (if
   * any) was flashed successfully, the run ends by opening the console on
   * that port at that baudrate and its answer is the run's result.
   */
  lemma RavedudeOpensRequestedConsole(args: Args, getBoard: BoardLookup, env: Environment)
    requires !args.dumpConfig && args.openConsole && args.baudrate.Some?
    requires env.respond(CheckAvrdudeVersion(MinMajor, MinMinor)).Pass?
    requires getBoard(ShiftPositional(args).board).Ok?
    requires ResetPasses(ResetSteps(args.resetDelay, getBoard(ShiftPositional(args).board).value), env)
    requires ChoosePort(args.port, getBoard(ShiftPositional(args).board).value, env.ports).Ok?
    requires ChoosePort(args.port, getBoard(ShiftPositional(args).board).value, env.ports).value.Some?
    requires var a := ShiftPositional(args);
             var board := getBoard(a.board).value;
             a.bin.Some? ==>
               env.respond(RunAvrdude(board.avrdude, ChoosePort(args.port, board, env.ports).value,
                                      a.bin.value, args.debugAvrdude)).Pass?
    ensures var port := ChoosePort(args.port, getBoard(ShiftPositional(args).board).value, env.ports).value.value;
            var open := OpenConsole(port, args.baudrate.value);
            var e := Ravedude(args, getBoard, env);
            e.outcome == env.respond(open) && e.trace[|e.trace| - 1] == open
  {
    RavedudeFlashesThenConsole(args, getBoard, env);
  }

  /** `--dump-config` prints at most the board: no version check, no flashing, no console. */
  lemma DumpConfigOnly(args: Args, getBoard: BoardLookup, env: Environment)
    requires args.dumpConfig
    ensures var t := Ravedude(args, getBoard, env).trace;
            |t| <= 1 && forall a | a in t :: a.PrintConfig?
  {
  }

  /** Flashing happens only when a binary was given, after the shift, and only that binary is flashed. */
  lemma FlashOnlyWithBinary(args: Args, getBoard: BoardLookup, env: Environment, i: nat)
    requires !args.dumpConfig
    requires i < |Ravedude(args, getBoard, env).trace|
    requires Ravedude(args, getBoard, env).trace[i].RunAvrdude?
    ensures ShiftPositional(args).bin.Some?
    ensures Ravedude(args, getBoard, env).trace[i].binary == ShiftPositional(args).bin.value
  {
  }

  /** An explicit port is used as given: the serial ports are never enumerated. */
  lemma ExplicitPortWins(args: Args, getBoard: BoardLookup, env: Environment, ports: seq<SerialPortInfo>)
    requires ShiftPositional(args).port.Some?
    ensures Ravedude(args, getBoard, env.(ports := ports)) == Ravedude(args, getBoard, env)
  {
  }

  /**
   * Without an explicit port a failed guess is fatal after the reset step and
   * before any flashing, with the hint as context.
   */
  lemma GuessFailureIsFatal(args: Args, getBoard: BoardLookup, env: Environment)
    requires !args.dumpConfig && args.port.None?
    requires env.respond(CheckAvrdudeVersion(MinMajor, MinMinor)).Pass?
    requires getBoard(ShiftPositional(args).board).Ok?
    requires var board := getBoard(ShiftPositional(args).board).value;
             ResetPasses(ResetSteps(args.resetDelay, board), env) &&
             Guess(board.usbInfo, env.ports).Some? && Guess(board.usbInfo, env.ports).value.Err?
    ensures var board := getBoard(ShiftPositional(args).board).value;
            Ravedude(args, getBoard, env) ==
            Execution(Fail(WithContext(NoPortContext, Guess(board.usbInfo, env.ports).value.msg)),
                      [CheckAvrdudeVersion(MinMajor, MinMinor)] + ResetSteps(args.resetDelay, board))
  {
  }

  /** Asking for a console without a baudrate always fails and opens nothing, whatever the port. */
  lemma ConsoleNeedsBaudrate(args: Args, getBoard: BoardLookup, env: Environment)
    requires !args.dumpConfig && args.openConsole && args.baudrate.None?
    ensures Ravedude(args, getBoard, env).outcome.Fail?
    ensures forall a | a in Ravedude(args, getBoard, env).trace :: !a.OpenConsole?
  {
    var a := ShiftPositional(args);
    var version := CheckAvrdudeVersion(MinMajor, MinMinor);
    if env.respond(version).Pass? && getBoard(a.board).Ok? {
      var board := getBoard(a.board).value;
      var reset := ResetSteps(a.resetDelay, board);
      var port := ChoosePort(a.port, board, env.ports);
      if port.Ok? {
        var rest := FlashAndConsole(a, board, port.value, env);
        assert forall x | x in rest.trace :: !x.OpenConsole?;
        assert forall x | x in reset :: !x.OpenConsole?;
      }
    }
  }

  /** A console is opened only on the chosen port at the command-line baudrate, after a successful flash. */
  lemma ConsoleOnChosenPort(args: Args, getBoard: BoardLookup, env: Environment, i: nat)
    requires !args.dumpConfig
    requires i < |Ravedude(args, getBoard, env).trace|
    requires Ravedude(args, getBoard, env).trace[i].OpenConsole?
    ensures var a := ShiftPositional(args);
            var board := getBoard(a.board).value;
            args.openConsole && args.baudrate.Some? &&
            Ravedude(args, getBoard, env).trace[i] ==
              OpenConsole(ChoosePort(a.port, board, env.ports).value.value, args.baudrate.value)
    ensures forall j | 0 <= j < i :: Fallible(Ravedude(args, getBoard, env).trace[j]) ==>
              env.respond(Ravedude(args, getBoard, env).trace[j]).Pass?
  {
    RavedudeStopsAtFailure(args, getBoard, env);
    var t := Ravedude(args, getBoard, env).trace;
    var a := ShiftPositional(args);
    var board := getBoard(a.board).value;
    var reset := ResetSteps(a.resetDelay, board);
    var port := ChoosePort(a.port, board, env.ports).value;
    var rest := FlashAndConsole(a, board, port, env);
    assert t == [CheckAvrdudeVersion(MinMajor, MinMinor)] + reset + rest.trace;
    assert t[i] in rest.trace by {
      assert !t[i].CheckAvrdudeVersion? && t[i] !in reset;
      assert t[i] in t;
    }
    var console := ConsoleStep(a, port, env);
    assert t[i] in console.trace;
  }

  /** ravedude stops at the first failed action and reports that failure. */
  lemma RavedudeStopsAtFailure(args: Args, getBoard: BoardLookup, env: Environment)
    ensures StopsAtFailure(Ravedude(args, getBoard, env).trace, env)
    ensures ReportsFailure(Ravedude(args, getBoard, env).outcome, Ravedude(args, getBoard, env).trace, env)
  {
    if !args.dumpConfig {
      var a := ShiftPositional(args);
      var version := CheckAvrdudeVersion(MinMajor, MinMinor);
      if env.respond(version).Pass? && getBoard(a.board).Ok? {
        var board := getBoard(a.board).value;
        WithBoardStopsAtFailure(a, board, env);
        StopsAtFailureAppend([version], WithBoard(a, board, env).trace, env);
      }
    }
  }

  lemma WithBoardStopsAtFailure(args: Args, board: ResolvedBoard, env: Environment)
    ensures StopsAtFailure(WithBoard(args, board, env).trace, env)
    ensures ReportsFailure(WithBoard(args, board, env).outcome, WithBoard(args, board, env).trace, env)
  {
    var reset := ResetSteps(args.resetDelay, board);
    if ResetPasses(reset, env) {
      var port := ChoosePort(args.port, board, env.ports);
      if port.Ok? {
        var rest := FlashAndConsole(args, board, port.value, env);
        FlashAndConsoleStopsAtFailure(args, board, port.value, env);
        StopsAtFailureAppend(reset, rest.trace, env);
      }
    }
  }

  lemma FlashAndConsoleStopsAtFailure(args: Args, board: ResolvedBoard, port: Option<Path>, env: Environment)
    ensures StopsAtFailure(FlashAndConsole(args, board, port, env).trace, env)
    ensures ReportsFailure(FlashAndConsole(args, board, port, env).outcome,
                           FlashAndConsole(args, board, port, env).trace, env)
  {
    if args.bin.Some? {
      var flash := RunAvrdude(board.avrdude, port, args.bin.value, args.debugAvrdude);
      if env.respond(flash).Pass? {
        StopsAtFailureAppend([flash], ConsoleStep(args, port, env).trace, env);
      }
    }
  }

  /** The console step on the machine. */
  method ConsoleOn(args: Args, port: Option<Path>, m: Machine) returns (r: Outcome)
    modifies m
    ensures r == ConsoleStep(args, port, m.env).outcome
    ensures m.trace == old(m.trace) + ConsoleStep(args, port, m.env).trace
  {
    if args.openConsole {
      if args.baudrate.None? {
        return Fail(BaudrateNeeded);
      }
      if port.None? {
        return Fail(NeedsUsbSerial);
      }
      r := m.Perform(OpenConsole(port.value, args.baudrate.value));
    } else {
      if args.bin.None? && port.Some? {
        var _ := m.Perform(SuggestConsole);
      }
      r := Pass;
    }
  }

  /** Flashing, when a binary was given, then the console step, on the machine. */
  method FlashAndConsoleOn(args: Args, board: ResolvedBoard, port: Option<Path>, m: Machine) returns (r: Outcome)
    modifies m
    ensures r == FlashAndConsole(args, board, port, m.env).outcome
    ensures m.trace == old(m.trace) + FlashAndConsole(args, board, port, m.env).trace
  {
    if args.bin.Some? {
      r := m.Perform(RunAvrdude(board.avrdude, port, args.bin.value, args.debugAvrdude));
      if r.Fail? {
        return;
      }
    }
    r := ConsoleOn(args, port, m);
  }

  /** The steps after the board is resolved, on the machine. */
  method WithBoardOn(args: Args, board: ResolvedBoard, m: Machine) returns (r: Outcome)
    modifies m
    ensures r == WithBoard(args, board, m.env).outcome
    ensures m.trace == old(m.trace) + WithBoard(args, board, m.env).trace
  {
    if args.resetDelay.Some? {
      if args.resetDelay.value > 0 {
        var _ := m.Perform(Sleep(args.resetDelay.value));
      }
    } else if board.resetMessage.Some? {
      r := m.Perform(PromptReset(board.resetMessage.value));
      if r.Fail? {
        return;
      }
    }

    var port: Option<Path>;
    if args.port.Some? {
      port := args.port;
    } else {
      match Guess(board.usbInfo, m.env.ports) {
        case None =>
          port := None;
        case Some(Ok(p)) =>
          port := Some(p);
        case Some(Err(e)) =>
          return Fail(WithContext(NoPortContext, e));
      }
    }
    r := FlashAndConsoleOn(args, board, port, m);
  }

  /** Runs ravedude's decision sequence on the machine. */
  method RunRavedude(args: Args, getBoard: BoardLookup, m: Machine) returns (r: Outcome)
    modifies m
    ensures r == Ravedude(args, getBoard, m.env).outcome
    ensures m.trace == old(m.trace) + Ravedude(args, getBoard, m.env).trace
  {
    var args := args;
    if args.dumpConfig {
      var board := getBoard(args.board);
      if board.Err? {
        return Fail(board.msg);
      }
      r := m.Perform(PrintConfig(board.value));
      return;
    }
    if args.board.Some? && args.bin.None? {
      args := args.(bin := args.board, board := None);
    }
    r := m.Perform(CheckAvrdudeVersion(MinMajor, MinMinor));
    if r.Fail? {
      return;
    }
    var resolved := getBoard(args.board);
    if resolved.Err? {
      return Fail(resolved.msg);
    }
    r := WithBoardOn(args, resolved.value, m);
  }
}
