/**
 * The host side of ravedude and cargo-avr as the model sees it: what the
 * machine offers (serial ports, the board catalog, binaries on disk) and the
 * actions the programs perform on it (running avrdude, opening a console,
 * sleeping, prompting), each answered by the host with success or failure.
 */
module Host {
  import opened Common
  import opened BoardConfigs
  import opened BoardCatalog
  import AvrLibc

  /**
   * The board value that ravedude's `main` works with (`board::get_board`
   * in a ravedude version whose board module is not part of this model): a
   * name, an optional reset instruction, the avrdude options and the USB
   * signatures used for guessing the port.
   */
  datatype ResolvedBoard = ResolvedBoard(
    name: string,
    resetMessage: Option<string>,
    avrdude: BoardAvrdudeOptions,
    usbInfo: Option<BoardUSBInfo>)

  /** An action with an effect outside the program. */
  datatype Action =
    | CheckAvrdudeVersion(major: nat, minor: nat)   // `Avrdude::require_min_ver`
    | RunAvrdude(opts: BoardAvrdudeOptions, port: Option<Path>, binary: Path, debug: bool)
                                                    // `Avrdude::run` followed by `wait`
    | OpenConsole(device: Path, baudrate: u32)      // `console::open`
    | Sleep(ms: u64)                                // `thread::sleep`
    | PromptReset(message: string)                 // show the reset instruction, read a line
    | PrintConfig(board: ResolvedBoard)             // `--dump-config` output
    | SuggestConsole                                // the "-c/--open-console" warning

  /** What a run of a command did: its result and the actions it performed, in order. */
  datatype Execution = Execution(outcome: Outcome, trace: seq<Action>)

  /** Actions whose failure the programs propagate; the others cannot fail. */
  predicate Fallible(a: Action) {
    !(a.Sleep? || a.SuggestConsole?)
  }

  /**
   * What the host offers: the enumerated serial ports, the built-in board
   * catalog, the ELF view of each binary path, and the host's answer to each
   * action.
   */
  datatype Environment = Environment(
    ports: seq<SerialPortInfo>,
    catalog: CatalogSource,
    binaries: Path -> AvrLibc.ElfView,
    respond: Action -> Outcome)

  /**
   * Every fallible action except possibly the last one succeeded: the
   * programs never go on after an action that failed.
   */
  predicate StopsAtFailure(trace: seq<Action>, env: Environment) {
    forall i :: 0 <= i < |trace| - 1 && Fallible(trace[i]) ==> env.respond(trace[i]).Pass?
  }

  /** The outcome of a run agrees with its trace: a failed last action is the run's failure. */
  predicate ReportsFailure(outcome: Outcome, trace: seq<Action>, env: Environment) {
    |trace| > 0 && Fallible(trace[|trace| - 1]) && env.respond(trace[|trace| - 1]).Fail? ==>
      outcome == env.respond(trace[|trace| - 1])
  }

  /** Appending a successful fallible action, or any infallible one, keeps `StopsAtFailure`. */
  lemma StopsAtFailureAppend(trace: seq<Action>, more: seq<Action>, env: Environment)
    requires StopsAtFailure(trace, env) && StopsAtFailure(more, env)
    requires |trace| > 0 ==> !Fallible(trace[|trace| - 1]) || env.respond(trace[|trace| - 1]).Pass?
    ensures StopsAtFailure(trace + more, env)
  {
    forall i | 0 <= i < |trace + more| - 1 && Fallible((trace + more)[i])
      ensures env.respond((trace + more)[i]).Pass?
    {
      if i >= |trace| {
        assert (trace + more)[i] == more[i - |trace|];
      }
    }
  }

  /** The machine the programs run on: its environment and the actions performed so far. */
  class Machine {
    const env: Environment
    var trace: seq<Action>

    constructor (env: Environment)
      ensures this.env == env && trace == []
    {
      this.env := env;
      trace := [];
    }

    /** Performs one action and reports the host's answer. */
    method Perform(a: Action) returns (r: Outcome)
      modifies this
      ensures trace == old(trace) + [a]
      ensures r == env.respond(a)
    {
      trace := trace + [a];
      r := env.respond(a);
    }
  }
}
