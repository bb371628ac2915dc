/**
 * `cargo avr run board` and `cargo avr run chip` (cargo-avr/src/run/board.rs,
 * cargo-avr/src/run/chip.rs) with the flashing step they share
 * (`flash_binary`, cargo-avr/src/util/avrdude.rs): resolve the programmer,
 * flash, merge the console options with the programmer's, and attach.
 */
module Run {
  import opened Common
  import opened BoardCatalog
  import opened Options
  import opened Host
  import opened Console
  import AvrLibc

  /**
   * `flash_binary`: derive avrdude's options from the binary, then run
   * avrdude once (with its command line shown) and wait for it.
   */
  function Flash(p: ProgrammerOptions, binary: Path, env: Environment): (e: Execution)
    ensures IntoAvrdudeOptions(p, env.binaries(binary)).Err? <==> e.trace == []
    ensures IntoAvrdudeOptions(p, env.binaries(binary)).Err? ==>
              e.outcome == Fail(IntoAvrdudeOptions(p, env.binaries(binary)).msg)
    ensures IntoAvrdudeOptions(p, env.binaries(binary)).Ok? ==>
              var (a, port) := IntoAvrdudeOptions(p, env.binaries(binary)).value;
              e.trace == [RunAvrdude(a, port, binary, true)] && e.outcome == env.respond(e.trace[0])
    ensures StopsAtFailure(e.trace, env) && ReportsFailure(e.outcome, e.trace, env)
  {
    match IntoAvrdudeOptions(p, env.binaries(binary))
    case Err(m) => Execution(Fail(m), [])
    case Ok((a, port)) =>
      var run := RunAvrdude(a, port, binary, true);
      Execution(env.respond(run), [run])
  }

  /** The dispatch on the attach protocol: nothing to do, or a serial console. */
  function Dispatch(attach: AttachOptions, env: Environment): (e: Execution)
    ensures attach.protocol == NoConsole ==> e == Execution(Pass, [])
    ensures attach.protocol == Serial ==> e == Attach(attach.serialOpts, env)
  {
    match attach.protocol
    case NoConsole => Execution(Pass, [])
    case Serial => Attach(attach.serialOpts, env)
  }

  /** Whether the flashing step of a run with these programmer options succeeds. */
  predicate FlashSucceeds(p: ProgrammerOptions, binary: Path, env: Environment) {
    Flash(p, binary, env).outcome.Pass?
  }

  /** The console options after flashing: the user's, completed from the programmer's. */
  function MergedAttach(attach: AttachOptions, p: ProgrammerOptions): (r: AttachOptions)
    ensures r.protocol == attach.protocol
    ensures r.serialOpts.port == attach.serialOpts.port.Or(p.port)
    ensures r.serialOpts.baudrate == attach.serialOpts.baudrate.Or(p.baudrate)
  {
    MergeAttach(attach, IntoAttachOptions(p))
  }

  /**
   * `run::chip::Command::run`: flash with the given programmer options, then
   * dispatch. A failed flash, whether deriving avrdude's options or running
   * it, is the command's result and nothing follows it.
   */
  function RunChip(p: ProgrammerOptions, attach: AttachOptions, binary: Path, env: Environment): (e: Execution)
    ensures !FlashSucceeds(p, binary, env) ==> e == Flash(p, binary, env)
    ensures FlashSucceeds(p, binary, env) ==>
              e.trace == Flash(p, binary, env).trace + Dispatch(MergedAttach(attach, p), env).trace &&
              e.outcome == Dispatch(MergedAttach(attach, p), env).outcome
  {
    var flash := Flash(p, binary, env);
    if flash.outcome.Fail? then flash
    else
      var console := Dispatch(MergedAttach(attach, p), env);
      Execution(console.outcome, flash.trace + console.trace)
  }

  /**
   * `run::board::Command::run`: resolve the board's programmer options,
   * flash, then dispatch. A failed resolution is the result with no action;
   * a failed flash is the result and nothing follows it.
   */
  function RunBoard(b: BoardOptions, attach: AttachOptions, binary: Path, env: Environment): (e: Execution)
    ensures IntoProgrammerOptions(b, env.catalog, env.ports).Err? ==>
              e == Execution(Fail(IntoProgrammerOptions(b, env.catalog, env.ports).msg), [])
    ensures IntoProgrammerOptions(b, env.catalog, env.ports).Ok? &&
            !FlashSucceeds(IntoProgrammerOptions(b, env.catalog, env.ports).value, binary, env) ==>
              e == Flash(IntoProgrammerOptions(b, env.catalog, env.ports).value, binary, env)
  {
    match IntoProgrammerOptions(b, env.catalog, env.ports)
    case Err(m) => Execution(Fail(m), [])
    case Ok(p) =>
      var flash := Flash(p, binary, env);
      if flash.outcome.Fail? then flash
      else
        var console := Dispatch(MergedAttach(attach, p), env);
        Execution(console.outcome, flash.trace + console.trace)
  }

  /** Neither command goes on after a failed action, and a failed action is the command's error. */
  lemma RunChipStopsAtFailure(p: ProgrammerOptions, attach: AttachOptions, binary: Path, env: Environment)
    ensures StopsAtFailure(RunChip(p, attach, binary, env).trace, env)
    ensures ReportsFailure(RunChip(p, attach, binary, env).outcome, RunChip(p, attach, binary, env).trace, env)
  {
    var flash := Flash(p, binary, env);
    if flash.outcome.Pass? {
      var console := Dispatch(MergedAttach(attach, p), env);
      assert flash.trace != [] ==> env.respond(flash.trace[0]).Pass?;
      StopsAtFailureAppend(flash.trace, console.trace, env);
    }
  }

  /** A console is only ever opened after avrdude ran and succeeded. */
  lemma {:induction false} RunChipConsoleAfterFlash(p: ProgrammerOptions, attach: AttachOptions, binary: Path,
                                                    env: Environment, i: nat)
    requires i < |RunChip(p, attach, binary, env).trace|
    requires RunChip(p, attach, binary, env).trace[i].OpenConsole?
    ensures i == 1
    ensures RunChip(p, attach, binary, env).trace[0].RunAvrdude?
    ensures env.respond(RunChip(p, attach, binary, env).trace[0]).Pass?
  {
    var flash := Flash(p, binary, env);
    assert flash.outcome.Pass?;
    var console := Dispatch(MergedAttach(attach, p), env);
    assert |flash.trace| == 1;
    assert |console.trace| <= 1;
  }

  /** The chip command consults neither the board catalog nor the serial ports. */
  lemma RunChipIgnoresCatalogAndPorts(p: ProgrammerOptions, attach: AttachOptions, binary: Path,
                                      env: Environment, env': Environment)
    requires env'.binaries == env.binaries && env'.respond == env.respond
    ensures RunChip(p, attach, binary, env') == RunChip(p, attach, binary, env)
  {
    var flash := Flash(p, binary, env);
    assert Flash(p, binary, env') == flash;
    var merged := MergedAttach(attach, p);
    assert Dispatch(merged, env') == Dispatch(merged, env) by {
      if merged.protocol == Serial {
        assert Attach(merged.serialOpts, env') == Attach(merged.serialOpts, env);
      }
    }
  }

  /**
   * After a successful flash, a serial console opens on the merged options:
   * the user's port and baudrate where given, the programmer's otherwise. A
   * user protocol of none opens nothing and succeeds.
   */
  lemma RunChipAttaches(p: ProgrammerOptions, attach: AttachOptions, binary: Path, env: Environment)
    requires FlashSucceeds(p, binary, env)
    ensures var e := RunChip(p, attach, binary, env);
            var flash := Flash(p, binary, env).trace;
            (attach.protocol == NoConsole ==> e == Execution(Pass, flash)) &&
            (attach.protocol == Serial ==>
               e == Execution(Attach(MergedAttach(attach, p).serialOpts, env).outcome,
                              flash + Attach(MergedAttach(attach, p).serialOpts, env).trace)) &&
            MergedAttach(attach, p).serialOpts.port == attach.serialOpts.port.Or(p.port) &&
            MergedAttach(attach, p).serialOpts.baudrate == attach.serialOpts.baudrate.Or(p.baudrate)
  {
    var flash := Flash(p, binary, env).trace;
    assert flash + [] == flash;
  }

  /**
   * A flash that fails, because the device name cannot be read from the
   * binary or because avrdude fails, is the chip command's error and no
   * console follows; the board command behaves the same once resolved.
   */
  lemma FailedFlashIsTheError(p: ProgrammerOptions, attach: AttachOptions, binary: Path, env: Environment)
    requires !FlashSucceeds(p, binary, env)
    ensures RunChip(p, attach, binary, env) == Flash(p, binary, env)
    ensures RunChip(p, attach, binary, env).outcome.Fail?
    ensures AvrLibc.DeviceNameFromBinary(env.binaries(binary)).Err? ==>
              RunChip(p, attach, binary, env) ==
              Execution(Fail(AvrLibc.DeviceNameFromBinary(env.binaries(binary)).msg), [])
    ensures forall a | a in RunChip(p, attach, binary, env).trace :: a.RunAvrdude?
  {
  }

  /** A board whose programmer options cannot be resolved is neither flashed nor attached to. */
  lemma RunBoardResolutionFailure(b: BoardOptions, attach: AttachOptions, binary: Path, env: Environment)
    requires IntoProgrammerOptions(b, env.catalog, env.ports).Err?
    ensures RunBoard(b, attach, binary, env) ==
            Execution(Fail(IntoProgrammerOptions(b, env.catalog, env.ports).msg), [])
  {
  }

  /** Once its programmer options are resolved, the board command behaves as the chip command. */
  lemma RunBoardIsRunChip(b: BoardOptions, attach: AttachOptions, binary: Path, env: Environment)
    requires IntoProgrammerOptions(b, env.catalog, env.ports).Ok?
    ensures RunBoard(b, attach, binary, env) ==
            RunChip(IntoProgrammerOptions(b, env.catalog, env.ports).value, attach, binary, env)
  {
  }

  /** The board command stops at the first failure and reports it. */
  lemma RunBoardStopsAtFailure(b: BoardOptions, attach: AttachOptions, binary: Path, env: Environment)
    ensures StopsAtFailure(RunBoard(b, attach, binary, env).trace, env)
    ensures ReportsFailure(RunBoard(b, attach, binary, env).outcome, RunBoard(b, attach, binary, env).trace, env)
  {
    var r := IntoProgrammerOptions(b, env.catalog, env.ports);
    if r.Ok? {
      RunChipStopsAtFailure(r.value, attach, binary, env);
    }
  }

  /** Runs `flash_binary` on the machine. */
  method FlashBinary(p: ProgrammerOptions, binary: Path, m: Machine) returns (r: Outcome)
    modifies m
    ensures r == Flash(p, binary, m.env).outcome
    ensures m.trace == old(m.trace) + Flash(p, binary, m.env).trace
  {
    var opts := IntoAvrdudeOptions(p, m.env.binaries(binary));
    if opts.Err? {
      return Fail(opts.msg);
    }
    var (a, port) := opts.value;
    r := m.Perform(RunAvrdude(a, port, binary, true));
  }

  /** `cargo avr run chip`: its options, of which the attach options are updated in place. */
  class ChipCommand {
    const programmerOpts: ProgrammerOptions
    var attachOpts: AttachOptions
    const binary: Path

    constructor (programmerOpts: ProgrammerOptions, attachOpts: AttachOptions, binary: Path)
      ensures this.programmerOpts == programmerOpts && this.attachOpts == attachOpts && this.binary == binary
    {
      this.programmerOpts := programmerOpts;
      this.attachOpts := attachOpts;
      this.binary := binary;
    }

    method Run(m: Machine) returns (r: Outcome)
      modifies this, m
      ensures r == RunChip(programmerOpts, old(attachOpts), binary, m.env).outcome
      ensures m.trace == old(m.trace) + RunChip(programmerOpts, old(attachOpts), binary, m.env).trace
      ensures attachOpts == if FlashSucceeds(programmerOpts, binary, m.env)
                            then MergedAttach(old(attachOpts), programmerOpts) else old(attachOpts)
    {
      r := FlashBinary(programmerOpts, binary, m);
      if r.Fail? {
        return;
      }
      attachOpts := MergeAttach(attachOpts, IntoAttachOptions(programmerOpts));
      match attachOpts.protocol {
        case NoConsole =>
          r := Pass;
        case Serial =>
          r := AttachConsole(attachOpts.serialOpts, m);
      }
    }
  }

  /** `cargo avr run board`: its options, of which the attach options are updated in place. */
  class BoardCommand {
    const boardOpts: BoardOptions
    var attachOpts: AttachOptions
    const binary: Path

    constructor (boardOpts: BoardOptions, attachOpts: AttachOptions, binary: Path)
      ensures this.boardOpts == boardOpts && this.attachOpts == attachOpts && this.binary == binary
    {
      this.boardOpts := boardOpts;
      this.attachOpts := attachOpts;
      this.binary := binary;
    }

    method Run(m: Machine) returns (r: Outcome)
      modifies this, m
      ensures r == RunBoard(boardOpts, old(attachOpts), binary, m.env).outcome
      ensures m.trace == old(m.trace) + RunBoard(boardOpts, old(attachOpts), binary, m.env).trace
      ensures var p := IntoProgrammerOptions(boardOpts, m.env.catalog, m.env.ports);
              attachOpts == if p.Ok? && FlashSucceeds(p.value, binary, m.env)
                            then MergedAttach(old(attachOpts), p.value) else old(attachOpts)
    {
      var resolved := IntoProgrammerOptions(boardOpts, m.env.catalog, m.env.ports);
      if resolved.Err? {
        return Fail(resolved.msg);
      }
      var programmerOpts := resolved.value;
      r := FlashBinary(programmerOpts, binary, m);
      if r.Fail? {
        return;
      }
      attachOpts := MergeAttach(attachOpts, IntoAttachOptions(programmerOpts));
      match attachOpts.protocol {
        case NoConsole =>
          r := Pass;
        case Serial =>
          r := AttachConsole(attachOpts.serialOpts, m);
      }
    }
  }
}
