/**
 * cargo-avr's console front-end (cargo-avr/src/util/console.rs): the serial
 * port and the baudrate must both be given before a console is opened.
 */
module Console {
  import opened Common
  import opened Options
  import opened Host

  const PortRequired := "Serial port is required; specify it with `--serial-port` or `CARGO_AVR_SERIAL_PORT`"
  const BaudrateRequired :=
    "Serial baudrate is required; specify it with `--serial-baudrate` or `CARGO_AVR_SERIAL_BAUDRATE`"

  /** The checks of `attach_console`: the port first, then the baudrate. */
  function ConsoleTarget(opts: SerialAttachOptions): (r: Result<(Path, NonZeroU32)>)
    ensures r == Err(PortRequired) <==> opts.port.None?
    ensures r == Err(BaudrateRequired) <==> opts.port.Some? && opts.baudrate.None?
    ensures r.Ok? <==> opts.port.Some? && opts.baudrate.Some?
    ensures r.Ok? ==> r.value == (opts.port.value, opts.baudrate.value)
  {
    var port :- if opts.port.Some? then Ok(opts.port.value) else Err(PortRequired);
    var baudrate :- if opts.baudrate.Some? then Ok(opts.baudrate.value) else Err(BaudrateRequired);
    Ok((port, baudrate))
  }

  /**
   * `attach_console` as an execution: a failed check opens nothing; otherwise
   * exactly one console is opened, on the given port at the given baudrate,
   * and the host's answer is the result.
   */
  function Attach(opts: SerialAttachOptions, env: Environment): (e: Execution)
    ensures ConsoleTarget(opts).Err? <==> e.trace == []
    ensures ConsoleTarget(opts).Err? ==> e.outcome == Fail(ConsoleTarget(opts).msg)
    ensures ConsoleTarget(opts).Ok? ==>
              e.trace == [OpenConsole(opts.port.value, opts.baudrate.value as u32)] &&
              e.outcome == env.respond(e.trace[0])
    ensures StopsAtFailure(e.trace, env) && ReportsFailure(e.outcome, e.trace, env)
  {
    match ConsoleTarget(opts)
    case Err(m) => Execution(Fail(m), [])
    case Ok((port, baudrate)) =>
      var open := OpenConsole(port, baudrate as u32);
      Execution(env.respond(open), [open])
  }

  /** Checks the options, then opens the console on the machine. */
  method AttachConsole(opts: SerialAttachOptions, m: Machine) returns (r: Outcome)
    modifies m
    ensures r == Attach(opts, m.env).outcome
    ensures m.trace == old(m.trace) + Attach(opts, m.env).trace
  {
    if opts.port.None? {
      return Fail(PortRequired);
    }
    if opts.baudrate.None? {
      return Fail(BaudrateRequired);
    }
    r := m.Perform(OpenConsole(opts.port.value, opts.baudrate.value as u32));
  }
}
