/**
 * cargo-avr's programmer and attach options (cargo-avr/src/util/options.rs):
 * resolving a board name to programmer options, and deriving avrdude's
 * parameters and the console's options from them.
 */
module Options {
  import opened Common
  import opened BoardConfigs
  import opened BoardCatalog
  import AvrLibc

  /** `ProgrammerOptions`: programmer name, port, baudrate, erase flag, each optional. */
  datatype ProgrammerOptions = ProgrammerOptions(
    name: Option<string>,
    port: Option<Path>,
    baudrate: Option<NonZeroU32>,
    eraseChip: Option<bool>)

  /** `BoardOptions`: a board name and the programmer options given with it. */
  datatype BoardOptions = BoardOptions(board: string, programmerOpts: ProgrammerOptions)

  /** `AttachProtocol`: no console, or a serial console. */
  datatype AttachProtocol = NoConsole | Serial

  datatype SerialAttachOptions = SerialAttachOptions(port: Option<Path>, baudrate: Option<NonZeroU32>)

  datatype AttachOptions = AttachOptions(protocol: AttachProtocol, serialOpts: SerialAttachOptions)

  /**
   * cargo-avr's `AttachOptions` and its `merge::Merge` implementation are
   * not part of this model. The model assumes: the protocol of `self` is kept, and each serial
   * option of `self` is kept when present, otherwise taken from `other`.
   */
  function MergeAttach(self: AttachOptions, other: AttachOptions): (r: AttachOptions)
    ensures r.protocol == self.protocol
    ensures self.serialOpts.port.Some? ==> r.serialOpts.port == self.serialOpts.port
    ensures self.serialOpts.port.None? ==> r.serialOpts.port == other.serialOpts.port
    ensures self.serialOpts.baudrate.Some? ==> r.serialOpts.baudrate == self.serialOpts.baudrate
    ensures self.serialOpts.baudrate.None? ==> r.serialOpts.baudrate == other.serialOpts.baudrate
  {
    AttachOptions(
      self.protocol,
      SerialAttachOptions(
        self.serialOpts.port.Or(other.serialOpts.port),
        self.serialOpts.baudrate.Or(other.serialOpts.baudrate)))
  }

  const NoAvrdudeOptions := "board has no avrdude options"

  /** `Option::flatten` on the doubly optional baudrate of a board. */
  function FlattenBaudrate(b: Option<Option<NonZeroU32>>): Option<NonZeroU32> {
    if b.Some? then b.value else None
  }

  /**
   * `BoardOptions::into_programmer_options`: the board's programmer, baudrate
   * and erase flag; the port given on the command line, else the guessed
   * one. The host's enumerated ports are a parameter.
   */
  function IntoProgrammerOptions(opts: BoardOptions, catalog: CatalogSource, ports: seq<SerialPortInfo>)
    : (r: Result<ProgrammerOptions>)
    ensures BoardFromName(catalog, opts.board).Err? ==> r == Err(BoardFromName(catalog, opts.board).msg)
    ensures BoardFromName(catalog, opts.board).Ok? && BoardFromName(catalog, opts.board).value.avrdude.None? ==>
              r == Err(NoAvrdudeOptions)
    ensures r.Ok? ==>
              var board := BoardFromName(catalog, opts.board).value;
              board.avrdude.Some? &&
              r.value.name == board.avrdude.value.programmer &&
              r.value.baudrate == FlattenBaudrate(board.avrdude.value.baudrate) &&
              r.value.eraseChip == board.avrdude.value.doChipErase
    ensures opts.programmerOpts.port.Some? && r.Ok? ==> r.value.port == opts.programmerOpts.port
    ensures BoardFromName(catalog, opts.board).Ok? && BoardFromName(catalog, opts.board).value.avrdude.Some? ==>
              var guess := Guess(BoardFromName(catalog, opts.board).value.usbInfo, ports);
              (opts.programmerOpts.port.Some? ==> r.Ok?) &&
              (opts.programmerOpts.port.None? && guess.None? ==> r.Ok? && r.value.port.None?) &&
              (opts.programmerOpts.port.None? && guess.Some? && guess.value.Ok? ==>
                 r.Ok? && r.value.port == Some(guess.value.value)) &&
              (opts.programmerOpts.port.None? && guess.Some? && guess.value.Err? ==>
                 r == Err(guess.value.msg))
  {
    var board :- BoardFromName(catalog, opts.board);
    var avrdude :- if board.avrdude.Some? then Ok(board.avrdude.value) else Err(NoAvrdudeOptions);
    var port :- match opts.programmerOpts.port
      case Some(p) => Ok(Some(p))
      case None =>
        match Guess(board.usbInfo, ports)
        case Some(Ok(p)) => Ok(Some(p))
        case Some(Err(e)) => Err(e)
        case None => Ok(None);
    Ok(ProgrammerOptions(avrdude.programmer, port, FlattenBaudrate(avrdude.baudrate), avrdude.doChipErase))
  }

  /**
   * With a valid catalog, resolving a known board can fail only when no port
   * was given and guessing one failed; on success a programmer and the erase
   * flag are always set.
   */
  lemma ProgrammerOptionsFromValidCatalog(opts: BoardOptions, catalog: CatalogSource, ports: seq<SerialPortInfo>)
    requires catalog.Parsed? && ValidBoardList(catalog.entries)
    requires BoardFromName(catalog, opts.board).Ok?
    ensures IntoProgrammerOptions(opts, catalog, ports).Err? ==>
              opts.programmerOpts.port.None? &&
              Guess(BoardFromName(catalog, opts.board).value.usbInfo, ports).Some? &&
              Guess(BoardFromName(catalog, opts.board).value.usbInfo, ports).value.Err?
    ensures IntoProgrammerOptions(opts, catalog, ports).Ok? ==>
              IntoProgrammerOptions(opts, catalog, ports).value.name.Some? &&
              IntoProgrammerOptions(opts, catalog, ports).value.eraseChip.Some?
  {
    LookupInValidCatalog(catalog, opts.board);
  }

  /**
   * `ProgrammerOptions::into_avrdude_options`: avrdude's parameters, with the
   * part number read from the binary; extraction failure is fatal.
   */
  function IntoAvrdudeOptions(opts: ProgrammerOptions, binary: AvrLibc.ElfView)
    : (r: Result<(BoardAvrdudeOptions, Option<Path>)>)
    ensures AvrLibc.DeviceNameFromBinary(binary).Err? <==> r.Err?
    ensures r.Err? ==> r.msg == AvrLibc.DeviceNameFromBinary(binary).msg
    ensures r.Ok? ==> r.value.0.partno == Some(AvrLibc.DeviceNameFromBinary(binary).value)
    ensures r.Ok? ==> r.value.0.programmer == opts.name && r.value.0.doChipErase == opts.eraseChip &&
                      r.value.0.baudrate == Some(opts.baudrate) && r.value.1 == opts.port
  {
    var chip :- AvrLibc.DeviceNameFromBinary(binary);
    Ok((BoardAvrdudeOptions(opts.name, Some(chip), Some(opts.baudrate), opts.eraseChip), opts.port))
  }

  /** The avrdude parameters give back the programmer options they were made from. */
  lemma AvrdudeOptionsKeepProgrammerOptions(opts: ProgrammerOptions, binary: AvrLibc.ElfView)
    requires IntoAvrdudeOptions(opts, binary).Ok?
    ensures var (a, port) := IntoAvrdudeOptions(opts, binary).value;
            ProgrammerOptions(a.programmer, port, FlattenBaudrate(a.baudrate), a.doChipErase) == opts
  {
  }

  /** `ProgrammerOptions::into_attach_options`: a serial console on the programmer's port and baudrate. */
  function IntoAttachOptions(opts: ProgrammerOptions): (r: AttachOptions)
    ensures r.protocol == Serial
    ensures r.serialOpts.port == opts.port && r.serialOpts.baudrate == opts.baudrate
  {
    AttachOptions(Serial, SerialAttachOptions(opts.port, opts.baudrate))
  }

  /**
   * Chaining flash to console: a port or baudrate the user gave for the
   * console wins over the programmer's; missing ones come from the
   * programmer; the user's protocol is kept.
   */
  lemma AttachAfterFlash(user: AttachOptions, opts: ProgrammerOptions)
    ensures var m := MergeAttach(user, IntoAttachOptions(opts));
            m.protocol == user.protocol &&
            m.serialOpts.port == (if user.serialOpts.port.Some? then user.serialOpts.port else opts.port) &&
            m.serialOpts.baudrate ==
              (if user.serialOpts.baudrate.Some? then user.serialOpts.baudrate else opts.baudrate)
  {
  }
}
