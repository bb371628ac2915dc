/**
 * ravedude's configuration layers (ravedude/src/config.rs): the settings of
 * `Ravedude.toml`, command-line overrides applied to them in place, and the
 * resolution of the manifest's board against the built-in catalog.
 */
module RavedudeConfigs {
  import opened Common
  import opened BoardConfigs
  import opened BoardCatalog

  /** ravedude's command line (`Args` in ravedude/src/main.rs). */
  datatype Args = Args(
    dumpConfig: bool,
    openConsole: bool,
    baudrate: Option<u32>,
    port: Option<Path>,
    resetDelay: Option<u64>,
    debugAvrdude: bool,
    board: Option<string>,
    bin: Option<Path>)

  /** The `[general]` settings (`RavedudeGeneralConfig`) as a value. */
  datatype GeneralOptions = GeneralOptions(
    openConsole: bool,
    serialBaudrate: Option<NonZeroU32>,
    port: Option<Path>,
    resetDelay: Option<u64>,
    board: Option<string>)

  /** `RavedudeGeneralConfig::default()`. */
  const DefaultGeneral := GeneralOptions(false, None, None, None, None)

  /** A whole configuration: `[general]` and the optional `[board]` section. */
  datatype RavedudeConfig = RavedudeConfig(general: GeneralOptions, boardConfig: Option<BoardConfig>)

  const ZeroBaudrate := "baudrate must not be 0"

  /** `NonZeroU32::new(b).ok_or_else(...)`: a command-line baudrate of 0 is refused. */
  function CheckedBaudrate(b: u32): (r: Result<NonZeroU32>)
    ensures r.Err? <==> b == 0
    ensures r.Err? ==> r.msg == ZeroBaudrate
    ensures r.Ok? ==> r.value == b
  {
    if b == 0 then Err(ZeroBaudrate) else Ok(b)
  }

  /**
   * `RavedudeConfig::from_args`: a configuration taken from the command line
   * alone. `legacyBoardName` stands for `args.legacy_board_name()`, a method
   * of ravedude's `Args` that is not part of this model.
   */
  function FromArgs(args: Args, legacyBoardName: Option<string>): (r: Result<RavedudeConfig>)
    ensures r.Err? <==> args.baudrate == Some(0)
    ensures r.Err? ==> r.msg == ZeroBaudrate
    ensures r.Ok? ==> r.value.boardConfig.None?
    ensures r.Ok? ==> r.value.general.openConsole == args.openConsole &&
                      r.value.general.port == args.port &&
                      r.value.general.resetDelay == args.resetDelay &&
                      r.value.general.board == legacyBoardName
    ensures r.Ok? ==> (r.value.general.serialBaudrate.Some? <==> args.baudrate.Some?)
    ensures r.Ok? && args.baudrate.Some? ==> r.value.general.serialBaudrate.value == args.baudrate.value
  {
    var baud :- match args.baudrate
      case Some(b) => (match CheckedBaudrate(b) case Ok(v) => Ok(Some(v)) case Err(m) => Err(m))
      case None => Ok(None);
    Ok(RavedudeConfig(
      GeneralOptions(args.openConsole, baud, args.port, args.resetDelay, legacyBoardName),
      None))
  }

  /**
   * The settings after command-line overrides: a flag or value given on the
   * command line wins, anything not given keeps the file's value, and the
   * board is never touched.
   */
  function Overridden(g: GeneralOptions, args: Args): (r: Result<GeneralOptions>)
    ensures r.Err? <==> args.baudrate == Some(0)
    ensures r.Err? ==> r.msg == ZeroBaudrate
    ensures r.Ok? ==> r.value.openConsole == (g.openConsole || args.openConsole)
    ensures r.Ok? ==> r.value.board == g.board
    ensures r.Ok? ==> r.value.port == (if args.port.Some? then args.port else g.port)
    ensures r.Ok? ==> r.value.resetDelay == (if args.resetDelay.Some? then args.resetDelay else g.resetDelay)
    ensures r.Ok? && args.baudrate.None? ==> r.value.serialBaudrate == g.serialBaudrate
    ensures r.Ok? && args.baudrate.Some? ==> r.value.serialBaudrate == Some(args.baudrate.value as NonZeroU32)
  {
    if args.baudrate == Some(0) then Err(ZeroBaudrate)
    else Ok(GeneralOptions(
      g.openConsole || args.openConsole,
      if args.baudrate.Some? then Some(args.baudrate.value as NonZeroU32) else g.serialBaudrate,
      args.port.Or(g.port),
      args.resetDelay.Or(g.resetDelay),
      g.board))
  }

  /** Applying the same command line a second time changes nothing more. */
  lemma OverriddenIdempotent(g: GeneralOptions, args: Args)
    requires Overridden(g, args).Ok?
    ensures Overridden(Overridden(g, args).value, args) == Overridden(g, args)
  {
  }

  /** Command-line overrides of a configuration built from that same command line change nothing. */
  lemma OverridesFromOwnArgs(args: Args, legacyBoardName: Option<string>)
    requires FromArgs(args, legacyBoardName).Ok?
    ensures Overridden(FromArgs(args, legacyBoardName).value.general, args) ==
            Ok(FromArgs(args, legacyBoardName).value.general)
  {
  }

  /** The `[general]` settings as the mutable struct the program updates in place. */
  class RavedudeGeneralConfig {
    var openConsole: bool
    var serialBaudrate: Option<NonZeroU32>
    var port: Option<Path>
    var resetDelay: Option<u64>
    var board: Option<string>

    function Value(): GeneralOptions
      reads this
    {
      GeneralOptions(openConsole, serialBaudrate, port, resetDelay, board)
    }

    constructor (v: GeneralOptions)
      ensures Value() == v
    {
      openConsole := v.openConsole;
      serialBaudrate := v.serialBaudrate;
      port := v.port;
      resetDelay := v.resetDelay;
      board := v.board;
    }

    /**
     * `RavedudeGeneralConfig::apply_overrides_from`. Fields are updated one
     * at a time: on the zero-baudrate error `open_console` has already been
     * updated, the other fields have not.
     */
    method ApplyOverridesFrom(args: Args) returns (r: Outcome)
      modifies this
      ensures r.Pass? ==> Ok(Value()) == Overridden(old(Value()), args)
      ensures r.Fail? <==> args.baudrate == Some(0)
      ensures r.Fail? ==> r.msg == ZeroBaudrate &&
                          Value() == old(Value()).(openConsole := old(openConsole) || args.openConsole)
    {
      if args.openConsole {
        openConsole := true;
      }
      if args.baudrate.Some? {
        var checked := CheckedBaudrate(args.baudrate.value);
        if checked.Err? {
          return Fail(checked.msg);
        }
        serialBaudrate := Some(checked.value);
      }
      if args.port.Some? {
        port := args.port;
      }
      if args.resetDelay.Some? {
        resetDelay := args.resetDelay;
      }
      return Pass;
    }
  }

  /** `get_config_from_board_name`: default settings with the catalog's board. */
  function ConfigFromBoardName(src: CatalogSource, name: string): (r: Result<RavedudeConfig>)
    ensures r.Ok? <==> BoardFromName(src, name).Ok?
    ensures r.Ok? ==> r.value == RavedudeConfig(DefaultGeneral, Some(BoardFromName(src, name).value))
    ensures r.Err? ==> r.msg == BoardFromName(src, name).msg
  {
    var board :- BoardFromName(src, name);
    Ok(RavedudeConfig(DefaultGeneral, Some(board)))
  }

  /** The manifest file as read and parsed: failures carry the reader's or parser's message. */
  datatype ManifestSource = Unreadable(ioMessage: string) | Malformed(parseMessage: string) | Parsed(config: RavedudeConfig)

  function BothBoardsMessage(name: string): string {
    "can't both have board in [general] and [board] section; set inherit = \"" + name +
    "\" under [board] to inherit its options"
  }

  /**
   * `get_config_from_manifest`, after reading and parsing: a `[board]`
   * section and `general.board` exclude each other; `[board]` with
   * `inherit = X` inherits from catalog board X; `general.board = X` alone
   * selects catalog board X; with neither the configuration is unchanged.
   */
  function ConfigFromManifest(m: ManifestSource, catalog: CatalogSource): (r: Result<RavedudeConfig>)
    ensures m.Unreadable? ==> r == Err("Ravedude.toml read error:\n" + m.ioMessage)
    ensures m.Malformed? ==> r == Err("invalid Ravedude.toml:\n" + m.parseMessage)
    ensures m.Parsed? && m.config.boardConfig.Some? && m.config.general.board.Some? ==>
              r == Err(BothBoardsMessage(m.config.general.board.value))
    ensures m.Parsed? && r.Ok? ==> r.value.general == m.config.general
    ensures m.Parsed? && m.config.boardConfig.Some? && m.config.general.board.None? ==>
              var child := m.config.boardConfig.value;
              if child.inherit.None? then r == Ok(m.config)
              else var base := BoardFromName(catalog, child.inherit.value);
                   (base.Err? ==> r == Err(base.msg)) &&
                   (base.Ok? ==> r == Ok(m.config.(boardConfig := Some(Merge(child, base.value)))))
    ensures m.Parsed? && m.config.boardConfig.None? && m.config.general.board.Some? ==>
              var base := BoardFromName(catalog, m.config.general.board.value);
              (base.Err? ==> r == Err(base.msg)) &&
              (base.Ok? ==> r == Ok(m.config.(boardConfig := Some(base.value))))
    ensures m.Parsed? && m.config.boardConfig.None? && m.config.general.board.None? ==> r == Ok(m.config)
  {
    match m
    case Unreadable(e) => Err("Ravedude.toml read error:\n" + e)
    case Malformed(e) => Err("invalid Ravedude.toml:\n" + e)
    case Parsed(cfg) =>
      if cfg.boardConfig.Some? then
        if cfg.general.board.Some? then Err(BothBoardsMessage(cfg.general.board.value))
        else if cfg.boardConfig.value.inherit.Some? then
          var base :- ConfigFromBoardName(catalog, cfg.boardConfig.value.inherit.value);
          Ok(cfg.(boardConfig := Some(Merge(cfg.boardConfig.value, base.boardConfig.value))))
        else Ok(cfg)
      else if cfg.general.board.Some? then
        var base :- ConfigFromBoardName(catalog, cfg.general.board.value);
        Ok(cfg.(boardConfig := Some(base.boardConfig.value)))
      else Ok(cfg)
  }

  /**
   * With a valid catalog, a resolved manifest never keeps an `inherit`
   * reference, and whenever the catalog contributed to the board the board
   * is complete.
   */
  lemma ManifestResolvesInheritance(m: ManifestSource, catalog: CatalogSource)
    requires catalog.Parsed? && ValidBoardList(catalog.entries)
    requires ConfigFromManifest(m, catalog).Ok?
    ensures var cfg := ConfigFromManifest(m, catalog).value;
            cfg.boardConfig.Some? ==> cfg.boardConfig.value.inherit.None?
    ensures var cfg := ConfigFromManifest(m, catalog).value;
            m.Parsed? && (m.config.general.board.Some? ||
                          (m.config.boardConfig.Some? && m.config.boardConfig.value.inherit.Some?)) ==>
            cfg.boardConfig.Some? && RuntimeComplete(cfg.boardConfig.value)
  {
    var cfg := m.config;
    if cfg.boardConfig.Some? && cfg.boardConfig.value.inherit.Some? {
      LookupInValidCatalog(catalog, cfg.boardConfig.value.inherit.value);
      MergeOntoComplete(cfg.boardConfig.value, BoardFromName(catalog, cfg.boardConfig.value.inherit.value).value);
    } else if cfg.boardConfig.None? && cfg.general.board.Some? {
      LookupInValidCatalog(catalog, cfg.general.board.value);
    }
  }

  /** Naming a board only under `[general]` gives exactly what naming it on its own gives. */
  lemma ManifestGeneralBoardIsCatalogBoard(m: ManifestSource, catalog: CatalogSource)
    requires m.Parsed? && m.config.boardConfig.None? && m.config.general.board.Some?
    ensures ConfigFromManifest(m, catalog).Ok? <==> ConfigFromBoardName(catalog, m.config.general.board.value).Ok?
    ensures ConfigFromManifest(m, catalog).Ok? ==>
              ConfigFromManifest(m, catalog).value.boardConfig ==
              ConfigFromBoardName(catalog, m.config.general.board.value).value.boardConfig
  {
  }
}
