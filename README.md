# ravedude and cargo-avr: host-side decision logic, in Dafny

This project models the host-side tooling of avr-hal. That tooling decides how
an AVR binary is flashed and whether a serial console is opened afterwards.
It comes in two programs:

- **ravedude**, the cargo runner. Its parts are:
  - board configurations and their inheritance (`BoardConfig::merge`);
  - guessing the serial port from a board's USB signatures;
  - the built-in board catalog (`boards.toml`) and its lookup by name;
  - the `Ravedude.toml` configuration layers with command-line overrides;
  - the decision sequence of `main` (dump config, check avrdude, reset the
    board, choose the port, flash, open the console).
- **cargo-avr**, the cargo subcommand. Its parts are:
  - resolving programmer options from a board name;
  - reading the device name out of the `.note.gnu.avr.deviceinfo` ELF note
    that avr-libc writes;
  - the console preconditions;
  - the `run board` and `run chip` commands (resolve, flash, merge the
    console options, attach).

Host I/O is an input. The host is represented by:

- the enumerated serial ports;
- the parsed board catalog;
- the ELF view of each binary (a note list);
- one answer, success or failure, per action.

The actions are running avrdude, opening a console, sleeping, prompting,
printing a configuration and checking avrdude's version. `Host.Machine`
performs them and records a trace. Each imperative command is a method proved
against a specification function that returns its outcome and its trace. The
lemmas about those functions state the orchestration rules. No run goes on
after a failed action, and a failed action is the run's error.

Files and modules:

| file | module | models |
|---|---|---|
| common.dfy | `Common` | `Option`, `Result`, `Outcome`, fixed-width integers, `anyhow` context |
| board_config.dfy | `BoardConfigs` | ravedude/src/board/config.rs |
| board_catalog.dfy | `BoardCatalog` | ravedude/src/board/mod.rs |
| ravedude_config.dfy | `RavedudeConfigs` | ravedude/src/config.rs |
| utf8.dfy | `Utf8` | UTF-8 validity as checked by `CStr::to_str` |
| avr_libc.dfy | `AvrLibc` | cargo-avr/src/util/avr_libc.rs |
| options.dfy | `Options` | cargo-avr/src/util/options.rs |
| host.dfy | `Host` | the machine: ports, catalog, binaries, actions and their answers |
| console.dfy | `Console` | cargo-avr/src/util/console.rs |
| run.dfy | `Run` | cargo-avr/src/util/avrdude.rs, cargo-avr/src/run/board.rs, cargo-avr/src/run/chip.rs |
| ravedude_main.dfy | `RavedudeMain` | ravedude/src/main.rs |

Two behaviours of the code are worth knowing:

- The "invalid board" message lists the valid identifiers in the catalog
  map's iteration order, not sorted. The model lists them in catalog order
  (`BoardCatalog.NotFoundMessageLines`).
- Merging a fully specified child does not always yield the child: the
  child's `avrdude` block is dropped when the base has none.
  `BoardConfigs.MergeFullySpecifiedChild` proves that the child survives
  exactly when the base has an `avrdude` block.

Some pieces the code refers to are not part of this model. Each is modelled
as a stated assumption:

- `BoardAvrdudeOptions::merge` keeps each field of `self` when present and
  takes `other`'s otherwise (`BoardConfigs.MergeAvrdude`).
- The merge of `AttachOptions` keeps the protocol of `self`. It keeps the port
  and baudrate of `self` when present and takes `other`'s otherwise
  (`Options.MergeAttach`).
- `board::get_board` is a parameter, `getBoard`. `main` uses it from another
  ravedude version. Its board value (`Host.ResolvedBoard`) has a name, an
  optional reset message, avrdude options and USB signatures. That board's
  `guess_port` is `BoardConfigs.Guess`.
- `args.legacy_board_name()` is the parameter `legacyBoardName`.
- An `anyhow` context renders as `context: cause` (`Common.WithContext`).

## Model

| member | source | states |
|---|---|---|
| BoardConfigs.MergeAvrdude | ravedude/src/board/config.rs:21 | each avrdude option comes from the child when present, else from the base |
| BoardConfigs.Merge | ravedude/src/board/config.rs:14-26 | name, reset and usb_info come from the child when present, else from the base. `inherit` is always cleared. A child without avrdude gets the base's block. Two blocks are merged. A base without avrdude drops the child's block |
| BoardConfigs.MergeOntoComplete | ravedude/src/board/config.rs:14-26 | inheriting from a complete board (name, reset and all four avrdude options) yields a complete board with no `inherit` |
| BoardConfigs.MergeEmptyChild | ravedude/src/board/config.rs:14-26 | an empty child inherits the base unchanged except for `inherit` |
| BoardConfigs.MergeFullySpecifiedChild | ravedude/src/board/config.rs:20-22 | a fully specified child survives the merge if and only if the base has an avrdude block |
| BoardConfigs.MergeTwiceSameBase | ravedude/src/board/config.rs:14-26 | merging the same base a second time changes nothing |
| BoardConfigs.FirstMatch | ravedude/src/board/config.rs:53-65 | the index of the first USB port whose (vid, pid) is listed; earlier ports are non-USB or unlisted; none when no port matches |
| BoardConfigs.Guess | ravedude/src/board/config.rs:49-70 | no USB info gives none. An error entry gives exactly its message. With port ids, a match gives `Ok` with the first matching port's name, and "Serial port not found." is the result exactly when no port matches |
| BoardConfigs.GuessIsUsbPort | ravedude/src/board/config.rs:58-61 | a guessed port is a USB port of the enumeration |
| BoardConfigs.GuessSingleSignature | ravedude/src/board/config.rs:53-66 | for signature (0x2341, 0x0043) the search skips a PCI port and a USB port with another pid and finds the matching device; without that device it fails with "Serial port not found." |
| BoardConfigs.GuessPort | ravedude/src/board/config.rs:49-70 | the nested loop over ports and signatures with its early return computes `Guess` |
| BoardCatalog.AllBoards | ravedude/src/board/mod.rs:5-19 | a malformed catalog is an error carrying the parser's message after the fixed prefix, never an empty map; a parsed one is returned whole |
| BoardCatalog.IndexOf | ravedude/src/board/mod.rs:24 | the position of the entry with exactly that key, or none when no key equals the name |
| BoardCatalog.BoardFromName | ravedude/src/board/mod.rs:21-35 | a catalog key yields exactly its entry's board. Any other name fails with the "invalid board" message. A malformed catalog yields the parse error |
| BoardCatalog.GetBoardFromName | ravedude/src/board/mod.rs:21-35 | the loop that builds the message computes `BoardFromName` |
| BoardCatalog.ListLinesSnoc | ravedude/src/board/mod.rs:29-32 | appending one key to the listing adds one "\n"-prefixed line at the end |
| BoardCatalog.NotFoundMessageLines | ravedude/src/board/mod.rs:25-33 | split at line breaks, the message is "invalid board: <name>", then "valid boards:", then every key in catalog order |
| BoardCatalog.LookupSucceedsOnKeys | ravedude/src/board/mod.rs:21-24 | a lookup succeeds if and only if the catalog parsed and the name is one of its keys |
| BoardCatalog.EntryProblem | ravedude/src/board/mod.rs:45-79 | an entry has no problem if and only if it is complete. Otherwise the message of the first failing check, in the test's order: name, inherit, reset, avrdude, then programmer, partno, baudrate and do_chip_erase, each naming the board |
| BoardCatalog.ValidateBoardList | ravedude/src/board/mod.rs:42-82 | passes if and only if the catalog parsed and every entry is complete. A parse error carries the test-build message (mod.rs:7-11). Otherwise it reports the first failing entry's first problem |
| BoardCatalog.LookupInValidCatalog | ravedude/src/board/mod.rs:45-79 | in a valid catalog every board found by name is complete |
| RavedudeConfigs.CheckedBaudrate | ravedude/src/config.rs:53-58 | a baudrate of 0 fails with "baudrate must not be 0"; any other value is kept |
| RavedudeConfigs.FromArgs | ravedude/src/config.rs:16-33 | fails if and only if the baudrate is 0. Otherwise the settings are the command line's and the legacy board name, with no `[board]` section |
| RavedudeConfigs.Overridden | ravedude/src/config.rs:49-66 | open_console becomes true when the flag is given and is never reset. A nonzero baudrate replaces the file's; 0 is an error. port and reset_delay are replaced only when given. board is untouched |
| RavedudeConfigs.OverriddenIdempotent | ravedude/src/config.rs:49-66 | applying the same overrides twice equals applying them once |
| RavedudeConfigs.OverridesFromOwnArgs | ravedude/src/config.rs:16-66 | overriding a configuration built from a command line with that same command line changes nothing |
| RavedudeConfigs.RavedudeGeneralConfig.ApplyOverridesFrom | ravedude/src/config.rs:49-66 | on success the fields are `Overridden` of the old ones. It fails if and only if the baudrate is 0. Then only open_console may have changed; port and reset_delay have not |
| RavedudeConfigs.ConfigFromBoardName | ravedude/src/config.rs:69-74 | default settings with exactly the catalog's board, or the lookup's error |
| RavedudeConfigs.ConfigFromManifest | ravedude/src/config.rs:76-101 | a read or parse failure yields its prefixed message. `[board]` together with general.board is rejected. With `inherit = X` the board is merged onto catalog board X, and an unknown X is an error. `[board]` without inherit is kept. general.board alone selects exactly catalog board X. With neither, nothing changes |
| RavedudeConfigs.ManifestResolvesInheritance | ravedude/src/config.rs:84-98 | with a valid catalog, a resolved board never keeps `inherit`, and it is complete whenever the catalog contributed |
| RavedudeConfigs.ManifestGeneralBoardIsCatalogBoard | ravedude/src/config.rs:95-98 | general.board = X alone resolves exactly as naming board X does |
| Utf8.DecodeEncode | cargo-avr/src/util/avr_libc.rs:48 | decoding the UTF-8 encoding of any string gives that string back |
| Utf8.EncodeDecode | cargo-avr/src/util/avr_libc.rs:48 | bytes that decode encode back to exactly those bytes, so only well-formed UTF-8 is accepted |
| Utf8.DecodeAscii | cargo-avr/src/util/avr_libc.rs:48 | ASCII bytes decode to the characters with the same codes |
| AvrLibc.FirstDeviceInfoNote | cargo-avr/src/util/avr_libc.rs:34-41 | the first note in section order with type 1 and owner "AVR"; none if no note qualifies |
| AvrLibc.ReadU32At | cargo-avr/src/util/avr_libc.rs:11-23 | a u32 written little-endian at a position is read back at that position |
| AvrLibc.ParseDesc | cargo-avr/src/util/avr_libc.rs:11-23 | fails if and only if the descriptor is shorter than 32 bytes. Otherwise it reads seven u32 fields at bytes 0-27 and offset_table[0] at bytes 28-31, and the string table starts at byte 32 |
| AvrLibc.ParseDescBytes | cargo-avr/src/util/avr_libc.rs:11-23 | parsing the packed layout of a descriptor gives back that descriptor |
| AvrLibc.FirstNul | cargo-avr/src/util/avr_libc.rs:46 | the position of the first NUL byte, with no NUL before it; none if there is no NUL |
| AvrLibc.CStrAt | cargo-avr/src/util/avr_libc.rs:46 | the bytes from the offset up to, and excluding, the first NUL. The result contains no NUL. An offset past the table or a missing terminator is an error |
| AvrLibc.NameBytes | cargo-avr/src/util/avr_libc.rs:45-47 | the bytes from byte 32 + offset_table[0] up to, and excluding, the first NUL. A descriptor shorter than 32 bytes, an offset past the end or a missing NUL is an error |
| AvrLibc.DeviceNameFromDesc | cargo-avr/src/util/avr_libc.rs:45-48 | succeeds if and only if the name bytes exist and are valid UTF-8. The result is the text whose UTF-8 encoding is exactly those bytes. A short descriptor, an out-of-range offset, a missing NUL and invalid UTF-8 are each an error with its own message |
| AvrLibc.DeviceNameFromBinary | cargo-avr/src/util/avr_libc.rs:26-49 | read and parse errors pass through. A missing section gives "AVR device info section not found". With no qualifying note it fails with "AVR device info note not found", and only then. Otherwise the result is the first qualifying note's name |
| AvrLibc.EncodeHasNoNul | cargo-avr/src/util/avr_libc.rs:46-48 | the UTF-8 encoding of a name without NUL contains no NUL byte |
| AvrLibc.DeviceNameAtOffset | cargo-avr/src/util/avr_libc.rs:45-48 | whatever the header holds, a descriptor whose first offset points at a NUL-terminated UTF-8 name yields exactly that name |
| AvrLibc.DeviceNameAtmega328p | cargo-avr/src/util/avr_libc.rs:45-48 | offset 0 with string table "atmega328p\0" yields "atmega328p" |
| AvrLibc.DeviceNameIgnoresHeader | cargo-avr/src/util/avr_libc.rs:45-46 | the flash, SRAM, EEPROM and offset-table-size fields never influence the name |
| AvrLibc.DeviceNameSkipsOtherNotes | cargo-avr/src/util/avr_libc.rs:34-41 | notes without type 1 and owner "AVR" placed in front change nothing |
| Options.MergeAttach | cargo-avr/src/run/chip.rs:32 | the protocol of `self` is kept; port and baudrate come from `self` when present, else from `other` |
| Options.IntoProgrammerOptions | cargo-avr/src/util/options.rs:63-87 | an unknown board fails with the lookup error, and a board without avrdude fails with "board has no avrdude options". An explicit port wins. Otherwise a guessed port is used, a guess error is returned, and no USB info gives no port. name, the flattened baudrate and erase_chip come only from the board |
| Options.ProgrammerOptionsFromValidCatalog | cargo-avr/src/util/options.rs:63-87 | with a valid catalog a known board fails only through a failed port guess without an explicit port; on success name and erase_chip are set |
| Options.IntoAvrdudeOptions | cargo-avr/src/util/options.rs:27-39 | fails if and only if device-name extraction fails, with its message. Otherwise partno is the extracted name. programmer, erase_chip and port are copied, and the baudrate is `Some(self.baudrate)` |
| Options.AvrdudeOptionsKeepProgrammerOptions | cargo-avr/src/util/options.rs:27-39 | the avrdude options and port give back the programmer options they came from |
| Options.IntoAttachOptions | cargo-avr/src/util/options.rs:41-49 | always a serial protocol, with port and baudrate copied |
| Options.AttachAfterFlash | cargo-avr/src/run/board.rs:32 | after the merge the user's protocol is kept, and a port or baudrate given for the console wins over the programmer's |
| Console.ConsoleTarget | cargo-avr/src/util/console.rs:7-16 | a missing port fails with the `--serial-port` message, also when the baudrate is missing too. A port with no baudrate fails with the `--serial-baudrate` message. Otherwise it returns exactly that port and that nonzero baudrate |
| Console.Attach | cargo-avr/src/util/console.rs:7-19 | a failed check opens nothing. Otherwise exactly one console opens, on that port at that baudrate, and its answer is the result |
| Console.AttachConsole | cargo-avr/src/util/console.rs:7-19 | performs `Attach` on the machine |
| Run.Flash | cargo-avr/src/util/avrdude.rs:6-10 | if the avrdude options cannot be derived, nothing runs and the error is returned. Otherwise avrdude runs once, with the derived options and port, and its answer is the result |
| Run.FlashBinary | cargo-avr/src/util/avrdude.rs:6-10 | performs `Flash` on the machine |
| Run.MergedAttach | cargo-avr/src/run/chip.rs:32 | the console options after the flash keep the user's protocol; port and baudrate are the user's when given, else the programmer's |
| Run.RunChip | cargo-avr/src/run/chip.rs:28-38 | a failed flash is the result, and nothing follows it. After a successful flash, the dispatch on the merged options follows the flash, and its result is the command's |
| Run.RunBoard | cargo-avr/src/run/board.rs:28-38 | a failed resolution is the result, with no action. Once resolved, a failed flash is the result, and nothing follows it |
| Run.FailedFlashIsTheError | cargo-avr/src/run/chip.rs:30 | a flash that fails, whether reading the device name or running avrdude, is the command's error; no console is opened, and a device-name error runs no avrdude at all |
| Run.Dispatch | cargo-avr/src/run/chip.rs:34-37 | protocol none succeeds without actions; serial is `Attach` on the serial options |
| Run.RunChipStopsAtFailure | cargo-avr/src/run/chip.rs:30-37 | no action follows a failed one, and a failed last action is the command's error |
| Run.RunChipConsoleAfterFlash | cargo-avr/src/run/chip.rs:30-36 | a console opens only as the second action, after avrdude ran and succeeded |
| Run.RunChipIgnoresCatalogAndPorts | cargo-avr/src/run/chip.rs:30 | the chip command uses its programmer options as given: no board lookup and no port guessing |
| Run.RunChipAttaches | cargo-avr/src/run/chip.rs:32-37 | after a successful flash, protocol none succeeds with only the flash. Serial attaches with the merged options: the user's port and baudrate, else the programmer's |
| Run.ChipCommand.Run | cargo-avr/src/run/chip.rs:28-38 | the result and trace of the chip command; the attach options are merged in place only after a successful flash |
| Run.RunBoardResolutionFailure | cargo-avr/src/run/board.rs:29 | if programmer options cannot be resolved, nothing is flashed or attached and that error is returned |
| Run.RunBoardIsRunChip | cargo-avr/src/run/board.rs:29-37 | once resolved, the board command behaves as the chip command with the resolved options |
| Run.RunBoardStopsAtFailure | cargo-avr/src/run/board.rs:29-37 | no action follows a failed one, and a failed last action is the command's error |
| Run.BoardCommand.Run | cargo-avr/src/run/board.rs:28-38 | the result and trace of the board command; the attach options are merged in place only after a successful flash |
| RavedudeMain.ShiftPositional | ravedude/src/main.rs:111-113 | a board with no binary moves into the binary and the board becomes none; otherwise nothing changes, and no other field ever changes |
| RavedudeMain.DumpConfig | ravedude/src/main.rs:196-202 | an unknown board fails with no action; a known one is printed once, and the print's answer is the result |
| RavedudeMain.ResetSteps | ravedude/src/main.rs:121-138 | a positive delay sleeps that long. A delay of 0 neither sleeps nor prompts. Without a delay the user is prompted with the board's reset message, only when there is one |
| RavedudeMain.ChoosePort | ravedude/src/main.rs:140-149 | an explicit port wins. Otherwise a guessed port is used, a guess error fails with the `-P`/`RAVEDUDE_PORT` context, and no USB info gives no port |
| RavedudeMain.ConsoleStep | ravedude/src/main.rs:177-191 | with -c, a missing baudrate fails first, then a missing port. With -c, -b and a port, exactly that console opens, and its answer is the result. Without -c the step succeeds; it gives the hint exactly when there is no binary and a port is known |
| RavedudeMain.FlashAndConsole | ravedude/src/main.rs:151-191 | without a binary, only the console step runs. With one, avrdude runs on the board's options, the port and the binary. A failure there is the result; otherwise the console step follows |
| RavedudeMain.WithBoard | ravedude/src/main.rs:121-191 | a failed prompt ends the run. Next a failed port choice ends it. Otherwise flash and console follow the reset step |
| RavedudeMain.Ravedude | ravedude/src/main.rs:103-194 | --dump-config is `DumpConfig`. Otherwise the avrdude version check comes first: its failure ends the run, then an unknown board ends it. Otherwise the steps with the resolved board follow on the shifted arguments |
| RavedudeMain.RavedudeFlashesThenConsole | ravedude/src/main.rs:140-191 | once the version check, board, reset and port pass: a binary left after the shift is flashed with the board's options on the chosen port. Its failure ends the run; otherwise the console step follows. With no binary, the console step directly follows |
| RavedudeMain.RavedudeOpensRequestedConsole | ravedude/src/main.rs:177-188 | with -c, -b and a chosen port, after a successful flash, the run ends by opening that console, and its answer is the run's result |
| RavedudeMain.DumpConfigOnly | ravedude/src/main.rs:105-107 | --dump-config performs at most the print: no version check, no port, no flashing |
| RavedudeMain.FlashOnlyWithBinary | ravedude/src/main.rs:151-166 | avrdude runs only when a binary remains after the shift, and only on that binary |
| RavedudeMain.ExplicitPortWins | ravedude/src/main.rs:140-142 | with an explicit port the run does not depend on the enumerated ports |
| RavedudeMain.GuessFailureIsFatal | ravedude/src/main.rs:143-149 | without a port, a failed guess ends the run after the reset step with the context message, before any flashing |
| RavedudeMain.ConsoleNeedsBaudrate | ravedude/src/main.rs:177-180 | -c without -b always fails and never opens a console |
| RavedudeMain.ConsoleOnChosenPort | ravedude/src/main.rs:164-188 | a console opens only with -c and -b, on the chosen port at that baudrate, after every earlier action succeeded |
| RavedudeMain.RavedudeStopsAtFailure | ravedude/src/main.rs:103-194 | no action follows a failed one, and a failed last action is the run's error |
| RavedudeMain.ConsoleOn | ravedude/src/main.rs:177-191 | performs `ConsoleStep` on the machine |
| RavedudeMain.FlashAndConsoleOn | ravedude/src/main.rs:151-191 | performs the flash, when a binary was given, and then the console step |
| RavedudeMain.WithBoardOn | ravedude/src/main.rs:121-191 | performs the reset step, the port choice, the flash and the console step |
| RavedudeMain.RunRavedude | ravedude/src/main.rs:103-194 | the result and trace of one invocation: dump, or shift, version check, board, reset, port, flash and console, in that order |

## Left out

- Reading files, the `elf` crate's container parsing (`minimal_parse`, `section_header_by_name`, `section_data_as_notes`) and TOML/serde parsing are left out. Their results are inputs: `AvrLibc.ElfView`, `BoardCatalog.CatalogSource` and `RavedudeConfigs.ManifestSource`.
- Serial port enumeration (`serialport::available_ports`) is left out, including its panic. The port list is an input.
- The catalog parse-error message follows the build: lookups use the release text, and `BoardCatalog.ValidateBoardList`, a test, uses the test-build text. The build is not a parameter.
- Spawning avrdude and waiting for it, the avrdude version check, the interactive console, stdin and `thread::sleep` are host actions. The model has no content for them, only a success or failure answer each. The run and the wait of avrdude are one action.
- Coloured and terminal output (`task_message!`, `warning!`, `println!`, `ui::print_error`) is not modelled. The only exception is the `-c/--open-console` hint, which is an action.
- `dump_config`'s TOML rendering is not modelled. Printing is one action whose failure stands for a serialization error.
- The clap front-ends and dispatch-only files are left out: cargo-avr's `main.rs`, `flash/*.rs`, `attach/*.rs` and ravedude's `lib.rs`. Note that `attach/board.rs` never uses its board options.
- The firmware examples and the attiny2313 HAL have no host-side logic and are not part of this model.
- AvrLibc.DeviceNameFromDesc: the source reads the descriptor through unchecked pointer casts. The model checks bounds instead. Its messages for a descriptor shorter than 32 bytes, an out-of-range offset and a missing terminator are the model's own. Where the source would read out of bounds, the model reports one of these errors.
- AvrLibc.DeviceNameFromDesc: Rust's `Utf8Error` text is not modelled. Invalid UTF-8 yields a fixed message.
- The descriptor's u32 fields are read little-endian, the byte order of AVR targets and of the usual hosts. The source reads them in the host's native order.
- BoardCatalog.EntryProblem: the `{name:?}` debug quoting of the key in the test's messages is modelled as plain double quotes, without escaping.
- Paths are strings, and `PathBuf` conversions are the identity.
