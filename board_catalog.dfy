/**
 * ravedude's built-in board catalog (ravedude/src/board/mod.rs): the parsed
 * `boards.toml`, lookup by board identifier with its "unknown board"
 * message, and the completeness check every entry must pass.
 */
module BoardCatalog {
  import opened Common
  import opened BoardConfigs

  /** One catalog entry: a board identifier and its description. */
  datatype Entry = Entry(key: string, board: BoardConfig)

  /** Identifiers are unique, as in the `HashMap` the catalog is parsed into. */
  predicate DistinctKeys(entries: seq<Entry>) {
    forall i, j :: 0 <= i < j < |entries| ==> entries[i].key != entries[j].key
  }

  /** The parsed catalog, in the map's iteration order. */
  type Catalog = entries: seq<Entry> | DistinctKeys(entries) witness []

  /** The outcome of parsing the embedded `boards.toml`. */
  datatype CatalogSource = Parsed(entries: Catalog) | Malformed(parserMessage: string)

  const InvalidCatalog := "boards.toml in ravedude source is invalid. This is a bug, please report it!\n"
  /** The same message in a test build (`cfg!(test)`). */
  const InvalidCatalogInTest := "boards.toml in ravedude source is invalid.\n"

  /** `get_all_boards`: a catalog that does not parse is an error, never an empty catalog. */
  function AllBoards(src: CatalogSource): (r: Result<Catalog>)
    ensures src.Malformed? <==> r.Err?
    ensures src.Malformed? ==> r.msg == InvalidCatalog + src.parserMessage
    ensures src.Parsed? ==> r.value == src.entries
  {
    match src
    case Parsed(entries) => Ok(entries)
    case Malformed(m) => Err(InvalidCatalog + m)
  }

  /** The identifiers of the catalog, in iteration order. */
  function Keys(entries: seq<Entry>): (ks: seq<string>)
    ensures |ks| == |entries|
    ensures forall i :: 0 <= i < |entries| ==> ks[i] == entries[i].key
  {
    if entries == [] then [] else [entries[0].key] + Keys(entries[1..])
  }

  /** Where `name` sits in the catalog, if it is one of its identifiers. */
  function IndexOf(entries: seq<Entry>, name: string): (r: Option<nat>)
    ensures r.Some? ==> r.value < |entries| && entries[r.value].key == name
    ensures r.None? ==> forall i :: 0 <= i < |entries| ==> entries[i].key != name
  {
    if entries == [] then None
    else if entries[0].key == name then Some(0)
    else match IndexOf(entries[1..], name)
      case Some(i) => Some(i + 1)
      case None => None
  }

  /** Each line of `lines`, preceded by a line break. */
  function ListLines(lines: seq<string>): string {
    if lines == [] then "" else "\n" + lines[0] + ListLines(lines[1..])
  }

  /** The message for an unknown board: its name, then every valid identifier, one per line. */
  function NotFoundMessage(name: string, keys: seq<string>): string {
    "invalid board: " + name + "\n" + "valid boards:" + ListLines(keys)
  }

  /**
   * `get_board_from_name`: the entry stored under exactly `name`; an
   * unknown name is an error listing the identifiers, never a default board.
   */
  function BoardFromName(src: CatalogSource, name: string): (r: Result<BoardConfig>)
    ensures src.Malformed? ==> r == Err(InvalidCatalog + src.parserMessage)
    ensures src.Parsed? ==>
              forall i :: 0 <= i < |src.entries| && src.entries[i].key == name ==> r == Ok(src.entries[i].board)
    ensures src.Parsed? && (forall i :: 0 <= i < |src.entries| ==> src.entries[i].key != name) ==>
              r == Err(NotFoundMessage(name, Keys(src.entries)))
  {
    match src
    case Malformed(m) => Err(InvalidCatalog + m)
    case Parsed(entries) =>
      match IndexOf(entries, name)
      case Some(i) => Ok(entries[i].board)
      case None => Err(NotFoundMessage(name, Keys(entries)))
  }

  /** `ListLines` grows by one line when one more line is listed. */
  lemma {:induction false} ListLinesSnoc(lines: seq<string>, line: string)
    ensures ListLines(lines + [line]) == ListLines(lines) + "\n" + line
  {
    if lines == [] {
      assert lines + [line] == [line];
    } else {
      assert (lines + [line])[1..] == lines[1..] + [line];
      ListLinesSnoc(lines[1..], line);
    }
  }

  /** `get_board_from_name`, building the message with a loop over the catalog's keys. */
  method GetBoardFromName(src: CatalogSource, name: string) returns (r: Result<BoardConfig>)
    ensures r == BoardFromName(src, name)
  {
    var all := AllBoards(src);
    if all.Err? {
      return Err(all.msg);
    }
    var entries := all.value;
    var found := IndexOf(entries, name);
    if found.Some? {
      return Ok(entries[found.value].board);
    }
    var msg := "invalid board: " + name + "\n";
    msg := msg + "valid boards:";
    var i := 0;
    while i < |entries|
      invariant 0 <= i <= |entries|
      invariant msg == "invalid board: " + name + "\n" + "valid boards:" + ListLines(Keys(entries)[..i])
    {
      ListLinesSnoc(Keys(entries)[..i], entries[i].key);
      assert Keys(entries)[..i + 1] == Keys(entries)[..i] + [entries[i].key];
      msg := msg + "\n" + entries[i].key;
      i := i + 1;
    }
    assert Keys(entries)[..i] == Keys(entries);
    return Err(msg);
  }

  /** The lines of a text: its pieces between line breaks. */
  function Split(s: string): (r: seq<string>)
    ensures |r| >= 1
  {
    if s == [] then [""]
    else if s[0] == '\n' then [""] + Split(s[1..])
    else var rest := Split(s[1..]); [[s[0]] + rest[0]] + rest[1..]
  }

  predicate NoLineBreak(s: string) {
    forall i :: 0 <= i < |s| ==> s[i] != '\n'
  }

  lemma NoLineBreakConcat(a: string, b: string)
    requires NoLineBreak(a) && NoLineBreak(b)
    ensures NoLineBreak(a + b)
  {
    forall i | 0 <= i < |a + b| ensures (a + b)[i] != '\n' {
      if i >= |a| { assert (a + b)[i] == b[i - |a|]; }
    }
  }

  lemma {:induction false} SplitAfterLine(a: string, b: string)
    requires NoLineBreak(a)
    ensures Split(a + "\n" + b) == [a] + Split(b)
  {
    if a == [] {
      assert a + "\n" + b == "\n" + b;
      assert ("\n" + b)[1..] == b;
    } else {
      assert (a + "\n" + b)[0] == a[0];
      assert (a + "\n" + b)[1..] == a[1..] + "\n" + b;
      SplitAfterLine(a[1..], b);
      assert [a[0]] + a[1..] == a;
    }
  }

  lemma {:induction false} SplitSingleLine(a: string)
    requires NoLineBreak(a)
    ensures Split(a) == [a]
  {
    if a != [] {
      SplitSingleLine(a[1..]);
      assert [a[0]] + a[1..] == a;
    }
  }

  /** A line followed by listed lines splits back into exactly those lines. */
  lemma {:induction false} SplitListLines(head: string, lines: seq<string>)
    requires NoLineBreak(head)
    requires forall i :: 0 <= i < |lines| ==> NoLineBreak(lines[i])
    ensures Split(head + ListLines(lines)) == [head] + lines
    decreases lines
  {
    if lines == [] {
      assert head + ListLines(lines) == head;
      SplitSingleLine(head);
    } else {
      assert head + ListLines(lines) == head + "\n" + (lines[0] + ListLines(lines[1..]));
      SplitAfterLine(head, lines[0] + ListLines(lines[1..]));
      SplitListLines(lines[0], lines[1..]);
      assert [lines[0]] + lines[1..] == lines;
    }
  }

  /**
   * Read line by line, the unknown-board message is "invalid board: <name>",
   * "valid boards:", then every catalog identifier in the catalog's own
   * order (when no identifier contains a line break).
   */
  lemma NotFoundMessageLines(name: string, entries: Catalog)
    requires NoLineBreak(name)
    requires forall i :: 0 <= i < |entries| ==> NoLineBreak(entries[i].key)
    ensures Split(NotFoundMessage(name, Keys(entries))) ==
            ["invalid board: " + name, "valid boards:"] + Keys(entries)
  {
    var keys := Keys(entries);
    FirstLineHasNoBreak(name);
    SecondLineHasNoBreak();
    KeysHaveNoBreak(entries);
    NotFoundMessageShape(name, keys);
    SplitTwoLinesThenList("invalid board: " + name, "valid boards:", keys);
  }

  lemma FirstLineHasNoBreak(name: string)
    requires NoLineBreak(name)
    ensures NoLineBreak("invalid board: " + name)
  {
    assert NoLineBreak("invalid board: ");
    NoLineBreakConcat("invalid board: ", name);
  }

  lemma SecondLineHasNoBreak()
    ensures NoLineBreak("valid boards:")
  {
  }

  lemma KeysHaveNoBreak(entries: seq<Entry>)
    requires forall i :: 0 <= i < |entries| ==> NoLineBreak(entries[i].key)
    ensures forall i :: 0 <= i < |Keys(entries)| ==> NoLineBreak(Keys(entries)[i])
  {
  }

  lemma NotFoundMessageShape(name: string, keys: seq<string>)
    ensures NotFoundMessage(name, keys) == ("invalid board: " + name) + "\n" + ("valid boards:" + ListLines(keys))
  {
  }

  lemma SplitTwoLinesThenList(first: string, second: string, lines: seq<string>)
    requires NoLineBreak(first) && NoLineBreak(second)
    requires forall i :: 0 <= i < |lines| ==> NoLineBreak(lines[i])
    ensures Split(first + "\n" + (second + ListLines(lines))) == [first, second] + lines
  {
    SplitAfterLine(first, second + ListLines(lines));
    SplitListLines(second, lines);
  }

  /** How `validate_board_list` names an entry in its messages. */
  function Who(key: string): string {
    "Board \"" + key + "\""
  }

  /** The checks `validate_board_list` makes of one entry, in its order: the first that fails. */
  function EntryProblem(e: Entry): (r: Option<string>)
    ensures r.None? <==> RuntimeComplete(e.board)
    ensures e.board.name.None? ==> r == Some(Who(e.key) + " doesn't have a `name` key")
    ensures e.board.name.Some? && e.board.inherit.Some? ==> r == Some(Who(e.key) + " has illegal `inherit` key")
    ensures e.board.name.Some? && e.board.inherit.None? && e.board.reset.None? ==>
              r == Some(Who(e.key) + " doesn't have a `reset` key")
    ensures e.board.name.Some? && e.board.inherit.None? && e.board.reset.Some? && e.board.avrdude.None? ==>
              r == Some(Who(e.key) + " doesn't have an `avrdude` key")
    ensures e.board.name.Some? && e.board.inherit.None? && e.board.reset.Some? && e.board.avrdude.Some? ==>
              var a := e.board.avrdude.value;
              var opts := Who(e.key) + "'s avrdude options doesn't have a ";
              (a.programmer.None? ==> r == Some(opts + "`programmer` key")) &&
              (a.programmer.Some? && a.partno.None? ==> r == Some(opts + "`partno` key")) &&
              (a.programmer.Some? && a.partno.Some? && a.baudrate.None? ==> r == Some(opts + "`baudrate` key")) &&
              (a.programmer.Some? && a.partno.Some? && a.baudrate.Some? && a.doChipErase.None? ==>
                 r == Some(opts + "`do_chip_erase` key"))
  {
    var who := Who(e.key);
    if e.board.name.None? then Some(who + " doesn't have a `name` key")
    else if e.board.inherit.Some? then Some(who + " has illegal `inherit` key")
    else if e.board.reset.None? then Some(who + " doesn't have a `reset` key")
    else if e.board.avrdude.None? then Some(who + " doesn't have an `avrdude` key")
    else
      var a := e.board.avrdude.value;
      var opts := who + "'s avrdude options doesn't have a ";
      if a.programmer.None? then Some(opts + "`programmer` key")
      else if a.partno.None? then Some(opts + "`partno` key")
      else if a.baudrate.None? then Some(opts + "`baudrate` key")
      else if a.doChipErase.None? then Some(opts + "`do_chip_erase` key")
      else None
  }

  /** The invariant the catalog is tested for: every entry is complete. */
  predicate ValidBoardList(entries: seq<Entry>) {
    forall i :: 0 <= i < |entries| ==> RuntimeComplete(entries[i].board)
  }

  /**
   * The test `validate_board_list`: passes exactly when the catalog parses
   * and every entry is complete; otherwise reports the parse error or the
   * first failing check of the first incomplete entry. Built as a test, the
   * catalog loader uses its test-build message for a parse error.
   */
  method ValidateBoardList(src: CatalogSource) returns (r: Outcome)
    ensures r.Pass? <==> src.Parsed? && ValidBoardList(src.entries)
    ensures src.Malformed? ==> r == Fail(InvalidCatalogInTest + src.parserMessage)
    ensures src.Parsed? && r.Fail? ==>
              exists i :: 0 <= i < |src.entries| && EntryProblem(src.entries[i]) == Some(r.msg) &&
                          forall j :: 0 <= j < i ==> RuntimeComplete(src.entries[j].board)
  {
    if src.Malformed? {
      return Fail(InvalidCatalogInTest + src.parserMessage);
    }
    var entries := src.entries;
    var i := 0;
    while i < |entries|
      invariant 0 <= i <= |entries|
      invariant forall j :: 0 <= j < i ==> RuntimeComplete(entries[j].board)
    {
      var problem := EntryProblem(entries[i]);
      if problem.Some? {
        return Fail(problem.value);
      }
      i := i + 1;
    }
    return Pass;
  }

  /** In a valid catalog, every board found by name is complete. */
  lemma LookupInValidCatalog(src: CatalogSource, name: string)
    requires src.Parsed? && ValidBoardList(src.entries)
    requires BoardFromName(src, name).Ok?
    ensures RuntimeComplete(BoardFromName(src, name).value)
  {
    var i := IndexOf(src.entries, name).value;
    assert RuntimeComplete(src.entries[i].board);
  }

  /** A lookup succeeds exactly for the catalog's identifiers. */
  lemma LookupSucceedsOnKeys(src: CatalogSource, name: string)
    ensures BoardFromName(src, name).Ok? <==> src.Parsed? && name in Keys(src.entries)
  {
    if src.Parsed? && name in Keys(src.entries) {
      var i :| 0 <= i < |src.entries| && Keys(src.entries)[i] == name;
      assert src.entries[i].key == name;
    }
  }
}
