/**
 * The layout of the `--help` table printed by `printHelpTable`: the flag column
 * is as wide as the longest flag, and a section header precedes an entry whose
 * header type differs from the previous entry's. The text itself goes to
 * standard output, which is not modelled; the layout decisions are.
 */
module HelpTable {

  datatype FlagEntry = FlagEntry(flag: string, description: string, headerType: char)

  /** The table, without the terminating `{NULL, NULL, ' '}` entry. */
  const FlagList: seq<FlagEntry> := [
    FlagEntry("-h, --help", "print this message", 'g'),
    FlagEntry("-a, --about", "print compilation information", 'g'),
    FlagEntry("-nl <n>", "run program using n locales", 'g'),
    FlagEntry("", "(equivalent to setting the numLocales config const)", 'g'),
    FlagEntry("-q, --quiet", "run program in quiet mode", 'g'),
    FlagEntry("-v, --verbose", "run program in verbose mode", 'g'),
    FlagEntry("-b, --blockreport", "report location of blocked threads on SIGINT", 'g'),
    FlagEntry("-t, --taskreport", "report list of pending and executing tasks on SIGINT", 'g'),
    FlagEntry("--gdb", "run program in gdb", 'g'),
    FlagEntry("-E<name=value>", "set the value of an environment variable", 'g'),
    FlagEntry("-s, --<cfgVar>=<val>", "set the value of a config var", 'c'),
    FlagEntry("-f<filename>", "read in a file of config var assignments", 'c')
  ]

  /** The lines `printHeaders` writes for a header type: a blank line, then a title and its rule for known types. */
  function HeaderLines(headerType: char): (r: seq<string>)
    ensures |r| >= 1 && r[0] == ""
    ensures headerType in {'c', 'g'} ==> |r| == 3 && |r[2]| == |r[1]| && forall c :: c in r[2] ==> c == '='
    ensures headerType !in {'c', 'g'} ==> r == [""]
  {
    match headerType
    case 'c' => ["", "CONFIG VAR FLAGS:", "================="]
    case 'g' => ["", "FLAGS:", "======"]
    case _ => [""]
  }

  /** One printed row: the header lines before it, the flag padded to the column width, the separator and the description. */
  datatype Row = Row(header: seq<string>, flag: string, width: nat, separator: string, description: string)

  /** The header type the row at `k` is compared with: the previous entry's, or NUL for the first. */
  function PreviousType(list: seq<FlagEntry>, k: nat): char
    requires k <= |list|
  {
    if k == 0 then '\0' else list[k - 1].headerType
  }

  /** The row printed for entry `k` of `list` when the flag column is `width` wide. */
  ghost predicate RowFor(list: seq<FlagEntry>, width: nat, k: nat, row: Row)
    requires k < |list|
  {
    && row.flag == list[k].flag
    && row.description == list[k].description
    && row.width == width
    && row.separator == (if list[k].flag == "" then "    " else "  : ")
    && row.header == (if list[k].headerType != PreviousType(list, k) then HeaderLines(list[k].headerType) else [])
  }

  /** The `longestFlag` loop: the widest flag of the table. */
  method LongestFlag(list: seq<FlagEntry>) returns (w: nat)
    ensures forall k :: 0 <= k < |list| ==> |list[k].flag| <= w
    ensures w == 0 || exists k :: 0 <= k < |list| && |list[k].flag| == w
  {
    w := 0;
    var i := 0;
    while i < |list|
      invariant 0 <= i <= |list|
      invariant forall k :: 0 <= k < i ==> |list[k].flag| <= w
      invariant w == 0 || exists k :: 0 <= k < i && |list[k].flag| == w
    {
      if w < |list[i].flag| {
        w := |list[i].flag|;
      }
      i := i + 1;
    }
  }

  /** `printHeaders`: header lines only when the type changes; the last type is updated then. */
  method PrintHeaders(thisType: char, lastType: char) returns (lines: seq<string>, newLast: char)
    ensures thisType != lastType ==> lines == HeaderLines(thisType) && lines != []
    ensures thisType == lastType ==> lines == []
    ensures newLast == thisType
  {
    lines, newLast := [], lastType;
    if thisType != lastType {
      lines := HeaderLines(thisType);
      newLast := thisType;
    }
  }

  /** `printHelpTable`: the column width and one row per entry, in order, with headers where the type changes. */
  method PrintHelpTable(list: seq<FlagEntry>) returns (width: nat, rows: seq<Row>)
    ensures forall k :: 0 <= k < |list| ==> |list[k].flag| <= width
    ensures width == 0 || exists k :: 0 <= k < |list| && |list[k].flag| == width
    ensures |rows| == |list|
    ensures forall k :: 0 <= k < |list| ==> RowFor(list, width, k, rows[k])
  {
    width := LongestFlag(list);
    var lastHeaderType := '\0';
    rows := [];
    var i := 0;
    while i < |list|
      invariant 0 <= i <= |list|
      invariant lastHeaderType == PreviousType(list, i)
      invariant |rows| == i
      invariant forall k :: 0 <= k < i ==> RowFor(list, width, k, rows[k])
    {
      var header;
      header, lastHeaderType := PrintHeaders(list[i].headerType, lastHeaderType);
      var separator := if list[i].flag == "" then "    " else "  : ";
      var row := Row(header, list[i].flag, width, separator, list[i].description);
      assert RowFor(list, width, i, row);
      rows := rows + [row];
      i := i + 1;
    }
  }

  /** In the launcher's own table the flag column is 20 wide and headers stand before entries 0 and 10 only. */
  lemma FlagListLayout()
    ensures forall k :: 0 <= k < |FlagList| ==> |FlagList[k].flag| <= 20
    ensures |FlagList[10].flag| == 20
    ensures forall k :: 0 <= k < |FlagList| ==>
      (FlagList[k].headerType != PreviousType(FlagList, k) <==> k == 0 || k == 10)
    ensures FlagList[0].headerType == 'g' && FlagList[10].headerType == 'c'
  {
  }
}
