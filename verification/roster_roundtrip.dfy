/**
 * How the admin page's CSV export and the import dialog's parser fit together: an exported
 * roster whose cells hold no comma and no line break parses back into the same guests (with
 * the import's defaults applied), while a comma inside a quoted cell splits the cell.
 */
module RosterRoundTrip {
  import opened Wrappers
  import opened Text
  import opened Store
  import opened Admin
  import opened CsvImport

  /** What the import makes of one exported guest: the same name, phone and e-mail (empty
      ones dropped), and the trimmed category or "Regular" in place of an empty one. */
  function Imported(g: Guest): ParsedGuest {
    ParsedGuest(g.name, OrNull(g.phone), OrNull(g.email),
                if g.category == "" then DefaultCategory else Trim(g.category))
  }

  /** The guests the import yields for an exported list: those with a name, in order. */
  function ImportedAll(guests: seq<Guest>): (r: seq<ParsedGuest>)
    ensures |r| <= |guests|
    decreases |guests|
  {
    if guests == [] then []
    else
      var last := guests[|guests| - 1];
      ImportedAll(guests[..|guests| - 1]) + (if last.name == "" then [] else [Imported(last)])
  }

  /** With every name non-empty, every guest comes back, position by position. */
  lemma {:induction false} ImportedAllNamed(guests: seq<Guest>)
    requires forall i :: 0 <= i < |guests| ==> guests[i].name != ""
    ensures |ImportedAll(guests)| == |guests|
    ensures forall i :: 0 <= i < |guests| ==> ImportedAll(guests)[i] == Imported(guests[i])
    decreases |guests|
  {
    if guests != [] {
      var init := guests[..|guests| - 1];
      ImportedAllNamed(init);
      assert ImportedAll(guests) == ImportedAll(init) + [Imported(guests[|guests| - 1])];
      forall i | 0 <= i < |guests| ensures ImportedAll(guests)[i] == Imported(guests[i]) {
        if i < |init| {
          assert guests[i] == init[i];
        }
      }
    }
  }

  /** A guest none of whose exported cells holds a comma or a line break. */
  predicate Plain(g: Guest) {
    SingleLine(g)
    && ',' !in g.name && ',' !in g.category && ',' !in OrEmpty(g.phone) && ',' !in OrEmpty(g.email)
    && ',' !in TemplateText(g.accessToken)
  }

  const LowerHeaders: seq<string> := ["name", "category", "phone", "email", "status", "access token"]

  lemma LowerExportHeaders()
    ensures LowerAll(ExportHeaders) == LowerHeaders
  {
    assert ToLower("Name") == "name";
    assert ToLower("Category") == "category";
    assert ToLower("Phone") == "phone";
    assert ToLower("Email") == "email";
    assert ToLower("Status") == "status";
    assert ToLower("Access Token") == "access token";
  }

  lemma SplitLowerJoin(names: seq<string>)
    requires |names| >= 1
    requires forall i :: 0 <= i < |names| ==> ',' !in ToLower(names[i])
    ensures Split(ToLower(Join(names, ",")), ',') == LowerAll(names)
  {
    var lower := LowerAll(names);
    ToLowerJoin(names, ",");
    assert ToLower(",") == [','];
    assert forall i :: 0 <= i < |lower| ==> ',' !in lower[i];
    SplitJoin(lower, ',');
  }

  /** A header line built by joining names with "," reads as the lower-cased names, when
      no name holds a comma or surrounding spaces. */
  lemma HeaderCellsOfJoin(names: seq<string>)
    requires |names| >= 1
    requires forall i :: 0 <= i < |names| ==> ',' !in ToLower(names[i]) && Trim(ToLower(names[i])) == ToLower(names[i])
    ensures HeaderCells(Join(names, ",")) == LowerAll(names)
  {
    SplitLowerJoin(names);
  }

  /** The export's header line reads, for the import, as these six column names. */
  lemma HeaderCellsOfExport()
    ensures HeaderCells(ExportHeader) == LowerHeaders
  {
    LowerExportHeaders();
    forall i | 0 <= i < |ExportHeaders|
      ensures ',' !in ToLower(ExportHeaders[i]) && Trim(ToLower(ExportHeaders[i])) == ToLower(ExportHeaders[i])
    {
      assert ToLower(ExportHeaders[i]) == LowerHeaders[i];
      assert LowerHeaders[i] in LowerHeaders;
      TrimNoop(LowerHeaders[i]);
    }
    HeaderCellsOfJoin(ExportHeaders);
  }

  /** The columns the import finds in the export's header. */
  lemma HeaderColumnsOfExport()
    ensures HeaderColumns(ExportHeader) == Some(Columns(0, Some(2), Some(3), Some(1)))
  {
    HeaderCellsOfExport();
    ColumnsOfHeaderCells(ExportHeader);
  }

  /** A header line whose cells are the export's column names has the name in column 0,
      the category in 1, the phone in 2 and the e-mail in 3. */
  lemma ColumnsOfHeaderCells(line: string)
    requires HeaderCells(line) == LowerHeaders
    ensures HeaderColumns(line) == Some(Columns(0, Some(2), Some(3), Some(1)))
  {
    var h := HeaderCells(line);
    NameColumn(h);
    PhoneColumn(h);
    EmailColumn(h);
    CategoryColumn(h);
  }

  lemma NameColumn(h: seq<string>)
    requires |h| >= 1 && h[0] == "name"
    ensures FindIndex(h, IsNameHeader) == Some(0)
  {
  }

  lemma PhoneColumn(h: seq<string>)
    requires |h| >= 3 && h[0] == "name" && h[1] == "category" && h[2] == "phone"
    ensures FindIndex(h, IsPhoneHeader) == Some(2)
  {
    FindIndexAt(h, IsPhoneHeader, 2);
  }

  lemma EmailColumn(h: seq<string>)
    requires |h| >= 4 && h[0] == "name" && h[1] == "category" && h[2] == "phone" && h[3] == "email"
    ensures FindIndex(h, IsEmailHeader) == Some(3)
  {
    FindIndexAt(h, IsEmailHeader, 3);
  }

  lemma CategoryColumn(h: seq<string>)
    requires |h| >= 2 && h[0] == "name" && h[1] == "category"
    ensures FindIndex(h, IsCategoryHeader) == Some(1)
  {
    FindIndexAt(h, IsCategoryHeader, 1);
  }

  /** `findIndex` returns the first position whose cell satisfies the test. */
  lemma FindIndexAt(cells: seq<string>, p: string -> bool, k: nat)
    requires k < |cells| && p(cells[k])
    requires forall j :: 0 <= j < k ==> !p(cells[j])
    ensures FindIndex(cells, p) == Some(k)
  {
  }

  /** A quoted cell reads back as the cell. */
  lemma CellOfQuoted(c: string)
    ensures Cell(Quote(c)) == c
  {
    TrimNoop(Quote(c));
    StripQuotesOfQuoted(c);
  }

  /** The cells the import reads from an exported line are the exported cells. */
  lemma CellsOfExportLine(g: Guest, checkedIn: set<string>)
    requires Plain(g)
    ensures Cells(ExportLine(g, checkedIn)) == ExportCells(g, checkedIn)
  {
    var cells := ExportCells(g, checkedIn);
    var q := QuoteAll(cells);
    forall i | 0 <= i < |q| ensures ',' !in q[i] {
      assert ',' !in CheckedInStatus && ',' !in NotCheckedInStatus;
      assert q[i] == "\"" + cells[i] + "\"";
    }
    SplitJoin(q, ',');
    forall i | 0 <= i < |cells| ensures Cells(ExportLine(g, checkedIn))[i] == cells[i] {
      CellOfQuoted(cells[i]);
    }
  }

  /** The guest the import reads from one exported line. */
  lemma RowOfExportLine(g: Guest, checkedIn: set<string>)
    requires Plain(g)
    ensures RowGuest(ExportLine(g, checkedIn), Columns(0, Some(2), Some(3), Some(1)))
         == if g.name == "" then None else Some(Imported(g))
  {
    CellsOfExportLine(g, checkedIn);
    RowOfCells(ExportLine(g, checkedIn), g, checkedIn);
  }

  lemma RowOfCells(line: string, g: Guest, checkedIn: set<string>)
    requires Cells(line) == ExportCells(g, checkedIn)
    ensures RowGuest(line, Columns(0, Some(2), Some(3), Some(1)))
         == if g.name == "" then None else Some(Imported(g))
  {
    var values := Cells(line);
    OptionalOfExport(values, 2, g.phone);
    OptionalOfExport(values, 3, g.email);
    CategoryOfExport(values, g.category);
  }

  lemma OptionalOfExport(values: seq<string>, k: nat, v: Option<string>)
    requires k < |values| && values[k] == OrEmpty(v)
    ensures OptionalCell(values, Some(k)) == OrNull(v)
  {
  }

  lemma CategoryOfExport(values: seq<string>, category: string)
    requires 1 < |values| && values[1] == category
    ensures RowCategory(values, Some(1)) == if category == "" then DefaultCategory else Trim(category)
  {
  }

  lemma {:induction false} RowsOfExportLines(guests: seq<Guest>, checkedIn: set<string>)
    requires forall i :: 0 <= i < |guests| ==> Plain(guests[i])
    ensures ParseRows(ExportLines(guests, checkedIn), Columns(0, Some(2), Some(3), Some(1))) == ImportedAll(guests)
    decreases |guests|
  {
    if guests != [] {
      var lines := ExportLines(guests, checkedIn);
      var init := guests[..|guests| - 1];
      assert lines[..|lines| - 1] == ExportLines(init, checkedIn);
      RowsOfExportLines(init, checkedIn);
      RowOfExportLine(guests[|guests| - 1], checkedIn);
    }
  }

  /** The exported text has nothing for the import's `trim()` to remove. */
  lemma ExportUntrimmed(guests: seq<Guest>, checkIns: seq<CheckIn>)
    requires guests != []
    ensures var content := ExportCsv(guests, checkIns).value; Trim(content) == content
  {
    var ids := CheckedInGuestIds(checkIns);
    var lines := ExportLines(guests, ids);
    HeaderStart();
    LineEnd(guests[|guests| - 1], ids);
    assert lines[|lines| - 1] == ExportLine(guests[|guests| - 1], ids);
    LinesUntrimmed(ExportHeader, lines);
  }

  /** A header starting with "N" followed by lines the last of which ends with a quote joins
      into text that `trim()` leaves alone. */
  lemma LinesUntrimmed(header: string, lines: seq<string>)
    requires header != [] && header[0] == 'N'
    requires lines != [] && lines[|lines| - 1] != [] && lines[|lines| - 1][|lines[|lines| - 1]| - 1] == '"'
    ensures Trim(Join([header] + lines, "\n")) == Join([header] + lines, "\n")
  {
    var parts := [header] + lines;
    assert parts[0] == header && parts[|parts| - 1] == lines[|lines| - 1];
    JoinUntrimmed(parts, "\n");
  }

  /** The export's header starts with "N". */
  lemma HeaderStart()
    ensures ExportHeader != [] && ExportHeader[0] == 'N'
  {
    JoinEnds(ExportHeaders, ",");
    assert ExportHeaders[0] == "Name";
  }

  /** Every exported line ends with a closing quote. */
  lemma LineEnd(g: Guest, ids: set<string>)
    ensures var line := ExportLine(g, ids); line != [] && line[|line| - 1] == '"'
  {
    var q := QuoteAll(ExportCells(g, ids));
    JoinEnds(q, ",");
    var last := q[|q| - 1];
    assert last == Quote(ExportCells(g, ids)[5]);
  }

  /** Text with nothing to trim and a header naming the columns parses its data lines. */
  lemma ParseOfLines(content: string, lines: seq<string>, cols: Columns)
    requires Trim(content) == content && Split(content, '\n') == lines
    requires |lines| >= 2 && HeaderColumns(lines[0]) == Some(cols)
    ensures ParseCsvSpec(content) == Ok(ParseRows(lines[1..], cols))
  {
  }

  /** The export's text has the export header and then the guests' lines. */
  lemma ExportedText(guests: seq<Guest>, checkIns: seq<CheckIn>) returns (content: string, lines: seq<string>)
    requires guests != []
    requires forall i :: 0 <= i < |guests| ==> SingleLine(guests[i])
    ensures content == ExportCsv(guests, checkIns).value
    ensures Trim(content) == content && Split(content, '\n') == lines
    ensures |lines| >= 2 && HeaderColumns(lines[0]) == Some(Columns(0, Some(2), Some(3), Some(1)))
    ensures lines[1..] == ExportLines(guests, CheckedInGuestIds(checkIns))
  {
    content := ExportCsv(guests, checkIns).value;
    lines := Split(content, '\n');
    ExportUntrimmed(guests, checkIns);
    DataLines(guests, checkIns);
    HeaderColumnsOfExport();
  }

  /** The import reads the export's header and parses each of its data lines. */
  lemma ExportParses(guests: seq<Guest>, checkIns: seq<CheckIn>)
    requires guests != []
    requires forall i :: 0 <= i < |guests| ==> Plain(guests[i])
    ensures ParseCsvSpec(ExportCsv(guests, checkIns).value)
            == Ok(ParseRows(ExportLines(guests, CheckedInGuestIds(checkIns)), Columns(0, Some(2), Some(3), Some(1))))
  {
    var content, lines := ExportedText(guests, checkIns);
    ParseOfLines(content, lines, Columns(0, Some(2), Some(3), Some(1)));
  }

  lemma DataLines(guests: seq<Guest>, checkIns: seq<CheckIn>)
    requires guests != []
    requires forall i :: 0 <= i < |guests| ==> SingleLine(guests[i])
    ensures var lines := Split(ExportCsv(guests, checkIns).value, '\n');
            |lines| >= 2 && lines[0] == ExportHeader && lines[1..] == ExportLines(guests, CheckedInGuestIds(checkIns))
  {
    ExportLayout(guests, checkIns);
  }

  /** The first cell the import reads from the line of a guest whose name holds a comma is
      the part of the name before the comma, minus the opening quote. */
  lemma FirstCellOfCommaName(g: Guest, first: string, rest: string, ids: set<string>)
    requires g.name == first + "," + rest
    requires first != [] && ',' !in first && !IsSpace(first[|first| - 1]) && first[|first| - 1] != '"'
    ensures Cells(ExportLine(g, ids))[0] == first
  {
    var line := ExportLine(g, ids);
    var q := QuoteAll(ExportCells(g, ids));
    assert line == q[0] + "," + Join(q[1..], ",");
    var tail := rest + "\"" + "," + Join(q[1..], ",");
    assert q[0] + "," + Join(q[1..], ",") == "\"" + first + [','] + tail;
    SplitCons("\"" + first, ',', tail);
    TrimNoop("\"" + first);
    assert ("\"" + first)[1..] == first;
    assert Cell("\"" + first) == first;
  }

  /** Exporting a roster and importing the file gives back its guests, as long as no cell
      holds a comma or a line break: every named guest, in order, with its name, phone and
      e-mail, and its category trimmed or "Regular" when empty. */
  lemma {:induction false} ExportThenImport(guests: seq<Guest>, checkIns: seq<CheckIn>)
    requires guests != []
    requires forall i :: 0 <= i < |guests| ==> Plain(guests[i])
    ensures ParseCsvSpec(ExportCsv(guests, checkIns).value) == Ok(ImportedAll(guests))
  {
    ExportParses(guests, checkIns);
    RowsOfExportLines(guests, CheckedInGuestIds(checkIns));
  }

  /** A comma inside a name is not protected by the export's quotes: the import cuts the name
      at the comma and keeps only the part before it (here without its opening quote). */
  lemma CommaInNameCuts(g: Guest, first: string, rest: string, checkIns: seq<CheckIn>)
    requires SingleLine(g) && g.name == first + "," + rest
    requires first != [] && ',' !in first && !IsSpace(first[|first| - 1]) && first[|first| - 1] != '"'
    ensures var r := ParseCsvSpec(ExportCsv([g], checkIns).value);
            r.Ok? && |r.value| == 1 && r.value[0].name == first && r.value[0].name != g.name
  {
    var cols := Columns(0, Some(2), Some(3), Some(1));
    var content, lines := ExportedText([g], checkIns);
    ParseOfLines(content, lines, cols);
    var line := ExportLine(g, CheckedInGuestIds(checkIns));
    FirstCellOfCommaName(g, first, rest, CheckedInGuestIds(checkIns));
    assert lines[1..] == [line];
    assert ParseRows([line], cols) == RowGuests(line, cols);
  }
}
