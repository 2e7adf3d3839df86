/**
 * The guest-roster CSV import dialog: the line and cell splitting of `parseCSV`, the header
 * column lookup, the per-row defaults, and the dialog state around parsing and inserting.
 * The parser splits every line on every comma and strips at most one double quote from each
 * end of a cell; quoted commas, doubled quotes and quoted line breaks are not understood.
 */
module CsvImport {
  import opened Wrappers
  import opened Text
  import opened Store

  datatype ParsedGuest = ParsedGuest(name: string, phone: Option<string>, email: Option<string>, category: string)

  const HeaderRowError := "CSV must have a header row and at least one data row"
  const NameColumnError := "CSV must have a 'name' column"
  const NoGuestsError := "No valid guests found in CSV"
  const DefaultCategory := "Regular"

  /** `.replace(/^"|"$/g, "")`: one leading and one trailing double quote are dropped. */
  function StripQuotes(v: string): (r: string)
    ensures var front := if v != [] && v[0] == '"' then 1 else 0;
            var back := if |v| > front && v[|v| - 1] == '"' then 1 else 0;
            r == v[front..|v| - back]
    ensures v == [] || (v[0] != '"' && v[|v| - 1] != '"') ==> r == v
    ensures |v| - 2 <= |r| <= |v|
  {
    var a := if v != [] && v[0] == '"' then v[1..] else v;
    if a != [] && a[|a| - 1] == '"' then a[..|a| - 1] else a
  }

  /** Wrapping a value in one pair of quotes and stripping gives the value back, whatever
      quotes the value itself holds. */
  lemma StripQuotesOfQuoted(v: string)
    ensures StripQuotes("\"" + v + "\"") == v
  {
    var q := "\"" + v + "\"";
    assert q[1..] == v + "\"";
    assert (v + "\"")[..|v|] == v;
  }

  /** One data cell: trimmed, then unquoted. */
  function Cell(v: string): string {
    StripQuotes(Trim(v))
  }

  /** The cells of a data line: `line.split(",").map(...)`. */
  function Cells(line: string): (r: seq<string>)
    ensures |r| == |Split(line, ',')|
  {
    var parts := Split(line, ',');
    seq(|parts|, i requires 0 <= i < |parts| => Cell(parts[i]))
  }

  /** The header cells: `lines[0].toLowerCase().split(",").map(h => h.trim())`. */
  function HeaderCells(line: string): (r: seq<string>)
    ensures |r| == |Split(ToLower(line), ',')|
  {
    var parts := Split(ToLower(line), ',');
    seq(|parts|, i requires 0 <= i < |parts| => Trim(parts[i]))
  }

  predicate IsNameHeader(h: string) { h == "name" }
  predicate IsPhoneHeader(h: string) { h == "phone" || h == "phone number" }
  predicate IsEmailHeader(h: string) { h == "email" || h == "email address" }
  predicate IsCategoryHeader(h: string) { h == "category" || h == "type" }

  /** `findIndex`: the first cell satisfying `p`, or None for -1. */
  function FindIndex(cells: seq<string>, p: string -> bool): (r: Option<nat>)
    ensures r.Some? ==> r.value < |cells| && p(cells[r.value])
    ensures r.Some? ==> forall j :: 0 <= j < r.value ==> !p(cells[j])
    ensures r.None? ==> forall j :: 0 <= j < |cells| ==> !p(cells[j])
    decreases |cells|
  {
    if cells == [] then None
    else if p(cells[0]) then Some(0)
    else
      var r := FindIndex(cells[1..], p);
      if r.None? then None else Some(r.value + 1)
  }

  /** The column positions found in the header row. */
  datatype Columns = Columns(name: nat, phone: Option<nat>, email: Option<nat>, category: Option<nat>)

  function HeaderColumns(headerLine: string): Option<Columns>
  {
    var header := HeaderCells(headerLine);
    var nameIdx := FindIndex(header, IsNameHeader);
    if nameIdx.None? then None
    else Some(Columns(nameIdx.value, FindIndex(header, IsPhoneHeader),
                      FindIndex(header, IsEmailHeader), FindIndex(header, IsCategoryHeader)))
  }

  /** `values[i]`: undefined (None) past the end of the row. */
  function Lookup(values: seq<string>, i: nat): (r: Option<string>)
    ensures r.Some? <==> i < |values|
  {
    if i < |values| then Some(values[i]) else None
  }

  /** An optional column's value, kept only when non-empty (`values[idx] || undefined`). */
  function OptionalCell(values: seq<string>, idx: Option<nat>): (r: Option<string>)
    ensures r.Some? <==> idx.Some? && idx.value < |values| && values[idx.value] != ""
    ensures r.Some? ==> r.value == values[idx.value]
  {
    if idx.None? then None else OrNull(Lookup(values, idx.value))
  }

  /** The category of a row: the trimmed cell when the column exists and the cell is non-empty,
      else "Regular". */
  function RowCategory(values: seq<string>, idx: Option<nat>): (r: string)
    ensures idx.None? || idx.value >= |values| || values[idx.value] == "" ==> r == DefaultCategory
    ensures idx.Some? && idx.value < |values| && values[idx.value] != "" ==> r == Trim(values[idx.value])
  {
    if idx.Some? && Truthy(Lookup(values, idx.value)) then Trim(values[idx.value]) else DefaultCategory
  }

  /** The guest a data line yields, or None when its name cell is missing or empty. */
  function RowGuest(line: string, cols: Columns): (r: Option<ParsedGuest>)
    ensures r.Some? <==> Truthy(Lookup(Cells(line), cols.name))
    ensures r.Some? ==> r.value.name == Cells(line)[cols.name] && r.value.name != ""
  {
    var values := Cells(line);
    var name := Lookup(values, cols.name);
    if !Truthy(name) then None
    else Some(ParsedGuest(name.value, OptionalCell(values, cols.phone), OptionalCell(values, cols.email),
                          RowCategory(values, cols.category)))
  }

  /** The defaults of a kept row: phone and e-mail are absent when their column is missing,
      lies past the end of the row or holds an empty cell, and otherwise hold the cell; the
      category is "Regular" in those cases and otherwise the trimmed cell. */
  lemma RowGuestFields(line: string, cols: Columns)
    requires RowGuest(line, cols).Some?
    ensures var g := RowGuest(line, cols).value;
            var values := Cells(line);
            (g.phone.Some? <==> cols.phone.Some? && cols.phone.value < |values| && values[cols.phone.value] != "")
            && (g.phone.Some? ==> g.phone.value == values[cols.phone.value])
            && (g.email.Some? <==> cols.email.Some? && cols.email.value < |values| && values[cols.email.value] != "")
            && (g.email.Some? ==> g.email.value == values[cols.email.value])
            && (cols.category.None? || cols.category.value >= |values| || values[cols.category.value] == "" ==>
                  g.category == DefaultCategory)
            && (cols.category.Some? && cols.category.value < |values| && values[cols.category.value] != "" ==>
                  g.category == Trim(values[cols.category.value]))
  {
    var values := Cells(line);
    assert RowGuest(line, cols).value == ParsedGuest(values[cols.name], OptionalCell(values, cols.phone),
      OptionalCell(values, cols.email), RowCategory(values, cols.category));
  }

  function RowGuests(line: string, cols: Columns): seq<ParsedGuest> {
    var g := RowGuest(line, cols);
    if g.Some? then [g.value] else []
  }

  /** The guests of the data lines, in line order. */
  function ParseRows(lines: seq<string>, cols: Columns): (r: seq<ParsedGuest>)
    ensures |r| <= |lines|
    decreases |lines|
  {
    if lines == [] then []
    else ParseRows(lines[..|lines| - 1], cols) + RowGuests(lines[|lines| - 1], cols)
  }

  /** `parseCSV` as a function of the file's text. */
  function ParseCsvSpec(content: string): Result<seq<ParsedGuest>, string>
  {
    ParseLines(Split(Trim(content), '\n'))
  }

  /** The lines of the trimmed content: a header line, then data lines. */
  function ParseLines(lines: seq<string>): (r: Result<seq<ParsedGuest>, string>)
    ensures |lines| < 2 ==> r == Err(HeaderRowError)
    ensures |lines| >= 2 && HeaderColumns(lines[0]).None? ==> r == Err(NameColumnError)
    ensures r.Ok? ==> |r.value| <= |lines| - 1
  {
    if |lines| < 2 then Err(HeaderRowError)
    else
      var cols := HeaderColumns(lines[0]);
      if cols.None? then Err(NameColumnError)
      else Ok(ParseRows(lines[1..], cols.value))
  }

  /** The rows of two blocks of lines are the rows of each, in order. */
  lemma {:induction false} ParseRowsAppend(a: seq<string>, b: seq<string>, cols: Columns)
    ensures ParseRows(a + b, cols) == ParseRows(a, cols) + ParseRows(b, cols)
    decreases |b|
  {
    if b == [] {
      assert a + b == a;
    } else {
      var b' := b[..|b| - 1];
      assert (a + b)[..|a + b| - 1] == a + b';
      assert (a + b)[|a + b| - 1] == b[|b| - 1];
      ParseRowsAppend(a, b', cols);
    }
  }

  /** Every parsed guest has a non-empty name taken from its row's name column. */
  lemma {:induction false} ParseRowsNames(lines: seq<string>, cols: Columns, k: int)
    requires 0 <= k < |ParseRows(lines, cols)|
    ensures ParseRows(lines, cols)[k].name != ""
    ensures exists i :: 0 <= i < |lines| && RowGuest(lines[i], cols) == Some(ParseRows(lines, cols)[k])
    decreases |lines|
  {
    var init := lines[..|lines| - 1];
    var last := lines[|lines| - 1];
    if k < |ParseRows(init, cols)| {
      ParseRowsNames(init, cols, k);
      var i :| 0 <= i < |init| && RowGuest(init[i], cols) == Some(ParseRows(init, cols)[k]);
      assert lines[i] == init[i];
    } else {
      assert RowGuest(lines[|lines| - 1], cols) == Some(ParseRows(lines, cols)[k]);
    }
  }

  /** A header without a cell equal to "name" after lower-casing and trimming is refused. */
  lemma NoNameColumnRefused(lines: seq<string>)
    requires |lines| >= 2
    requires forall j :: 0 <= j < |HeaderCells(lines[0])| ==> HeaderCells(lines[0])[j] != "name"
    ensures ParseLines(lines) == Err(NameColumnError)
  {
  }

  /** Empty content has only one (empty) line and is refused. */
  lemma EmptyContentRefused()
    ensures ParseCsvSpec("") == Err(HeaderRowError)
  {
  }

  /** One more data line adds that line's guest, if any, to the rows so far. */
  lemma ParseRowsNext(lines: seq<string>, i: nat, cols: Columns)
    requires 1 <= i < |lines|
    ensures ParseRows(lines[1..i + 1], cols) == ParseRows(lines[1..i], cols) + RowGuests(lines[i], cols)
  {
    assert lines[1..i + 1][..i - 1] == lines[1..i];
  }

  /** `parseCSV`: the header checks, then the loop over the data lines. */
  method ParseCsv(content: string) returns (r: Result<seq<ParsedGuest>, string>)
    ensures r == ParseCsvSpec(content)
  {
    var lines := Split(Trim(content), '\n');
    if |lines| < 2 {
      return Err(HeaderRowError);
    }
    var header := HeaderCells(lines[0]);
    var nameIdx := FindIndex(header, IsNameHeader);
    var phoneIdx := FindIndex(header, IsPhoneHeader);
    var emailIdx := FindIndex(header, IsEmailHeader);
    var categoryIdx := FindIndex(header, IsCategoryHeader);
    if nameIdx.None? {
      return Err(NameColumnError);
    }
    var guests := PushGuests(lines, Columns(nameIdx.value, phoneIdx, emailIdx, categoryIdx));
    return Ok(guests);
  }

  /** The loop of `parseCSV`: from the second line on, one guest pushed per line whose name
      cell is non-empty, skipping the others. */
  method PushGuests(lines: seq<string>, cols: Columns) returns (guests: seq<ParsedGuest>)
    requires |lines| >= 1
    ensures guests == ParseRows(lines[1..], cols)
  {
    guests := [];
    for i := 1 to |lines|
      invariant guests == ParseRows(lines[1..i], cols)
    {
      ParseRowsNext(lines, i, cols);
      var values := Cells(lines[i]);
      var name := Lookup(values, cols.name);
      if !Truthy(name) {
        continue;
      }
      var category := DefaultCategory;
      if cols.category.Some? && Truthy(Lookup(values, cols.category.value)) {
        category := Trim(values[cols.category.value]);
      }
      guests := guests + [ParsedGuest(name.value, OptionalCell(values, cols.phone), OptionalCell(values, cols.email), category)];
    }
    assert lines[1..|lines|] == lines[1..];
  }

  /** The rows `handleImport` inserts: the dialog's event id on each, absent contacts as null. */
  function ImportRows(parsed: seq<ParsedGuest>, eventId: string): (r: seq<GuestInsert>)
    ensures |r| == |parsed|
    ensures forall i :: 0 <= i < |r| ==>
              r[i].eventId == eventId && r[i].name == parsed[i].name && r[i].category == parsed[i].category
    ensures forall i :: 0 <= i < |r| ==> r[i].phone == OrNull(parsed[i].phone) && r[i].email == OrNull(parsed[i].email)
  {
    seq(|parsed|, i requires 0 <= i < |parsed| =>
      GuestInsert(eventId, parsed[i].name, OrNull(parsed[i].phone), OrNull(parsed[i].email), parsed[i].category))
  }

  /** The import dialog's state. */
  class CsvImportDialog {
    var parsedGuests: seq<ParsedGuest>
    var error: Option<string>
    var isLoading: bool
    var open: bool

    constructor (isOpen: bool)
      ensures parsedGuests == [] && error == None && !isLoading && open == isOpen
    {
      parsedGuests := [];
      error := None;
      isLoading := false;
      open := isOpen;
    }

    /** `handleFileChange` with the file's text (None when no file was picked). */
    method HandleFileChange(file: Option<string>)
      modifies this
      ensures file.None? ==> parsedGuests == old(parsedGuests) && error == old(error)
      ensures file.Some? ==>
                var p := ParseCsvSpec(file.value);
                if p.Err? then error == Some(p.error) && parsedGuests == old(parsedGuests)
                else if p.value == [] then error == Some(NoGuestsError) && parsedGuests == old(parsedGuests)
                else error == None && parsedGuests == p.value
      ensures isLoading == old(isLoading) && open == old(open)
    {
      if file.None? {
        return;
      }
      error := None;
      var r := ParseCsv(file.value);
      if r.Err? {
        error := Some(r.error);
        return;
      }
      if |r.value| == 0 {
        error := Some(NoGuestsError);
        return;
      }
      parsedGuests := r.value;
    }

    /** `handleImport`: returns the rows sent to the store (None: no insert was made); the
        dialog closes and forgets the parsed guests only when the insert succeeds. */
    method HandleImport(eventId: string, insertSucceeds: bool) returns (inserted: Option<seq<GuestInsert>>)
      modifies this
      ensures old(parsedGuests) == [] ==>
                inserted.None? && parsedGuests == [] && open == old(open) && isLoading == old(isLoading)
      ensures old(parsedGuests) != [] ==> inserted == Some(ImportRows(old(parsedGuests), eventId))
      ensures old(parsedGuests) != [] && insertSucceeds ==> parsedGuests == [] && !open
      ensures old(parsedGuests) != [] && !insertSucceeds ==> parsedGuests == old(parsedGuests) && open == old(open)
      ensures old(parsedGuests) != [] ==> !isLoading
      ensures error == old(error)
    {
      if |parsedGuests| == 0 {
        return None;
      }
      isLoading := true;
      inserted := Some(ImportRows(parsedGuests, eventId));
      if insertSucceeds {
        open := false;
        parsedGuests := [];
      }
      isLoading := false;
    }
  }
}
