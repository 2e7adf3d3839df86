/**
 * The admin dashboard's derived views: the checked-in id set, the name search, the CSV export
 * of the guest list, and the `togglingOperator` marker around enabling or disabling an
 * operator.
 */
module Admin {
  import opened Wrappers
  import opened Text
  import opened Seqs
  import opened Store
  import opened Operators

  /** `new Set(checkIns.map(c => c.guest_id))`. */
  function CheckedInGuestIds(checkIns: seq<CheckIn>): (r: set<string>)
    ensures forall i :: 0 <= i < |checkIns| ==> checkIns[i].guestId in r
    ensures forall id :: id in r ==> exists i :: 0 <= i < |checkIns| && checkIns[i].guestId == id
  {
    set i | 0 <= i < |checkIns| :: checkIns[i].guestId
  }

  /** The name search: guests whose lower-cased name includes the lower-cased term. */
  function FilterGuests(guests: seq<Guest>, term: string): (r: seq<Guest>)
    ensures forall i :: 0 <= i < |r| ==> r[i] in guests && Contains(ToLower(r[i].name), ToLower(term))
    ensures forall i :: 0 <= i < |guests| && Contains(ToLower(guests[i].name), ToLower(term)) ==> guests[i] in r
  {
    Filter(guests, (g: Guest) => Contains(ToLower(g.name), ToLower(term)))
  }

  /** An empty search keeps every guest, in order. */
  lemma EmptySearchKeepsAll(guests: seq<Guest>)
    ensures FilterGuests(guests, "") == guests
  {
    var p := (g: Guest) => Contains(ToLower(g.name), ToLower(""));
    forall i | 0 <= i < |guests| ensures p(guests[i]) {
      ContainsEmpty(ToLower(guests[i].name));
    }
    FilterAll(guests, p);
  }

  /** Searching a list made of two parts searches each part, so relative order is kept. */
  lemma SearchKeepsOrder(a: seq<Guest>, b: seq<Guest>, term: string)
    ensures FilterGuests(a + b, term) == FilterGuests(a, term) + FilterGuests(b, term)
  {
    FilterAppend(a, b, (g: Guest) => Contains(ToLower(g.name), ToLower(term)));
  }

  const ExportHeaders: seq<string> := ["Name", "Category", "Phone", "Email", "Status", "Access Token"]
  /** The header line, the header names joined by ",". */
  const ExportHeader := Join(ExportHeaders, ",")
  const CheckedInStatus := "Checked In"
  const NotCheckedInStatus := "Not Checked In"

  /** The status column. */
  function Status(g: Guest, checkedIn: set<string>): (r: string)
    ensures r == CheckedInStatus <==> g.id in checkedIn
    ensures r == CheckedInStatus || r == NotCheckedInStatus
  {
    if g.id in checkedIn then CheckedInStatus else NotCheckedInStatus
  }

  /** A template literal's text for a nullable string: null prints as "null". */
  function TemplateText(s: Option<string>): string {
    if s.Some? then s.value else "null"
  }

  /** The six cells of a guest's row, one under each header: name, category, phone or "",
      e-mail or "", status, access token (null printed as "null"). */
  function ExportCells(g: Guest, checkedIn: set<string>): (r: seq<string>)
    ensures |r| == |ExportHeaders|
    ensures r[0] == g.name && r[1] == g.category
    ensures Truthy(g.phone) ==> r[2] == g.phone.value
    ensures !Truthy(g.phone) ==> r[2] == ""
    ensures Truthy(g.email) ==> r[3] == g.email.value
    ensures !Truthy(g.email) ==> r[3] == ""
    ensures r[4] == CheckedInStatus <==> g.id in checkedIn
    ensures r[4] == CheckedInStatus || r[4] == NotCheckedInStatus
    ensures g.accessToken.Some? ==> r[5] == g.accessToken.value
    ensures g.accessToken.None? ==> r[5] == "null"
  {
    [g.name, g.category, OrEmpty(g.phone), OrEmpty(g.email), Status(g, checkedIn), TemplateText(g.accessToken)]
  }

  /** `"${cell}"`: wrapped in double quotes, embedded quotes left as they are. */
  function Quote(cell: string): (r: string)
    ensures |r| == |cell| + 2 && r[0] == '"' && r[|r| - 1] == '"'
  {
    "\"" + cell + "\""
  }

  function QuoteAll(cells: seq<string>): (r: seq<string>)
    ensures |r| == |cells|
    ensures forall i :: 0 <= i < |r| ==> r[i] == Quote(cells[i])
  {
    seq(|cells|, i requires 0 <= i < |cells| => Quote(cells[i]))
  }

  /** One exported row: the quoted cells joined by ",". */
  function ExportLine(g: Guest, checkedIn: set<string>): string
  {
    Join(QuoteAll(ExportCells(g, checkedIn)), ",")
  }

  function ExportLines(guests: seq<Guest>, checkedIn: set<string>): (r: seq<string>)
    ensures |r| == |guests|
    ensures forall i :: 0 <= i < |r| ==> r[i] == ExportLine(guests[i], checkedIn)
  {
    seq(|guests|, i requires 0 <= i < |guests| => ExportLine(guests[i], checkedIn))
  }

  /** `handleExport`: no file for an empty list, else the header line and one line per guest,
      joined by "\n". */
  function ExportCsv(guests: seq<Guest>, checkIns: seq<CheckIn>): (r: Option<string>)
    ensures r.None? <==> guests == []
  {
    if guests == [] then None
    else Some(Join([ExportHeader] + ExportLines(guests, CheckedInGuestIds(checkIns)), "\n"))
  }

  /** A guest none of whose exported cells holds a line break. */
  predicate SingleLine(g: Guest) {
    '\n' !in g.name && '\n' !in g.category && '\n' !in OrEmpty(g.phone) && '\n' !in OrEmpty(g.email)
    && '\n' !in TemplateText(g.accessToken)
  }

  lemma {:induction false} ExportLineSingle(g: Guest, checkedIn: set<string>)
    requires SingleLine(g)
    ensures '\n' !in ExportLine(g, checkedIn)
  {
    var q := QuoteAll(ExportCells(g, checkedIn));
    forall i | 0 <= i < |q| ensures '\n' !in q[i] {
      assert q[i] == "\"" + ExportCells(g, checkedIn)[i] + "\"";
    }
    JoinExcludes(q, ",", '\n');
  }

  lemma HeaderSingle()
    ensures '\n' !in ExportHeader
  {
    forall i | 0 <= i < |ExportHeaders| ensures '\n' !in ExportHeaders[i] {
      assert ExportHeaders[i] in ExportHeaders;
    }
    JoinExcludes(ExportHeaders, ",", '\n');
  }

  /** The export's lines are the header and then exactly one line per guest, in guest order,
      as long as no cell holds a line break. */
  lemma ExportLayout(guests: seq<Guest>, checkIns: seq<CheckIn>)
    requires guests != []
    requires forall i :: 0 <= i < |guests| ==> SingleLine(guests[i])
    ensures var lines := Split(ExportCsv(guests, checkIns).value, '\n');
            |lines| == |guests| + 1 && lines[0] == ExportHeader
            && forall i :: 0 <= i < |guests| ==> lines[i + 1] == ExportLine(guests[i], CheckedInGuestIds(checkIns))
  {
    var ids := CheckedInGuestIds(checkIns);
    var parts := [ExportHeader] + ExportLines(guests, ids);
    PartsSingle(guests, ids);
    SplitJoin(parts, '\n');
  }

  /** Neither the header nor any guest's line holds a line break. */
  lemma PartsSingle(guests: seq<Guest>, ids: set<string>)
    requires forall i :: 0 <= i < |guests| ==> SingleLine(guests[i])
    ensures var parts := [ExportHeader] + ExportLines(guests, ids);
            forall i :: 0 <= i < |parts| ==> '\n' !in parts[i]
  {
    var lines := ExportLines(guests, ids);
    var parts := [ExportHeader] + lines;
    HeaderSingle();
    LinesSingle(guests, ids);
    forall i | 0 <= i < |parts| ensures '\n' !in parts[i] {
      if i > 0 {
        assert parts[i] == lines[i - 1];
      }
    }
  }

  /** No guest's line holds a line break. */
  lemma LinesSingle(guests: seq<Guest>, ids: set<string>)
    requires forall i :: 0 <= i < |guests| ==> SingleLine(guests[i])
    ensures var lines := ExportLines(guests, ids);
            forall i :: 0 <= i < |lines| ==> '\n' !in lines[i]
  {
    forall i | 0 <= i < |guests| ensures '\n' !in ExportLine(guests[i], ids) {
      ExportLineSingle(guests[i], ids);
    }
  }

  /** The switch of an operator row is disabled for one's own row and while that operator is
      being toggled. */
  predicate SwitchDisabled(op: Operator, currentUserId: Option<string>, togglingOperator: Option<string>) {
    currentUserId == Some(op.userId) || togglingOperator == Some(op.userId)
  }

  /** The admin page's operator toggle state. */
  class AdminPage {
    var togglingOperator: Option<string>

    constructor ()
      ensures togglingOperator == None
    {
      togglingOperator := None;
    }

    /** `handleToggleOperator`: refuse one's own account before any call; otherwise mark the
        operator as toggling for the length of the call and clear the mark afterwards,
        whatever the call's reply. Returns the marker seen during the call and whether the
        toggle function was invoked. */
    method HandleToggleOperator(op: Operator, currentUserId: Option<string>, enabled: bool, reply: InvokeReply)
      returns (invoked: bool, markerDuringCall: Option<string>, succeeded: bool)
      modifies this
      ensures invoked <==> currentUserId != Some(op.userId)
      ensures !invoked ==> togglingOperator == old(togglingOperator) && !succeeded
      ensures invoked ==> markerDuringCall == Some(op.userId) && togglingOperator == None
      ensures succeeded <==> invoked && !InvokeFailed(reply)
      ensures invoked ==> SwitchDisabled(op, currentUserId, markerDuringCall)
      ensures !SwitchDisabled(op, currentUserId, togglingOperator) <==> invoked
    {
      if currentUserId == Some(op.userId) {
        return false, None, false;
      }
      togglingOperator := Some(op.userId);
      invoked := true;
      markerDuringCall := togglingOperator;
      succeeded := !InvokeFailed(reply);
      togglingOperator := None;
    }
  }
}
