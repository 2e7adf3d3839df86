/**
 * The `create-event` edge function: method dispatch, the required-name check, the event row
 * it inserts, and the category rows it writes for the comma-separated category list. The
 * store's replies are inputs and the store calls the handler issues are its output.
 */
module CreateEvent {
  import opened Wrappers
  import opened Text
  import opened Store
  import opened Http

  /** The JSON body's fields; a field that is absent or null is None. */
  datatype EventBody = EventBody(
    name: Option<string>, date: Option<string>, time: Option<string>, venue: Option<string>,
    honoree: Option<string>, dressCode: Option<string>, colors: Option<string>,
    enabledCategories: Option<string>)

  /** An HTTP request: its method and its body, or the message of the JSON parse failure. */
  datatype Request = Request(httpMethod: string, body: Result<EventBody, string>)

  /** The row written to `events` (the creation time is left out). */
  datatype EventRow = EventRow(
    name: string, date: Option<string>, time: Option<string>, venue: Option<string>,
    honoree: Option<string>, dressCode: Option<string>, colors: Option<string>,
    enabledCategories: Option<string>)

  /** A row written to `categories`. */
  datatype CategoryRow = CategoryRow(eventId: string, name: string, color: Option<string>)

  datatype StoreWrite = InsertEvent(event: EventRow) | InsertCategory(category: CategoryRow)

  const NameRequired := "Event name is required"
  const EventCreated := "Event created successfully"

  /** `!name || name.trim() === ""`. */
  predicate NameMissing(name: Option<string>) {
    name.None? || Trim(name.value) == ""
  }

  /** The event row: the trimmed name, every other field as sent, absent ones as null. */
  function EventRowOf(body: EventBody): (row: EventRow)
    requires !NameMissing(body.name)
    ensures row.name == Trim(body.name.value) && row.name != ""
    ensures row.date == body.date && row.time == body.time && row.venue == body.venue
    ensures row.honoree == body.honoree && row.dressCode == body.dressCode && row.colors == body.colors
    ensures row.enabledCategories == body.enabledCategories
  {
    EventRow(Trim(body.name.value), body.date, body.time, body.venue, body.honoree, body.dressCode,
             body.colors, body.enabledCategories)
  }

  /** The category rows for the pieces of the list, in order: each piece trimmed, empty ones
      skipped, every row tied to the event and without a colour. */
  function CategoryRows(eventId: string, pieces: seq<string>): (rows: seq<CategoryRow>)
    ensures |rows| <= |pieces|
    ensures forall k :: 0 <= k < |rows| ==> rows[k].eventId == eventId && rows[k].color.None?
    decreases |pieces|
  {
    if pieces == [] then [] else CategoryRows(eventId, pieces[..|pieces| - 1]) + PieceRows(eventId, pieces[|pieces| - 1])
  }

  /** The row one piece gives: none for a blank piece, else the trimmed piece. */
  function PieceRows(eventId: string, piece: string): (rows: seq<CategoryRow>)
    ensures |rows| <= 1
    ensures rows == [] <==> Trim(piece) == ""
    ensures rows != [] ==> rows[0] == CategoryRow(eventId, Trim(piece), None)
  {
    var category := Trim(piece);
    if category == "" then [] else [CategoryRow(eventId, category, None)]
  }

  /** Every category row's name is a non-empty trimmed piece of the list. */
  lemma {:induction false} CategoryRowNames(eventId: string, pieces: seq<string>, k: int)
    requires 0 <= k < |CategoryRows(eventId, pieces)|
    ensures var n := CategoryRows(eventId, pieces)[k].name;
            n != "" && Trim(n) == n && exists i :: 0 <= i < |pieces| && Trim(pieces[i]) == n
    decreases |pieces|
  {
    var init := pieces[..|pieces| - 1];
    var rows := CategoryRows(eventId, pieces);
    var last := pieces[|pieces| - 1];
    assert rows == CategoryRows(eventId, init) + PieceRows(eventId, last);
    if k < |CategoryRows(eventId, init)| {
      CategoryRowNames(eventId, init, k);
      var i :| 0 <= i < |init| && Trim(init[i]) == rows[k].name;
      assert pieces[i] == init[i];
    } else {
      TrimIdempotent(last);
      assert rows[k].name == Trim(last);
      assert Trim(pieces[|pieces| - 1]) == rows[k].name;
    }
  }

  /** When no piece is blank, there is one row per piece, in order. */
  lemma {:induction false} CategoryRowsNoBlank(eventId: string, pieces: seq<string>)
    requires forall i :: 0 <= i < |pieces| ==> Trim(pieces[i]) != ""
    ensures |CategoryRows(eventId, pieces)| == |pieces|
    ensures forall i :: 0 <= i < |pieces| ==> CategoryRows(eventId, pieces)[i].name == Trim(pieces[i])
    decreases |pieces|
  {
    if pieces != [] {
      var init := pieces[..|pieces| - 1];
      var last := pieces[|pieces| - 1];
      CategoryRowsNoBlank(eventId, init);
      assert CategoryRows(eventId, pieces) == CategoryRows(eventId, init) + [CategoryRow(eventId, Trim(last), None)];
      forall i | 0 <= i < |pieces| ensures CategoryRows(eventId, pieces)[i].name == Trim(pieces[i]) {
        if i < |init| {
          assert pieces[i] == init[i];
        }
      }
    }
  }

  /** The category loop: one write per non-empty trimmed piece of `enabled.split(",")`. */
  method CategoryWrites(eventId: string, enabled: string) returns (rows: seq<CategoryRow>)
    ensures rows == CategoryRows(eventId, Split(enabled, ','))
  {
    var pieces := Split(enabled, ',');
    rows := [];
    for i := 0 to |pieces|
      invariant rows == CategoryRows(eventId, pieces[..i])
    {
      assert pieces[..i + 1][..i] == pieces[..i];
      var category := Trim(pieces[i]);
      if category != "" {
        rows := rows + [CategoryRow(eventId, category, None)];
      }
      assert rows == CategoryRows(eventId, pieces[..i]) + PieceRows(eventId, pieces[i]);
    }
    assert pieces[..|pieces|] == pieces;
  }

  /** A list written as names joined by "," (each non-empty, trimmed and comma-free) gives
      one category per name, in order. */
  lemma JoinedCategories(eventId: string, names: seq<string>)
    requires |names| >= 1
    requires forall i :: 0 <= i < |names| ==> names[i] != "" && Trim(names[i]) == names[i] && ',' !in names[i]
    ensures var rows := CategoryRows(eventId, Split(Join(names, ","), ','));
            |rows| == |names| && forall i :: 0 <= i < |names| ==> rows[i] == CategoryRow(eventId, names[i], None)
  {
    SplitJoin(names, ',');
    CategoryRowsNoBlank(eventId, names);
  }

  function InsertCategories(rows: seq<CategoryRow>): (writes: seq<StoreWrite>)
    ensures |writes| == |rows|
    ensures forall k :: 0 <= k < |rows| ==> writes[k] == InsertCategory(rows[k])
  {
    seq(|rows|, k requires 0 <= k < |rows| => InsertCategory(rows[k]))
  }

  /** The handler. `insertReply` is the store's answer to the event insert: the new event's id
      or the error message. The category inserts' results are not looked at. */
  method HandleCreateEvent(req: Request, insertReply: Result<string, string>)
    returns (resp: Response, writes: seq<StoreWrite>)
    ensures req.httpMethod == "OPTIONS" ==> resp == Preflight && writes == []
    ensures req.httpMethod != "OPTIONS" && req.httpMethod != "POST"
            ==> resp == MethodNotAllowed && writes == []
    ensures req.httpMethod == "POST" && req.body.Err?
            ==> resp == Response(500, ErrorMessage(req.body.error)) && writes == []
    ensures req.httpMethod == "POST" && req.body.Ok? && NameMissing(req.body.value.name)
            ==> resp == Response(400, ErrorMessage(NameRequired)) && writes == []
    ensures req.httpMethod == "POST" && req.body.Ok? && !NameMissing(req.body.value.name) ==>
            writes != [] && writes[0] == InsertEvent(EventRowOf(req.body.value))
    ensures req.httpMethod == "POST" && req.body.Ok? && !NameMissing(req.body.value.name) && insertReply.Err?
            ==> resp == Response(500, ErrorMessage(insertReply.error)) && |writes| == 1
    ensures req.httpMethod == "POST" && req.body.Ok? && !NameMissing(req.body.value.name) && insertReply.Ok?
            ==> resp == Response(201, Success(EventCreated))
                && writes[1..] == (if Truthy(req.body.value.enabledCategories)
                                   then InsertCategories(CategoryRows(insertReply.value, Split(req.body.value.enabledCategories.value, ',')))
                                   else [])
    ensures resp.status == 201 <==> req.httpMethod == "POST" && req.body.Ok? && !NameMissing(req.body.value.name) && insertReply.Ok?
  {
    if req.httpMethod == "OPTIONS" {
      return Preflight, [];
    }
    if req.httpMethod != "POST" {
      return MethodNotAllowed, [];
    }
    if req.body.Err? {
      return Response(500, ErrorMessage(req.body.error)), [];
    }
    var body := req.body.value;
    if NameMissing(body.name) {
      return Response(400, ErrorMessage(NameRequired)), [];
    }
    writes := [InsertEvent(EventRowOf(body))];
    if insertReply.Err? {
      return Response(500, ErrorMessage(insertReply.error)), writes;
    }
    if Truthy(body.enabledCategories) {
      var rows := CategoryWrites(insertReply.value, body.enabledCategories.value);
      writes := writes + InsertCategories(rows);
    }
    resp := Response(201, Success(EventCreated));
  }
}
