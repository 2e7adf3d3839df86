/**
 * The guest, check-in and statistics queries of the guests hook, as functions over the
 * `guests` and `check_ins` tables, and the check-in mutation as an append to `check_ins`.
 */
module GuestQueries {
  import opened Wrappers
  import opened Seqs
  import opened Store

  /** The event's guests, in table order (`.eq("event_id", eventId)`). */
  function EventGuests(table: seq<Guest>, eventId: string): seq<Guest>
  {
    Filter(table, (g: Guest) => g.eventId == eventId)
  }

  /** Code-point lexicographic order on names: the order `.order("name")` returns rows in. */
  predicate NameLe(a: string, b: string)
    decreases |a|
  {
    a == [] || (b != [] && (a[0] < b[0] || (a[0] == b[0] && NameLe(a[1..], b[1..]))))
  }

  lemma {:induction false} NameLeTotal(a: string, b: string)
    ensures NameLe(a, b) || NameLe(b, a)
    decreases |a|
  {
    if a != [] && b != [] && a[0] == b[0] {
      NameLeTotal(a[1..], b[1..]);
    }
  }

  lemma {:induction false} NameLeTrans(a: string, b: string, c: string)
    requires NameLe(a, b) && NameLe(b, c)
    ensures NameLe(a, c)
    decreases |a|
  {
    if a != [] && b != [] && c != [] && a[0] == b[0] && b[0] == c[0] {
      NameLeTrans(a[1..], b[1..], c[1..]);
    }
  }

  predicate SortedByName(s: seq<Guest>) {
    forall i, j :: 0 <= i < j < |s| ==> NameLe(s[i].name, s[j].name)
  }

  lemma SortedCons(g: Guest, s: seq<Guest>)
    requires SortedByName(s)
    requires s != [] ==> NameLe(g.name, s[0].name)
    ensures SortedByName([g] + s)
  {
    var r := [g] + s;
    forall i, j | 0 <= i < j < |r|
      ensures NameLe(r[i].name, r[j].name)
    {
      if i == 0 && j > 1 {
        NameLeTrans(g.name, s[0].name, s[j - 1].name);
      }
    }
  }

  /** Inserting one guest into a name-sorted list keeps it sorted and adds exactly that guest. */
  function InsertByName(g: Guest, s: seq<Guest>): (r: seq<Guest>)
    requires SortedByName(s)
    ensures SortedByName(r)
    ensures multiset(r) == multiset(s) + multiset{g}
    decreases |s|
  {
    if s == [] then [g]
    else if NameLe(g.name, s[0].name) then
      SortedCons(g, s);
      [g] + s
    else
      var t := InsertByName(g, s[1..]);
      assert s == [s[0]] + s[1..];
      InsertedHead(g, s, t);
      SortedCons(s[0], t);
      [s[0]] + t
  }

  /** When `g` goes after the head of a sorted list, whatever heads the insertion into the
      rest is no smaller than that head. */
  lemma InsertedHead(g: Guest, s: seq<Guest>, t: seq<Guest>)
    requires SortedByName(s) && s != [] && !NameLe(g.name, s[0].name)
    requires multiset(t) == multiset(s[1..]) + multiset{g}
    ensures t != [] ==> NameLe(s[0].name, t[0].name)
  {
    if t != [] {
      assert t[0] in multiset(t);
      if t[0] == g {
        NameLeTotal(g.name, s[0].name);
      } else {
        assert t[0] in multiset(s[1..]);
        var k :| 0 <= k < |s[1..]| && s[1..][k] == t[0];
        assert s[k + 1] == t[0];
      }
    }
  }

  /** The rows the store returns for `.order("name")`: sorted by name, the same rows. */
  function SortByName(s: seq<Guest>): (r: seq<Guest>)
    ensures SortedByName(r)
    ensures multiset(r) == multiset(s)
    decreases |s|
  {
    if s == [] then []
    else
      assert s == [s[0]] + s[1..];
      InsertByName(s[0], SortByName(s[1..]))
  }

  /** `useGuests(eventId)`: the event's guests ordered by name, or [] without an event id. */
  function GuestsForEvent(table: seq<Guest>, eventId: Option<string>): (r: seq<Guest>)
    ensures !Truthy(eventId) ==> r == []
    ensures Truthy(eventId) ==> SortedByName(r)
    ensures Truthy(eventId) ==> multiset(r) == multiset(EventGuests(table, eventId.value))
  {
    if !Truthy(eventId) then [] else SortByName(EventGuests(table, eventId.value))
  }

  /** The guest list holds exactly the event's guests. */
  lemma GuestsForEventMembers(table: seq<Guest>, eventId: string, g: Guest)
    requires eventId != ""
    ensures g in GuestsForEvent(table, Some(eventId)) <==> g in table && g.eventId == eventId
  {
    var r := GuestsForEvent(table, Some(eventId));
    var e := EventGuests(table, eventId);
    assert g in r <==> g in multiset(r);
    assert g in e <==> g in multiset(e);
    if g in table && g.eventId == eventId {
      var i :| 0 <= i < |table| && table[i] == g;
    }
  }

  /** `useGuestByToken(token)`: the guest holding that access token, if any. */
  function GuestByToken(table: seq<Guest>, token: Option<string>): (r: Result<Option<Guest>, string>)
    ensures !Truthy(token) ==> r == Ok(None)
    ensures r.Ok? && r.value.Some? ==> r.value.value in table && r.value.value.accessToken == token
    ensures Truthy(token) ==> (r.Err? <==> Count(table, (g: Guest) => g.accessToken == token) > 1)
    ensures r.Err? ==> r.error == MultipleRowsError
  {
    if !Truthy(token) then Ok(None)
    else
      var m := Filter(table, (g: Guest) => g.accessToken == token);
      if |m| == 0 then Ok(None)
      else if |m| == 1 then Ok(Some(m[0]))
      else Err(MultipleRowsError)
  }

  /** A token lookup finds nothing only when no guest holds the token. */
  lemma GuestByTokenNone(table: seq<Guest>, token: string, g: Guest)
    requires token != ""
    requires GuestByToken(table, Some(token)) == Ok(None)
    requires g in table
    ensures g.accessToken != Some(token)
  {
    var i :| 0 <= i < |table| && table[i] == g;
  }

  /** A token held by exactly one guest finds that guest. */
  lemma GuestByTokenUnique(table: seq<Guest>, token: string, i: int)
    requires token != ""
    requires 0 <= i < |table| && table[i].accessToken == Some(token)
    requires forall j :: 0 <= j < |table| && j != i ==> table[j].accessToken != Some(token)
    ensures GuestByToken(table, Some(token)) == Ok(Some(table[i]))
  {
    FilterSingle(table, (g: Guest) => g.accessToken == Some(token), i);
  }

  /** A token held by two guests is refused with the `maybeSingle` error, never resolved
      to either of them. */
  lemma TwoHoldersError(table: seq<Guest>, token: string, i: int, j: int)
    requires token != ""
    requires 0 <= i < j < |table| && table[i].accessToken == Some(token) && table[j].accessToken == Some(token)
    ensures GuestByToken(table, Some(token)) == Err(MultipleRowsError)
  {
    var p := (g: Guest) => g.accessToken == Some(token);
    assert table == table[..j] + [table[j]] + table[j + 1..];
    FilterAppend(table[..j] + [table[j]], table[j + 1..], p);
    FilterAppend(table[..j], [table[j]], p);
    assert table[..j][i] == table[i];
    assert table[i] in Filter(table[..j], p);
  }

  /** The check-in belongs to a guest of the event (the `guests!inner` join). */
  predicate OfEvent(c: CheckIn, guests: seq<Guest>, eventId: string) {
    exists i :: 0 <= i < |guests| && guests[i].id == c.guestId && guests[i].eventId == eventId
  }

  /** The event's check-in rows: one per row of `check_ins`, not one per guest. */
  function EventCheckIns(checkIns: seq<CheckIn>, guests: seq<Guest>, eventId: string): seq<CheckIn>
  {
    Filter(checkIns, (c: CheckIn) => OfEvent(c, guests, eventId))
  }

  /** `useCheckIns(eventId)`: the event's check-ins, or [] without an event id. */
  function CheckInsForEvent(checkIns: seq<CheckIn>, guests: seq<Guest>, eventId: Option<string>): (r: seq<CheckIn>)
    ensures !Truthy(eventId) ==> r == []
    ensures forall i :: 0 <= i < |r| ==> r[i] in checkIns && OfEvent(r[i], guests, eventId.value)
    ensures Truthy(eventId) ==>
              forall i :: 0 <= i < |checkIns| && OfEvent(checkIns[i], guests, eventId.value) ==> checkIns[i] in r
  {
    if !Truthy(eventId) then [] else EventCheckIns(checkIns, guests, eventId.value)
  }

  /** Each check-in row of an event guest is listed as often as it occurs in `check_ins`,
      and no other row is listed. */
  lemma CheckInsForEventCounts(checkIns: seq<CheckIn>, guests: seq<Guest>, eventId: string, c: CheckIn)
    requires eventId != ""
    ensures multiset(CheckInsForEvent(checkIns, guests, Some(eventId)))[c]
            == if OfEvent(c, guests, eventId) then multiset(checkIns)[c] else 0
  {
    FilterMultiplicity(checkIns, (x: CheckIn) => OfEvent(x, guests, eventId), c);
  }

  /** The listed rows keep the table's order: listing two runs of rows lists each run. */
  lemma CheckInsForEventOrder(a: seq<CheckIn>, b: seq<CheckIn>, guests: seq<Guest>, eventId: string)
    requires eventId != ""
    ensures CheckInsForEvent(a + b, guests, Some(eventId))
            == CheckInsForEvent(a, guests, Some(eventId)) + CheckInsForEvent(b, guests, Some(eventId))
  {
    FilterAppend(a, b, (x: CheckIn) => OfEvent(x, guests, eventId));
  }

  /** `useCreateCheckIn`: a plain insert into `check_ins`, with no check for an existing row. */
  function CreateCheckIn(ledger: seq<CheckIn>, guestId: string, scannedBy: Option<string>): (r: seq<CheckIn>)
    ensures |r| == |ledger| + 1
    ensures r[..|ledger|] == ledger
    ensures r[|ledger|] == CheckIn(guestId, scannedBy)
    ensures Count(r, (c: CheckIn) => c.guestId == guestId) == Count(ledger, (c: CheckIn) => c.guestId == guestId) + 1
  {
    var r := ledger + [CheckIn(guestId, scannedBy)];
    CountSnoc(ledger, CheckIn(guestId, scannedBy), (c: CheckIn) => c.guestId == guestId);
    r
  }

  /** The four figures of the dashboard. */
  datatype Stats = Stats(total: int, checkedIn: int, vip: int, pending: int)

  /** `useCheckInStats(eventId)`: three store replies in the order they are awaited, each an error
      or data; a count may be missing (`null`) and counts as 0. */
  function CheckInStats(
    eventId: Option<string>,
    totalReply: Result<Option<nat>, string>,
    vipReply: Result<Option<nat>, string>,
    checkInsReply: Result<Option<seq<CheckIn>>, string>): (r: Result<Stats, string>)
    ensures !Truthy(eventId) ==> r == Ok(Stats(0, 0, 0, 0))
    ensures Truthy(eventId) ==> (r.Err? <==> totalReply.Err? || vipReply.Err? || checkInsReply.Err?)
    ensures Truthy(eventId) && totalReply.Err? ==> r == Err(totalReply.error)
    ensures Truthy(eventId) && totalReply.Ok? && vipReply.Err? ==> r == Err(vipReply.error)
    ensures Truthy(eventId) && totalReply.Ok? && vipReply.Ok? && checkInsReply.Err? ==> r == Err(checkInsReply.error)
    ensures Truthy(eventId) && r.Ok? ==>
              r.value.total == (if totalReply.value.Some? then totalReply.value.value else 0)
              && r.value.vip == (if vipReply.value.Some? then vipReply.value.value else 0)
              && r.value.checkedIn == (if checkInsReply.value.Some? then |checkInsReply.value.value| else 0)
    ensures r.Ok? ==> r.value.pending + r.value.checkedIn == r.value.total
    ensures r.Ok? ==> r.value.total >= 0 && r.value.checkedIn >= 0 && r.value.vip >= 0
  {
    if !Truthy(eventId) then Ok(Stats(0, 0, 0, 0))
    else if totalReply.Err? then Err(totalReply.error)
    else if vipReply.Err? then Err(vipReply.error)
    else if checkInsReply.Err? then Err(checkInsReply.error)
    else
      var total := totalReply.value.GetOr(0);
      var checkedIn := if checkInsReply.value.Some? then |checkInsReply.value.value| else 0;
      Ok(Stats(total, checkedIn, vipReply.value.GetOr(0), total - checkedIn))
  }

  /** What the store answers for the event: the exact counts and the joined rows. */
  function StatsOfTables(guests: seq<Guest>, checkIns: seq<CheckIn>, eventId: string): Result<Stats, string>
  {
    CheckInStats(
      Some(eventId),
      Ok(Some(|EventGuests(guests, eventId)|)),
      Ok(Some(Count(guests, (g: Guest) => g.eventId == eventId && g.category == "VIP"))),
      Ok(Some(EventCheckIns(checkIns, guests, eventId))))
  }

  /** For the store's exact answers, the figures are the number of the event's guests, the
      number of its check-in rows and the number of its guests in category "VIP", which never
      exceeds the total. */
  lemma StatsOfTablesMeaning(guests: seq<Guest>, checkIns: seq<CheckIn>, eventId: string)
    requires eventId != ""
    ensures var s := StatsOfTables(guests, checkIns, eventId);
            s.Ok? && s.value.total == |EventGuests(guests, eventId)|
            && s.value.checkedIn == |EventCheckIns(checkIns, guests, eventId)|
            && s.value.vip == Count(EventGuests(guests, eventId), (g: Guest) => g.category == "VIP")
            && s.value.vip <= s.value.total
            && s.value.pending == s.value.total - s.value.checkedIn
  {
    FilterFilter(guests, (g: Guest) => g.eventId == eventId, (g: Guest) => g.category == "VIP",
                 (g: Guest) => g.eventId == eventId && g.category == "VIP");
  }

  /** A missing count (`null`) reads exactly as 0, and missing check-in data as no rows,
      whatever the other replies are. */
  lemma StatsMissingCounts(
    eventId: string,
    totalReply: Result<Option<nat>, string>,
    vipReply: Result<Option<nat>, string>,
    checkInsReply: Result<Option<seq<CheckIn>>, string>)
    requires eventId != ""
    ensures CheckInStats(Some(eventId), Ok(None), vipReply, checkInsReply)
            == CheckInStats(Some(eventId), Ok(Some(0)), vipReply, checkInsReply)
    ensures CheckInStats(Some(eventId), totalReply, Ok(None), checkInsReply)
            == CheckInStats(Some(eventId), totalReply, Ok(Some(0)), checkInsReply)
    ensures CheckInStats(Some(eventId), totalReply, vipReply, Ok(None))
            == CheckInStats(Some(eventId), totalReply, vipReply, Ok(Some([])))
  {
  }

  /** Checking the same guest in twice adds two to the checked-in figure and takes two off
      pending: nothing in the check-in path deduplicates. */
  lemma {:induction false} RepeatedCheckInCountsTwice(
    guests: seq<Guest>, checkIns: seq<CheckIn>, eventId: string, i: int, a: Option<string>, b: Option<string>)
    requires eventId != ""
    requires 0 <= i < |guests| && guests[i].eventId == eventId
    ensures var before := StatsOfTables(guests, checkIns, eventId).value;
            var after := StatsOfTables(guests, CreateCheckIn(CreateCheckIn(checkIns, guests[i].id, a), guests[i].id, b), eventId).value;
            after.checkedIn == before.checkedIn + 2 && after.pending == before.pending - 2 && after.total == before.total
  {
    var p := (c: CheckIn) => OfEvent(c, guests, eventId);
    var once := CreateCheckIn(checkIns, guests[i].id, a);
    var twice := CreateCheckIn(once, guests[i].id, b);
    assert OfEvent(CheckIn(guests[i].id, a), guests, eventId);
    assert OfEvent(CheckIn(guests[i].id, b), guests, eventId);
    CountSnoc(checkIns, CheckIn(guests[i].id, a), p);
    CountSnoc(once, CheckIn(guests[i].id, b), p);
  }

  /** Pending is total minus check-in rows, so it goes negative once a guest is checked in twice. */
  lemma PendingCanBeNegative()
    ensures var g := Guest("g1", "e1", "Ada Obi", "VIP", None, None, Some("tok_9f8e7d6c5b4a"));
            StatsOfTables([g], [CheckIn("g1", None), CheckIn("g1", None)], "e1") == Ok(Stats(1, 2, 1, -1))
  {
    var g := Guest("g1", "e1", "Ada Obi", "VIP", None, None, Some("tok_9f8e7d6c5b4a"));
    var c := CheckIn("g1", None);
    assert OfEvent(c, [g], "e1") by { assert [g][0].id == c.guestId; }
    FilterAll([g], (x: Guest) => x.eventId == "e1");
    FilterAll([g], (x: Guest) => x.eventId == "e1" && x.category == "VIP");
    FilterAll([c, c], (x: CheckIn) => OfEvent(x, [g], "e1"));
    assert StatsOfTables([g], [c, c], "e1") == CheckInStats(Some("e1"), Ok(Some(1)), Ok(Some(1)), Ok(Some([c, c])));
  }
}
