/**
 * Rows of the backend tables the application reads and writes (guests, check_ins, events,
 * categories, user_roles, profiles), as values. The backend itself is abstract: reads are
 * functions over these tables and writes are values handed back to the caller.
 */
module Store {
  import opened Wrappers

  /** A row of `guests`. */
  datatype Guest = Guest(
    id: string,
    eventId: string,
    name: string,
    category: string,
    phone: Option<string>,
    email: Option<string>,
    accessToken: Option<string>)

  /** A row handed to `guests` inserts (the store fills in id and access token). */
  datatype GuestInsert = GuestInsert(
    eventId: string,
    name: string,
    phone: Option<string>,
    email: Option<string>,
    category: string)

  /** A row of `check_ins`: which guest was scanned and by which operator. */
  datatype CheckIn = CheckIn(guestId: string, scannedBy: Option<string>)

  /** A row of `events`. */
  datatype Event = Event(
    id: string,
    name: string,
    date: Option<string>,
    time: Option<string>,
    venue: Option<string>,
    honoree: Option<string>,
    dressCode: Option<string>,
    colors: Option<string>,
    enabledCategories: Option<string>)

  /** A row of `categories` as the category dialog sees it. */
  datatype Category = Category(id: string, eventId: string, name: string, color: string)

  /** A row of `user_roles`. */
  datatype UserRole = UserRole(
    id: string,
    userId: string,
    role: Option<string>,
    displayName: Option<string>,
    createdAt: string)

  /** A row of `profiles`. */
  datatype Profile = Profile(userId: string, displayName: Option<string>)

  /** JavaScript truthiness of an optional string: present and not "". */
  predicate Truthy(s: Option<string>) {
    s.Some? && s.value != ""
  }

  /** `s || null` on an optional string: keep it only when it is truthy. */
  function OrNull(s: Option<string>): (r: Option<string>)
    ensures r.Some? <==> Truthy(s)
    ensures r.Some? ==> r == s
  {
    if Truthy(s) then s else None
  }

  /** `s || ""` on an optional string: its text, or "" when it is null. */
  function OrEmpty(s: Option<string>): string {
    if s.Some? then s.value else ""
  }

  /** The error `maybeSingle()` raises when more than one row matches. */
  const MultipleRowsError := "multiple rows returned"

  /** The reply of `supabase.functions.invoke`: a transport error, or data that may carry
      an `error` field. */
  datatype InvokeReply = InvokeReply(transportError: Option<string>, dataError: Option<string>)

  /** What every dialog does with such a reply: `if (error) throw error;
      if (data?.error) throw new Error(data.error);`. */
  predicate InvokeFailed(reply: InvokeReply) {
    reply.transportError.Some? || Truthy(reply.dataError)
  }
}
