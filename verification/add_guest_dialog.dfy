/**
 * The add-guest dialog: the required name, the insert it hands to the create-guest mutation
 * (trimmed name, phone and e-mail trimmed or null, the selected category), and what a success
 * clears.
 */
module AddGuestDialog {
  import opened Wrappers
  import opened Text
  import opened Store

  /** The category a new form starts with. */
  const DefaultCategory := "Regular"

  /** The insert for a submitted form, or None when the name is blank. */
  function GuestPayload(eventId: string, name: string, phone: string, email: string, category: string)
    : Option<GuestInsert>
  {
    if Trim(name) == "" then None
    else Some(GuestInsert(eventId, Trim(name), OrNull(Some(Trim(phone))), OrNull(Some(Trim(email))), category))
  }

  /** `s.trim() || null` is null exactly for a blank string, and otherwise the trimmed text,
      which is no longer blank and which trimming again leaves alone. */
  lemma TrimOrNullMeaning(s: string)
    ensures OrNull(Some(Trim(s))).None? <==> IsBlank(s)
    ensures OrNull(Some(Trim(s))).Some? ==>
              OrNull(Some(Trim(s))).value == Trim(s) && !IsBlank(Trim(s)) && Trim(Trim(s)) == Trim(s)
  {
    TrimEmptyIffBlank(s);
    TrimEmptyIffBlank(Trim(s));
    TrimIdempotent(s);
  }

  /** A blank name sends nothing; any other form sends the event, the trimmed non-blank name,
      phone and e-mail each trimmed or null when blank, and the category as selected. */
  lemma GuestPayloadMeaning(eventId: string, name: string, phone: string, email: string, category: string)
    ensures GuestPayload(eventId, name, phone, email, category).None? <==> IsBlank(name)
    ensures var p := GuestPayload(eventId, name, phone, email, category);
            p.Some? ==>
              p.value.eventId == eventId && p.value.category == category
              && p.value.name == Trim(name) && !IsBlank(p.value.name) && Trim(p.value.name) == p.value.name
              && (p.value.phone.None? <==> IsBlank(phone)) && (p.value.phone.Some? ==> p.value.phone.value == Trim(phone))
              && (p.value.email.None? <==> IsBlank(email)) && (p.value.email.Some? ==> p.value.email.value == Trim(email))
  {
    TrimOrNullMeaning(name);
    TrimOrNullMeaning(phone);
    TrimOrNullMeaning(email);
  }

  /** What the user is told after a submit. */
  datatype Feedback = NameRequired | GuestAdded(name: string) | AddFailed

  class AddGuestForm {
    const eventId: string
    var name: string
    var phone: string
    var email: string
    var category: string
    var open: bool

    constructor (eventId: string, open: bool)
      ensures this.eventId == eventId && this.open == open
      ensures name == "" && phone == "" && email == "" && category == DefaultCategory
    {
      this.eventId := eventId;
      name := "";
      phone := "";
      email := "";
      category := DefaultCategory;
      this.open := open;
    }

    /** `handleSubmit`: a blank name sends nothing and changes nothing; otherwise the insert is
        handed to the mutation. A success clears name, phone and e-mail, keeps the category
        and closes the dialog (the message names the guest as typed); a failure keeps it all. */
    method HandleSubmit(failed: bool) returns (insert: Option<GuestInsert>, feedback: Feedback)
      modifies this`name, this`phone, this`email, this`open
      ensures insert == GuestPayload(eventId, old(name), old(phone), old(email), category)
      ensures insert.None? ==> feedback == NameRequired
      ensures insert.None? || failed ==>
                name == old(name) && phone == old(phone) && email == old(email) && open == old(open)
      ensures insert.Some? && failed ==> feedback == AddFailed
      ensures insert.Some? && !failed ==>
                feedback == GuestAdded(old(name)) && name == "" && phone == "" && email == "" && !open
    {
      insert := GuestPayload(eventId, name, phone, email, category);
      if insert.None? {
        return insert, NameRequired;
      }
      if failed {
        return insert, AddFailed;
      }
      feedback := GuestAdded(name);
      name, phone, email := "", "", "";
      open := false;
    }
  }
}
