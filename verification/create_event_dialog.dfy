/**
 * The create-event dialog: the required name, the body it sends to the `create-event`
 * function (trimmed name, date and time as typed or null, the other fields trimmed or null),
 * and the reset after a successful call.
 */
module CreateEventDialog {
  import opened Wrappers
  import opened Text
  import opened Store
  import opened CreateEvent

  /** The body sent for a form, or None when the name is blank. Date and time are only
      nulled when empty; the other optional fields are trimmed and nulled when blank. */
  function DialogBody(
    name: string, date: string, time: string, venue: string, honoree: string,
    dressCode: string, colors: string, enabledCategories: string): Option<EventBody>
  {
    if Trim(name) == "" then None
    else Some(EventBody(
      Some(Trim(name)), OrNull(Some(date)), OrNull(Some(time)), OrNull(Some(Trim(venue))),
      OrNull(Some(Trim(honoree))), OrNull(Some(Trim(dressCode))), OrNull(Some(Trim(colors))),
      OrNull(Some(Trim(enabledCategories)))))
  }

  /** A blank name sends nothing. Otherwise the name is trimmed; date and time go as typed,
      null only when empty (so a date of spaces is sent); every other field is null exactly
      when blank and trimmed otherwise. */
  lemma DialogBodyMeaning(
    name: string, date: string, time: string, venue: string, honoree: string,
    dressCode: string, colors: string, enabledCategories: string)
    ensures DialogBody(name, date, time, venue, honoree, dressCode, colors, enabledCategories).None? <==> IsBlank(name)
    ensures var b := DialogBody(name, date, time, venue, honoree, dressCode, colors, enabledCategories);
            b.Some? ==>
              b.value.name == Some(Trim(name))
              && (b.value.date.None? <==> date == "") && (b.value.date.Some? ==> b.value.date.value == date)
              && (b.value.time.None? <==> time == "") && (b.value.time.Some? ==> b.value.time.value == time)
              && (b.value.venue.None? <==> IsBlank(venue)) && (b.value.venue.Some? ==> b.value.venue.value == Trim(venue))
              && (b.value.honoree.None? <==> IsBlank(honoree)) && (b.value.honoree.Some? ==> b.value.honoree.value == Trim(honoree))
              && (b.value.dressCode.None? <==> IsBlank(dressCode))
              && (b.value.dressCode.Some? ==> b.value.dressCode.value == Trim(dressCode))
              && (b.value.colors.None? <==> IsBlank(colors)) && (b.value.colors.Some? ==> b.value.colors.value == Trim(colors))
              && (b.value.enabledCategories.None? <==> IsBlank(enabledCategories))
              && (b.value.enabledCategories.Some? ==> b.value.enabledCategories.value == Trim(enabledCategories))
  {
    TrimEmptyIffBlank(name);
    TrimEmptyIffBlank(venue);
    TrimEmptyIffBlank(honoree);
    TrimEmptyIffBlank(dressCode);
    TrimEmptyIffBlank(colors);
    TrimEmptyIffBlank(enabledCategories);
  }

  /** A body the dialog sends always passes the function's name check, and the stored event
      is named with the trimmed name. */
  lemma DialogBodyAccepted(
    name: string, date: string, time: string, venue: string, honoree: string,
    dressCode: string, colors: string, enabledCategories: string)
    requires DialogBody(name, date, time, venue, honoree, dressCode, colors, enabledCategories).Some?
    ensures var b := DialogBody(name, date, time, venue, honoree, dressCode, colors, enabledCategories).value;
            !NameMissing(b.name) && EventRowOf(b).name == Trim(name)
  {
    TrimIdempotent(name);
  }

  /** Category names typed as a comma-separated list (each non-empty, already trimmed and
      free of commas) reach the store as one category row per name, in order. */
  lemma TypedCategoriesStored(
    name: string, date: string, time: string, venue: string, honoree: string,
    dressCode: string, colors: string, names: seq<string>, eventId: string)
    requires DialogBody(name, date, time, venue, honoree, dressCode, colors, Join(names, ",")).Some?
    requires |names| >= 1
    requires forall i :: 0 <= i < |names| ==> names[i] != "" && Trim(names[i]) == names[i] && ',' !in names[i]
    ensures var b := DialogBody(name, date, time, venue, honoree, dressCode, colors, Join(names, ",")).value;
            b.enabledCategories == Some(Join(names, ","))
            && var rows := CategoryRows(eventId, Split(b.enabledCategories.value, ','));
               |rows| == |names| && forall i :: 0 <= i < |names| ==> rows[i] == CategoryRow(eventId, names[i], None)
  {
    var list := Join(names, ",");
    JoinTrimmed(names);
    assert Trim(list) == list;
    JoinedCategories(eventId, names);
  }

  /** A join whose first and last pieces are non-empty and trimmed neither starts nor ends
      with a space, so trimming leaves it alone. */
  lemma JoinTrimmed(names: seq<string>)
    requires |names| >= 1
    requires names[0] != "" && Trim(names[0]) == names[0]
    requires names[|names| - 1] != "" && Trim(names[|names| - 1]) == names[|names| - 1]
    ensures Trim(Join(names, ",")) == Join(names, ",")
  {
    var list := Join(names, ",");
    var first := names[0];
    var last := names[|names| - 1];
    JoinEnds(names, ",");
    TrimEnds(first);
    TrimEnds(last);
    assert list[0] == first[0];
    assert list[|list| - 1] == list[|list| - |last|..][|last| - 1];
    TrimNoop(list);
  }

  /** What the user is told after a submit. */
  datatype Feedback = NameRequired | EventCreated(name: string) | CreateFailed

  class CreateEventForm {
    var name: string
    var date: string
    var time: string
    var venue: string
    var honoree: string
    var dressCode: string
    var colors: string
    var enabledCategories: string
    var isLoading: bool
    var open: bool

    constructor (open: bool)
      ensures Empty() && !isLoading && this.open == open
    {
      name, date, time, venue := "", "", "", "";
      honoree, dressCode, colors, enabledCategories := "", "", "", "";
      isLoading := false;
      this.open := open;
    }

    /** All eight fields are empty. */
    predicate Empty()
      reads this
    {
      name == "" && date == "" && time == "" && venue == "" && honoree == "" && dressCode == ""
      && colors == "" && enabledCategories == ""
    }

    /** The form after a successful call: all eight fields emptied. */
    method Reset()
      modifies this`name, this`date, this`time, this`venue, this`honoree, this`dressCode,
               this`colors, this`enabledCategories
      ensures Empty()
    {
      name, date, time, venue := "", "", "", "";
      honoree, dressCode, colors, enabledCategories := "", "", "", "";
    }

    /** `handleSubmit`: a blank name sends nothing; otherwise the body is sent, and a success
        (no transport error, no `data.error`) empties the form and closes the dialog while a
        failure keeps both. Loading is off afterwards either way. */
    method HandleSubmit(reply: InvokeReply) returns (sent: Option<EventBody>, feedback: Feedback)
      modifies this`name, this`date, this`time, this`venue, this`honoree, this`dressCode,
               this`colors, this`enabledCategories, this`isLoading, this`open
      ensures sent == DialogBody(old(name), old(date), old(time), old(venue), old(honoree),
                                 old(dressCode), old(colors), old(enabledCategories))
      ensures sent.None? ==> feedback == NameRequired && isLoading == old(isLoading)
      ensures sent.Some? ==> !isLoading
      ensures sent.None? || InvokeFailed(reply) ==>
                name == old(name) && date == old(date) && time == old(time) && venue == old(venue)
                && honoree == old(honoree) && dressCode == old(dressCode) && colors == old(colors)
                && enabledCategories == old(enabledCategories) && open == old(open)
      ensures sent.Some? && InvokeFailed(reply) ==> feedback == CreateFailed
      ensures sent.Some? && !InvokeFailed(reply) ==> feedback == EventCreated(old(name)) && Empty() && !open
    {
      sent := DialogBody(name, date, time, venue, honoree, dressCode, colors, enabledCategories);
      if sent.None? {
        return sent, NameRequired;
      }
      isLoading := true;
      if InvokeFailed(reply) {
        feedback := CreateFailed;
      } else {
        feedback := EventCreated(name);
        Reset();
        open := false;
      }
      isLoading := false;
    }
  }
}
