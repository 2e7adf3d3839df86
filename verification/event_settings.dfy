/**
 * Editing an event's details, as the settings page and the settings dialog both do it: the
 * form is loaded from the event (nulls shown as empty fields), and saving sends one update of
 * that event with the text fields trimmed and the dress code and colours null when blank.
 */
module EventSettings {
  import opened Wrappers
  import opened Text
  import opened Store

  /** The seven form fields. */
  datatype SettingsForm = SettingsForm(
    name: string, honoree: string, date: string, time: string, venue: string,
    dressCode: string, colors: string)

  const BlankForm := SettingsForm("", "", "", "", "", "", "")

  /** The fields written by a save. */
  datatype EventUpdate = EventUpdate(
    name: string, honoree: string, date: string, time: string, venue: string,
    dressCode: Option<string>, colors: Option<string>)

  /** `update(...).eq("id", eventId)`: the one event a save writes. */
  datatype UpdateCall = UpdateCall(eventId: string, update: EventUpdate)

  datatype Feedback = SettingsSaved | SaveFailed

  /** The form shown for an event: every field its value, or "" when it is null. */
  function FormOf(e: Event): SettingsForm {
    SettingsForm(e.name, OrEmpty(e.honoree), OrEmpty(e.date), OrEmpty(e.time), OrEmpty(e.venue),
                 OrEmpty(e.dressCode), OrEmpty(e.colors))
  }

  /** The update a save sends for a form. */
  function UpdateOf(f: SettingsForm): EventUpdate {
    EventUpdate(Trim(f.name), Trim(f.honoree), f.date, Trim(f.time), Trim(f.venue),
                OrNull(Some(Trim(f.dressCode))), OrNull(Some(Trim(f.colors))))
  }

  /** A save trims name, honoree, time and venue, sends the date unchanged, and sends the
      dress code and colours trimmed, or null exactly when they are blank. */
  lemma UpdateMeaning(f: SettingsForm)
    ensures var u := UpdateOf(f);
            u.name == Trim(f.name) && u.honoree == Trim(f.honoree) && u.time == Trim(f.time)
            && u.venue == Trim(f.venue) && u.date == f.date
            && (u.dressCode.None? <==> IsBlank(f.dressCode)) && (u.dressCode.Some? ==> u.dressCode.value == Trim(f.dressCode))
            && (u.colors.None? <==> IsBlank(f.colors)) && (u.colors.Some? ==> u.colors.value == Trim(f.colors))
  {
    TrimEmptyIffBlank(f.dressCode);
    TrimEmptyIffBlank(f.colors);
  }

  /** Saving twice what a save wrote changes nothing further: the update is a fixed point. */
  lemma UpdateIdempotent(f: SettingsForm)
    ensures var u := UpdateOf(f);
            UpdateOf(SettingsForm(u.name, u.honoree, u.date, u.time, u.venue,
                                  OrEmpty(u.dressCode), OrEmpty(u.colors))) == u
  {
    TrimIdempotent(f.name);
    TrimIdempotent(f.honoree);
    TrimIdempotent(f.time);
    TrimIdempotent(f.venue);
    TrimIdempotent(f.dressCode);
    TrimIdempotent(f.colors);
  }

  /** A string that trimming leaves alone. */
  predicate Trimmed(s: Option<string>) {
    s.Some? ==> Trim(s.value) == s.value
  }

  /** Loading an event and saving without edits writes its values back when they are already
      trimmed, except that a null honoree, date, time or venue is written as "" (while a null
      dress code or colour stays null). */
  lemma LoadThenSave(e: Event)
    requires Trim(e.name) == e.name && Trimmed(e.honoree) && Trimmed(e.time) && Trimmed(e.venue)
    requires Trimmed(e.dressCode) && Trimmed(e.colors)
    ensures UpdateOf(FormOf(e)) ==
            EventUpdate(e.name, OrEmpty(e.honoree), OrEmpty(e.date), OrEmpty(e.time), OrEmpty(e.venue),
                        OrNull(e.dressCode), OrNull(e.colors))
  {
    assert Trim("") == "";
  }

  /** The settings page: its form, loaded from the current event, and its loading flag. */
  class SettingsPage {
    var form: SettingsForm
    var isLoading: bool

    constructor ()
      ensures form == BlankForm && !isLoading
    {
      form := BlankForm;
      isLoading := false;
    }

    /** The effect on `event`: an event fills the form; no event leaves it as it was. */
    method LoadEvent(event: Option<Event>)
      modifies this`form
      ensures event.Some? ==> form == FormOf(event.value)
      ensures event.None? ==> form == old(form)
    {
      if event.Some? {
        form := FormOf(event.value);
      }
    }

    /** `handleSubmit`: nothing without an event; otherwise one update of that event, and
        loading is off afterwards whatever the store answers. */
    method HandleSubmit(event: Option<Event>, failed: bool) returns (call: Option<UpdateCall>, feedback: Option<Feedback>)
      modifies this`isLoading
      ensures event.None? ==> call.None? && feedback.None? && isLoading == old(isLoading)
      ensures event.Some? ==>
                call == Some(UpdateCall(event.value.id, UpdateOf(form))) && !isLoading
                && feedback == Some(if failed then SaveFailed else SettingsSaved)
    {
      if event.None? {
        return None, None;
      }
      isLoading := true;
      call := Some(UpdateCall(event.value.id, UpdateOf(form)));
      feedback := Some(if failed then SaveFailed else SettingsSaved);
      isLoading := false;
    }
  }

  /** The settings dialog: the same form and save, and a success also closes the dialog. */
  class SettingsDialog {
    var form: SettingsForm
    var isLoading: bool
    var open: bool

    constructor (open: bool)
      ensures form == BlankForm && !isLoading && this.open == open
    {
      form := BlankForm;
      isLoading := false;
      this.open := open;
    }

    /** The effect on `event`: an event fills the form; no event leaves it as it was. */
    method LoadEvent(event: Option<Event>)
      modifies this`form
      ensures event.Some? ==> form == FormOf(event.value)
      ensures event.None? ==> form == old(form)
    {
      if event.Some? {
        form := FormOf(event.value);
      }
    }

    /** `handleSubmit`: nothing without an event; otherwise one update of that event. A
        success closes the dialog and a failure keeps it open; loading is off afterwards. */
    method HandleSubmit(event: Option<Event>, failed: bool) returns (call: Option<UpdateCall>, feedback: Option<Feedback>)
      modifies this`isLoading, this`open
      ensures event.None? ==> call.None? && feedback.None? && isLoading == old(isLoading) && open == old(open)
      ensures event.Some? ==>
                call == Some(UpdateCall(event.value.id, UpdateOf(form))) && !isLoading
                && feedback == Some(if failed then SaveFailed else SettingsSaved)
                && open == (old(open) && failed)
    {
      if event.None? {
        return None, None;
      }
      isLoading := true;
      call := Some(UpdateCall(event.value.id, UpdateOf(form)));
      if failed {
        feedback := Some(SaveFailed);
      } else {
        feedback := Some(SettingsSaved);
        open := false;
      }
      isLoading := false;
    }
  }
}
