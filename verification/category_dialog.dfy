/**
 * The category management dialog: the colour class lookup, the classification of a failed
 * save, and the form state around creating, editing and deleting a category. The store's
 * answer to each mutation is an input (None when it succeeded).
 */
module CategoryDialog {
  import opened Wrappers
  import opened Text
  import opened Store

  datatype ColorOption = ColorOption(value: string, display: string, cls: string)

  const ColorOptions: seq<ColorOption> := [
    ColorOption("burnt-orange", "Burnt Orange", "bg-burnt-orange"),
    ColorOption("gold", "Gold", "bg-gold"),
    ColorOption("primary", "Primary", "bg-[hsl(18_70%_47%)]"),
    ColorOption("muted", "Muted", "bg-muted"),
    ColorOption("destructive", "Red", "bg-destructive"),
    ColorOption("accent", "Accent", "bg-accent")
  ]

  const DefaultColor := "gold"
  const FallbackClass := "bg-muted"

  /** The class of the first option with that value, or "bg-muted" when none has it. */
  function ColorClassIn(options: seq<ColorOption>, value: string): (cls: string)
    ensures (forall i :: 0 <= i < |options| ==> options[i].value != value) ==> cls == FallbackClass
    ensures forall i :: (0 <= i < |options| && options[i].value == value
              && (forall j :: 0 <= j < i ==> options[j].value != value)) ==> cls == options[i].cls
    decreases |options|
  {
    if options == [] then FallbackClass
    else if options[0].value == value then options[0].cls
    else ColorClassIn(options[1..], value)
  }

  /** `getColorClass`. */
  function GetColorClass(value: string): string {
    ColorClassIn(ColorOptions, value)
  }

  /** Each listed colour gets its own class, and any other value the muted one. */
  lemma ColorClasses(value: string)
    ensures forall i :: 0 <= i < |ColorOptions| ==> GetColorClass(ColorOptions[i].value) == ColorOptions[i].cls
    ensures (forall i :: 0 <= i < |ColorOptions| ==> ColorOptions[i].value != value) ==> GetColorClass(value) == FallbackClass
  {
    forall i | 0 <= i < |ColorOptions| ensures GetColorClass(ColorOptions[i].value) == ColorOptions[i].cls {
      assert forall j :: 0 <= j < i ==> ColorOptions[j].value != ColorOptions[i].value;
    }
  }

  /** A failed mutation's error: its message and its database error code, when present. */
  datatype MutationError = MutationError(message: Option<string>, code: Option<string>)

  const UniqueViolation := "23505"

  /** `error?.message?.includes("duplicate") || error?.code === "23505"`. */
  predicate IsDuplicateError(e: MutationError) {
    (e.message.Some? && Contains(e.message.value, "duplicate")) || e.code == Some(UniqueViolation)
  }

  datatype Mutation =
    | CreateCategory(eventId: string, name: string, color: string)
    | UpdateCategory(id: string, name: string, color: string, eventId: string)
    | DeleteCategory(id: string, eventId: string)

  /** What the user is told after a submit. */
  datatype Feedback = NameRequired | Saved | DuplicateName | SaveFailed | Deleted | DeleteFailed

  class CategoryManagementDialog {
    const eventId: string
    var name: string
    var color: string
    var editingCategory: Option<Category>
    var deleteCategory: Option<Category>

    constructor (eventId: string)
      ensures this.eventId == eventId
      ensures name == "" && color == DefaultColor && editingCategory.None? && deleteCategory.None?
    {
      this.eventId := eventId;
      name := "";
      color := DefaultColor;
      editingCategory := None;
      deleteCategory := None;
    }

    /** `resetForm`: an empty name, the gold colour, and create mode. */
    method ResetForm()
      modifies this`name, this`color, this`editingCategory
      ensures name == "" && color == DefaultColor && editingCategory.None?
    {
      name := "";
      color := DefaultColor;
      editingCategory := None;
    }

    /** `handleSubmit`: nothing for a blank name; otherwise an update of the category being
        edited or a create, with the trimmed name. Success resets the form; a failure keeps
        it and is reported as a duplicate exactly when the error says so. */
    method HandleSubmit(failure: Option<MutationError>) returns (mutation: Option<Mutation>, feedback: Feedback)
      modifies this`name, this`color, this`editingCategory
      ensures IsBlank(old(name)) ==> mutation.None? && feedback == NameRequired
      ensures IsBlank(old(name)) || failure.Some? ==>
                name == old(name) && color == old(color) && editingCategory == old(editingCategory)
      ensures !IsBlank(old(name)) && old(editingCategory).Some? ==>
                mutation == Some(UpdateCategory(old(editingCategory).value.id, Trim(old(name)), old(color), eventId))
      ensures !IsBlank(old(name)) && old(editingCategory).None? ==>
                mutation == Some(CreateCategory(eventId, Trim(old(name)), old(color)))
      ensures !IsBlank(old(name)) && failure.None? ==>
                feedback == Saved && name == "" && color == DefaultColor && editingCategory.None?
      ensures !IsBlank(old(name)) && failure.Some? ==>
                feedback == (if IsDuplicateError(failure.value) then DuplicateName else SaveFailed)
    {
      TrimEmptyIffBlank(name);
      if Trim(name) == "" {
        return None, NameRequired;
      }
      if editingCategory.Some? {
        mutation := Some(UpdateCategory(editingCategory.value.id, Trim(name), color, eventId));
      } else {
        mutation := Some(CreateCategory(eventId, Trim(name), color));
      }
      if failure.None? {
        ResetForm();
        feedback := Saved;
      } else {
        feedback := if IsDuplicateError(failure.value) then DuplicateName else SaveFailed;
      }
    }

    /** `handleEdit`: the form takes the category's name and colour and switches to edit mode. */
    method HandleEdit(category: Category)
      modifies this`name, this`color, this`editingCategory
      ensures editingCategory == Some(category) && name == category.name && color == category.color
    {
      editingCategory := Some(category);
      name := category.name;
      color := category.color;
    }

    /** The delete button: the category awaiting confirmation. */
    method RequestDelete(category: Option<Category>)
      modifies this`deleteCategory
      ensures deleteCategory == category
    {
      deleteCategory := category;
    }

    /** `handleDelete`: nothing without a selection; otherwise a delete of the selected
        category, whose selection is cleared only when the delete succeeds. */
    method HandleDelete(failed: bool) returns (mutation: Option<Mutation>, feedback: Option<Feedback>)
      modifies this`deleteCategory
      ensures old(deleteCategory).None? ==> mutation.None? && feedback.None? && deleteCategory.None?
      ensures old(deleteCategory).Some? ==>
                mutation == Some(DeleteCategory(old(deleteCategory).value.id, eventId))
                && (failed ==> deleteCategory == old(deleteCategory) && feedback == Some(DeleteFailed))
                && (!failed ==> deleteCategory.None? && feedback == Some(Deleted))
    {
      if deleteCategory.None? {
        return None, None;
      }
      mutation := Some(DeleteCategory(deleteCategory.value.id, eventId));
      if failed {
        feedback := Some(DeleteFailed);
      } else {
        deleteCategory := None;
        feedback := Some(Deleted);
      }
    }
  }
}
