/**
 * form.component.ts: the add/edit form for a todo. It has one control,
 * `text`, which is required. The parent hands in `updateTodo` (empty to
 * add, the todo to edit otherwise); a valid submit sends an update when
 * that todo has a truthy id and an add otherwise, and on success clears
 * the form and emits `closeForm`. The request is returned; its outcome is
 * an input; `closeForm` is counted.
 */
module Form {
  import opened Common
  import opened Forms
  import opened TodoModel
  import opened TodosController
  import opened HomeService

  const TextValidators: seq<Validator> := [Required]

  /** `updateTodo.id` is truthy: present and not zero. */
  predicate HasId(d: TodoDraft) {
    d.id.Some? && d.id.value != 0
  }

  class FormComponent {
    /** The `updateTodo` input. */
    var updateTodo: TodoDraft
    /** The `text` control of `formGroup`, the group's only control. */
    var text: Control
    /** How many times `closeForm` has emitted. */
    var closeEmitted: nat

    /** The control's errors are those its validators report for its value. */
    ghost predicate Valid()
      reads this
    {
      text.errors == Errors(TextValidators, text.value)
    }

    /** `updateTodo = {}` and a pristine `text` control holding ''. */
    constructor ()
      ensures Valid() && updateTodo == EmptyDraft && closeEmitted == 0
      ensures text == Control(Some(""), Errors(TextValidators, Some("")), false, false)
    {
      updateTodo := EmptyDraft;
      text := Control(Some(""), Errors(TextValidators, Some("")), false, false);
      closeEmitted := 0;
    }

    /** `ngOnInit`: a todo with a truthy text puts that text in the form. */
    method NgOnInit()
      requires Valid()
      modifies this
      ensures Valid() && updateTodo == old(updateTodo) && closeEmitted == old(closeEmitted)
      ensures HasText(updateTodo.text) ==> text == Patched(old(text), TextValidators, updateTodo.text.value)
      ensures !HasText(updateTodo.text) ==> text == old(text)
    {
      if HasText(updateTodo.text) {
        text := Patched(text, TextValidators, updateTodo.text.value);
      }
    }

    /**
     * `ngOnChanges` after the parent bound a new `updateTodo` (None: the
     * input did not change). A todo with a truthy text puts that text in
     * the form; any other todo resets it.
     */
    method NgOnChanges(change: Option<TodoDraft>)
      requires Valid()
      modifies this
      ensures Valid() && closeEmitted == old(closeEmitted)
      ensures change.None? ==> updateTodo == old(updateTodo) && text == old(text)
      ensures change.Some? ==> updateTodo == change.value
      ensures change.Some? && HasText(change.value.text) ==>
                text == Patched(old(text), TextValidators, change.value.text.value)
      ensures change.Some? && !HasText(change.value.text) ==> text == Reset(TextValidators)
    {
      match change {
        case None =>
        case Some(newTodo) =>
          updateTodo := newTodo;
          if HasText(newTodo.text) {
            text := Patched(text, TextValidators, newTodo.text.value);
          } else {
            text := Reset(TextValidators);
          }
      }
    }

    /**
     * `submit`. A valid form sends its text: as an update of `updateTodo`
     * when that has a truthy id, as a new todo `{text}` otherwise. When the
     * request succeeds the form is reset and `closeForm` emits; when it
     * fails the error is swallowed and the form stays as it is. An invalid
     * form sends nothing and marks its control touched, which makes the
     * error show.
     */
    method Submit(outcome: Outcome<()>) returns (sent: Option<HttpRequest>)
      requires Valid()
      modifies this
      ensures Valid() && updateTodo == old(updateTodo)
      ensures !Invalid(old(text)) ==>
                && old(text).value.Some? && old(text).value.value != ""
                && (HasId(updateTodo) ==> sent == Some(UpdateRequest(updateTodo.(text := old(text).value))))
                && (!HasId(updateTodo) ==> sent == Some(AddRequest(TodoDraft(None, old(text).value, None))))
      ensures !Invalid(old(text)) && outcome.Done? ==>
                text == Reset(TextValidators) && !IsFieldValid("text") && closeEmitted == old(closeEmitted) + 1
      ensures !Invalid(old(text)) && outcome.Threw? ==> text == old(text) && closeEmitted == old(closeEmitted)
      ensures Invalid(old(text)) ==>
                && sent == None && text == Touch(old(text)) && IsFieldValid("text")
                && closeEmitted == old(closeEmitted)
    {
      if Invalid(text) {
        text := Touch(text);
        return None;
      }
      RequiredHolds(TextValidators, text.value);
      var todoData := TodoDraft(None, text.value, None);
      if HasId(updateTodo) {
        sent := Some(UpdateRequest(updateTodo.(text := todoData.text)));
      } else {
        sent := Some(AddRequest(todoData));
      }
      match outcome {
        case Done(_) =>
          text := Reset(TextValidators);
          ResetHidesError(TextValidators);
          closeEmitted := closeEmitted + 1;
        case Threw(_) =>
      }
    }

    /**
     * `isFieldValid`, which despite its name answers whether the field
     * shows an error: it exists, is invalid, and has been changed or left.
     */
    function IsFieldValid(fieldName: string): (r: bool)
      reads this
      ensures r <==> fieldName == "text" && ShowsError(text)
    {
      fieldName == "text" && ShowsError(text)
    }
  }

  /**
   * What an edit sends reaches the server as an update of that todo: the
   * PUT goes to the todo's own URL, which `parseInt` reads back as its id,
   * and the body carries only the new text.
   */
  lemma EditTargetsTodo(updateTodo: TodoDraft, newText: string)
    requires HasId(updateTodo)
    ensures var r := UpdateRequest(updateTodo.(text := Some(newText)));
            && r.url == DeleteRequest(updateTodo.id.value).url
            && ParseInt(IdSegment(updateTodo.id)) == Id(updateTodo.id.value)
            && r.body == TodoDraft(None, Some(newText), None)
  {
    UpdateUrlMatchesDelete(updateTodo.(text := Some(newText)), updateTodo.id.value);
    ParseIntToString(updateTodo.id.value);
  }
}
