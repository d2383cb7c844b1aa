/** The dialog that creates an event (src/components/CreateEventDialog.tsx). */
module CreateEvent {
  import opened Wrappers
  import opened Remote
  import opened EventForm

  class CreateEventDialog {
    var open: bool
    var isSubmitting: bool
    var form: EventFormData

    /** Closed, idle, and holding the default form. */
    constructor ()
      ensures !open && !isSubmitting && form == DefaultForm
    {
      open := false;
      isSubmitting := false;
      form := DefaultForm;
    }

    /** The dialog's trigger or close control. */
    method SetOpen(b: bool)
      modifies this`open
      ensures open == b
    {
      open := b;
    }

    /** `updateField`: one field of the form changes. */
    method ChangeField(c: Change)
      modifies this`form
      ensures form == UpdateField(old(form), c)
    {
      form := UpdateField(form, c);
    }

    /** `handleSubmit`, given the store's answer to the insert. It returns the
        record it inserted, if any, and whether `onCreated` fired. A form
        missing a required field issues nothing and changes nothing. Once the
        insert is issued `isSubmitting` ends false; a clean answer closes the
        dialog and puts the default form back, any other answer leaves the
        dialog and the form as they were. */
    method HandleSubmit(outcome: Outcome) returns (issued: Option<EventPayload>, created: bool)
      modifies this
      ensures issued.None? <==> !HasRequiredFields(old(form))
      ensures issued.Some? ==> issued.value == BuildPayload(old(form))
      ensures issued.None? ==> open == old(open) && isSubmitting == old(isSubmitting) && form == old(form)
      ensures issued.Some? ==> !isSubmitting
      ensures created <==> issued.Some? && outcome == Ok
      ensures created ==> !open && form == DefaultForm
      ensures !created ==> open == old(open) && form == old(form)
    {
      if !HasRequiredFields(form) {
        return None, false;
      }
      isSubmitting := true;
      issued := Some(BuildPayload(form));
      created := false;
      match outcome {
        case Err(_, _) =>
        case Threw =>
        case Ok =>
          open := false;
          form := DefaultForm;
          created := true;
      }
      isSubmitting := false;
    }
  }
}
