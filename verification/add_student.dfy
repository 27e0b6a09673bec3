/** The "Add Student" dialog (src/custom-components/AddStudentFormModal.tsx):
    the required-field check, the request body built from the form, and the
    submit handler as one step from the dialog, the clock reading and the
    settled reply to the next dialog. */
module AddStudentForm {
  import opened Common
  import opened Text
  import opened Store
  import opened Tracker
  import opened Requests

  datatype Form = Form(name: string, email: string, phone: string, codeforcesHandle: string)

  const EmptyForm: Form := Form("", "", "", "")

  /** The body of the create request. */
  datatype CreateRequest = CreateRequest(email: string, name: string, phoneNumber: Option<string>, codeforcesHandle: string)

  /** The dialog's state together with the store it writes to. */
  datatype Dialog = Dialog(store: StoreState, form: Form, open: bool)

  /** What a submit leaves behind, and the request it sent if any. */
  datatype Submitted = Submitted(dialog: Dialog, request: Option<CreateRequest>)

  /** The required-field check, as written: the raw name and handle must be
      non-empty; the e-mail and phone are optional. */
  predicate Submittable(f: Form) {
    f.name != "" && f.codeforcesHandle != ""
  }

  /** The request body: trimmed fields, the e-mail defaulting to the handle at
      gmail.com when blank, and no phone when the field is empty. */
  function RequestBody(f: Form): (b: CreateRequest)
    ensures b.name == Trim(f.name) && b.codeforcesHandle == Trim(f.codeforcesHandle)
    ensures Trim(f.email) != "" ==> b.email == Trim(f.email)
    ensures Trim(f.email) == "" ==> b.email == Trim(f.codeforcesHandle) + "@gmail.com"
    ensures b.phoneNumber.None? <==> f.phone == ""
    ensures b.phoneNumber.Some? ==> b.phoneNumber.value == Trim(f.phone)
  {
    var email := Trim(f.email);
    CreateRequest(
      if email != "" then email else Trim(f.codeforcesHandle) + "@gmail.com",
      Trim(f.name),
      if f.phone != "" then Some(Trim(f.phone)) else None,
      Trim(f.codeforcesHandle))
  }

  /** Every text field of the body is already trimmed, and the e-mail is never
      blank. */
  lemma RequestBodyIsNormalised(f: Form)
    ensures var b := RequestBody(f);
            && Trim(b.name) == b.name && Trim(b.codeforcesHandle) == b.codeforcesHandle
            && (b.phoneNumber.Some? ==> Trim(b.phoneNumber.value) == b.phoneNumber.value)
            && Trim(b.email) == b.email
            && b.email != ""
  {
    TrimIdempotent(f.email);
    var fallback := Trim(f.codeforcesHandle) + "@gmail.com";
    assert fallback[|fallback| - 1] == 'm';
    assert !IsWhitespace(fallback[0]) by {
      if Trim(f.codeforcesHandle) == [] {
        assert fallback[0] == '@';
      } else {
        assert fallback[0] == Trim(f.codeforcesHandle)[0];
      }
    }
    TrimmedIsFixed(fallback);
    TrimIdempotent(f.name);
    TrimIdempotent(f.codeforcesHandle);
    TrimIdempotent(f.phone);
  }

  /** A phone field of blanks is sent as an empty number rather than none. */
  lemma BlankPhoneSentAsEmpty(f: Form)
    requires f.phone == "  "
    ensures RequestBody(f).phoneNumber == Some("")
  {
    assert IsWhitespace(f.phone[0]) && IsWhitespace(f.phone[1]);
  }

  /** The name of the progress entry. */
  function ProcessName(f: Form): string {
    "Adding " + f.name
  }

  /** The reply produced a student: 2xx, `success`, and a data object. */
  predicate Created(reply: Outcome<StudentReply>) {
    reply.Ok? && reply.value.success && reply.value.data.Some?
  }

  /** `handleSubmit` with nothing else in flight. An incomplete form sends
      nothing and changes nothing. Otherwise the request is sent, a created
      student is appended to the store, the captured process list is written
      back with the entry's id completed on either path, and the dialog closes
      with an empty form. */
  function HandleSubmit(v: Dialog, clock: int, reply: Outcome<StudentReply>): (r: Submitted)
    ensures !Submittable(v.form) ==> r == Submitted(v, None)
    ensures Submittable(v.form) ==>
              && r.request == Some(RequestBody(v.form))
              && r.dialog.form == EmptyForm && !r.dialog.open
              && r.dialog.store.processes == MarkCompleted(v.store.processes, clock)
    ensures Submittable(v.form) && Created(reply) ==>
              r.dialog.store.students == v.store.students + [MapToStudent(reply.value.data.value)]
    ensures Submittable(v.form) && !Created(reply) ==> r.dialog.store.students == v.store.students
  {
    if !Submittable(v.form) then Submitted(v, None)
    else
      var captured := v.store.processes;
      var started := SetProcesses(v.store, Started(captured, clock, ProcessName(v.form)));
      var added := if Created(reply) then Store.AddStudent(started, MapToStudent(reply.value.data.value)) else started;
      Submitted(Dialog(SetProcesses(added, MarkCompleted(captured, clock)), EmptyForm, false),
                Some(RequestBody(v.form)))
  }

  /** The add entry never outlives the handler: with a fresh clock reading the
      process list ends as it began, whatever the reply. */
  lemma SubmitLeavesProcessesAsFound(v: Dialog, clock: int, reply: Outcome<StudentReply>)
    requires !HasProcess(v.store.processes, clock)
    ensures HandleSubmit(v, clock, reply).dialog.store.processes == v.store.processes
  {
  }

  /** The check runs on the raw fields, so a name of blanks passes it and the
      request carries an empty name. */
  lemma BlankNameIsSent(v: Dialog, clock: int, reply: Outcome<StudentReply>)
    requires v.form.name == " " && v.form.codeforcesHandle == "tourist"
    ensures Submittable(v.form)
    ensures HandleSubmit(v, clock, reply).request.value.name == ""
  {
    assert IsWhitespace(v.form.name[0]);
  }

  /** The evidently intended check: the fields that are sent trimmed must be
      non-empty after trimming. */
  predicate SubmittableTrimmed(f: Form)
    ensures SubmittableTrimmed(f) ==> Submittable(f)
  {
    Trim(f.name) != "" && Trim(f.codeforcesHandle) != ""
  }

  /** The submit handler with the intended check: it behaves as the written
      one on every form that passes, refuses the rest, and every request it
      sends names the student and the handle. */
  function HandleSubmitTrimmed(v: Dialog, clock: int, reply: Outcome<StudentReply>): (r: Submitted)
    ensures r.request.Some? ==> r.request.value.name != "" && r.request.value.codeforcesHandle != ""
    ensures SubmittableTrimmed(v.form) ==> r == HandleSubmit(v, clock, reply)
    ensures !SubmittableTrimmed(v.form) ==> r == Submitted(v, None)
  {
    if SubmittableTrimmed(v.form) then HandleSubmit(v, clock, reply) else Submitted(v, None)
  }
}
