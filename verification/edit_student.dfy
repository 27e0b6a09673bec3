/** The "Edit Student" dialog (src/custom-components/EditStudentFormModal.tsx):
    the form seeded from the student, the required-field check, the update
    request and the conditional handle-change request, and the submit handler
    as one step from the dialog, the clock reading and the settled replies to
    the next dialog. */
module EditStudentForm {
  import opened Common
  import opened Store
  import opened Tracker
  import opened Requests

  /** The form; the phone field is seeded from the student's optional phone. */
  datatype Form = Form(name: string, email: string, phone: Option<string>, codeforcesHandle: string)

  /** The form the dialog resets to after a submit. */
  const EmptyForm: Form := Form("", "", Some(""), "")

  /** The form as the dialog first shows it. */
  function InitialForm(s: Student): (f: Form)
    ensures f.name == s.name && f.email == s.email && f.phone == s.phone
    ensures f.codeforcesHandle == s.codeforcesHandle
  {
    Form(s.name, s.email, s.phone, s.codeforcesHandle)
  }

  /** The two requests the handler can send, in order. */
  datatype EditRequest =
    | UpdateDetails(email: string, name: string, phoneNumber: Option<string>)
    | ChangeHandle(codeforcesHandle: string)

  datatype Dialog = Dialog(store: StoreState, form: Form, open: bool)

  datatype Submitted = Submitted(dialog: Dialog, requests: seq<EditRequest>)

  /** Name, e-mail and handle are required, untrimmed. */
  predicate Submittable(f: Form) {
    f.name != "" && f.email != "" && f.codeforcesHandle != ""
  }

  /** The handle differs from the one the student has. */
  predicate HandleChanged(f: Form, s: Student) {
    f.codeforcesHandle != "" && f.codeforcesHandle != s.codeforcesHandle
  }

  function ProcessName(f: Form): string {
    "Editing " + f.name
  }

  /** The reply whose data the handler maps: the handle change's when it was
      sent, the update's otherwise. */
  function LastReply(f: Form, s: Student, first: Outcome<StudentReply>, second: Outcome<StudentReply>): Outcome<StudentReply> {
    if first.Ok? && HandleChanged(f, s) then second else first
  }

  /** The handler reaches `updateStudent`: every request it sent came back
      2xx and the last reply carries a data object. `success` is not read. */
  predicate Updated(f: Form, s: Student, first: Outcome<StudentReply>, second: Outcome<StudentReply>) {
    var last := LastReply(f, s, first, second);
    first.Ok? && last.Ok? && last.value.data.Some?
  }

  /** `handleSubmit` with nothing else in flight. An incomplete form sends
      nothing and changes nothing. Otherwise the details are sent untrimmed,
      a changed handle is sent after the details succeed, the student is
      replaced by the mapping of the last reply, and the captured process list
      is written back with the entry completed; on any failure the entry is
      left active. The dialog closes with an empty form on either path. */
  function HandleSubmit(v: Dialog, student: Student, clock: int,
                        first: Outcome<StudentReply>, second: Outcome<StudentReply>): (r: Submitted)
    ensures !Submittable(v.form) ==> r == Submitted(v, [])
    ensures Submittable(v.form) ==>
              && |r.requests| >= 1
              && r.requests[0] == UpdateDetails(v.form.email, v.form.name, v.form.phone)
              && (|r.requests| == 2 <==> first.Ok? && HandleChanged(v.form, student))
              && (|r.requests| == 2 ==> r.requests[1] == ChangeHandle(v.form.codeforcesHandle))
              && |r.requests| <= 2
              && r.dialog.form == EmptyForm && !r.dialog.open
    ensures Submittable(v.form) && Updated(v.form, student, first, second) ==>
              && r.dialog.store.processes == MarkCompleted(v.store.processes, clock)
              && r.dialog.store.students
                 == UpdateStudent(v.store, student.id,
                                  Whole(MapToStudent(LastReply(v.form, student, first, second).value.data.value))).students
    ensures Submittable(v.form) && !Updated(v.form, student, first, second) ==>
              && r.dialog.store.students == v.store.students
              && r.dialog.store.processes == Started(v.store.processes, clock, ProcessName(v.form))
  {
    if !Submittable(v.form) then Submitted(v, [])
    else
      var f := v.form;
      var captured := v.store.processes;
      var started := SetProcesses(v.store, Started(captured, clock, ProcessName(f)));
      var requests := [UpdateDetails(f.email, f.name, f.phone)]
                      + (if first.Ok? && HandleChanged(f, student) then [ChangeHandle(f.codeforcesHandle)] else []);
      var store :=
        if Updated(f, student, first, second) then
          var mapped := MapToStudent(LastReply(f, student, first, second).value.data.value);
          SetProcesses(UpdateStudent(started, student.id, Whole(mapped)), MarkCompleted(captured, clock))
        else started;
      Submitted(Dialog(store, EmptyForm, false), requests)
  }

  /** A successful edit replaces the whole student with a freshly mapped one,
      so the contests, problems and statistics fetched for the profile are
      dropped and the id becomes the one in the reply. */
  lemma EditDropsFetchedDetails(v: Dialog, student: Student, clock: int,
                                first: Outcome<StudentReply>, second: Outcome<StudentReply>, i: int)
    requires Submittable(v.form) && Updated(v.form, student, first, second)
    requires 0 <= i < |v.store.students| && v.store.students[i].id == student.id
    ensures var s := HandleSubmit(v, student, clock, first, second).dialog.store.students[i];
            && s.contests == [] && s.problems == [] && s.problemStats.None?
            && s.id == LastReply(v.form, student, first, second).value.data.value.id
  {
    var mapped := MapToStudent(LastReply(v.form, student, first, second).value.data.value);
    MergeWhole(v.store.students[i], mapped);
  }

  /** A failed edit leaves its entry active behind what was there before. */
  lemma FailedEditStaysActive(v: Dialog, student: Student, clock: int,
                              first: Outcome<StudentReply>, second: Outcome<StudentReply>)
    requires Submittable(v.form) && !Updated(v.form, student, first, second)
    ensures StartEntry(clock, ProcessName(v.form)) in HandleSubmit(v, student, clock, first, second).dialog.store.processes
  {
    var ps := HandleSubmit(v, student, clock, first, second).dialog.store.processes;
    assert ps[|v.store.processes|] == StartEntry(clock, ProcessName(v.form));
  }

  /** Submitting the dialog unchanged sends only the details: the handle is
      the student's own. */
  lemma UnchangedFormSendsDetailsOnly(v: Dialog, student: Student, clock: int,
                                      first: Outcome<StudentReply>, second: Outcome<StudentReply>)
    requires v.form == InitialForm(student) && Submittable(v.form)
    ensures HandleSubmit(v, student, clock, first, second).requests
         == [UpdateDetails(student.email, student.name, student.phone)]
  {
  }

  /** After a submit the dialog reopens empty, and submitting it again is
      refused by the required-field check. */
  lemma ReopenedDialogIsEmpty(v: Dialog, student: Student, clock: int,
                              first: Outcome<StudentReply>, second: Outcome<StudentReply>)
    requires Submittable(v.form)
    ensures var d := HandleSubmit(v, student, clock, first, second).dialog;
            !Submittable(d.form) && HandleSubmit(d, student, clock, first, second) == Submitted(d, [])
  {
  }
}
