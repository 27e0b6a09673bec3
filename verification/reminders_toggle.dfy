/** The e-mail reminder switch on a student's profile
    (src/custom-components/EmailRemindersToggle.tsx): what the switch and its
    status line show, and the change handler split at its `await` into the
    part before the request and the part after it settles. */
module RemindersToggle {
  import opened Common
  import opened Store
  import opened Tracker

  /** The component's state together with the store. */
  datatype ToggleView = ToggleView(store: StoreState, loading: bool)

  /** The body of the request. */
  datatype ReminderRequest = ReminderRequest(enabled: bool)

  /** The switch is on when reminders are not disabled. */
  function SwitchChecked(s: Student): bool {
    !s.emailRemindersDisabled
  }

  /** The switch takes no input while a change is in flight. */
  predicate SwitchDisabled(v: ToggleView) {
    v.loading
  }

  /** The status line. */
  function StatusLabel(loading: bool, s: Student): (shown: string)
    ensures loading ==> shown == "Updating..."
    ensures !loading ==> (shown == "Enabled" <==> SwitchChecked(s))
    ensures shown in {"Updating...", "Enabled", "Disabled"}
  {
    if loading then "Updating..."
    else if s.emailRemindersDisabled then "Disabled"
    else "Enabled"
  }

  function ProcessName(s: Student): string {
    "Modifying Email Reminders for " + s.name
  }

  /** Before the `await`: the switch locks, the entry is appended to the
      captured process list, and the request carries the switch's new value. */
  function BeginToggle(v: ToggleView, captured: seq<Process>, clock: int, student: Student, checked: bool): (r: (ToggleView, ReminderRequest))
    ensures SwitchDisabled(r.0)
    ensures r.0.store.students == v.store.students
    ensures r.0.store.processes == captured + [StartEntry(clock, ProcessName(student))]
    ensures r.1.enabled == checked
  {
    (ToggleView(SetProcesses(v.store, Started(captured, clock, ProcessName(student))), true), ReminderRequest(checked))
  }

  /** After the request settles: on success the captured list is written back
      with the entry completed and the student's flag set to the opposite of
      the new value; on failure nothing is written. The switch unlocks either
      way. */
  function FinishToggle(v: ToggleView, captured: seq<Process>, clock: int, student: Student, checked: bool, reply: Outcome<()>): (r: ToggleView)
    ensures !SwitchDisabled(r)
    ensures reply.Err? ==> r.store == v.store
    ensures reply.Ok? ==> r.store.processes == MarkCompleted(captured, clock)
    ensures reply.Ok? ==> r.store.students == UpdateStudent(v.store, student.id, NoChange.(emailRemindersDisabled := Some(!checked))).students
  {
    match reply
    case Err(_) => ToggleView(v.store, false)
    case Ok(_) =>
      var completed := SetProcesses(v.store, MarkCompleted(captured, clock));
      ToggleView(UpdateStudent(completed, student.id, NoChange.(emailRemindersDisabled := Some(!checked))), false)
  }

  /** The success notice, worded from the student as it was before the change. */
  function SuccessNotice(student: Student): string {
    "Email reminders " + (if student.emailRemindersDisabled then "enabled" else "disabled") + " successfully!"
  }

  /** One change with nothing else in flight: the switch ends unlocked; a
      success completes the entry in place and sets the flag, a failure keeps
      the students and leaves the entry behind the list as it was. */
  function HandleToggle(v: ToggleView, clock: int, student: Student, checked: bool, reply: Outcome<()>): (r: ToggleView)
    ensures !SwitchDisabled(r)
    ensures reply.Err? ==> r.store.students == v.store.students
    ensures reply.Err? ==> r.store.processes == v.store.processes + [StartEntry(clock, ProcessName(student))]
    ensures reply.Ok? ==> r.store.processes == MarkCompleted(v.store.processes, clock)
    ensures |r.store.students| == |v.store.students|
    ensures reply.Ok? ==> forall i :: 0 <= i < |v.store.students| && v.store.students[i].id == student.id ==>
              r.store.students[i] == v.store.students[i].(emailRemindersDisabled := !checked)
  {
    var begun := BeginToggle(v, v.store.processes, clock, student, checked).0;
    FinishToggle(begun, v.store.processes, clock, student, checked, reply)
  }

  /** After a successful change the stored student's switch shows the value the
      user chose and the status line agrees; the switch is free again. */
  lemma ToggleShowsChoice(v: ToggleView, clock: int, student: Student, checked: bool, i: int)
    requires 0 <= i < |v.store.students| && v.store.students[i].id == student.id
    ensures var r := HandleToggle(v, clock, student, checked, Ok(()));
            && SwitchChecked(r.store.students[i]) == checked
            && StatusLabel(r.loading, r.store.students[i]) == (if checked then "Enabled" else "Disabled")
            && !SwitchDisabled(r)
  {
  }

  /** A switch flip asks for the opposite of what the student shows, and for
      such a flip the notice names the new state even though it reads the old
      flag. */
  lemma NoticeNamesNewState(student: Student)
    ensures var checked := !SwitchChecked(student);
            SuccessNotice(student) == "Email reminders " + (if checked then "enabled" else "disabled") + " successfully!"
  {
  }

  /** A change only touches the reminder flag of that student. */
  lemma ToggleTouchesOnlyFlag(v: ToggleView, clock: int, student: Student, checked: bool, reply: Outcome<()>, i: int)
    requires 0 <= i < |v.store.students|
    ensures var s := HandleToggle(v, clock, student, checked, reply).store.students[i];
            s == v.store.students[i] || s == v.store.students[i].(emailRemindersDisabled := !checked)
  {
  }

  /** A failed change leaves the students as they were and its entry active. */
  lemma FailedToggleStaysActive(v: ToggleView, clock: int, student: Student, checked: bool, f: Failure)
    ensures var r := HandleToggle(v, clock, student, checked, Err(f));
            && r.store.students == v.store.students
            && r.store.processes == v.store.processes + [StartEntry(clock, ProcessName(student))]
  {
  }
}
