/** The dashboard table (src/custom-components/StudentTable.tsx): the
    pagination cursor and its guard, the page load and the search, the CSV
    export, and the delete handler with its progress bookkeeping. */
module StudentTable {
  import opened Common
  import opened Text
  import opened Store
  import opened Tracker
  import opened Indicators
  import opened Requests

  // ---------------------------------------------------------------------------
  // pagination

  /** Rows per page requested by the table. */
  const PageSize: int := 10

  /** The cursor before the first load: page 1 of 1, nothing counted. */
  const InitialPagination: PaginatedResult := PaginatedResult(0, 1, 1)

  /** A cursor that points at one of its pages. */
  predicate OnAPage(p: PaginatedResult) {
    1 <= p.page <= p.totalPages
  }

  /** `handlePageChange`: a page in `1..totalPages` becomes current, anything
      else is ignored. */
  function HandlePageChange(p: PaginatedResult, newPage: int): (r: PaginatedResult)
    ensures r.total == p.total && r.totalPages == p.totalPages
    ensures r.page == p.page || r.page == newPage
    ensures r.page != p.page ==> 1 <= r.page <= p.totalPages
    ensures r.page == newPage <==> (0 < newPage <= p.totalPages || newPage == p.page)
  {
    if newPage > 0 && newPage <= p.totalPages then p.(page := newPage) else p
  }

  /** The footer with the page buttons is shown. */
  predicate FooterShown(p: PaginatedResult) {
    p.totalPages > 1
  }

  /** The "Previous" button ignores clicks. */
  predicate PreviousDisabled(p: PaginatedResult) {
    p.page <= 1
  }

  /** The "Next" button ignores clicks. */
  predicate NextDisabled(p: PaginatedResult) {
    p.page >= p.totalPages
  }

  /** A page change never leaves a valid cursor pointing outside its pages. */
  lemma PageChangeKeepsCursorValid(p: PaginatedResult, newPage: int)
    requires OnAPage(p)
    ensures OnAPage(HandlePageChange(p, newPage))
  {
  }

  /** The buttons agree with the guard: a button is disabled exactly when the
      page change it would request would be ignored. This holds for any
      cursor whose page is at most one past its last page, which includes the
      `page: 1, totalPages: 0` a search with no match returns. */
  lemma ButtonsMatchGuard(p: PaginatedResult)
    requires 0 <= p.page <= p.totalPages + 1
    ensures PreviousDisabled(p) <==> HandlePageChange(p, p.page - 1) == p
    ensures NextDisabled(p) <==> HandlePageChange(p, p.page + 1) == p
    ensures !PreviousDisabled(p) ==> HandlePageChange(p, p.page - 1).page == p.page - 1
    ensures !NextDisabled(p) ==> HandlePageChange(p, p.page + 1).page == p.page + 1
  {
  }

  /** On a valid cursor the footer is shown exactly when one of its buttons
      can move the page. */
  lemma FooterShownWhenNavigable(p: PaginatedResult)
    requires OnAPage(p)
    ensures FooterShown(p) <==> !PreviousDisabled(p) || !NextDisabled(p)
    ensures !FooterShown(p) ==> HandlePageChange(p, p.page - 1) == p && HandlePageChange(p, p.page + 1) == p
  {
  }

  // ---------------------------------------------------------------------------
  // loading and searching

  /** What the table keeps besides the store. */
  datatype TableView = TableView(store: StoreState, pagination: PaginatedResult, loading: bool)

  /** `loadStudents`: the current page, ten rows, no search term. */
  function LoadQuery(p: PaginatedResult): (q: StudentsQuery)
    ensures q.page == p.page && q.limit == PageSize && q.search == ""
  {
    StudentsQuery(p.page, PageSize, "")
  }

  /** The search input's handler: the term is lower-cased, and the page is that
      of the cursor the debounced handler closed over when the table mounted,
      which is the initial one. */
  function SearchQuery(input: string): (q: StudentsQuery)
    ensures q.page == 1 && q.limit == PageSize
    ensures |q.search| == |input|
    ensures forall i :: 0 <= i < |input| ==> q.search[i] == LowerChar(input[i])
  {
    StudentsQuery(InitialPagination.page, PageSize, ToLower(input))
  }

  /** Searching is case-insensitive: two inputs that lower-case alike send the
      same request, and lower-casing the input first changes nothing. */
  lemma SearchIgnoresCase(x: string, y: string)
    requires ToLower(x) == ToLower(y)
    ensures SearchQuery(x) == SearchQuery(y)
    ensures SearchQuery(ToLower(x)) == SearchQuery(x)
  {
    ToLowerIdempotent(x);
  }

  /** The common tail of `loadStudents` and of the search handler: the store is
      refreshed and the cursor replaced on success, both are kept on failure,
      and the table stops loading either way. */
  function SettleFetch(v: TableView, reply: Outcome<StudentsPage>): (r: TableView)
    ensures !r.loading
    ensures r.store == FetchStudents(v.store, reply).store
    ensures reply.Ok? && reply.value.success ==>
              r.pagination == PaginatedResult(reply.value.total, reply.value.page, reply.value.totalPages)
    ensures !(reply.Ok? && reply.value.success) ==> r.pagination == v.pagination && r.store == v.store
  {
    var f := FetchStudents(v.store, reply);
    match f.result
    case Ok(result) => TableView(f.store, result, false)
    case Err(_) => TableView(f.store, v.pagination, false)
  }

  // ---------------------------------------------------------------------------
  // CSV export

  const CsvHeaders: seq<string> := ["Name", "Email", "Phone", "Handle", "Current", "Max"]

  /** A missing phone number joins as the empty string. */
  function PhoneCell(phone: Option<string>): string {
    match phone
    case None => ""
    case Some(p) => p
  }

  /** One row of the export: name, e-mail, phone, handle, current and maximum rating. */
  function CsvRow(s: Student): (r: seq<string>)
    ensures |r| == |CsvHeaders|
    ensures r[0] == s.name && r[1] == s.email && r[3] == s.codeforcesHandle
    ensures s.phone.None? ==> r[2] == ""
    ensures s.phone.Some? ==> r[2] == s.phone.value
    ensures r[4] == IntToString(s.currentRating) && r[5] == IntToString(s.maxRating)
  {
    [s.name, s.email, PhoneCell(s.phone), s.codeforcesHandle, IntToString(s.currentRating), IntToString(s.maxRating)]
  }

  /** The header line followed by one comma-joined line per student. */
  function CsvLines(students: seq<Student>): (r: seq<string>)
    ensures |r| == |students| + 1
    ensures r[0] == Join(CsvHeaders, ",")
    ensures forall i :: 0 <= i < |students| ==> r[i + 1] == Join(CsvRow(students[i]), ",")
  {
    [Join(CsvHeaders, ",")] + seq(|students|, i requires 0 <= i < |students| => Join(CsvRow(students[i]), ","))
  }

  /** `downloadCSV`'s content: the lines joined with newlines, without quoting. */
  function CsvContent(students: seq<Student>): string {
    Join(CsvLines(students), "\n")
  }

  /** The text fields of a student hold neither separator. */
  predicate CsvSafe(s: Student) {
    && ',' !in s.name && '\n' !in s.name
    && ',' !in s.email && '\n' !in s.email
    && ',' !in PhoneCell(s.phone) && '\n' !in PhoneCell(s.phone)
    && ',' !in s.codeforcesHandle && '\n' !in s.codeforcesHandle
  }

  lemma RatingCellSafe(n: int)
    ensures ',' !in IntToString(n) && '\n' !in IntToString(n)
  {
    var r := IntToString(n);
    assert forall i :: 0 <= i < |r| ==> r[i] != ',' && r[i] != '\n';
  }

  lemma RowSafe(s: Student, c: char)
    requires CsvSafe(s)
    requires c == ',' || c == '\n'
    ensures forall j :: 0 <= j < |CsvRow(s)| ==> c !in CsvRow(s)[j]
  {
    RatingCellSafe(s.currentRating);
    RatingCellSafe(s.maxRating);
  }

  /** When no field holds a comma or a newline, the export can be read back:
      it has one line per student after the header, and each line splits into
      that student's six cells. */
  lemma CsvReadsBack(students: seq<Student>)
    requires forall i :: 0 <= i < |students| ==> CsvSafe(students[i])
    ensures var lines := SplitOn(CsvContent(students), '\n');
            && |lines| == |students| + 1
            && lines[0] == Join(CsvHeaders, ",")
            && forall i :: 0 <= i < |students| ==> SplitOn(lines[i + 1], ',') == CsvRow(students[i])
  {
    var lines := CsvLines(students);
    forall k | 0 <= k < |lines|
      ensures '\n' !in lines[k]
    {
      if k == 0 {
        JoinAvoids(CsvHeaders, ",", '\n');
      } else {
        RowSafe(students[k - 1], '\n');
        JoinAvoids(CsvRow(students[k - 1]), ",", '\n');
      }
    }
    SplitJoin(lines, '\n');
    forall i | 0 <= i < |students|
      ensures SplitOn(lines[i + 1], ',') == CsvRow(students[i])
    {
      RowSafe(students[i], ',');
      SplitJoin(CsvRow(students[i]), ',');
    }
  }

  /** Without quoting, a comma in a name moves every later cell one column right. */
  lemma CommaInNameShiftsColumns(s: Student)
    requires s.name == "Doe, Jane"
    requires ',' !in s.email && ',' !in PhoneCell(s.phone) && ',' !in s.codeforcesHandle
    ensures |SplitOn(Join(CsvRow(s), ","), ',')| == |CsvHeaders| + 1
  {
    var row := CsvRow(s);
    var split := ["Doe", " Jane"] + row[1..];
    RatingCellSafe(s.currentRating);
    RatingCellSafe(s.maxRating);
    assert Join(split, ",") == Join(row, ",") by {
      assert row == [s.name] + row[1..];
      assert split[2..] == row[1..];
      assert (["Doe", " Jane"] + row[1..])[1..] == [" Jane"] + row[1..];
    }
    SplitJoin(split, ',');
  }

  // ---------------------------------------------------------------------------
  // deleting a student

  /** The name of the delete handler's progress entry. */
  function DeleteName(studentId: string): string {
    "Deleting Student with Id: " + studentId
  }

  /** The synchronous half of `deleteStudent`: the entry is appended to the
      process list captured at render time. */
  function BeginDelete(st: StoreState, captured: seq<Process>, clock: int, studentId: string): (r: StoreState)
    ensures r.students == st.students
    ensures r.processes == captured + [Process(clock, DeleteName(studentId), 50, Active)]
  {
    SetProcesses(st, Started(captured, clock, DeleteName(studentId)))
  }

  /** The half after the awaited request, as written: on success the captured
      list is written back with the entry's id marked completed and the
      student is removed; on failure nothing is written. */
  function FinishDelete(st: StoreState, captured: seq<Process>, clock: int, studentId: string, reply: Outcome<()>): (r: StoreState)
    ensures reply.Err? ==> r == st
    ensures reply.Ok? ==> r.processes == MarkCompleted(captured, clock)
    ensures reply.Ok? ==> forall i :: 0 <= i < |r.students| ==> r.students[i].id != studentId && r.students[i] in st.students
    ensures reply.Ok? ==> forall s :: s in st.students && s.id != studentId ==> s in r.students
  {
    match reply
    case Err(_) => st
    case Ok(_) => Store.DeleteStudent(SetProcesses(st, MarkCompleted(captured, clock)), studentId)
  }

  /** One delete with nothing else in flight: render, click, settle. A failure
      keeps the students and leaves the entry behind the list as it was; a
      success writes back the list as it was and removes the student. */
  function HandleDelete(st: StoreState, clock: int, studentId: string, reply: Outcome<()>): (r: StoreState)
    ensures reply.Err? ==> r.students == st.students
    ensures reply.Err? ==> r.processes == st.processes + [StartEntry(clock, DeleteName(studentId))]
    ensures reply.Ok? && !HasProcess(st.processes, clock) ==> r.processes == st.processes
    ensures reply.Ok? ==> forall i :: 0 <= i < |r.students| ==> r.students[i].id != studentId && r.students[i] in st.students
    ensures reply.Ok? ==> forall s :: s in st.students && s.id != studentId ==> s in r.students
  {
    FinishDelete(BeginDelete(st, st.processes, clock, studentId), st.processes, clock, studentId, reply)
  }

  /** A failed delete leaves its entry active: the indicator lists it after
      everything it listed before, and nothing later removes it. */
  lemma FailedDeleteStaysActive(st: StoreState, clock: int, studentId: string, f: Failure)
    ensures var r := HandleDelete(st, clock, studentId, Err(f));
            && r.students == st.students
            && ActiveProcesses(r.processes) == ActiveProcesses(st.processes) + [StartEntry(clock, DeleteName(studentId))]
  {
    ActiveAfterAppend(st.processes, StartEntry(clock, DeleteName(studentId)));
  }

  /** The counterexample to the stale write-back: a second delete started
      while the first is in flight captures the first's active entry; the
      first one's completion then writes the list from before both, and the
      second one's completion writes its own captured list back, first entry
      still active. Both requests succeeded and the first entry never
      completes. */
  lemma OverlappingDeletesStrandEntry(st: StoreState, c1: int, c2: int, id1: string, id2: string)
    requires c1 != c2 && !HasProcess(st.processes, c1) && !HasProcess(st.processes, c2)
    ensures var s1 := BeginDelete(st, st.processes, c1, id1);
            var s2 := BeginDelete(s1, s1.processes, c2, id2);
            var s3 := FinishDelete(s2, st.processes, c1, id1, Ok(()));
            var s4 := FinishDelete(s3, s1.processes, c2, id2, Ok(()));
            && s4.processes == st.processes + [StartEntry(c1, DeleteName(id1))]
            && StartEntry(c1, DeleteName(id1)) in ActiveProcesses(s4.processes)
  {
    var e1 := StartEntry(c1, DeleteName(id1));
    var s1 := BeginDelete(st, st.processes, c1, id1);
    assert MarkCompleted(s1.processes, c2) == s1.processes by {
      assert !HasProcess(s1.processes, c2);
    }
    assert IsActive(e1);
  }

  /** The intended bookkeeping: each write is a function of the list current
      at that moment, so the entry is marked completed whether the request
      succeeds or fails. */
  function BeginDeleteSettled(st: StoreState, clock: int, studentId: string): (r: StoreState)
    ensures r.students == st.students
    ensures r.processes == st.processes + [StartEntry(clock, DeleteName(studentId))]
  {
    SetProcesses(st, Started(st.processes, clock, DeleteName(studentId)))
  }

  function FinishDeleteSettled(st: StoreState, clock: int, studentId: string, reply: Outcome<()>): (r: StoreState)
    ensures r.processes == MarkCompleted(st.processes, clock)
    ensures reply.Err? ==> r.students == st.students
    ensures reply.Ok? ==> forall i :: 0 <= i < |r.students| ==> r.students[i].id != studentId && r.students[i] in st.students
    ensures reply.Ok? ==> forall s :: s in st.students && s.id != studentId ==> s in r.students
  {
    var settled := SetProcesses(st, MarkCompleted(st.processes, clock));
    match reply
    case Err(_) => settled
    case Ok(_) => Store.DeleteStudent(settled, studentId)
  }

  /** With the intended bookkeeping, a delete settles: whatever the reply, its
      entry ends completed after everything that was there before, and the
      indicator shows exactly what it showed before. */
  lemma SettledDeleteRestoresIndicator(st: StoreState, clock: int, studentId: string, reply: Outcome<()>)
    requires !HasProcess(st.processes, clock)
    ensures var r := FinishDeleteSettled(BeginDeleteSettled(st, clock, studentId), clock, studentId, reply);
            && r.processes == st.processes + [Process(clock, DeleteName(studentId), 100, Completed)]
            && ActiveProcesses(r.processes) == ActiveProcesses(st.processes)
  {
    var name := DeleteName(studentId);
    CompletingCurrentMarksEntry(st.processes, clock, name);
    ActiveAfterAppend(st.processes, Process(clock, name, 100, Completed));
  }

  /** The overlapping run of the counterexample, with the intended
      bookkeeping: both entries end completed and nothing is left active. */
  lemma OverlappingSettledDeletesComplete(st: StoreState, c1: int, c2: int, id1: string, id2: string)
    requires c1 != c2 && !HasProcess(st.processes, c1) && !HasProcess(st.processes, c2)
    ensures var s1 := BeginDeleteSettled(st, c1, id1);
            var s2 := BeginDeleteSettled(s1, c2, id2);
            var s3 := FinishDeleteSettled(s2, c1, id1, Ok(()));
            var s4 := FinishDeleteSettled(s3, c2, id2, Ok(()));
            && s4.processes == st.processes + [Process(c1, DeleteName(id1), 100, Completed),
                                               Process(c2, DeleteName(id2), 100, Completed)]
            && ActiveProcesses(s4.processes) == ActiveProcesses(st.processes)
  {
    var done1 := Process(c1, DeleteName(id1), 100, Completed);
    var done2 := Process(c2, DeleteName(id2), 100, Completed);
    var s4 := st.processes + [done1, done2];
    ActiveKeepsOrder(st.processes, [done1, done2]);
    ActiveAfterAppend([done1], done2);
    ActiveAfterAppend([], done1);
    assert [done1, done2] == [done1] + [done2];
    assert [done1] == [] + [done1];
  }
}
