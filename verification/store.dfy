/** The client entity store (src/stores/useStudentStore.tsx): the list of
    students and the list of background "processes", with the replace, append,
    merge-by-id and filter-by-id primitives the views call. Every primitive is
    a pure function from the old state to the new one. */
module Store {
  import opened Common

  datatype Contest = Contest(name: string, date: string, rating: int, rank: int, unsolved: int)

  datatype Problem = Problem(date: string, rating: int)

  datatype Submission = Submission(date: string)

  datatype DailySubmission = DailySubmission(date: string, count: int, accepted: int)

  /** Problems solved per rating bucket, as the backend reports them. */
  datatype RatingDistribution = RatingDistribution(
    rating800: int, rating900: int, rating1000: int, rating1100: int,
    rating1200: int, rating1300: int, rating1400: int, rating1500: int,
    rating1600: int, rating1700: int, rating1800: int, rating1900: int,
    rating2000: int, rating2100: int, rating2200: int, rating2300: int,
    rating2400Plus: int, ratingUnknown: int)

  /** Statistics for one trailing time window. The two averages are display
      values computed by the backend and only copied by the client. */
  datatype ProblemStats = ProblemStats(
    totalSolved: int,
    maxRating: int,
    avgRating: real,
    avgPerDay: real,
    ratingDistribution: RatingDistribution,
    dailySubmissions: seq<DailySubmission>)

  datatype TimePeriodStats = TimePeriodStats(
    days7: ProblemStats, days30: ProblemStats, days90: ProblemStats, daysAllTime: ProblemStats)

  /** A tracked student. `phone` is nullable, `titlePhoto` optional,
      `problemStats` null until the problems endpoint has answered. */
  datatype Student = Student(
    id: string,
    name: string,
    email: string,
    phone: Option<string>,
    codeforcesHandle: string,
    currentRating: int,
    maxRating: int,
    lastSyncedAt: string,
    remindersSent: int,
    titlePhoto: Option<string>,
    emailRemindersDisabled: bool,
    contests: seq<Contest>,
    rank: string,
    maxRank: string,
    problems: seq<Problem>,
    problemStats: Option<TimePeriodStats>,
    submissions: seq<Submission>)

  /** `Partial<Student>`: `Some(v)` for each property the object literal
      carries, `None` for each it leaves out. */
  datatype StudentPatch = StudentPatch(
    id: Option<string>,
    name: Option<string>,
    email: Option<string>,
    phone: Option<Option<string>>,
    codeforcesHandle: Option<string>,
    currentRating: Option<int>,
    maxRating: Option<int>,
    lastSyncedAt: Option<string>,
    remindersSent: Option<int>,
    titlePhoto: Option<Option<string>>,
    emailRemindersDisabled: Option<bool>,
    contests: Option<seq<Contest>>,
    rank: Option<string>,
    maxRank: Option<string>,
    problems: Option<seq<Problem>>,
    problemStats: Option<Option<TimePeriodStats>>,
    submissions: Option<seq<Submission>>)

  /** A background operation shown by the progress indicators. */
  datatype Process = Process(id: int, name: string, progress: int, status: string)

  /** `Partial<Process>`. */
  datatype ProcessPatch = ProcessPatch(
    id: Option<int>, name: Option<string>, progress: Option<int>, status: Option<string>)

  datatype StoreState = StoreState(students: seq<Student>, processes: seq<Process>)

  const NoChange: StudentPatch :=
    StudentPatch(None, None, None, None, None, None, None, None, None,
                 None, None, None, None, None, None, None, None)

  /** A patch carrying every property of `s`, as the object `mapToStudent`
      returns does (its `titlePhoto` key is present even when undefined). */
  function Whole(s: Student): StudentPatch {
    StudentPatch(Some(s.id), Some(s.name), Some(s.email), Some(s.phone),
                 Some(s.codeforcesHandle), Some(s.currentRating), Some(s.maxRating),
                 Some(s.lastSyncedAt), Some(s.remindersSent), Some(s.titlePhoto),
                 Some(s.emailRemindersDisabled), Some(s.contests), Some(s.rank),
                 Some(s.maxRank), Some(s.problems), Some(s.problemStats), Some(s.submissions))
  }

  /** The later of two spreads wins: the property `u` carries, else `current`. */
  function Pick<T>(current: T, u: Option<T>): T {
    if u.Some? then u.value else current
  }

  /** `{ ...s, ...u }` for a student. */
  function Merge(s: Student, u: StudentPatch): Student {
    Student(
      Pick(s.id, u.id), Pick(s.name, u.name), Pick(s.email, u.email),
      Pick(s.phone, u.phone), Pick(s.codeforcesHandle, u.codeforcesHandle),
      Pick(s.currentRating, u.currentRating), Pick(s.maxRating, u.maxRating),
      Pick(s.lastSyncedAt, u.lastSyncedAt), Pick(s.remindersSent, u.remindersSent),
      Pick(s.titlePhoto, u.titlePhoto),
      Pick(s.emailRemindersDisabled, u.emailRemindersDisabled),
      Pick(s.contests, u.contests), Pick(s.rank, u.rank), Pick(s.maxRank, u.maxRank),
      Pick(s.problems, u.problems), Pick(s.problemStats, u.problemStats),
      Pick(s.submissions, u.submissions))
  }

  /** `{ ...u, ...v }` for two patches: the second one's properties win. */
  function Then(u: StudentPatch, v: StudentPatch): StudentPatch {
    StudentPatch(
      if v.id.Some? then v.id else u.id,
      if v.name.Some? then v.name else u.name,
      if v.email.Some? then v.email else u.email,
      if v.phone.Some? then v.phone else u.phone,
      if v.codeforcesHandle.Some? then v.codeforcesHandle else u.codeforcesHandle,
      if v.currentRating.Some? then v.currentRating else u.currentRating,
      if v.maxRating.Some? then v.maxRating else u.maxRating,
      if v.lastSyncedAt.Some? then v.lastSyncedAt else u.lastSyncedAt,
      if v.remindersSent.Some? then v.remindersSent else u.remindersSent,
      if v.titlePhoto.Some? then v.titlePhoto else u.titlePhoto,
      if v.emailRemindersDisabled.Some? then v.emailRemindersDisabled else u.emailRemindersDisabled,
      if v.contests.Some? then v.contests else u.contests,
      if v.rank.Some? then v.rank else u.rank,
      if v.maxRank.Some? then v.maxRank else u.maxRank,
      if v.problems.Some? then v.problems else u.problems,
      if v.problemStats.Some? then v.problemStats else u.problemStats,
      if v.submissions.Some? then v.submissions else u.submissions)
  }

  /** An empty patch leaves a student as it is. */
  lemma MergeNoChange(s: Student)
    ensures Merge(s, NoChange) == s
  {
  }

  /** Merging a whole student replaces every property: the result is that student. */
  lemma MergeWhole(s: Student, t: Student)
    ensures Merge(s, Whole(t)) == t
  {
  }

  /** Merging the same patch again changes nothing more. */
  lemma MergeIdempotent(s: Student, u: StudentPatch)
    ensures Merge(Merge(s, u), u) == Merge(s, u)
  {
  }

  /** Two successive merges are one merge of the combined patch. */
  lemma MergeThen(s: Student, u: StudentPatch, v: StudentPatch)
    ensures Merge(Merge(s, u), v) == Merge(s, Then(u, v))
  {
  }

  /** `{ ...p, ...u }` for a process. */
  function MergeProcess(p: Process, u: ProcessPatch): Process {
    Process(Pick(p.id, u.id), Pick(p.name, u.name), Pick(p.progress, u.progress), Pick(p.status, u.status))
  }

  function StudentId(s: Student): string { s.id }

  function ProcessId(p: Process): int { p.id }

  /** `students.map(s => s.id === id ? { ...s, ...u } : s)`. */
  function MergeStudents(xs: seq<Student>, id: string, u: StudentPatch): (r: seq<Student>)
    ensures |r| == |xs|
    ensures forall i :: 0 <= i < |xs| && xs[i].id != id ==> r[i] == xs[i]
    ensures forall i :: 0 <= i < |xs| && xs[i].id == id ==> r[i] == Merge(xs[i], u)
  {
    seq(|xs|, i requires 0 <= i < |xs| => if xs[i].id == id then Merge(xs[i], u) else xs[i])
  }

  /** `processes.map(p => p.id === id ? { ...p, ...u } : p)`. */
  function MergeProcesses(ps: seq<Process>, id: int, u: ProcessPatch): (r: seq<Process>)
    ensures |r| == |ps|
    ensures forall i :: 0 <= i < |ps| && ps[i].id != id ==> r[i] == ps[i]
    ensures forall i :: 0 <= i < |ps| && ps[i].id == id ==> r[i] == MergeProcess(ps[i], u)
  {
    seq(|ps|, i requires 0 <= i < |ps| => if ps[i].id == id then MergeProcess(ps[i], u) else ps[i])
  }

  predicate HasStudent(xs: seq<Student>, id: string) {
    exists i :: 0 <= i < |xs| && xs[i].id == id
  }

  predicate HasProcess(ps: seq<Process>, id: int) {
    exists i :: 0 <= i < |ps| && ps[i].id == id
  }

  // ---------------------------------------------------------------------------
  // the store's primitives

  /** The state the store is created with. */
  function Initial(): (st: StoreState)
    ensures |st.students| == 0 && |st.processes| == 0
  {
    StoreState([], [])
  }

  /** `setStudents(xs)`: the student list becomes exactly `xs`. */
  function SetStudents(st: StoreState, xs: seq<Student>): (r: StoreState)
    ensures r.students == xs && r.processes == st.processes
  {
    st.(students := xs)
  }

  /** `setProcesses(ps)`: the process list becomes exactly `ps`. */
  function SetProcesses(st: StoreState, ps: seq<Process>): (r: StoreState)
    ensures r.processes == ps && r.students == st.students
  {
    st.(processes := ps)
  }

  /** `addStudent(s)`: `s` is appended; the old entries stay, in order. */
  function AddStudent(st: StoreState, s: Student): (r: StoreState)
    ensures |r.students| == |st.students| + 1
    ensures r.students[..|st.students|] == st.students
    ensures r.students[|st.students|] == s
    ensures r.processes == st.processes
  {
    st.(students := st.students + [s])
  }

  /** `updateStudent(id, u)`: every student with that id takes `u`'s
      properties and keeps the others; nothing else changes. */
  function UpdateStudent(st: StoreState, id: string, u: StudentPatch): (r: StoreState)
    ensures |r.students| == |st.students|
    ensures forall i :: 0 <= i < |st.students| && st.students[i].id != id ==> r.students[i] == st.students[i]
    ensures forall i :: 0 <= i < |st.students| && st.students[i].id == id ==> r.students[i] == Merge(st.students[i], u)
    ensures !HasStudent(st.students, id) ==> r == st
    ensures r.processes == st.processes
  {
    var xs := MergeStudents(st.students, id, u);
    assert !HasStudent(st.students, id) ==> xs == st.students;
    st.(students := xs)
  }

  /** `deleteStudent(id)`: every student with that id is gone, all others stay. */
  function DeleteStudent(st: StoreState, id: string): (r: StoreState)
    ensures forall i :: 0 <= i < |r.students| ==> r.students[i].id != id && r.students[i] in st.students
    ensures forall s :: s in st.students && s.id != id ==> s in r.students
    ensures !HasStudent(st.students, id) ==> r == st
    ensures r.processes == st.processes
  {
    var xs := RemoveKey(st.students, StudentId, id);
    assert !HasStudent(st.students, id) ==> xs == st.students by {
      if !HasStudent(st.students, id) {
        RemoveAbsentKey(st.students, StudentId, id);
      }
    }
    st.(students := xs)
  }

  /** `updateProcess(id, u)`: only the processes with that id take `u`'s properties. */
  function UpdateProcess(st: StoreState, id: int, u: ProcessPatch): (r: StoreState)
    ensures |r.processes| == |st.processes|
    ensures forall i :: 0 <= i < |st.processes| && st.processes[i].id != id ==> r.processes[i] == st.processes[i]
    ensures forall i :: 0 <= i < |st.processes| && st.processes[i].id == id ==> r.processes[i] == MergeProcess(st.processes[i], u)
    ensures r.students == st.students
  {
    st.(processes := MergeProcesses(st.processes, id, u))
  }

  /** `removeProcess(id)`: the processes with that id are gone, all others stay. */
  function RemoveProcess(st: StoreState, id: int): (r: StoreState)
    ensures forall i :: 0 <= i < |r.processes| ==> r.processes[i].id != id && r.processes[i] in st.processes
    ensures forall p :: p in st.processes && p.id != id ==> p in r.processes
    ensures r.students == st.students
  {
    st.(processes := RemoveKey(st.processes, ProcessId, id))
  }

  // ---------------------------------------------------------------------------
  // laws of the primitives

  /** Deleting a student twice is deleting it once. */
  lemma DeleteStudentIdempotent(st: StoreState, id: string)
    ensures DeleteStudent(DeleteStudent(st, id), id) == DeleteStudent(st, id)
  {
    RemoveKeyIdempotent(st.students, StudentId, id);
  }

  /** Deleting keeps the surviving students in their original order: it works
      piecewise on any split of the list. */
  lemma DeleteStudentKeepsOrder(st: StoreState, xs: seq<Student>, ys: seq<Student>, id: string)
    requires st.students == xs + ys
    ensures DeleteStudent(st, id).students
         == DeleteStudent(StoreState(xs, st.processes), id).students
          + DeleteStudent(StoreState(ys, st.processes), id).students
  {
    RemoveKeyConcat(xs, ys, StudentId, id);
  }

  /** Removing a process keeps the survivors in their original order. */
  lemma RemoveProcessKeepsOrder(st: StoreState, ps: seq<Process>, qs: seq<Process>, id: int)
    requires st.processes == ps + qs
    ensures RemoveProcess(st, id).processes
         == RemoveProcess(StoreState(st.students, ps), id).processes
          + RemoveProcess(StoreState(st.students, qs), id).processes
  {
    RemoveKeyConcat(ps, qs, ProcessId, id);
  }

  /** Adding a student and then deleting a different id is the same as
      deleting first and then adding. */
  lemma AddThenDeleteOther(st: StoreState, s: Student, id: string)
    requires s.id != id
    ensures DeleteStudent(AddStudent(st, s), id) == AddStudent(DeleteStudent(st, id), s)
  {
    RemoveKeyConcat(st.students, [s], StudentId, id);
  }

  /** An update that does not touch `id` keeps every student's id, so a
      later delete of any id removes the same positions. */
  lemma UpdateKeepsIds(st: StoreState, id: string, u: StudentPatch)
    requires u.id.None?
    ensures forall i :: 0 <= i < |st.students| ==> UpdateStudent(st, id, u).students[i].id == st.students[i].id
  {
  }
}
