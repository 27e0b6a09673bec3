/** The gateway to the backend (src/lib/requests.ts): the mapping of wire
    records to store entities, the expansion of per-day counts into item
    lists, and the three fetches as pure steps from the store and the settled
    HTTP reply to the new store and the value the caller receives. */
module Requests {
  import opened Common
  import opened Text
  import opened Store

  // ---------------------------------------------------------------------------
  // wire records

  /** A student as the backend sends it. */
  datatype StudentResponse = StudentResponse(
    id: string,
    name: string,
    email: string,
    rating: int,
    codeforcesHandle: string,
    lastDataUpdate: string,
    reminderEmailCount: int,
    lastSubmissionDate: string,
    emailReminderEnabled: bool,
    maxRating: int,
    phoneNumber: Option<string>,
    rank: string,
    maxRank: string,
    titlePhoto: Option<string>)

  /** A contest participation as the backend sends it. */
  datatype ContestResponse = ContestResponse(
    id: string,
    studentId: string,
    codeforcesId: int,
    name: string,
    participantType: string,
    rank: int,
    oldRating: int,
    newRating: int,
    ratingChange: int,
    problemsSolved: int,
    totalProblems: int,
    contestTime: string,
    createdAt: string)

  datatype RatingDataPoint = RatingDataPoint(date: string, rating: int)

  /** The `data` of a student-list reply. */
  datatype StudentsPage = StudentsPage(
    success: bool, message: string, students: seq<StudentResponse>, total: int, page: int, totalPages: int)

  /** The `data` of a contest-history reply. */
  datatype ContestsPage = ContestsPage(
    success: bool, message: string, contests: seq<ContestResponse>,
    ratingData: seq<RatingDataPoint>, totalContests: int, averageChange: real)

  /** The `data` of a create or update reply; `data` is `None` when the reply
      carries no student object. */
  datatype StudentReply = StudentReply(success: bool, message: string, data: Option<StudentResponse>)

  /** One element of the problems reply; `data` is `None` when the element
      carries no usable `data` object. */
  datatype PeriodResponse = PeriodResponse(success: bool, message: string, data: Option<ProblemStats>)

  /** The body of the problems reply: something that is not an array, or an array. */
  datatype ProblemsPayload = NotAnArray | Items(items: seq<PeriodResponse>)

  // ---------------------------------------------------------------------------
  // values handed back to callers

  datatype StudentsQuery = StudentsQuery(page: int, limit: int, search: string)

  datatype PaginatedResult = PaginatedResult(total: int, page: int, totalPages: int)

  datatype ContestHistory = ContestHistory(
    contests: seq<Contest>, ratingData: seq<RatingDataPoint>, totalContests: int, averageChange: real)

  /** What an awaited fetch leaves behind: its settled value and the store. */
  datatype Fetched<T> = Fetched(result: Outcome<T>, store: StoreState)

  // ---------------------------------------------------------------------------
  // mapToStudent and its inverse

  /** `mapToStudent`: the backend's names become the store's, the reminder
      flag is negated, the lazily fetched collections start empty, and the last
      submission date becomes a one-element submission list when present. */
  function MapToStudent(w: StudentResponse): (s: Student)
    ensures s.id == w.id && s.name == w.name && s.email == w.email
    ensures s.codeforcesHandle == w.codeforcesHandle && s.maxRating == w.maxRating
    ensures s.rank == w.rank && s.maxRank == w.maxRank
    ensures s.currentRating == w.rating && s.phone == w.phoneNumber
    ensures s.lastSyncedAt == w.lastDataUpdate && s.remindersSent == w.reminderEmailCount
    ensures s.emailRemindersDisabled == !w.emailReminderEnabled
    ensures s.titlePhoto == w.titlePhoto
    ensures s.contests == [] && s.problems == [] && s.problemStats == None
    ensures w.lastSubmissionDate != "" ==> s.submissions == [Submission(w.lastSubmissionDate)]
    ensures w.lastSubmissionDate == "" ==> s.submissions == []
  {
    Student(
      id := w.id,
      name := w.name,
      email := w.email,
      phone := w.phoneNumber,
      codeforcesHandle := w.codeforcesHandle,
      currentRating := w.rating,
      maxRating := w.maxRating,
      lastSyncedAt := w.lastDataUpdate,
      remindersSent := w.reminderEmailCount,
      titlePhoto := w.titlePhoto,
      emailRemindersDisabled := !w.emailReminderEnabled,
      contests := [],
      rank := w.rank,
      maxRank := w.maxRank,
      problems := [],
      problemStats := None,
      submissions := if w.lastSubmissionDate != "" then [Submission(w.lastSubmissionDate)] else [])
  }

  /** The students `mapToStudent` can produce. */
  predicate FreshlyMapped(s: Student) {
    && s.contests == [] && s.problems == [] && s.problemStats == None
    && (s.submissions == [] || (|s.submissions| == 1 && s.submissions[0].date != ""))
  }

  /** The wire record a freshly mapped student came from. */
  function ToWire(s: Student): StudentResponse {
    StudentResponse(
      s.id, s.name, s.email, s.currentRating, s.codeforcesHandle, s.lastSyncedAt,
      s.remindersSent, if s.submissions == [] then "" else s.submissions[0].date,
      !s.emailRemindersDisabled, s.maxRating, s.phone, s.rank, s.maxRank, s.titlePhoto)
  }

  /** `mapToStudent` loses nothing: the wire record can be read back from the
      student, and every freshly mapped student is the image of its record. */
  lemma MapToStudentRoundTrip(w: StudentResponse, s: Student)
    ensures ToWire(MapToStudent(w)) == w
    ensures FreshlyMapped(MapToStudent(w))
    ensures FreshlyMapped(s) ==> MapToStudent(ToWire(s)) == s
  {
    if FreshlyMapped(s) && s.submissions != [] {
      assert s.submissions == [Submission(s.submissions[0].date)];
    }
  }

  // ---------------------------------------------------------------------------
  // mapToContest

  /** `mapToContest`: the date is the part of `contestTime` before the first
      `'T'` (all of it when there is none), the rating is the new rating, and
      the unsolved count is total minus solved. */
  function MapToContest(c: ContestResponse): (r: Contest)
    ensures r.name == c.name && r.rank == c.rank && r.rating == c.newRating
    ensures r.unsolved == c.totalProblems - c.problemsSolved
    ensures r.date <= c.contestTime && 'T' !in r.date
    ensures |r.date| == |c.contestTime| || c.contestTime[|r.date|] == 'T'
  {
    var parts := SplitOn(c.contestTime, 'T');
    Contest(c.name, parts[0], c.newRating, c.rank, c.totalProblems - c.problemsSolved)
  }

  /** A contest time in `YYYY-MM-DDTHH:MM:SS` form maps to its `YYYY-MM-DD` part. */
  lemma ContestDateOfIsoTime(c: ContestResponse, day: string, time: string)
    requires 'T' !in day
    requires c.contestTime == day + "T" + time
    ensures MapToContest(c).date == day
  {
    var d := MapToContest(c).date;
    var ct := c.contestTime;
    assert ct[|day|] == 'T';
    assert forall k :: 0 <= k < |day| ==> ct[k] == day[k];
    assert |d| == |day|;
    assert d == ct[..|day|];
  }

  // ---------------------------------------------------------------------------
  // mapToProblems / mapToSubmissions

  function Accepted(d: DailySubmission): int { d.accepted }

  function Count(d: DailySubmission): int { d.count }

  function ZeroRated(date: string): Problem { Problem(date, 0) }

  function SubmittedOn(date: string): Submission { Submission(date) }

  /** `max(0, n)` copies of `x`: what `for (i = 0; i < n; i++) push(x)` appends. */
  function Repeat<T>(x: T, n: int): (r: seq<T>)
    ensures |r| == if n < 0 then 0 else n
    ensures forall i :: 0 <= i < |r| ==> r[i] == x
    decreases n
  {
    if n <= 0 then [] else Repeat(x, n - 1) + [x]
  }

  /** The sum over the days of `max(0, howMany(day))`. */
  function Total(days: seq<DailySubmission>, howMany: DailySubmission -> int): nat
    decreases |days|
  {
    if days == [] then 0
    else
      var last := days[|days| - 1];
      Total(days[..|days| - 1], howMany) + (if howMany(last) < 0 then 0 else howMany(last))
  }

  /** For each day in order, `howMany(day)` items `make(day.date)`. */
  function Expanded<T>(days: seq<DailySubmission>, howMany: DailySubmission -> int, make: string -> T): (r: seq<T>)
    ensures |r| == Total(days, howMany)
    ensures forall i :: 0 <= i < |r| ==> exists d :: d in days && r[i] == make(d.date)
    decreases |days|
  {
    if days == [] then []
    else
      var init := days[..|days| - 1];
      var last := days[|days| - 1];
      var r := Expanded(init, howMany, make) + Repeat(make(last.date), howMany(last));
      assert forall d :: d in init ==> d in days;
      r
  }

  /** The items of consecutive blocks of days follow each other: days are
      expanded in order. */
  lemma {:induction false} ExpandedConcat<T>(xs: seq<DailySubmission>, ys: seq<DailySubmission>,
                                             howMany: DailySubmission -> int, make: string -> T)
    ensures Expanded(xs + ys, howMany, make) == Expanded(xs, howMany, make) + Expanded(ys, howMany, make)
    decreases |ys|
  {
    if ys == [] {
      assert xs + ys == xs;
    } else {
      var init := ys[..|ys| - 1];
      assert (xs + ys)[..|xs + ys| - 1] == xs + init;
      assert (xs + ys)[|xs + ys| - 1] == ys[|ys| - 1];
      ExpandedConcat(xs, init, howMany, make);
    }
  }

  /** The nested loops of `mapToProblems` and `mapToSubmissions`. */
  method ExpandDays<T>(days: seq<DailySubmission>, howMany: DailySubmission -> int, make: string -> T)
    returns (items: seq<T>)
    ensures items == Expanded(days, howMany, make)
  {
    items := [];
    var k := 0;
    while k < |days|
      invariant 0 <= k <= |days|
      invariant items == Expanded(days[..k], howMany, make)
    {
      var day := days[k];
      var i := 0;
      ghost var before := items;
      while i < howMany(day)
        invariant 0 <= i
        invariant howMany(day) > 0 ==> i <= howMany(day)
        invariant howMany(day) <= 0 ==> i == 0
        invariant items == before + Repeat(make(day.date), i)
      {
        items := items + [make(day.date)];
        i := i + 1;
      }
      assert Repeat(make(day.date), i) == Repeat(make(day.date), howMany(day));
      assert days[..k + 1][..k] == days[..k];
      k := k + 1;
    }
    assert days[..k] == days;
  }

  /** `mapToProblems`: one problem of rating 0 per accepted submission, grouped
      by day in day order. */
  method MapToProblems(days: seq<DailySubmission>) returns (problems: seq<Problem>)
    ensures problems == Expanded(days, Accepted, ZeroRated)
    ensures |problems| == Total(days, Accepted)
    ensures forall i :: 0 <= i < |problems| ==> problems[i].rating == 0
  {
    problems := ExpandDays(days, Accepted, ZeroRated);
  }

  /** `mapToSubmissions`: one submission per counted submission, by day in order. */
  method MapToSubmissions(days: seq<DailySubmission>) returns (submissions: seq<Submission>)
    ensures submissions == Expanded(days, Count, SubmittedOn)
    ensures |submissions| == Total(days, Count)
  {
    submissions := ExpandDays(days, Count, SubmittedOn);
  }

  // ---------------------------------------------------------------------------
  // fetchStudents

  const DefaultQuery: StudentsQuery := StudentsQuery(1, 10, "")

  /** `fetchStudents`: on a successful reply the store's student list is
      replaced by the mapped page and the counts are returned; a rejected or
      `success: false` reply leaves the store as it was. */
  function FetchStudents(st: StoreState, reply: Outcome<StudentsPage>): (r: Fetched<PaginatedResult>)
    ensures reply.Err? ==> r == Fetched(Err(reply.failure), st)
    ensures reply.Ok? && !reply.value.success ==> r == Fetched(Err(Backend(reply.value.message)), st)
    ensures reply.Ok? && reply.value.success ==>
              && r.result == Ok(PaginatedResult(reply.value.total, reply.value.page, reply.value.totalPages))
              && |r.store.students| == |reply.value.students|
              && (forall i :: 0 <= i < |reply.value.students| ==>
                    r.store.students[i] == MapToStudent(reply.value.students[i]))
              && r.store.processes == st.processes
  {
    match reply
    case Err(f) => Fetched(Err(f), st)
    case Ok(page) =>
      if !page.success then Fetched(Err(Backend(page.message)), st)
      else
        var mapped := seq(|page.students|, i requires 0 <= i < |page.students| => MapToStudent(page.students[i]));
        Fetched(Ok(PaginatedResult(page.total, page.page, page.totalPages)), SetStudents(st, mapped))
  }

  // ---------------------------------------------------------------------------
  // fetchStudentContests

  /** The store update of a contest fetch: only the student's contest list. */
  function ContestsPatch(contests: seq<Contest>): StudentPatch {
    NoChange.(contests := Some(contests))
  }

  /** `fetchStudentContests`: on success, the mapped contests are merged into
      the student with that id and returned with the rating series. */
  function FetchStudentContests(st: StoreState, studentId: string, reply: Outcome<ContestsPage>): (r: Fetched<ContestHistory>)
    ensures reply.Err? ==> r == Fetched(Err(reply.failure), st)
    ensures reply.Ok? && !reply.value.success ==> r == Fetched(Err(Backend(reply.value.message)), st)
    ensures r.result.Ok? ==>
              && reply.Ok? && reply.value.success
              && |r.result.value.contests| == |reply.value.contests|
              && (forall i :: 0 <= i < |reply.value.contests| ==>
                    r.result.value.contests[i] == MapToContest(reply.value.contests[i]))
              && r.store == UpdateStudent(st, studentId, ContestsPatch(r.result.value.contests))
    ensures reply.Ok? && reply.value.success ==>
              && r.result.Ok?
              && r.result.value.ratingData == reply.value.ratingData
              && r.result.value.totalContests == reply.value.totalContests
              && r.result.value.averageChange == reply.value.averageChange
  {
    match reply
    case Err(f) => Fetched(Err(f), st)
    case Ok(page) =>
      if !page.success then Fetched(Err(Backend(page.message)), st)
      else
        var mapped := seq(|page.contests|, i requires 0 <= i < |page.contests| => MapToContest(page.contests[i]));
        Fetched(Ok(ContestHistory(mapped, page.ratingData, page.totalContests, page.averageChange)),
                UpdateStudent(st, studentId, ContestsPatch(mapped)))
  }

  /** A contest fetch only replaces the contest list of the students with
      that id, and fetching the same reply again changes nothing more. */
  lemma ContestsFetchTouchesOnlyContests(st: StoreState, studentId: string, reply: Outcome<ContestsPage>, i: int)
    requires 0 <= i < |st.students|
    ensures var r := FetchStudentContests(st, studentId, reply);
            && |r.store.students| == |st.students|
            && ((r.result.Ok? && st.students[i].id == studentId) ==>
                  r.store.students[i] == st.students[i].(contests := r.result.value.contests))
            && ((r.result.Err? || st.students[i].id != studentId) ==> r.store.students[i] == st.students[i])
    ensures var r := FetchStudentContests(st, studentId, reply);
            FetchStudentContests(r.store, studentId, reply) == r
  {
    var r := FetchStudentContests(st, studentId, reply);
    if r.result.Ok? {
      var u := ContestsPatch(r.result.value.contests);
      forall j | 0 <= j < |st.students| && st.students[j].id == studentId
        ensures Merge(Merge(st.students[j], u), u) == Merge(st.students[j], u)
      {
        MergeIdempotent(st.students[j], u);
      }
      assert UpdateStudent(r.store, studentId, u).students == r.store.students;
    }
  }

  // ---------------------------------------------------------------------------
  // fetchStudentProblems

  /** The shape check: an array of exactly four elements. */
  predicate WellShaped(p: ProblemsPayload) {
    p.Items? && |p.items| == 4
  }

  /** The success check, which looks at the 7-, 30- and 90-day elements only. */
  predicate FirstThreeSucceeded(items: seq<PeriodResponse>)
    requires |items| == 4
  {
    items[0].success && items[1].success && items[2].success
  }

  /** Reading `.data.totalSolved` of every element: it throws when one of them
      has no data object. */
  predicate AllCarryData(items: seq<PeriodResponse>)
    requires |items| == 4
  {
    items[0].data.Some? && items[1].data.Some? && items[2].data.Some? && items[3].data.Some?
  }

  /** The store update of a problems fetch. */
  function ProblemsPatch(stats: TimePeriodStats): StudentPatch {
    var days := stats.days30.dailySubmissions;
    NoChange.(problems := Some(Expanded(days, Accepted, ZeroRated)),
              submissions := Some(Expanded(days, Count, SubmittedOn)),
              problemStats := Some(Some(stats)))
  }

  /** `fetchStudentProblems`: the reply must be an array of exactly four
      elements whose first three succeeded; the elements are then taken by
      position as the 7-day, 30-day, 90-day and all-time statistics, and the
      30-day daily counts become the student's problems and submissions. On
      any failure the store is left untouched. */
  function FetchStudentProblems(st: StoreState, studentId: string, reply: Outcome<ProblemsPayload>): (r: Fetched<TimePeriodStats>)
    ensures r.result.Err? ==> r.store == st
    ensures reply.Err? ==> r.result == Err(reply.failure)
    ensures reply.Ok? && !WellShaped(reply.value) ==> r.result == Err(UnexpectedFormat)
    ensures reply.Ok? && WellShaped(reply.value) && !FirstThreeSucceeded(reply.value.items) ==>
              r.result == Err(PeriodFailed)
    ensures r.result.Ok? <==>
              && reply.Ok? && WellShaped(reply.value)
              && FirstThreeSucceeded(reply.value.items) && AllCarryData(reply.value.items)
    ensures r.result.Ok? ==>
              var items := reply.value.items;
              && r.result.value == TimePeriodStats(items[0].data.value, items[1].data.value,
                                                   items[2].data.value, items[3].data.value)
              && r.store == UpdateStudent(st, studentId, ProblemsPatch(r.result.value))
  {
    match reply
    case Err(f) => Fetched(Err(f), st)
    case Ok(payload) =>
      if !payload.Items? || |payload.items| != 4 then Fetched(Err(UnexpectedFormat), st)
      else
        var items := payload.items;
        if !(items[0].success && items[1].success && items[2].success) then Fetched(Err(PeriodFailed), st)
        else if !AllCarryData(items) then Fetched(Err(MissingData), st)
        else
          var stats := TimePeriodStats(items[0].data.value, items[1].data.value,
                                       items[2].data.value, items[3].data.value);
          Fetched(Ok(stats), UpdateStudent(st, studentId, ProblemsPatch(stats)))
  }

  /** The all-time element's `success` flag is never looked at. */
  lemma AllTimeSuccessIgnored(st: StoreState, studentId: string, items: seq<PeriodResponse>, flag: bool)
    requires |items| == 4
    ensures FetchStudentProblems(st, studentId, Ok(Items(items)))
         == FetchStudentProblems(st, studentId, Ok(Items(items[3 := items[3].(success := flag)])))
  {
  }

  /** The problems and submissions a successful fetch stores come from the
      30-day element alone: their numbers are its accepted and counted totals. */
  lemma ProblemsFromThirtyDays(st: StoreState, studentId: string, reply: Outcome<ProblemsPayload>)
    requires FetchStudentProblems(st, studentId, reply).result.Ok?
    ensures var days := reply.value.items[1].data.value.dailySubmissions;
            var p := ProblemsPatch(FetchStudentProblems(st, studentId, reply).result.value);
            && |p.problems.value| == Total(days, Accepted)
            && |p.submissions.value| == Total(days, Count)
  {
  }

  // ---------------------------------------------------------------------------
  // getTimePeriodData

  /** `getTimePeriodData`: null stats give null; `'7'`, `'30'` and `'90'`
      select their window; any other period gives null. */
  function GetTimePeriodData(stats: Option<TimePeriodStats>, period: string): (r: Option<ProblemStats>)
    ensures stats.None? ==> r.None?
    ensures r.Some? <==> stats.Some? && (period == "7" || period == "30" || period == "90")
    ensures r.Some? ==> r.value in {stats.value.days7, stats.value.days30, stats.value.days90}
    ensures stats.Some? && period == "7" ==> r == Some(stats.value.days7)
    ensures stats.Some? && period == "30" ==> r == Some(stats.value.days30)
    ensures stats.Some? && period == "90" ==> r == Some(stats.value.days90)
  {
    match stats
    case None => None
    case Some(s) =>
      if period == "7" then Some(s.days7)
      else if period == "30" then Some(s.days30)
      else if period == "90" then Some(s.days90)
      else None
  }
}
