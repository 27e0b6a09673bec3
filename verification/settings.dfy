/** The settings page (src/pages/SettingsPage.tsx): the scheduled jobs with
    their display data, the schedule check, the enable switch, the manual
    trigger and the schedule update, each as a pure step from the page state
    and the settled replies to the next page state; and the e-mail template's
    fetch and save. */
module Settings {
  import opened Common
  import opened Text

  // ---------------------------------------------------------------------------
  // jobs

  /** A job configuration as the backend sends it. */
  datatype CronConfig = CronConfig(
    id: string, name: string, cronExpression: string, enabled: bool,
    lastRun: Option<string>, nextRun: Option<string>)

  datatype Icon = DatabaseIcon | UserCheckIcon | ClockIcon

  /** A job as the page keeps it: the configuration plus display data. */
  datatype CronJob = CronJob(
    id: string, name: string, displayName: string, cronExpression: string, description: string,
    enabled: bool, lastRun: Option<string>, nextRun: Option<string>, icon: Icon)

  const DataSync: string := "DATA_SYNC"
  const InactivityCheck: string := "INACTIVITY_CHECK"

  predicate KnownJob(name: string) {
    name == DataSync || name == InactivityCheck
  }

  /** The display data added to each fetched job: the two known jobs get a
      title, a description and an icon of their own; any other job is titled
      by its name, with no description and the clock icon. */
  function WithUi(c: CronConfig): (j: CronJob)
    ensures j.id == c.id && j.name == c.name && j.cronExpression == c.cronExpression
    ensures j.enabled == c.enabled && j.lastRun == c.lastRun && j.nextRun == c.nextRun
    ensures c.name == DataSync ==>
              j.displayName == "Data Sync" && j.icon == DatabaseIcon
              && j.description == "Synchronizes student data from external sources"
    ensures c.name == InactivityCheck ==>
              j.displayName == "Inactivity Check" && j.icon == UserCheckIcon
              && j.description == "Checks for inactive students and sends reminders"
    ensures !KnownJob(c.name) ==> j.displayName == c.name && j.description == "" && j.icon == ClockIcon
  {
    var displayName := if c.name == DataSync then "Data Sync"
                       else if c.name == InactivityCheck then "Inactivity Check"
                       else c.name;
    var description := if c.name == DataSync then "Synchronizes student data from external sources"
                       else if c.name == InactivityCheck then "Checks for inactive students and sends reminders"
                       else "";
    var icon := if c.name == DataSync then DatabaseIcon
                else if c.name == InactivityCheck then UserCheckIcon
                else ClockIcon;
    CronJob(c.id, c.name, displayName, c.cronExpression, description, c.enabled, c.lastRun, c.nextRun, icon)
  }

  /** The configuration part of a job. */
  function ConfigOf(j: CronJob): CronConfig {
    CronConfig(j.id, j.name, j.cronExpression, j.enabled, j.lastRun, j.nextRun)
  }

  /** The job card's title, `displayName || name`. */
  function Title(j: CronJob): string {
    if j.displayName != "" then j.displayName else j.name
  }

  /** The job card's description line, `description || 'No description'`. */
  function DescriptionLine(j: CronJob): string {
    if j.description != "" then j.description else "No description"
  }

  /** Adding display data loses nothing of the configuration, and an unknown
      job is shown under its own name with "No description". */
  lemma WithUiKeepsConfig(c: CronConfig)
    ensures ConfigOf(WithUi(c)) == c
    ensures !KnownJob(c.name) ==> Title(WithUi(c)) == c.name
    ensures DescriptionLine(WithUi(c)) == "No description" <==> !KnownJob(c.name)
  {
  }

  /** Every job with display data added. */
  function JobsWithUi(cs: seq<CronConfig>): (js: seq<CronJob>)
    ensures |js| == |cs|
    ensures forall i :: 0 <= i < |cs| ==> js[i] == WithUi(cs[i])
  {
    seq(|cs|, i requires 0 <= i < |cs| => WithUi(cs[i]))
  }

  /** The switch's write: every job with that name takes the new flag. */
  function SetEnabled(jobs: seq<CronJob>, name: string, enabled: bool): (r: seq<CronJob>)
    ensures |r| == |jobs|
    ensures forall i :: 0 <= i < |jobs| && jobs[i].name == name ==> r[i] == jobs[i].(enabled := enabled)
    ensures forall i :: 0 <= i < |jobs| && jobs[i].name != name ==> r[i] == jobs[i]
  {
    seq(|jobs|, i requires 0 <= i < |jobs| => if jobs[i].name == name then jobs[i].(enabled := enabled) else jobs[i])
  }

  /** The schedule input's write: every job with that id takes the new text. */
  function SetCronExpression(jobs: seq<CronJob>, id: string, expression: string): (r: seq<CronJob>)
    ensures |r| == |jobs|
    ensures forall i :: 0 <= i < |jobs| && jobs[i].id == id ==> r[i] == jobs[i].(cronExpression := expression)
    ensures forall i :: 0 <= i < |jobs| && jobs[i].id != id ==> r[i] == jobs[i]
  {
    seq(|jobs|, i requires 0 <= i < |jobs| => if jobs[i].id == id then jobs[i].(cronExpression := expression) else jobs[i])
  }

  /** Setting the same flag twice is setting it once, and the last of two
      settings wins. */
  lemma SetEnabledLastWins(jobs: seq<CronJob>, name: string, a: bool, b: bool)
    ensures SetEnabled(SetEnabled(jobs, name, a), name, b) == SetEnabled(jobs, name, b)
  {
  }

  // ---------------------------------------------------------------------------
  // the schedule check

  /** `validateCronExpression`: after trimming, splitting on runs of
      whitespace gives exactly five parts; that is, the expression has exactly
      five words, counted as maximal runs of non-whitespace. */
  function ValidateCronExpression(expression: string): (ok: bool)
    ensures ok <==> WordCount(expression) == 5
  {
    TrimmedSplitLength(expression);
    |SplitOnWhitespace(Trim(expression))| == 5
  }

  /** The page's own placeholder passes; with a field missing it fails. */
  lemma PlaceholderIsValid()
    ensures ValidateCronExpression("0 2 * * *")
    ensures !ValidateCronExpression("0 2 * *")
  {
    var s := "0 2 * * *";
    assert Heads(s[8..], IsWhitespace, true) == "*";
    assert Heads(s[7..], IsWhitespace, false) == "*";
    assert Heads(s[6..], IsWhitespace, true) == "**";
    assert Heads(s[5..], IsWhitespace, false) == "**";
    assert Heads(s[4..], IsWhitespace, true) == "***";
    assert Heads(s[3..], IsWhitespace, false) == "***";
    assert Heads(s[2..], IsWhitespace, true) == "2***";
    assert Heads(s[1..], IsWhitespace, false) == "2***";
    assert Heads(s, IsWhitespace, true) == "02***";
    var t := "0 2 * *";
    assert Heads(t[6..], IsWhitespace, true) == "*";
    assert Heads(t[5..], IsWhitespace, false) == "*";
    assert Heads(t[4..], IsWhitespace, true) == "**";
    assert Heads(t[3..], IsWhitespace, false) == "**";
    assert Heads(t[2..], IsWhitespace, true) == "2**";
    assert Heads(t[1..], IsWhitespace, false) == "2**";
    assert Heads(t, IsWhitespace, true) == "02**";
  }

  // ---------------------------------------------------------------------------
  // page state

  datatype NoticeKind = Success | Failed

  datatype Notice = Notice(kind: NoticeKind, message: string)

  datatype Template = Template(subject: string, body: string)

  datatype SettingsView = SettingsView(
    jobs: seq<CronJob>,
    loading: map<string, bool>,
    notices: map<string, Notice>,
    isLoading: bool,
    template: Template,
    isSaving: bool)

  /** A loading flag that was never set reads as false. */
  predicate Loading(v: SettingsView, key: string) {
    key in v.loading && v.loading[key]
  }

  function ToggleKey(jobId: string): string { "toggle_" + jobId }

  function TriggerKey(jobId: string): string { "trigger_" + jobId }

  const TemplateKey: string := "emailTemplate"

  predicate ToggleDisabled(v: SettingsView, j: CronJob) {
    Loading(v, ToggleKey(j.id))
  }

  predicate TriggerDisabled(v: SettingsView, j: CronJob) {
    Loading(v, TriggerKey(j.id)) || !j.enabled
  }

  predicate UpdateDisabled(v: SettingsView, j: CronJob) {
    Loading(v, j.id) || !ValidateCronExpression(j.cronExpression)
  }

  /** The requests the page sends about jobs and the template. */
  datatype PageRequest =
    | PutSchedule(jobName: string, cronExpression: string)
    | PostSwitch(jobName: string, action: string)
    | PostTrigger(jobName: string)
    | PutTemplate(subject: string, body: string)

  datatype Step = Step(view: SettingsView, request: PageRequest)

  /** The `data` of the jobs reply. */
  datatype ConfigsReply = ConfigsReply(success: bool, data: seq<CronConfig>)

  /** The `data` of the template reply. */
  datatype TemplateReply = TemplateReply(success: bool, data: Template)

  // ---------------------------------------------------------------------------
  // handlers

  /** `fetchCronJobs`: a successful reply replaces the job list with the
      fetched jobs, display data added; anything else keeps it. It never
      fails to its caller, and it always stops the page's spinner. */
  function FetchCronJobs(v: SettingsView, reply: Outcome<ConfigsReply>): (r: SettingsView)
    ensures !r.isLoading
    ensures r.loading == v.loading && r.notices == v.notices && r.template == v.template && r.isSaving == v.isSaving
    ensures reply.Ok? && reply.value.success ==> r.jobs == JobsWithUi(reply.value.data)
    ensures !(reply.Ok? && reply.value.success) ==> r.jobs == v.jobs
  {
    var jobs := if reply.Ok? && reply.value.success then JobsWithUi(reply.value.data) else v.jobs;
    v.(jobs := jobs, isLoading := false)
  }

  /** `updateCronSchedule`: the new expression is sent under the job's name;
      after it succeeds the jobs are fetched again and the job's notice reads
      success, otherwise it reads failure. The job's loading flag ends false. */
  function UpdateCronSchedule(v: SettingsView, jobId: string, jobName: string, expression: string,
                              put: Outcome<()>, refetch: Outcome<ConfigsReply>): (r: Step)
    ensures r.request == PutSchedule(jobName, expression)
    ensures jobId in r.view.loading && !r.view.loading[jobId]
    ensures jobId in r.view.notices
    ensures put.Ok? ==> r.view.notices[jobId] == Notice(Success, "Schedule updated successfully!")
                        && r.view.jobs == FetchCronJobs(v, refetch).jobs
    ensures put.Err? ==> r.view.notices[jobId] == Notice(Failed, "Failed to update schedule")
                         && r.view.jobs == v.jobs
    ensures forall k :: k in v.notices && k != jobId ==> k in r.view.notices && r.view.notices[k] == v.notices[k]
  {
    var busy := v.(loading := v.loading[jobId := true]);
    var settled :=
      match put
      case Ok(_) =>
        var fetched := FetchCronJobs(busy, refetch);
        fetched.(notices := fetched.notices[jobId := Notice(Success, "Schedule updated successfully!")])
      case Err(_) => busy.(notices := busy.notices[jobId := Notice(Failed, "Failed to update schedule")]);
    Step(settled.(loading := settled.loading[jobId := false]), PutSchedule(jobName, expression))
  }

  /** The action segment of the switch's request. */
  function SwitchAction(enabled: bool): string {
    if enabled then "enable" else "disable"
  }

  /** The switch's notices, as written: both name the opposite of the
      requested state. */
  function ToggleNotice(enabled: bool, ok: bool): (n: Notice)
    ensures n.kind == Success <==> ok
    ensures ok ==> (n.message == "Job enabled successfully!" <==> !enabled)
    ensures !ok ==> (n.message == "Failed to enable job" <==> !enabled)
  {
    if ok then Notice(Success, "Job " + (if !enabled then "enabled" else "disabled") + " successfully!")
    else Notice(Failed, "Failed to " + (if !enabled then "enable" else "disable") + " job")
  }

  /** The switch's notices as evidently intended: both name the requested state. */
  function ToggleNoticeIntended(enabled: bool, ok: bool): Notice {
    if ok then Notice(Success, "Job " + (if enabled then "enabled" else "disabled") + " successfully!")
    else Notice(Failed, "Failed to " + (if enabled then "enable" else "disable") + " job")
  }

  /** The switch handler with a given notice wording: on success every job of
      that name takes the new flag; the notice goes under the toggle key and
      the toggle loading flag ends false. */
  function ToggleWith(v: SettingsView, jobId: string, jobName: string, enabled: bool, reply: Outcome<()>,
                      intended: bool): (r: Step)
    ensures r.request == PostSwitch(jobName, SwitchAction(enabled))
    ensures ToggleKey(jobId) in r.view.loading && !r.view.loading[ToggleKey(jobId)]
    ensures reply.Ok? ==> r.view.jobs == SetEnabled(v.jobs, jobName, enabled)
    ensures reply.Err? ==> r.view.jobs == v.jobs
    ensures ToggleKey(jobId) in r.view.notices
    ensures r.view.notices[ToggleKey(jobId)]
            == (if intended then ToggleNoticeIntended(enabled, reply.Ok?) else ToggleNotice(enabled, reply.Ok?))
  {
    var key := ToggleKey(jobId);
    var notice := if intended then ToggleNoticeIntended(enabled, reply.Ok?) else ToggleNotice(enabled, reply.Ok?);
    var jobs := if reply.Ok? then SetEnabled(v.jobs, jobName, enabled) else v.jobs;
    Step(v.(jobs := jobs, notices := v.notices[key := notice], loading := v.loading[key := false]),
         PostSwitch(jobName, SwitchAction(enabled)))
  }

  /** `toggleCronJobStatus` as written. */
  function ToggleCronJobStatus(v: SettingsView, jobId: string, jobName: string, enabled: bool, reply: Outcome<()>): (r: Step)
    ensures r.request == PostSwitch(jobName, SwitchAction(enabled))
    ensures reply.Ok? ==> r.view.jobs == SetEnabled(v.jobs, jobName, enabled)
    ensures reply.Err? ==> r.view.jobs == v.jobs
    ensures ToggleKey(jobId) in r.view.notices
    ensures r.view.notices[ToggleKey(jobId)] == ToggleNotice(enabled, reply.Ok?)
  {
    ToggleWith(v, jobId, jobName, enabled, reply, false)
  }

  /** Switching a job on successfully reports it disabled, while the job it
      reports on is now enabled; a failed switch-on reports a failure to
      disable. */
  lemma ToggleNoticeContradictsSwitch(v: SettingsView, j: CronJob, i: int)
    requires 0 <= i < |v.jobs| && v.jobs[i] == j
    ensures var r := ToggleCronJobStatus(v, j.id, j.name, true, Ok(())).view;
            r.jobs[i].enabled && r.notices[ToggleKey(j.id)].message == "Job disabled successfully!"
    ensures ToggleCronJobStatus(v, j.id, j.name, true, Err(Transport)).view.notices[ToggleKey(j.id)].message
            == "Failed to disable job"
  {
  }

  /** The switch handler with the intended notices. */
  function ToggleCronJobStatusIntended(v: SettingsView, jobId: string, jobName: string, enabled: bool, reply: Outcome<()>): (r: Step)
    ensures r.request == PostSwitch(jobName, SwitchAction(enabled))
    ensures reply.Ok? ==> r.view.jobs == SetEnabled(v.jobs, jobName, enabled)
    ensures reply.Err? ==> r.view.jobs == v.jobs
    ensures ToggleKey(jobId) in r.view.notices
    ensures r.view.notices[ToggleKey(jobId)] == ToggleNoticeIntended(enabled, reply.Ok?)
  {
    ToggleWith(v, jobId, jobName, enabled, reply, true)
  }

  /** With the intended wording, a success notice names the state every job of
      that name is in afterwards, and a failure notice names the action the
      request asked for. */
  lemma IntendedNoticeMatchesState(v: SettingsView, jobId: string, jobName: string, enabled: bool,
                                   reply: Outcome<()>, i: int)
    requires 0 <= i < |v.jobs| && v.jobs[i].name == jobName
    ensures var r := ToggleCronJobStatusIntended(v, jobId, jobName, enabled, reply);
            var msg := r.view.notices[ToggleKey(jobId)].message;
            && (reply.Ok? ==> (msg == "Job enabled successfully!" <==> r.view.jobs[i].enabled))
            && (reply.Err? ==> msg == "Failed to " + r.request.action + " job")
  {
  }

  /** `triggerCronJob`: the job is run by name; after it succeeds the jobs are
      fetched again. The notice and loading flag go under the trigger key. */
  function TriggerCronJob(v: SettingsView, jobId: string, jobName: string,
                          post: Outcome<()>, refetch: Outcome<ConfigsReply>): (r: Step)
    ensures r.request == PostTrigger(jobName)
    ensures TriggerKey(jobId) in r.view.loading && !r.view.loading[TriggerKey(jobId)]
    ensures TriggerKey(jobId) in r.view.notices
    ensures post.Ok? ==> r.view.notices[TriggerKey(jobId)] == Notice(Success, "Job triggered successfully!")
                         && r.view.jobs == FetchCronJobs(v, refetch).jobs
    ensures post.Err? ==> r.view.notices[TriggerKey(jobId)] == Notice(Failed, "Failed to trigger job")
                          && r.view.jobs == v.jobs
  {
    var key := TriggerKey(jobId);
    var busy := v.(loading := v.loading[key := true]);
    var settled :=
      match post
      case Ok(_) =>
        var fetched := FetchCronJobs(busy, refetch);
        fetched.(notices := fetched.notices[key := Notice(Success, "Job triggered successfully!")])
      case Err(_) => busy.(notices := busy.notices[key := Notice(Failed, "Failed to trigger job")]);
    Step(settled.(loading := settled.loading[key := false]), PostTrigger(jobName))
  }

  /** The three handlers of one job keep their loading flags and notices
      apart: the keys are pairwise distinct. */
  lemma HandlerKeysDistinct(jobId: string)
    ensures jobId != ToggleKey(jobId) && jobId != TriggerKey(jobId)
    ensures ToggleKey(jobId) != TriggerKey(jobId)
  {
    assert |ToggleKey(jobId)| == |jobId| + 7;
    assert |TriggerKey(jobId)| == |jobId| + 8;
  }

  /** Once a handler settles, the control it locked takes input again: the
      switch always, the run button exactly when the job is enabled, and the
      update button exactly when the job's expression passes validation. */
  lemma ControlsReleasedAfterHandlers(v: SettingsView, j: CronJob, enabled: bool, expression: string,
                                      reply: Outcome<()>, refetch: Outcome<ConfigsReply>)
    ensures !ToggleDisabled(ToggleCronJobStatus(v, j.id, j.name, enabled, reply).view, j)
    ensures !ToggleDisabled(ToggleCronJobStatusIntended(v, j.id, j.name, enabled, reply).view, j)
    ensures TriggerDisabled(TriggerCronJob(v, j.id, j.name, reply, refetch).view, j) <==> !j.enabled
    ensures UpdateDisabled(UpdateCronSchedule(v, j.id, j.name, expression, reply, refetch).view, j)
            <==> !ValidateCronExpression(j.cronExpression)
  {
  }

  /** `fetchEmailTemplate`: a successful reply replaces the template. */
  function FetchEmailTemplate(v: SettingsView, reply: Outcome<TemplateReply>): (r: SettingsView)
    ensures reply.Ok? && reply.value.success ==> r == v.(template := reply.value.data)
    ensures !(reply.Ok? && reply.value.success) ==> r == v
  {
    if reply.Ok? && reply.value.success then v.(template := reply.value.data) else v
  }

  /** `saveEmailTemplate`: the current subject and body are sent, the notice
      goes under the template key, and saving ends either way. */
  function SaveEmailTemplate(v: SettingsView, reply: Outcome<()>): (r: Step)
    ensures r.request == PutTemplate(v.template.subject, v.template.body)
    ensures !r.view.isSaving && r.view.template == v.template && r.view.jobs == v.jobs
    ensures TemplateKey in r.view.notices
    ensures reply.Ok? <==> r.view.notices[TemplateKey].kind == Success
  {
    var notice := if reply.Ok? then Notice(Success, "Email template saved successfully!")
                  else Notice(Failed, "Failed to save email template");
    Step(v.(notices := v.notices[TemplateKey := notice], isSaving := false),
         PutTemplate(v.template.subject, v.template.body))
  }

  // ---------------------------------------------------------------------------
  // run times

  /** `formatDateTime` / `formatTimeFromNow`: a missing or empty time reads
      "Never"; a time the formatter rejects (`None`) reads "Invalid date". */
  function FormatRunTime(dateString: Option<string>, formatter: string -> Option<string>): (shown: string)
    ensures (dateString.None? || dateString.value == "") ==> shown == "Never"
    ensures dateString.Some? && dateString.value != "" && formatter(dateString.value).None? ==> shown == "Invalid date"
    ensures dateString.Some? && dateString.value != "" && formatter(dateString.value).Some? ==>
              shown == formatter(dateString.value).value
  {
    match dateString
    case None => "Never"
    case Some(s) =>
      if s == "" then "Never"
      else match formatter(s)
           case None => "Invalid date"
           case Some(f) => f
  }
}
