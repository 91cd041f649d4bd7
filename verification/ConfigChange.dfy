/**
  The two-phase configuration change of the Core, as the API server drives it. The components
  that run on their own event loops (controllers, API server, admin panel connector) are the
  parties; they work and report in any order. One `Job` is one configuration request.
 */
module ConfigChangeModel {

  /** `message` is what `getMessage` makes of the raw text. */
  datatype Error = Error(raw: string, message: string)

  function Messages(errors: seq<Error>): set<string> {
    set e | e in errors :: e.message
  }

  /** deduplicateErrors: the first error of each message stays. */
  function Deduplicate(errors: seq<Error>, seen: set<string> := {}): (r: seq<Error>)
    decreases |errors|
  {
    if errors == [] then []
    else if errors[0].message in seen then Deduplicate(errors[1..], seen)
    else [errors[0]] + Deduplicate(errors[1..], seen + {errors[0].message})
  }

  lemma {:induction false} DeduplicateKeepsMessages(errors: seq<Error>, seen: set<string>)
    ensures Messages(Deduplicate(errors, seen)) == Messages(errors) - seen
    ensures forall i, j | 0 <= i < j < |Deduplicate(errors, seen)| ::
              Deduplicate(errors, seen)[i].message != Deduplicate(errors, seen)[j].message
    decreases |errors|
  {
    if errors != [] {
      var m := errors[0].message;
      MessagesCons(errors[0], errors[1..]);
      assert [errors[0]] + errors[1..] == errors;
      if m in seen {
        DeduplicateKeepsMessages(errors[1..], seen);
      } else {
        var rest := Deduplicate(errors[1..], seen + {m});
        DeduplicateKeepsMessages(errors[1..], seen + {m});
        MessagesCons(errors[0], rest);
        forall j | 0 <= j < |rest| ensures rest[j].message != m {
          assert rest[j].message in Messages(rest);
        }
      }
    }
  }

  /** What stays of each message is its first error. */
  lemma {:induction false} DeduplicateKeepsFirst(errors: seq<Error>, seen: set<string>, e: Error)
    requires e in Deduplicate(errors, seen)
    ensures e.message !in seen
    ensures exists i :: IsFirst(errors, e, i)
    decreases |errors|
  {
    if errors[0].message !in seen && e == errors[0] {
      assert IsFirst(errors, e, 0);
    } else {
      DeduplicateKeepsFirst(errors[1..], if errors[0].message in seen then seen else seen + {errors[0].message}, e);
      var i :| IsFirst(errors[1..], e, i);
      assert forall k | 0 < k < |errors| :: errors[k] == errors[1..][k - 1];
      assert IsFirst(errors, e, i + 1);
    }
  }

  predicate IsFirst(errors: seq<Error>, e: Error, i: int) {
    0 <= i < |errors| && errors[i] == e && forall k | 0 <= k < i :: errors[k].message != e.message
  }

  lemma MessagesCons(e: Error, es: seq<Error>)
    ensures Messages([e] + es) == {e.message} + Messages(es)
  {
  }

  // ----- the change request

  datatype Request = Request(
    counter: nat,
    errors: seq<Error>,
    prepared: seq<bool>,     // which party's sub-request was filled in
    prepareLaunches: nat,    // callback threads started
    commitLaunches: nat,
    failed: bool)            // assert(req->counter > 0) was hit

  const NewRequest := Request(0, [], [], 0, 0, false)

  function PrepareCompletedOne(r: Request): Request {
    if r.counter == 0 then r.(failed := true)
    else if r.counter > 1 then r.(counter := r.counter - 1)
    else r.(counter := 0, errors := Deduplicate(r.errors), prepareLaunches := r.prepareLaunches + 1)
  }

  function CommitCompletedOne(r: Request): Request {
    if r.counter == 0 then r.(failed := true)
    else if r.counter > 1 then r.(counter := r.counter - 1)
    else r.(counter := 0, commitLaunches := r.commitLaunches + 1)
  }

  /** What the validation of the new configuration reports: the store itself, the components
      prepared on the caller's thread, and each party in its two sub-components. */
  datatype Input = Input(storeErrors: seq<Error>, inlineErrors: seq<Error>, reports: seq<Report>)

  datatype Report = Report(first: seq<Error>, second: seq<Error>)

  /** asyncPrepareConfigChange. */
  function Prepare(r: Request, i: Input): Request {
    var r := r.(counter := r.counter + 1, errors := r.errors + i.storeErrors);
    if r.errors != [] then PrepareCompletedOne(r)
    else
      PrepareCompletedOne(r.(errors := i.inlineErrors,
                             prepared := seq(|i.reports|, _ => false),
                             counter := r.counter + |i.reports|))
  }

  /** The locked end of asyncPrepareConfigChangeFor...: the later list goes to the front. */
  function ReportPrepare(r: Request, report: Report): Request {
    PrepareCompletedOne(r.(errors := report.second + (report.first + r.errors)))
  }

  /** asyncCommitConfigChange, the part that concerns the request. */
  function Commit(r: Request, parties: nat): Request {
    CommitCompletedOne(r.(counter := r.counter + 1 + parties))
  }

  /** What a party reports goes before what was reported earlier, its second component first. */
  lemma ReportGoesToFront(r: Request, report: Report)
    requires r.counter > 1
    ensures ReportPrepare(r, report).errors == report.second + report.first + r.errors
  {
  }

  // ----- the job

  datatype Task = Scheduled | Worked | Reported

  datatype Stage =
    | Received | Preparing | PrepareLaunched | PrepareQueued | Committing | CommitLaunched | CommitQueued | Over

  /** `stage` is where the job is; what may happen next follows from the other fields. */
  datatype Job = Job(
    input: Input,
    stage: Stage,
    req: Request,
    tasks: seq<Task>,
    prepareTaken: nat, prepareQueued: nat,   // callbacks that ran, continuations in the API loop's queue
    commitTaken: nat, commitQueued: nat,
    live: bool,                              // the new configuration is in effect
    applied: seq<nat>,                       // how often each party committed
    freed: nat,
    refs: int,                               // references to the HTTP request held for the change
    ended: bool,                             // the HTTP request has ended
    answers: seq<nat>,                       // status codes written
    misuse: bool)                            // a freed request or an unprepared sub-request was used

  datatype Action =
    | Begin
    | Work(p: nat)
    | ReportBack(p: nat)
    | PrepareCallback
    | PrepareContinue
    | CommitCallback
    | CommitContinue
    | ClientEnds

  function NewJob(i: Input): Job {
    Job(i, Received, NewRequest, [], 0, 0, 0, 0, false, seq(|i.reports|, _ => 0), 0, 0, false, [], false)
  }

  predicate IsCommit(j: Job) {
    j.stage in {Committing, CommitLaunched, CommitQueued, Over}
  }

  predicate Enabled(j: Job, a: Action) {
    match a
    case Begin => j.stage == Received
    case Work(p) => p < |j.tasks| && j.tasks[p] == Scheduled
    case ReportBack(p) => p < |j.tasks| && j.tasks[p] == Worked
    case PrepareCallback => j.prepareTaken < j.req.prepareLaunches
    case PrepareContinue => j.prepareQueued > 0
    case CommitCallback => j.commitTaken < j.req.commitLaunches
    case CommitContinue => j.commitQueued > 0
    case ClientEnds => j.stage != Received
  }

  function Release(j: Job): Job {
    j.(freed := j.freed + 1, refs := j.refs - 1, stage := Over, misuse := j.misuse || j.freed > 0)
  }

  function Answer(j: Job, status: nat): Job {
    j.(answers := j.answers + [status], ended := true)
  }

  function Step(j: Job, a: Action): Job
    requires Enabled(j, a)
  {
    match a
    case Begin =>
      var r := Prepare(j.req, j.input);
      var scheduled := j.input.storeErrors == [];
      j.(req := r, refs := j.refs + 1,
         tasks := if scheduled then seq(|j.input.reports|, _ => Scheduled) else [],
         stage := if r.counter == 0 then PrepareLaunched else Preparing)
    case Work(p) =>
      var j := j.(tasks := j.tasks[p := Worked], misuse := j.misuse || j.freed > 0);
      if !IsCommit(j) then
        if p < |j.req.prepared| then j.(req := j.req.(prepared := j.req.prepared[p := true])) else j.(misuse := true)
      else if p < |j.req.prepared| && j.req.prepared[p] && p < |j.applied| then
        j.(applied := j.applied[p := j.applied[p] + 1])
      else j.(misuse := true)
    case ReportBack(p) =>
      var j := j.(tasks := j.tasks[p := Reported], misuse := j.misuse || j.freed > 0);
      if !IsCommit(j) then
        if p >= |j.input.reports| then j.(misuse := true)
        else
          var r := ReportPrepare(j.req, j.input.reports[p]);
          j.(req := r, stage := if r.counter == 0 then PrepareLaunched else j.stage)
      else
        var r := CommitCompletedOne(j.req);
        j.(req := r, stage := if r.counter == 0 then CommitLaunched else j.stage)
    case PrepareCallback =>
      j.(prepareTaken := j.prepareTaken + 1, prepareQueued := j.prepareQueued + 1, stage := PrepareQueued)
    case PrepareContinue =>
      var j := j.(prepareQueued := j.prepareQueued - 1, misuse := j.misuse || j.freed > 0);
      if j.ended then Release(j)
      else if j.req.errors == [] then
        var r := Commit(j.req, |j.input.reports|);
        j.(req := r, live := true, tasks := seq(|j.input.reports|, _ => Scheduled),
           stage := if r.counter == 0 then CommitLaunched else Committing)
      else Release(Answer(j, 500))
    case CommitCallback =>
      j.(commitTaken := j.commitTaken + 1, commitQueued := j.commitQueued + 1, stage := CommitQueued)
    case CommitContinue =>
      var j := j.(commitQueued := j.commitQueued - 1, misuse := j.misuse || j.freed > 0);
      Release(if j.ended then j else Answer(j, 200))
    case ClientEnds => j.(ended := true)
  }

  predicate Legal(j: Job, acts: seq<Action>)
    decreases |acts|
  {
    acts == [] || (Enabled(j, acts[0]) && Legal(Step(j, acts[0]), acts[1..]))
  }

  function Run(j: Job, acts: seq<Action>): Job
    requires Legal(j, acts)
    decreases |acts|
  {
    if acts == [] then j else Run(Step(j, acts[0]), acts[1..])
  }

  // ----- the invariant

  function Unreported(tasks: seq<Task>): nat {
    if tasks == [] then 0 else Unreported(tasks[1..]) + if tasks[0] == Reported then 0 else 1
  }

  lemma {:induction false} UnreportedAfter(tasks: seq<Task>, p: nat, t: Task)
    requires p < |tasks| && tasks[p] != Reported
    ensures Unreported(tasks[p := t]) == Unreported(tasks) - if t == Reported then 1 else 0
  {
    if p > 0 {
      assert tasks[p := t][1..] == tasks[1..][p - 1 := t];
      UnreportedAfter(tasks[1..], p - 1, t);
    } else {
      assert tasks[p := t][1..] == tasks[1..];
    }
  }

  lemma {:induction false} UnreportedAll(tasks: seq<Task>)
    ensures Unreported(tasks) == 0 <==> forall p | 0 <= p < |tasks| :: tasks[p] == Reported
    ensures (forall p | 0 <= p < |tasks| :: tasks[p] == Scheduled) ==> Unreported(tasks) == |tasks|
  {
    if tasks != [] {
      UnreportedAll(tasks[1..]);
      assert forall p | 0 < p < |tasks| :: tasks[p] == tasks[1..][p - 1];
    }
  }

  predicate Says(r: Report, m: string) {
    m in Messages(r.second + r.first)
  }

  predicate SomeReportSays(i: Input, m: string) {
    exists r <- i.reports :: Says(r, m)
  }

  /** The messages of the inline components and of every party that has reported. */
  ghost predicate Collected(j: Job) {
    forall m :: m in Messages(j.req.errors) <==>
      m in Messages(j.input.inlineErrors) ||
      exists p | 0 <= p < |j.tasks| && p < |j.input.reports| ::
        j.tasks[p] == Reported && Says(j.input.reports[p], m)
  }

  /** The messages that the change as a whole is to report. */
  ghost predicate Complete(j: Job) {
    if j.input.storeErrors != [] then Messages(j.req.errors) == Messages(j.input.storeErrors)
    else
      forall m :: m in Messages(j.req.errors) <==>
        m in Messages(j.input.inlineErrors) || SomeReportSays(j.input, m)
  }

  predicate AllReported(j: Job) {
    forall p | 0 <= p < |j.tasks| :: j.tasks[p] == Reported
  }

  predicate AllPrepared(j: Job) {
    |j.req.prepared| == |j.input.reports| && forall p | 0 <= p < |j.req.prepared| :: j.req.prepared[p]
  }

  predicate AppliedTimes(j: Job, n: nat) {
    forall p | 0 <= p < |j.applied| :: j.applied[p] == n
  }

  /** While parties are at work: the counter is the number of those that have not reported. */
  predicate FanOut(j: Job) {
    && |j.tasks| == |j.input.reports| == |j.req.prepared|
    && j.req.counter == Unreported(j.tasks) > 0
    && j.input.storeErrors == []
  }

  /** After a launch nobody but the callback has the request. */
  predicate Quiet(j: Job) {
    j.req.counter == 0 && AllReported(j)
  }

  predicate Counts(j: Job, launches: nat, taken: nat, queued: nat,
                   commitLaunches: nat, commitTaken: nat, commitQueued: nat)
  {
    && j.req.prepareLaunches == launches && j.prepareTaken == taken && j.prepareQueued == queued
    && j.req.commitLaunches == commitLaunches && j.commitTaken == commitTaken && j.commitQueued == commitQueued
  }

  predicate OneEach(errors: seq<Error>) {
    forall i, k | 0 <= i < k < |errors| :: errors[i].message != errors[k].message
  }

  ghost predicate PrepareDone(j: Job) {
    && Quiet(j) && Complete(j) && OneEach(j.req.errors) && !j.live && AppliedTimes(j, 0)
    && (j.input.storeErrors == [] ==> AllPrepared(j))
  }

  ghost predicate CommitDone(j: Job) {
    Quiet(j) && j.live && j.req.errors == [] && Complete(j) && AllPrepared(j) && AppliedTimes(j, 1)
  }

  ghost predicate StageSound(j: Job)
    requires |j.applied| == |j.input.reports|
  {
    match j.stage
    case Received => j == NewJob(j.input)
    case Preparing =>
      && Counts(j, 0, 0, 0, 0, 0, 0) && FanOut(j) && Collected(j) && !j.live && AppliedTimes(j, 0)
      && forall p | 0 <= p < |j.tasks| :: j.req.prepared[p] <==> j.tasks[p] != Scheduled
    case PrepareLaunched => Counts(j, 1, 0, 0, 0, 0, 0) && PrepareDone(j)
    case PrepareQueued => Counts(j, 1, 1, 1, 0, 0, 0) && PrepareDone(j)
    case Committing =>
      && Counts(j, 1, 1, 0, 0, 0, 0) && FanOut(j) && AllPrepared(j) && j.live && j.req.errors == [] && Complete(j)
      && forall p | 0 <= p < |j.tasks| :: j.applied[p] == if j.tasks[p] == Scheduled then 0 else 1
    case CommitLaunched => Counts(j, 1, 1, 0, 1, 0, 0) && CommitDone(j)
    case CommitQueued => Counts(j, 1, 1, 0, 1, 1, 1) && CommitDone(j)
    case Over =>
      && (Counts(j, 1, 1, 0, 0, 0, 0) || Counts(j, 1, 1, 0, 1, 1, 0))
      && (PrepareDone(j) || CommitDone(j))
      && j.ended
  }

  /** The answer, if the client is still there to get it, tells whether the change was made. */
  predicate AnswerSound(j: Job) {
    || j.answers == []
    || (j.stage == Over && j.answers == [200] && j.live)
    || (j.stage == Over && j.answers == [500] && !j.live && j.req.errors != [])
  }

  ghost predicate Inv(j: Job) {
    && !j.misuse && !j.req.failed
    && |j.applied| == |j.input.reports|
    && j.freed == (if j.stage == Over then 1 else 0)
    && j.refs == (if j.stage in {Received, Over} then 0 else 1)
    && StageSound(j)
    && AnswerSound(j)
  }

  // ----- every schedule

  /** The last report makes the collected messages complete; earlier ones extend them. */
  lemma ReportCollects(j: Job, p: nat)
    requires FanOut(j) && Collected(j) && p < |j.tasks| && j.tasks[p] == Worked
    ensures
      var errors := j.input.reports[p].second + (j.input.reports[p].first + j.req.errors);
      Collected(j.(tasks := j.tasks[p := Reported], req := j.req.(errors := errors)))
  {
  }

  lemma CollectedIsComplete(j: Job)
    requires Collected(j) && AllReported(j) && |j.tasks| == |j.input.reports| && j.input.storeErrors == []
    ensures Complete(j.(req := j.req.(errors := Deduplicate(j.req.errors))))
  {
    DeduplicateKeepsMessages(j.req.errors, {});
    forall m ensures SomeReportSays(j.input, m) <==>
        exists p | 0 <= p < |j.tasks| && p < |j.input.reports| :: j.tasks[p] == Reported && Says(j.input.reports[p], m)
    {
      if SomeReportSays(j.input, m) {
        var r :| r in j.input.reports && Says(r, m);
        var p :| 0 <= p < |j.input.reports| && j.input.reports[p] == r;
        assert j.tasks[p] == Reported;
      }
    }
  }

  lemma DeduplicatedOnce(errors: seq<Error>)
    ensures OneEach(Deduplicate(errors))
  {
    DeduplicateKeepsMessages(errors, {});
  }

  /** The store itself finds errors: nobody is scheduled. */
  lemma RefusedBeginKeepsInv(j: Job)
    requires Inv(j) && j.stage == Received && j.input.storeErrors != []
    ensures Inv(Step(j, Begin))
  {
    DeduplicateKeepsMessages(j.input.storeErrors, {});
    DeduplicatedOnce(j.input.storeErrors);
    assert [] + j.input.storeErrors == j.input.storeErrors;
    hide Messages, Deduplicate, OneEach;
  }

  lemma AcceptedBeginKeepsInv(j: Job)
    requires Inv(j) && j.stage == Received && j.input.storeErrors == []
    ensures Inv(Step(j, Begin))
  {
    hide Messages, Deduplicate, OneEach;
    var v := Step(j, Begin);
    UnreportedAll(v.tasks);
    if j.input.reports == [] {
      DeduplicatedOnce(j.input.inlineErrors);
      CollectedIsComplete(v.(req := v.req.(errors := j.input.inlineErrors)));
    }
  }

  lemma BeginKeepsInv(j: Job)
    requires Inv(j) && j.stage == Received
    ensures Inv(Step(j, Begin))
  {
    hide Inv, Step;
    if j.input.storeErrors != [] {
      RefusedBeginKeepsInv(j);
    } else {
      AcceptedBeginKeepsInv(j);
    }
  }

  lemma PrepareWorkKeepsInv(j: Job, p: nat)
    requires Inv(j) && j.stage == Preparing && Enabled(j, Work(p))
    ensures Inv(Step(j, Work(p)))
  {
    hide Messages, Says;
    UnreportedAfter(j.tasks, p, Worked);
    var v := Step(j, Work(p));
    assert forall q | 0 <= q < |j.tasks| :: v.tasks[q] == Reported <==> j.tasks[q] == Reported;
    assert Collected(v);
  }

  lemma CommitWorkKeepsInv(j: Job, p: nat)
    requires Inv(j) && j.stage == Committing && Enabled(j, Work(p))
    ensures Inv(Step(j, Work(p)))
  {
    hide Messages, SomeReportSays;
    UnreportedAfter(j.tasks, p, Worked);
  }

  /** When the counter is down to one, the party that reports is the last. */
  lemma LastReport(j: Job, p: nat)
    requires FanOut(j) && j.req.counter == 1 && p < |j.tasks| && j.tasks[p] == Worked
    ensures forall q | 0 <= q < |j.tasks| :: j.tasks[q] == if q == p then Worked else Reported
  {
    UnreportedAfter(j.tasks, p, Reported);
    UnreportedAll(j.tasks[p := Reported]);
    assert forall q | 0 <= q < |j.tasks| && q != p :: j.tasks[q] == j.tasks[p := Reported][q];
  }

  lemma LastPrepareReportKeepsInv(j: Job, p: nat)
    requires Inv(j) && j.stage == Preparing && Enabled(j, ReportBack(p)) && j.req.counter == 1
    ensures Inv(Step(j, ReportBack(p)))
  {
    hide Messages, Deduplicate, Says, SomeReportSays, OneEach;
    UnreportedAfter(j.tasks, p, Reported);
    UnreportedAll(j.tasks[p := Reported]);
    ReportCollects(j, p);
    var r := j.input.reports[p];
    var errors := r.second + (r.first + j.req.errors);
    DeduplicatedOnce(errors);
    CollectedIsComplete(j.(tasks := j.tasks[p := Reported], req := j.req.(errors := errors)));
    LastReport(j, p);
    assert Complete(Step(j, ReportBack(p)));
  }

  lemma EarlierPrepareReportKeepsInv(j: Job, p: nat)
    requires Inv(j) && j.stage == Preparing && Enabled(j, ReportBack(p)) && j.req.counter > 1
    ensures Inv(Step(j, ReportBack(p)))
  {
    hide Messages, Deduplicate, Says, SomeReportSays;
    UnreportedAfter(j.tasks, p, Reported);
    ReportCollects(j, p);
    assert Collected(Step(j, ReportBack(p)));
  }

  lemma PrepareReportKeepsInv(j: Job, p: nat)
    requires Inv(j) && j.stage == Preparing && Enabled(j, ReportBack(p))
    ensures Inv(Step(j, ReportBack(p)))
  {
    assert j.req.counter >= 1;
    hide Inv, Step, Enabled;
    if j.req.counter == 1 {
      LastPrepareReportKeepsInv(j, p);
    } else {
      EarlierPrepareReportKeepsInv(j, p);
    }
  }

  lemma CommitReportKeepsInv(j: Job, p: nat)
    requires Inv(j) && j.stage == Committing && Enabled(j, ReportBack(p))
    ensures Inv(Step(j, ReportBack(p)))
  {
    hide Messages;
    UnreportedAfter(j.tasks, p, Reported);
    UnreportedAll(j.tasks[p := Reported]);
    if j.req.counter == 1 {
      LastReport(j, p);
    }
  }

  lemma OnlyQueuedContinues(j: Job)
    requires Inv(j) && Enabled(j, PrepareContinue)
    ensures j.stage == PrepareQueued && PrepareDone(j)
  {
  }

  /** The client has gone, or some component objected. */
  lemma GiveUpKeepsInv(j: Job)
    requires Inv(j) && Enabled(j, PrepareContinue) && (j.ended || j.req.errors != [])
    ensures Inv(Step(j, PrepareContinue))
  {
    OnlyQueuedContinues(j);
    hide Messages, SomeReportSays, Unreported;
  }

  lemma NoErrorsNoStoreErrors(j: Job)
    requires Complete(j) && j.req.errors == []
    ensures j.input.storeErrors == []
  {
    NoMessagesNoErrors(j.input.storeErrors);
    NoMessagesNoErrors(j.req.errors);
  }

  lemma SameErrorsComplete(j: Job, v: Job)
    requires Complete(j) && v.input == j.input && v.req.errors == j.req.errors
    ensures Complete(v)
  {
    hide Messages, SomeReportSays;
  }

  lemma StartCommitKeepsInv(j: Job)
    requires Inv(j) && Enabled(j, PrepareContinue) && !j.ended && j.req.errors == []
    ensures Inv(Step(j, PrepareContinue))
  {
    hide Complete, Deduplicate, Unreported;
    OnlyQueuedContinues(j);
    NoErrorsNoStoreErrors(j);
    var v := Step(j, PrepareContinue);
    UnreportedAll(v.tasks);
    SameErrorsComplete(j, v);
  }

  lemma ContinueKeepsInv(j: Job)
    requires Inv(j) && Enabled(j, PrepareContinue)
    ensures Inv(Step(j, PrepareContinue))
  {
    hide Inv, Enabled, Step;
    if j.ended || j.req.errors != [] {
      GiveUpKeepsInv(j);
    } else {
      StartCommitKeepsInv(j);
    }
  }

  lemma HandOverKeepsInv(j: Job, a: Action)
    requires Inv(j) && Enabled(j, a)
    requires a.PrepareCallback? || a.CommitCallback? || a.CommitContinue? || a.ClientEnds?
    ensures Inv(Step(j, a))
  {
    hide Messages;
  }

  lemma OnlyWorkingStagesHaveTasks(j: Job, p: nat)
    requires Inv(j) && p < |j.tasks| && j.tasks[p] != Reported
    ensures j.stage in {Preparing, Committing}
  {
  }

  /** No party, callback or continuation finds the request in a state it cannot use. */
  lemma StepKeepsInv(j: Job, a: Action)
    requires Inv(j) && Enabled(j, a)
    ensures Inv(Step(j, a))
  {
    if a.Work? || a.ReportBack? {
      OnlyWorkingStagesHaveTasks(j, a.p);
    }
    hide Inv, Step;
    match a
    case Begin => BeginKeepsInv(j);
    case Work(p) =>
      if j.stage == Preparing { PrepareWorkKeepsInv(j, p); } else { CommitWorkKeepsInv(j, p); }
    case ReportBack(p) =>
      if j.stage == Preparing { PrepareReportKeepsInv(j, p); } else { CommitReportKeepsInv(j, p); }
    case PrepareContinue => ContinueKeepsInv(j);
    case _ => HandOverKeepsInv(j, a);
  }

  lemma {:induction false} RunKeepsInv(j: Job, acts: seq<Action>)
    requires Inv(j) && Legal(j, acts)
    ensures Inv(Run(j, acts))
    decreases |acts|
  {
    if acts != [] {
      StepKeepsInv(j, acts[0]);
      RunKeepsInv(Step(j, acts[0]), acts[1..]);
    }
  }

  predicate Faultless(i: Input) {
    i.storeErrors == [] && i.inlineErrors == [] && forall r <- i.reports :: r.first == [] && r.second == []
  }

  lemma NoMessagesNoErrors(es: seq<Error>)
    ensures Messages(es) == {} <==> es == []
  {
    if es != [] {
      assert es[0].message in Messages(es);
    }
  }

  lemma CompleteMeansFaultless(j: Job)
    requires Complete(j)
    ensures j.req.errors == [] <==> Faultless(j.input)
  {
    NoMessagesNoErrors(j.req.errors);
    NoMessagesNoErrors(j.input.storeErrors);
    NoMessagesNoErrors(j.input.inlineErrors);
    if j.req.errors == [] && j.input.storeErrors == [] {
      forall r <- j.input.reports ensures r.first == [] && r.second == [] {
        NoMessagesNoErrors(r.second + r.first);
        assert forall m :: Says(r, m) ==> SomeReportSays(j.input, m);
        assert forall m :: m in Messages(r.second + r.first) ==> Says(r, m);
        assert Messages(r.second + r.first) == {};
      }
    }
    if Faultless(j.input) {
      forall m ensures !SomeReportSays(j.input, m) {
        assert forall r <- j.input.reports :: r.second + r.first == [];
      }
      assert Messages(j.req.errors) == {};
    }
  }

  /** For any number of parties and any order of work and reports: each callback is launched at
      most once; the configuration changes only if no component objected, and then every party
      commits once, with a prepared sub-request; the change request is freed once and the HTTP
      request released once; and a change that was possible is left out only if the client had gone. */
  lemma ChangeIsAllOrNothing(i: Input, acts: seq<Action>)
    requires Legal(NewJob(i), acts)
    ensures
      var j := Run(NewJob(i), acts);
      && !j.misuse && !j.req.failed
      && j.req.prepareLaunches <= 1 && j.req.commitLaunches <= 1
      && (j.live ==> Faultless(i))
      && (j.stage == Over ==>
            && j.freed == 1 && j.refs == 0
            && (forall p | 0 <= p < |j.applied| :: j.applied[p] == if j.live then 1 else 0)
            && (Faultless(i) && !j.live ==> j.answers == []))
      && (j.stage != Over ==> j.freed == 0)
  {
    assert Inv(NewJob(i));
    RunKeepsInv(NewJob(i), acts);
    RunKeepsInput(NewJob(i), acts);
    var j := Run(NewJob(i), acts);
    if j.live || j.stage == Over {
      CompleteMeansFaultless(j);
    }
  }

  lemma {:induction false} RunKeepsInput(j: Job, acts: seq<Action>)
    requires Legal(j, acts)
    ensures Run(j, acts).input == j.input
    decreases |acts|
  {
    if acts != [] {
      RunKeepsInput(Step(j, acts[0]), acts[1..]);
    }
  }

  // ----- with a patient client

  /** The HTTP request has ended exactly if it was answered. */
  predicate EndedByAnswer(j: Job) {
    j.ended <==> j.answers != []
  }

  lemma StepKeepsEndedByAnswer(j: Job, a: Action)
    requires EndedByAnswer(j) && Enabled(j, a) && a != ClientEnds
    ensures EndedByAnswer(Step(j, a))
  {
  }

  lemma {:induction false} RunKeepsEndedByAnswer(j: Job, acts: seq<Action>)
    requires EndedByAnswer(j) && Legal(j, acts) && ClientEnds !in acts
    ensures EndedByAnswer(Run(j, acts))
    decreases |acts|
  {
    if acts != [] {
      hide Step, Enabled, EndedByAnswer;
      assert acts == [acts[0]] + acts[1..];
      StepKeepsEndedByAnswer(j, acts[0]);
      RunKeepsEndedByAnswer(Step(j, acts[0]), acts[1..]);
    }
  }

  /** If the client stays, every run that comes to its end makes the change exactly when no component
      objects, and answers once, with 200 or 500 accordingly. */
  lemma PatientClientIsAnswered(i: Input, acts: seq<Action>)
    requires Legal(NewJob(i), acts) && ClientEnds !in acts
    ensures
      var j := Run(NewJob(i), acts);
      j.stage == Over ==> j.live == Faultless(i) && j.answers == [if Faultless(i) then 200 else 500]
  {
    assert Inv(NewJob(i));
    RunKeepsInv(NewJob(i), acts);
    RunKeepsInput(NewJob(i), acts);
    RunKeepsEndedByAnswer(NewJob(i), acts);
    var j := Run(NewJob(i), acts);
    hide Messages, SomeReportSays;
    if j.stage == Over {
      CompleteMeansFaultless(j);
    }
  }

  /** So a change that no component objects to is left out only if the client went away. */
  lemma LeftOutOnlyIfClientGone(i: Input, acts: seq<Action>)
    requires Legal(NewJob(i), acts) && Run(NewJob(i), acts).stage == Over
    requires Faultless(i) && !Run(NewJob(i), acts).live
    ensures ClientEnds in acts
  {
    if ClientEnds !in acts {
      PatientClientIsAnswered(i, acts);
    }
  }

  // ----- with a client that goes away

  lemma StepAfterClientGone(j: Job, a: Action)
    requires j.ended && Enabled(j, a)
    ensures Step(j, a).ended && Step(j, a).live == j.live && Step(j, a).answers == j.answers
  {
  }

  /** Once the client has gone a change that is not yet in effect is never made, and nothing is
      answered; one that is in effect stays. */
  lemma {:induction false} NothingAfterClientGone(j: Job, acts: seq<Action>)
    requires j.ended && Legal(j, acts)
    ensures Run(j, acts).live == j.live && Run(j, acts).answers == j.answers
    decreases |acts|
  {
    if acts != [] {
      hide Step, Enabled;
      StepAfterClientGone(j, acts[0]);
      NothingAfterClientGone(Step(j, acts[0]), acts[1..]);
    }
  }

  /** The errors that are reported are those of all components, each message once. */
  lemma ReportedErrors(i: Input, acts: seq<Action>)
    requires Legal(NewJob(i), acts) && Run(NewJob(i), acts).answers == [500]
    ensures
      var j := Run(NewJob(i), acts);
      && OneEach(j.req.errors)
      && (i.storeErrors != [] ==> Messages(j.req.errors) == Messages(i.storeErrors))
      && (i.storeErrors == [] ==>
            forall m :: m in Messages(j.req.errors) <==>
              || m in Messages(i.inlineErrors)
              || exists r <- i.reports :: m in Messages(r.second + r.first))
  {
    assert Inv(NewJob(i));
    RunKeepsInv(NewJob(i), acts);
    RunKeepsInput(NewJob(i), acts);
    var j := Run(NewJob(i), acts);
    hide Messages;
    assert Complete(j) && j.input == i;
    if i.storeErrors == [] {
      forall m ensures SomeReportSays(i, m) <==> exists r <- i.reports :: m in Messages(r.second + r.first) {
        if SomeReportSays(i, m) {
          var r :| r in i.reports && Says(r, m);
        }
        if r :| r in i.reports && m in Messages(r.second + r.first) {
          assert Says(r, m);
        }
      }
    }
  }

  // ----- progress

  function Pending(tasks: seq<Task>): nat {
    if tasks == [] then 0
    else Pending(tasks[1..]) + match tasks[0] case Scheduled => 2 case Worked => 1 case Reported => 0
  }

  lemma {:induction false} PendingAfter(tasks: seq<Task>, p: nat)
    requires p < |tasks|
    ensures tasks[p] == Scheduled ==> Pending(tasks[p := Worked]) == Pending(tasks) - 1
    ensures tasks[p] == Worked ==> Pending(tasks[p := Reported]) == Pending(tasks) - 1
  {
    assert tasks[p := Worked][1..] == if p == 0 then tasks[1..] else tasks[1..][p - 1 := Worked];
    assert tasks[p := Reported][1..] == if p == 0 then tasks[1..] else tasks[1..][p - 1 := Reported];
    if p > 0 {
      PendingAfter(tasks[1..], p - 1);
    }
  }

  lemma {:induction false} PendingBound(tasks: seq<Task>)
    ensures Pending(tasks) <= 2 * |tasks|
  {
    if tasks != [] { PendingBound(tasks[1..]); }
  }

  /** How many steps, besides those of the client, the job still takes at most. */
  function Remaining(j: Job): nat {
    Pending(j.tasks) + match j.stage
      case Received => 4 * |j.input.reports| + 9
      case Preparing => 2 * |j.input.reports| + 7
      case PrepareLaunched => 2 * |j.input.reports| + 6
      case PrepareQueued => 2 * |j.input.reports| + 5
      case Committing => 3
      case CommitLaunched => 2
      case CommitQueued => 1
      case Over => 0
  }

  lemma WorkAdvances(j: Job, a: Action)
    requires Inv(j) && Enabled(j, a) && (a.Work? || a.ReportBack?)
    ensures Remaining(Step(j, a)) < Remaining(j)
  {
    hide Messages, Deduplicate, Says, SomeReportSays, Complete, Collected, Pending;
    OnlyWorkingStagesHaveTasks(j, a.p);
    PendingAfter(j.tasks, a.p);
  }

  lemma HandOverAdvances(j: Job, a: Action)
    requires Inv(j) && Enabled(j, a) && !a.Work? && !a.ReportBack? && a != ClientEnds
    ensures Remaining(Step(j, a)) < Remaining(j)
  {
    hide Messages, Deduplicate, Says, SomeReportSays, Complete, Collected;
    PendingBound(Step(j, a).tasks);
  }

  lemma EveryStepAdvances(j: Job, a: Action)
    requires Inv(j) && Enabled(j, a) && a != ClientEnds
    ensures Remaining(Step(j, a)) < Remaining(j)
  {
    hide Inv, Enabled, Step, Remaining;
    if a.Work? || a.ReportBack? {
      WorkAdvances(j, a);
    } else {
      HandOverAdvances(j, a);
    }
  }

  /** Until the job is over, some party, callback or continuation can act. */
  lemma JobNeverStalls(j: Job) returns (a: Action)
    requires Inv(j) && j.stage != Over
    ensures Enabled(j, a) && a != ClientEnds
  {
    if j.stage in {Preparing, Committing} {
      UnreportedAll(j.tasks);
      var p: nat :| p < |j.tasks| && j.tasks[p] != Reported;
      a := if j.tasks[p] == Scheduled then Work(p) else ReportBack(p);
    } else {
      a := if j.stage == Received then Begin
           else if j.stage == PrepareLaunched then PrepareCallback
           else if j.stage == PrepareQueued then PrepareContinue
           else if j.stage == CommitLaunched then CommitCallback
           else CommitContinue;
    }
  }
}

module ConfigChange {
  import opened ConfigChangeModel

  method DeduplicateErrors(errors: seq<Error>) returns (result: seq<Error>)
    ensures result == Deduplicate(errors)
  {
    var seen: set<string> := {};
    result := [];
    var i := 0;
    while i < |errors|
      invariant 0 <= i <= |errors|
      invariant result + Deduplicate(errors[i..], seen) == Deduplicate(errors)
    {
      assert errors[i..][1..] == errors[i + 1..];
      if errors[i].message !in seen {
        assert result + ([errors[i]] + Deduplicate(errors[i + 1..], seen + {errors[i].message}))
            == (result + [errors[i]]) + Deduplicate(errors[i + 1..], seen + {errors[i].message});
        seen := seen + {errors[i].message};
        result := result + [errors[i]];
      }
      i := i + 1;
    }
  }

  class ChangeRequest {
    var counter: nat
    var errors: seq<Error>
    var prepared: seq<bool>
    var prepareLaunches: nat
    var commitLaunches: nat
    var failed: bool

    ghost function View(): Request
      reads this
    {
      Request(counter, errors, prepared, prepareLaunches, commitLaunches, failed)
    }

    constructor ()
      ensures View() == NewRequest
    {
      counter, errors, prepared := 0, [], [];
      prepareLaunches, commitLaunches, failed := 0, 0, false;
    }

    method PrepareCompleted()
      modifies this
      ensures View() == PrepareCompletedOne(old(View()))
    {
      if counter == 0 {
        failed := true;
        return;
      }
      counter := counter - 1;
      if counter == 0 {
        errors := DeduplicateErrors(errors);
        prepareLaunches := prepareLaunches + 1;
      }
    }

    method CommitCompleted()
      modifies this
      ensures View() == CommitCompletedOne(old(View()))
    {
      if counter == 0 {
        failed := true;
        return;
      }
      counter := counter - 1;
      if counter == 0 {
        commitLaunches := commitLaunches + 1;
      }
    }

    /** asyncPrepareConfigChange: one count for the caller, one for each scheduled party. */
    method AsyncPrepare(i: Input)
      modifies this
      ensures View() == Prepare(old(View()), i)
    {
      hide Deduplicate;
      counter := counter + 1;
      errors := errors + i.storeErrors;
      if errors != [] {
        PrepareCompleted();
        return;
      }
      errors := errors + i.inlineErrors;
      assert errors == i.inlineErrors;
      prepared := seq(|i.reports|, _ => false);
      var p := 0;
      while p < |i.reports|
        invariant 0 <= p <= |i.reports|
        invariant View() == Request(old(counter) + 1 + p, i.inlineErrors, seq(|i.reports|, _ => false),
                                    old(prepareLaunches), old(commitLaunches), old(failed))
      {
        counter := counter + 1;
        p := p + 1;
      }
      PrepareCompleted();
    }

    method PartyPrepared(report: Report)
      modifies this
      ensures View() == ReportPrepare(old(View()), report)
    {
      errors := report.first + errors;
      errors := report.second + errors;
      PrepareCompleted();
    }

    method AsyncCommit(parties: nat)
      modifies this
      ensures View() == Commit(old(View()), parties)
    {
      counter := counter + 1;
      var p := 0;
      while p < parties
        invariant 0 <= p <= parties
        invariant View() == old(View()).(counter := old(counter) + 1 + p)
      {
        counter := counter + 1;
        p := p + 1;
      }
      CommitCompleted();
    }
  }
}
