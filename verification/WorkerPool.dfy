/**
 The bounded worker pool of controller/channel-test.go: a feeder, some workers, a closer and the
 collecting caller, joined by two unbuffered channels, with cancellation at any moment.
 Every send, receive, close, cancellation check and test run is a step; a run of the pool is any
 interleaving of such steps.
 */
module WorkerPool {

  datatype Summary = Summary(tested: int, succeeded: int, failed: int, disabled: int, enabled: int)

  function Zero(): Summary {
    Summary(0, 0, 0, 0, 0)
  }

  function Add(a: Summary, b: Summary): Summary {
    Summary(a.tested + b.tested, a.succeeded + b.succeeded, a.failed + b.failed, a.disabled + b.disabled,
            a.enabled + b.enabled)
  }

  /** What has become of one channel of the list; `holder` is the worker that has it. */
  datatype Job =
    | Queued
    | Held(holder: nat)                      // received, cancellation not yet checked
    | Dropped                            // received, but the pool was cancelled
    | Running(holder: nat)
    | Ready(holder: nat, result: Summary)    // about to be sent to the collector
    | Counted(result: Summary)

  datatype Worker = Waiting | Holding(job: nat) | Executing(job: nat) | Sending(job: nat) | Sleeping | Stopped

  /** The channels to test, which of them are eligible, and whether workers pause between tests. */
  datatype Config = Config(eligible: seq<bool>, pauses: bool)

  datatype State = State(
    jobs: seq<Job>, workers: seq<Worker>,
    next: nat, feeding: bool,                     // feeder: next channel to send, jobs channel still open
    resultsOpen: bool,                            // closer
    collecting: bool, reporting: bool,            // collector: in its loop, between counting a result and reporting it
    summary: Summary, processed: nat, reports: seq<nat>,
    cancelled: bool,
    starts: seq<nat>                              // how often each channel's test was started
  )

  datatype Event =
    | Cancel
    | HandOff(w: nat)
    | FeederStops
    | WorkerStops(w: nat)
    | Check(w: nat)
    | Finish(w: nat, result: Summary)
    | Deliver(w: nat)
    | Report
    | Wake(w: nat)
    | CloseResults
    | CollectorStops

  function Put(s: State, job: nat, j: Job, w: nat, p: Worker): State
    requires job < |s.jobs| && w < |s.workers|
  {
    s.(jobs := s.jobs[job := j], workers := s.workers[w := p])
  }

  predicate Enabled(c: Config, s: State, e: Event) {
    match e
    case Cancel => !s.cancelled
    case HandOff(w) => w < |s.workers| && s.workers[w].Waiting? && s.feeding && s.next < |s.jobs|
    case FeederStops => s.feeding && (s.next >= |s.jobs| || s.cancelled)
    case WorkerStops(w) => w < |s.workers| &&
      ((s.workers[w].Waiting? && (s.cancelled || !s.feeding)) || (s.workers[w].Sleeping? && s.cancelled))
    case Check(w) => w < |s.workers| && s.workers[w].Holding? &&
                     s.workers[w].job < |s.jobs| == |c.eligible| == |s.starts|
    case Finish(w, _) => w < |s.workers| && s.workers[w].Executing? && s.workers[w].job < |s.jobs|
    case Deliver(w) => w < |s.workers| && s.workers[w].Sending? && s.workers[w].job < |s.jobs| &&
                       s.jobs[s.workers[w].job].Ready? && s.resultsOpen && s.collecting && !s.reporting
    case Report => s.reporting
    case Wake(w) => w < |s.workers| && s.workers[w].Sleeping?
    case CloseResults => s.resultsOpen && forall w :: 0 <= w < |s.workers| ==> s.workers[w].Stopped?
    case CollectorStops => s.collecting && !s.reporting && !s.resultsOpen
  }

  function After(c: Config, s: State, e: Event): State
    requires Enabled(c, s, e)
  {
    match e
    case Cancel => s.(cancelled := true)
    case HandOff(w) => Put(s, s.next, Held(w), w, Holding(s.next)).(next := s.next + 1)
    case FeederStops => s.(feeding := false)
    case WorkerStops(w) => s.(workers := s.workers[w := Stopped])
    case Check(w) =>
      var job := s.workers[w].job;
      if s.cancelled then Put(s, job, Dropped, w, Stopped)
      else if c.eligible[job] then
        Put(s, job, Running(w), w, Executing(job)).(starts := s.starts[job := s.starts[job] + 1])
      else Put(s, job, Ready(w, Zero()), w, Sending(job))
    case Finish(w, result) =>
      var job := s.workers[w].job;
      Put(s, job, Ready(w, result), w, Sending(job))
    case Deliver(w) =>
      var job := s.workers[w].job;
      var result := s.jobs[job].result;
      Put(s, job, Counted(result), w, if c.pauses then Sleeping else Waiting).(
        summary := Add(s.summary, result), processed := s.processed + 1, reporting := true)
    case Report => s.(reporting := false, reports := if s.cancelled then s.reports else s.reports + [s.processed])
    case Wake(w) => s.(workers := s.workers[w := Waiting])
    case CloseResults => s.(resultsOpen := false)
    case CollectorStops => s.(collecting := false)
  }

  /** The pool just after all goroutines were started and progress zero was reported. */
  predicate Init(c: Config, s: State) {
    && |s.jobs| == |c.eligible| > 0 && (forall j :: 0 <= j < |s.jobs| ==> s.jobs[j].Queued?)
    && |s.workers| > 0 && (forall w :: 0 <= w < |s.workers| ==> s.workers[w].Waiting?)
    && s.next == 0 && s.feeding && s.resultsOpen && s.collecting && !s.reporting
    && s.summary == Zero() && s.processed == 0 && s.reports == [0] && !s.cancelled && s.starts == seq(|s.jobs|, _ => 0)
  }

  predicate AllStopped(s: State) {
    && !s.feeding && !s.resultsOpen && !s.collecting
    && forall w :: 0 <= w < |s.workers| ==> s.workers[w].Stopped?
  }

  ghost predicate IsRun(c: Config, run: seq<State>, events: seq<Event>) {
    && |run| == |events| + 1 && Init(c, run[0])
    && forall i :: 0 <= i < |events| ==> Enabled(c, run[i], events[i]) && run[i + 1] == After(c, run[i], events[i])
  }

  // ---------------------------------------------------------------- what is counted

  function Result(job: Job): Summary {
    if job.Counted? then job.result else Zero()
  }

  function Total(jobs: seq<Job>): Summary {
    if jobs == [] then Zero() else Add(Result(jobs[0]), Total(jobs[1..]))
  }

  function CountedJobs(jobs: seq<Job>): nat {
    if jobs == [] then 0 else (if jobs[0].Counted? then 1 else 0) + CountedJobs(jobs[1..])
  }

  lemma {:induction false} TotalUpdate(jobs: seq<Job>, i: nat, job: Job)
    requires i < |jobs| && !jobs[i].Counted?
    ensures Total(jobs[i := job]) == Add(Total(jobs), Result(job))
    ensures CountedJobs(jobs[i := job]) == CountedJobs(jobs) + if job.Counted? then 1 else 0
  {
    if i == 0 {
      assert jobs[i := job][1..] == jobs[1..];
    } else {
      assert jobs[i := job][1..] == jobs[1..][i - 1 := job];
      TotalUpdate(jobs[1..], i - 1, job);
    }
  }

  // ---------------------------------------------------------------- the invariant

  /** A worker and the job it has agree about each other. */
  predicate WorkerFits(s: State, w: nat)
    requires w < |s.workers|
  {
    match s.workers[w]
    case Holding(j) => j < |s.jobs| && s.jobs[j] == Held(w)
    case Executing(j) => j < |s.jobs| && s.jobs[j] == Running(w)
    case Sending(j) => j < |s.jobs| && s.jobs[j].Ready? && s.jobs[j].holder == w
    case Stopped => s.cancelled || !s.feeding
    case _ => true
  }

  predicate JobFits(c: Config, s: State, j: nat)
    requires j < |s.jobs| == |c.eligible| == |s.starts|
  {
    && (s.jobs[j].Queued? <==> j >= s.next)
    && (match s.jobs[j]
        case Held(w) => w < |s.workers| && s.workers[w] == Holding(j)
        case Running(w) => w < |s.workers| && s.workers[w] == Executing(j) && c.eligible[j]
        case Ready(w, r) => w < |s.workers| && s.workers[w] == Sending(j) && (!c.eligible[j] ==> r == Zero())
        case Dropped => s.cancelled
        case Counted(r) => !c.eligible[j] ==> r == Zero()
        case Queued => true)
    && s.starts[j] == if c.eligible[j] && (s.jobs[j].Running? || s.jobs[j].Ready? || s.jobs[j].Counted?) then 1 else 0
  }

  ghost predicate Links(c: Config, s: State) {
    && |s.jobs| == |c.eligible| == |s.starts| && s.next <= |s.jobs|
    && (forall w :: 0 <= w < |s.workers| ==> WorkerFits(s, w))
    && (forall j :: 0 <= j < |s.jobs| ==> JobFits(c, s, j))
  }

  ghost predicate Books(s: State) {
    && s.summary == Total(s.jobs) && s.processed == CountedJobs(s.jobs)
    && 0 < |s.reports| <= s.processed + 1 && (forall i :: 0 <= i < |s.reports| ==> s.reports[i] == i)
    && (s.reporting ==> |s.reports| <= s.processed)
    && (!s.cancelled ==> |s.reports| == s.processed + if s.reporting then 0 else 1)
    && (!s.feeding && !s.cancelled ==> s.next == |s.jobs|)
    && (!s.resultsOpen ==> forall w :: 0 <= w < |s.workers| ==> s.workers[w].Stopped?)
    && (!s.collecting ==> !s.resultsOpen && !s.reporting)
    && |s.workers| > 0
  }

  lemma InitHolds(c: Config, s: State)
    requires Init(c, s)
    ensures Links(c, s) && Books(s)
  {
    NothingCounted(s.jobs);
    NothingTotalled(s.jobs);
  }

  lemma {:induction false} NothingCounted(jobs: seq<Job>)
    requires forall j :: 0 <= j < |jobs| ==> jobs[j].Queued?
    ensures CountedJobs(jobs) == 0
  {
    if jobs != [] {
      NothingCounted(jobs[1..]);
    }
  }

  lemma {:induction false} NothingTotalled(jobs: seq<Job>)
    requires forall j :: 0 <= j < |jobs| ==> jobs[j].Queued?
    ensures Total(jobs) == Zero()
  {
    if jobs != [] {
      var rest := jobs[1..];
      NothingTotalled(rest);
      ZeroAdds(jobs[0], rest);
    }
  }

  lemma ZeroAdds(job: Job, rest: seq<Job>)
    requires job.Queued? && Total(rest) == Zero()
    ensures Add(Result(job), Total(rest)) == Zero()
  {
  }

  lemma StepLinks(c: Config, s: State, e: Event)
    requires Links(c, s) && Enabled(c, s, e)
    ensures Links(c, After(c, s, e))
  {
    hide JobFits, WorkerFits, Links, After, Enabled;
    match e
    case HandOff(_) => HandOffLinks(c, s, e);
    case Check(_) => CheckLinks(c, s, e);
    case Finish(_, _) => FinishLinks(c, s, e);
    case Deliver(_) => DeliverLinks(c, s, e);
    case _ => QuietLinks(c, s, e);
  }

  /** Worker w and job belong together, or are both free to be joined. */
  predicate Paired(s: State, w: nat, job: nat) {
    && w < |s.workers| && job < |s.jobs|
    && match s.workers[w]
       case Holding(j) => j == job && s.jobs[job] == Held(w)
       case Executing(j) => j == job && s.jobs[job] == Running(w)
       case Sending(j) => j == job && s.jobs[job].Ready? && s.jobs[job].holder == w
       case Waiting => s.jobs[job].Queued?
       case _ => false
  }

  /** A step that only touches one such pair disturbs nobody else. */
  lemma PairMoves(c: Config, s: State, s': State, w: nat, job: nat)
    requires Links(c, s) && Paired(s, w, job)
    requires |s'.workers| == |s.workers| && |s'.jobs| == |s.jobs| && |s'.starts| == |s.starts|
    requires s'.workers == s.workers[w := s'.workers[w]]
    requires s'.jobs == s.jobs[job := s'.jobs[job]]
    requires s'.starts == s.starts[job := s'.starts[job]]
    requires s'.feeding == s.feeding && s'.cancelled == s.cancelled
    requires s'.next == s.next || s'.next == s.next + 1 == job + 1
    requires WorkerFits(s', w) && JobFits(c, s', job)
    ensures Links(c, s')
  {
    forall v | 0 <= v < |s'.workers| ensures WorkerFits(s', v) {
      assert WorkerFits(s, v);
    }
    forall j | 0 <= j < |s'.jobs| ensures JobFits(c, s', j) {
      assert JobFits(c, s, j);
    }
  }

  lemma HandOffLinks(c: Config, s: State, e: Event)
    requires Links(c, s) && Enabled(c, s, e) && e.HandOff?
    ensures Links(c, After(c, s, e))
  {
    assert JobFits(c, s, s.next);
    PairMoves(c, s, After(c, s, e), e.w, s.next);
  }

  lemma CheckLinks(c: Config, s: State, e: Event)
    requires Links(c, s) && Enabled(c, s, e) && e.Check?
    ensures Links(c, After(c, s, e))
  {
    var job := s.workers[e.w].job;
    assert WorkerFits(s, e.w) && JobFits(c, s, job);
    PairMoves(c, s, After(c, s, e), e.w, job);
  }

  lemma FinishLinks(c: Config, s: State, e: Event)
    requires Links(c, s) && Enabled(c, s, e) && e.Finish?
    ensures Links(c, After(c, s, e))
  {
    var job := s.workers[e.w].job;
    assert WorkerFits(s, e.w) && JobFits(c, s, job);
    PairMoves(c, s, After(c, s, e), e.w, job);
  }

  lemma DeliverLinks(c: Config, s: State, e: Event)
    requires Links(c, s) && Enabled(c, s, e) && e.Deliver?
    ensures Links(c, After(c, s, e))
  {
    var job := s.workers[e.w].job;
    assert WorkerFits(s, e.w) && JobFits(c, s, job);
    PairMoves(c, s, After(c, s, e), e.w, job);
  }

  /** A step that changes no job leaves the jobs' side alone if no worker with a job is touched. */
  lemma JobsUndisturbed(c: Config, s: State, s': State)
    requires Links(c, s) && |s'.workers| == |s.workers| && s'.jobs == s.jobs && s'.starts == s.starts &&
             s'.next == s.next
    requires s.cancelled ==> s'.cancelled
    requires forall w :: 0 <= w < |s.workers| ==>
             s'.workers[w] == s.workers[w] || s.workers[w].Waiting? || s.workers[w].Sleeping?
    requires forall w :: 0 <= w < |s.workers| ==> WorkerFits(s', w)
    ensures Links(c, s')
  {
    hide WorkerFits;
    forall j | 0 <= j < |s'.jobs| ensures JobFits(c, s', j) {
      assert JobFits(c, s, j);
    }
  }

  lemma QuietLinks(c: Config, s: State, e: Event)
    requires Links(c, s) && Enabled(c, s, e) && !e.HandOff? && !e.Check? && !e.Finish? && !e.Deliver?
    ensures Links(c, After(c, s, e))
  {
    hide JobFits;
    var s' := After(c, s, e);
    forall w | 0 <= w < |s'.workers| ensures WorkerFits(s', w) {
      assert WorkerFits(s, w);
    }
    JobsUndisturbed(c, s, s');
  }

  lemma StepBooks(c: Config, s: State, e: Event)
    requires Links(c, s) && Books(s) && Enabled(c, s, e)
    ensures Books(After(c, s, e))
  {
    hide JobFits, WorkerFits, Links, Books, After, Enabled;
    match e
    case HandOff(_) => HandOffBooks(c, s, e);
    case Check(_) => CheckBooks(c, s, e);
    case Finish(_, _) => FinishBooks(c, s, e);
    case Deliver(_) => DeliverBooks(c, s, e);
    case _ => QuietBooks(c, s, e);
  }

  /** Exchanging a job that is not counted for another one. */
  lemma BooksUpdate(s: State, s': State, job: nat)
    requires Books(s) && job < |s.jobs| == |s'.jobs| && !s.jobs[job].Counted?
    requires s'.jobs == s.jobs[job := s'.jobs[job]]
    requires s'.summary == Add(s.summary, Result(s'.jobs[job]))
    requires s'.processed == s.processed + if s'.jobs[job].Counted? then 1 else 0
    ensures s'.summary == Total(s'.jobs) && s'.processed == CountedJobs(s'.jobs)
  {
    hide Total, CountedJobs;
    TotalUpdate(s.jobs, job, s'.jobs[job]);
  }

  lemma HandOffBooks(c: Config, s: State, e: Event)
    requires Links(c, s) && Books(s) && Enabled(c, s, e) && e.HandOff?
    ensures Books(After(c, s, e))
  {
    hide Total, CountedJobs, WorkerFits;
    assert JobFits(c, s, s.next);
    BooksUpdate(s, After(c, s, e), s.next);
  }

  lemma CheckBooks(c: Config, s: State, e: Event)
    requires Links(c, s) && Books(s) && Enabled(c, s, e) && e.Check?
    ensures Books(After(c, s, e))
  {
    hide Total, CountedJobs, JobFits;
    assert WorkerFits(s, e.w);
    BooksUpdate(s, After(c, s, e), s.workers[e.w].job);
  }

  lemma FinishBooks(c: Config, s: State, e: Event)
    requires Links(c, s) && Books(s) && Enabled(c, s, e) && e.Finish?
    ensures Books(After(c, s, e))
  {
    hide Total, CountedJobs, JobFits;
    assert WorkerFits(s, e.w);
    BooksUpdate(s, After(c, s, e), s.workers[e.w].job);
  }

  lemma DeliverBooks(c: Config, s: State, e: Event)
    requires Links(c, s) && Books(s) && Enabled(c, s, e) && e.Deliver?
    ensures Books(After(c, s, e))
  {
    hide Total, CountedJobs, Links, WorkerFits, JobFits;
    BooksUpdate(s, After(c, s, e), s.workers[e.w].job);
  }

  lemma QuietBooks(c: Config, s: State, e: Event)
    requires Links(c, s) && Books(s) && Enabled(c, s, e) && !e.HandOff? && !e.Check? && !e.Finish? && !e.Deliver?
    ensures Books(After(c, s, e))
  {
    assert s.next <= |s.jobs|;
    hide Total, CountedJobs, WorkerFits, JobFits;
  }

  lemma {:induction false} RunHolds(c: Config, run: seq<State>, events: seq<Event>, k: nat)
    requires IsRun(c, run, events) && k < |run|
    ensures Links(c, run[k]) && Books(run[k])
  {
    if k == 0 {
      InitHolds(c, run[0]);
    } else {
      RunHolds(c, run, events, k - 1);
      StepLinks(c, run[k - 1], events[k - 1]);
      StepBooks(c, run[k - 1], events[k - 1]);
    }
  }

  // ---------------------------------------------------------------- results come from runs

  /** The sum of what the test runs returned, read off the schedule alone. */
  function Produced(events: seq<Event>): Summary {
    if events == [] then Zero()
    else
      var e := events[|events| - 1];
      Add(Produced(events[..|events| - 1]), if e.Finish? then e.result else Zero())
  }

  function Known(job: Job): Summary {
    if job.Counted? || job.Ready? then job.result else Zero()
  }

  function TotalKnown(jobs: seq<Job>): Summary {
    if jobs == [] then Zero() else Add(Known(jobs[0]), TotalKnown(jobs[1..]))
  }

  lemma {:induction false} TotalKnownUpdate(jobs: seq<Job>, i: nat, job: Job)
    requires i < |jobs|
    ensures Add(TotalKnown(jobs[i := job]), Known(jobs[i])) == Add(TotalKnown(jobs), Known(job))
  {
    if i == 0 {
      assert jobs[i := job][1..] == jobs[1..];
    } else {
      assert jobs[i := job][1..] == jobs[1..][i - 1 := job];
      TotalKnownUpdate(jobs[1..], i - 1, job);
    }
  }

  lemma {:induction false} NothingKnown(jobs: seq<Job>)
    requires forall j :: 0 <= j < |jobs| ==> jobs[j].Queued?
    ensures TotalKnown(jobs) == Zero()
  {
    if jobs != [] {
      assert Known(jobs[0]) == Zero();
      NothingKnown(jobs[1..]);
    }
  }

  lemma {:induction false} NothingPending(jobs: seq<Job>)
    requires forall j :: 0 <= j < |jobs| ==> !jobs[j].Ready?
    ensures TotalKnown(jobs) == Total(jobs)
  {
    if jobs != [] {
      assert Known(jobs[0]) == Result(jobs[0]);
      NothingPending(jobs[1..]);
    }
  }

  /** A step adds to the known results exactly what it produced. */
  lemma StepProduces(c: Config, s: State, e: Event)
    requires Links(c, s) && Enabled(c, s, e)
    ensures TotalKnown(After(c, s, e).jobs) == Add(TotalKnown(s.jobs), if e.Finish? then e.result else Zero())
  {
    hide TotalKnown;
    var s' := After(c, s, e);
    match e
    case HandOff(w) =>
      assert JobFits(c, s, s.next);
      TotalKnownUpdate(s.jobs, s.next, Held(w));
    case Check(w) => PairProduces(c, s, e);
    case Finish(w, _) => PairProduces(c, s, e);
    case Deliver(w) => PairProduces(c, s, e);
    case _ => assert s'.jobs == s.jobs;
  }

  lemma PairProduces(c: Config, s: State, e: Event)
    requires Links(c, s) && Enabled(c, s, e) && (e.Check? || e.Finish? || e.Deliver?)
    ensures TotalKnown(After(c, s, e).jobs) == Add(TotalKnown(s.jobs), if e.Finish? then e.result else Zero())
  {
    hide TotalKnown, JobFits;
    assert WorkerFits(s, e.w);
    var s', job := After(c, s, e), s.workers[e.w].job;
    TotalKnownUpdate(s.jobs, job, s'.jobs[job]);
  }

  lemma {:induction false} RunProduces(c: Config, run: seq<State>, events: seq<Event>, k: nat)
    requires IsRun(c, run, events) && k < |run|
    ensures TotalKnown(run[k].jobs) == Produced(events[..k])
  {
    hide Links, Books, JobFits, WorkerFits, TotalKnown, Enabled, After, Add, AllStopped;
    if k == 0 {
      NothingKnown(run[0].jobs);
    } else {
      RunProduces(c, run, events, k - 1);
      RunHolds(c, run, events, k - 1);
      StepProduces(c, run[k - 1], events[k - 1]);
      assert events[..k][..k - 1] == events[..k - 1];
    }
  }

  /** Once everything has stopped, the returned summary is the sum of what the test runs returned. */
  lemma SummaryIsTheSumOfRuns(c: Config, run: seq<State>, events: seq<Event>, k: nat)
    requires IsRun(c, run, events) && k < |run|
    requires AllStopped(run[k])
    ensures run[k].summary == Produced(events[..k])
  {
    hide IsRun, TotalKnown, Total, Produced, CountedJobs, WorkerFits;
    RunHolds(c, run, events, k);
    RunProduces(c, run, events, k);
    forall j | 0 <= j < |run[k].jobs| ensures !run[k].jobs[j].Ready? {
      assert JobFits(c, run[k], j);
    }
    NothingPending(run[k].jobs);
  }

  // ---------------------------------------------------------------- when everything has stopped

  lemma {:induction false} AllCounted(jobs: seq<Job>)
    requires forall j :: 0 <= j < |jobs| ==> jobs[j].Counted?
    ensures CountedJobs(jobs) == |jobs|
  {
    if jobs != [] {
      AllCounted(jobs[1..]);
    }
  }

  /**
   A run that was never cancelled and has stopped ran every eligible channel exactly once and no other,
   reported 0, 1, ..., total, and returns the sum of the results of those runs.
   */
  lemma UncancelledRunIsComplete(c: Config, run: seq<State>, events: seq<Event>, k: nat)
    requires IsRun(c, run, events) && k < |run|
    requires AllStopped(run[k]) && !run[k].cancelled
    ensures |run[k].jobs| == |run[k].starts| == |c.eligible| == run[k].processed
    ensures forall j :: 0 <= j < |c.eligible| ==> run[k].jobs[j].Counted?
    ensures forall j :: 0 <= j < |c.eligible| ==> run[k].starts[j] == if c.eligible[j] then 1 else 0
    ensures forall j :: 0 <= j < |c.eligible| && !c.eligible[j] ==> Result(run[k].jobs[j]) == Zero()
    ensures run[k].summary == Total(run[k].jobs)
    ensures run[k].reports == seq(|c.eligible| + 1, i => i)
  {
    hide IsRun, Total, CountedJobs, WorkerFits, Add;
    RunHolds(c, run, events, k);
    var s := run[k];
    forall j | 0 <= j < |c.eligible|
      ensures s.jobs[j].Counted? && s.starts[j] == (if c.eligible[j] then 1 else 0) &&
              (!c.eligible[j] ==> Result(s.jobs[j]) == Zero())
    {
      assert JobFits(c, s, j);
    }
    AllCounted(s.jobs);
  }

  /**
   However and whenever the pool was cancelled, once it has stopped no channel was started twice, every run
   that was started is counted in the summary once, nothing else contributes to it, and the reports made
   are 0, 1, ... without a gap.
   */
  lemma CancelledRunKeepsItsBooks(c: Config, run: seq<State>, events: seq<Event>, k: nat)
    requires IsRun(c, run, events) && k < |run|
    requires AllStopped(run[k])
    ensures |run[k].jobs| == |run[k].starts| == |c.eligible|
    ensures forall j :: 0 <= j < |c.eligible| ==> run[k].starts[j] <= 1
    ensures forall j :: 0 <= j < |c.eligible| && run[k].starts[j] == 1 ==> run[k].jobs[j].Counted?
    ensures forall j :: 0 <= j < |c.eligible| && run[k].starts[j] == 0 ==> Result(run[k].jobs[j]) == Zero()
    ensures run[k].summary == Total(run[k].jobs) && run[k].processed == CountedJobs(run[k].jobs)
    ensures 0 < |run[k].reports| <= run[k].processed + 1
    ensures forall i :: 0 <= i < |run[k].reports| ==> run[k].reports[i] == i
  {
    hide IsRun, Total, CountedJobs, WorkerFits, Add;
    RunHolds(c, run, events, k);
    var s := run[k];
    forall j | 0 <= j < |c.eligible|
      ensures s.starts[j] <= 1 && (s.starts[j] == 1 ==> s.jobs[j].Counted?) &&
              (s.starts[j] == 0 ==> Result(s.jobs[j]) == Zero())
    {
      assert JobFits(c, s, j);
    }
  }

  // ---------------------------------------------------------------- bounded concurrency

  /** The channels whose tests run on the first n workers. */
  function RunningOn(s: State, n: nat): set<nat> {
    set j: nat | j < |s.jobs| && s.jobs[j].Running? && s.jobs[j].holder < n
  }

  lemma {:induction false} RunningBound(c: Config, s: State, n: nat)
    requires Links(c, s) && n <= |s.workers|
    ensures |RunningOn(s, n)| <= n
  {
    if n == 0 {
      assert RunningOn(s, 0) == {};
    } else {
      RunningBound(c, s, n - 1);
      var w := s.workers[n - 1];
      forall j: nat | j in RunningOn(s, n) && j !in RunningOn(s, n - 1) ensures w.Executing? && j == w.job {
        assert JobFits(c, s, j);
      }
      assert RunningOn(s, n) <= RunningOn(s, n - 1) + if w.Executing? then {w.job} else {};
      CardOfUnion(RunningOn(s, n), RunningOn(s, n - 1), if w.Executing? then {w.job} else {});
    }
  }

  lemma CardOfUnion(a: set<nat>, b: set<nat>, c: set<nat>)
    requires a <= b + c
    ensures |a| <= |b| + |c|
  {
    SubsetCard(a, b + c);
    assert |b + c| <= |b| + |c|;
  }

  lemma {:induction false} SubsetCard(a: set<nat>, b: set<nat>)
    requires a <= b
    ensures |a| <= |b|
  {
    if a != {} {
      var x :| x in a;
      SubsetCard(a - {x}, b - {x});
    }
  }

  /** Never more tests run at once than there are workers. */
  lemma ConcurrencyIsBounded(c: Config, run: seq<State>, events: seq<Event>, k: nat)
    requires IsRun(c, run, events) && k < |run|
    ensures |set j: nat | j < |run[k].jobs| && run[k].jobs[j].Running?| <= |run[0].workers|
  {
    hide Books, Total, CountedJobs, After, Enabled;
    var s := run[k];
    RunHolds(c, run, events, k);
    UnpausedNeverSleeps(c, run, events, k);
    RunningBound(c, s, |s.workers|);
    forall j: nat | j < |s.jobs| && s.jobs[j].Running? ensures j in RunningOn(s, |s.workers|) {
      assert JobFits(c, s, j);
    }
    assert (set j: nat | j < |s.jobs| && s.jobs[j].Running?) == RunningOn(s, |s.workers|);
  }

  // ---------------------------------------------------------------- what a cancellation stops

  lemma StepAfterCancel(c: Config, s: State, e: Event)
    requires Enabled(c, s, e) && s.cancelled
    ensures After(c, s, e).cancelled && After(c, s, e).starts == s.starts && After(c, s, e).reports == s.reports
  {
  }

  /** From the moment of a cancellation on, no test is started and no progress is reported. */
  lemma {:induction false} CancelStopsStarting(c: Config, run: seq<State>, events: seq<Event>, i: nat, k: nat)
    requires IsRun(c, run, events) && i <= k < |run| && run[i].cancelled
    ensures run[k].cancelled && run[k].starts == run[i].starts && run[k].reports == run[i].reports
  {
    hide After, Enabled;
    if i < k {
      CancelStopsStarting(c, run, events, i, k - 1);
      StepAfterCancel(c, run[k - 1], events[k - 1]);
    }
  }

  lemma StepPauses(c: Config, s: State, e: Event)
    requires Enabled(c, s, e)
    ensures e.Deliver? ==> (After(c, s, e).workers[e.w].Sleeping? <==> c.pauses)
    ensures e.Deliver? && !c.pauses ==> After(c, s, e).workers[e.w].Waiting?
    ensures !c.pauses && (forall w :: 0 <= w < |s.workers| ==> !s.workers[w].Sleeping?) ==>
      forall w :: 0 <= w < |After(c, s, e).workers| ==> !After(c, s, e).workers[w].Sleeping?
    ensures |After(c, s, e).workers| == |s.workers|
  {
  }

  /** Without a pause between tests no worker ever sleeps, and no worker is ever added. */
  lemma {:induction false} UnpausedNeverSleeps(c: Config, run: seq<State>, events: seq<Event>, k: nat)
    requires IsRun(c, run, events) && k < |run|
    ensures |run[k].workers| == |run[0].workers|
    ensures !c.pauses ==> forall w :: 0 <= w < |run[k].workers| ==> !run[k].workers[w].Sleeping?
  {
    hide After, Enabled;
    if k > 0 {
      UnpausedNeverSleeps(c, run, events, k - 1);
      StepPauses(c, run[k - 1], events[k - 1]);
    }
  }

  // ---------------------------------------------------------------- no deadlock, no divergence

  /** The step that worker w can take, if it can take one. */
  function WorkersMove(s: State, w: nat): Event
    requires w < |s.workers|
  {
    match s.workers[w]
    case Waiting =>
      if s.cancelled || !s.feeding then WorkerStops(w) else if s.next < |s.jobs| then HandOff(w) else FeederStops
    case Holding(_) => Check(w)
    case Executing(_) => Finish(w, Zero())
    case Sending(_) => if s.reporting then Report else Deliver(w)
    case Sleeping => Wake(w)
    case Stopped => FeederStops
  }

  lemma NeverStuckIn(c: Config, s: State) returns (e: Event)
    requires Links(c, s) && Books(s) && !AllStopped(s)
    ensures !e.Cancel? && Enabled(c, s, e)
  {
    if w :| 0 <= w < |s.workers| && !s.workers[w].Stopped? {
      assert WorkerFits(s, w);
      e := WorkersMove(s, w);
    } else if s.feeding {
      assert WorkerFits(s, 0);
      e := FeederStops;
    } else if s.resultsOpen {
      e := CloseResults;
    } else {
      e := if s.reporting then Report else CollectorStops;
    }
  }

  /** As long as some goroutine has not stopped, some goroutine can take a step without waiting for a cancellation. */
  lemma NeverStuck(c: Config, run: seq<State>, events: seq<Event>, k: nat)
    requires IsRun(c, run, events) && k < |run|
    requires !AllStopped(run[k])
    ensures exists e: Event :: !e.Cancel? && Enabled(c, run[k], e)
  {
    RunHolds(c, run, events, k);
    var e := NeverStuckIn(c, run[k]);
  }

  function JobWork(job: Job): nat {
    match job
    case Queued => 9
    case Held(_) => 7
    case Running(_) => 6
    case Ready(_, _) => 5
    case _ => 0
  }

  function WorkerWork(w: Worker): nat {
    match w
    case Sleeping => 3
    case Stopped => 0
    case _ => 2
  }

  function JobsWork(jobs: seq<Job>): nat {
    if jobs == [] then 0 else JobWork(jobs[0]) + JobsWork(jobs[1..])
  }

  function WorkersWork(workers: seq<Worker>): nat {
    if workers == [] then 0 else WorkerWork(workers[0]) + WorkersWork(workers[1..])
  }

  /** Work left: no schedule can take more steps than this. */
  function Measure(s: State): nat {
    JobsWork(s.jobs) + WorkersWork(s.workers) + (if s.feeding then 1 else 0) + (if s.resultsOpen then 1 else 0) +
    (if s.collecting then 1 else 0) + (if s.reporting then 1 else 0) + if s.cancelled then 0 else 1
  }

  lemma {:induction false} JobsWorkUpdate(jobs: seq<Job>, i: nat, job: Job)
    requires i < |jobs|
    ensures JobsWork(jobs[i := job]) == JobsWork(jobs) - JobWork(jobs[i]) + JobWork(job)
  {
    if i == 0 {
      assert jobs[i := job][1..] == jobs[1..];
    } else {
      assert jobs[i := job][1..] == jobs[1..][i - 1 := job];
      JobsWorkUpdate(jobs[1..], i - 1, job);
    }
  }

  lemma {:induction false} WorkersWorkUpdate(workers: seq<Worker>, i: nat, w: Worker)
    requires i < |workers|
    ensures WorkersWork(workers[i := w]) == WorkersWork(workers) - WorkerWork(workers[i]) + WorkerWork(w)
  {
    if i == 0 {
      assert workers[i := w][1..] == workers[1..];
    } else {
      assert workers[i := w][1..] == workers[1..][i - 1 := w];
      WorkersWorkUpdate(workers[1..], i - 1, w);
    }
  }

  lemma PairWork(s: State, w: nat, job: nat, j: Job, p: Worker)
    requires w < |s.workers| && job < |s.jobs|
    ensures JobsWork(s.jobs[job := j]) + WorkersWork(s.workers[w := p])
         == JobsWork(s.jobs) + WorkersWork(s.workers) - JobWork(s.jobs[job]) + JobWork(j)
            - WorkerWork(s.workers[w]) + WorkerWork(p)
  {
    JobsWorkUpdate(s.jobs, job, j);
    WorkersWorkUpdate(s.workers, w, p);
  }

  lemma StepMakesProgress(c: Config, s: State, e: Event)
    requires Links(c, s) && Enabled(c, s, e)
    ensures Measure(After(c, s, e)) < Measure(s)
  {
    hide JobsWork, WorkersWork;
    match e
    case HandOff(w) =>
      assert JobFits(c, s, s.next);
      PairWork(s, w, s.next, Held(w), Holding(s.next));
    case Check(_) => PairMakesProgress(c, s, e);
    case Finish(_, _) => PairMakesProgress(c, s, e);
    case Deliver(_) => PairMakesProgress(c, s, e);
    case WorkerStops(w) => WorkersWorkUpdate(s.workers, w, Stopped);
    case Wake(w) => WorkersWorkUpdate(s.workers, w, Waiting);
    case _ =>
  }

  lemma PairedWhenMoving(c: Config, s: State, e: Event)
    requires Links(c, s) && Enabled(c, s, e) && (e.Check? || e.Finish? || e.Deliver?)
    ensures Paired(s, e.w, s.workers[e.w].job)
  {
    hide JobFits;
    assert WorkerFits(s, e.w);
  }

  lemma PairMakesProgress(c: Config, s: State, e: Event)
    requires Links(c, s) && Enabled(c, s, e) && (e.Check? || e.Finish? || e.Deliver?)
    ensures Measure(After(c, s, e)) < Measure(s)
  {
    hide JobsWork, WorkersWork, Links, WorkerFits, JobFits;
    PairedWhenMoving(c, s, e);
    var s', job := After(c, s, e), s.workers[e.w].job;
    PairWork(s, e.w, job, s'.jobs[job], s'.workers[e.w]);
  }

  lemma {:induction false} RunIsBounded(c: Config, run: seq<State>, events: seq<Event>, k: nat)
    requires IsRun(c, run, events) && k < |run|
    ensures k + Measure(run[k]) <= Measure(run[0])
  {
    if k > 0 {
      RunIsBounded(c, run, events, k - 1);
      RunHolds(c, run, events, k - 1);
      StepMakesProgress(c, run[k - 1], events[k - 1]);
    }
  }

  lemma {:induction false} InitialWork(jobs: seq<Job>, workers: seq<Worker>)
    requires forall j :: 0 <= j < |jobs| ==> jobs[j].Queued?
    requires forall w :: 0 <= w < |workers| ==> workers[w].Waiting?
    ensures JobsWork(jobs) + WorkersWork(workers) == 9 * |jobs| + 2 * |workers|
    decreases |jobs| + |workers|
  {
    if jobs != [] {
      InitialWork(jobs[1..], workers);
    } else if workers != [] {
      InitialWork(jobs, workers[1..]);
    }
  }

  /**
   Every schedule ends: a run over n channels and w workers takes at most 9n + 2w + 4 steps, and one that can
   be prolonged only by a cancellation has stopped completely.
   */
  lemma EveryScheduleEnds(c: Config, run: seq<State>, events: seq<Event>)
    requires IsRun(c, run, events)
    ensures |events| <= 9 * |c.eligible| + 2 * |run[0].workers| + 4
    ensures (forall e :: Enabled(c, run[|events|], e) ==> e.Cancel?) ==> AllStopped(run[|events|])
  {
    RunIsBounded(c, run, events, |events|);
    InitialWork(run[0].jobs, run[0].workers);
    if !AllStopped(run[|events|]) {
      NeverStuck(c, run, events, |events|);
    }
  }
}
