/** The background scheduler of subagent runs. */
module Scheduler {

  const MAX_BACKGROUND_CONCURRENCY := 4

  // The scheduler's own state, and the history of what it was asked and did.
  datatype State = State(
    runningCount: nat, waiting: seq<string>,
    running: multiset<string>, scheduled: seq<string>, started: seq<string>, finished: seq<string>)

  datatype Event = Schedule(job: string) | Finish(job: string)

  const Initial := State(0, [], multiset{}, [], [], [])

  function Submit(s: State, job: string): State {
    if s.runningCount >= MAX_BACKGROUND_CONCURRENCY then s.(waiting := s.waiting + [job])
    else s.(runningCount := s.runningCount + 1, running := s.running + multiset{job}, started := s.started + [job])
  }

  // The state in which a run has ended and its slot is still free.
  function Ended(s: State, job: string): State
    requires s.runningCount > 0
  {
    s.(runningCount := s.runningCount - 1, running := s.running - multiset{job}, finished := s.finished + [job])
  }

  // A finished run frees its slot and hands it to the longest waiting one.
  function Step(s: State, e: Event): State {
    match e
    case Schedule(job) => Submit(s.(scheduled := s.scheduled + [job]), job)
    case Finish(job) =>
      if job !in s.running || s.runningCount == 0 then s
      else
        var t := Ended(s, job);
        if t.waiting == [] then t else Submit(t.(waiting := t.waiting[1..]), t.waiting[0])
  }

  function Run(es: seq<Event>): State {
    if es == [] then Initial else Step(Run(es[..|es| - 1]), es[|es| - 1])
  }

  // At most four runs are active, and nothing waits while a slot is free.
  ghost predicate WorkConserving(s: State) {
    && s.runningCount == |s.running| <= MAX_BACKGROUND_CONCURRENCY
    && (s.waiting != [] ==> s.runningCount == MAX_BACKGROUND_CONCURRENCY)
  }

  // First in, first out: what was scheduled has started, except for a tail that waits.
  ghost predicate FirstInFirstOut(s: State) {
    s.scheduled == s.started + s.waiting
  }

  // Whatever started is running or has finished.
  ghost predicate Accounted(s: State) {
    multiset(s.started) == s.running + multiset(s.finished)
  }

  ghost predicate WellScheduled(s: State) {
    WorkConserving(s) && FirstInFirstOut(s) && Accounted(s)
  }

  lemma StepKeepsOrder(s: State, e: Event)
    requires FirstInFirstOut(s) && (s.waiting != [] ==> s.runningCount == MAX_BACKGROUND_CONCURRENCY)
    ensures FirstInFirstOut(Step(s, e))
  {
    match e {
      case Schedule(job) =>
        assert s.started + (s.waiting + [job]) == (s.started + s.waiting) + [job];
      case Finish(job) =>
        if s.waiting != [] {
          assert s.started + s.waiting == (s.started + [s.waiting[0]]) + s.waiting[1..];
        }
    }
  }

  lemma SubmitKeepsAccount(s: State, job: string)
    requires Accounted(s)
    ensures Accounted(Submit(s, job))
  {
    assert multiset(s.started + [job]) == multiset(s.started) + multiset{job};
  }

  lemma EndKeepsAccount(s: State, job: string)
    requires Accounted(s) && s.runningCount > 0 && job in s.running
    ensures Accounted(Ended(s, job))
  {
    assert s.running == (s.running - multiset{job}) + multiset{job};
    assert multiset(s.finished + [job]) == multiset(s.finished) + multiset{job};
  }

  lemma StepKeepsAccount(s: State, e: Event)
    requires Accounted(s)
    ensures Accounted(Step(s, e))
  {
    match e {
      case Schedule(job) => SubmitKeepsAccount(s.(scheduled := s.scheduled + [job]), job);
      case Finish(job) =>
        if job in s.running && s.runningCount > 0 {
          EndKeepsAccount(s, job);
          var t := Ended(s, job);
          if t.waiting != [] { SubmitKeepsAccount(t.(waiting := t.waiting[1..]), t.waiting[0]); }
        }
    }
  }

  lemma StepKeepsWorkConserving(s: State, e: Event)
    requires WorkConserving(s)
    ensures WorkConserving(Step(s, e))
  {
    match e {
      case Schedule(job) =>
      case Finish(job) =>
        if job in s.running {
          assert |s.running - multiset{job}| == |s.running| - 1;
        }
    }
  }

  lemma StepKeepsWellScheduled(s: State, e: Event)
    requires WellScheduled(s)
    ensures WellScheduled(Step(s, e))
  {
    StepKeepsOrder(s, e);
    StepKeepsAccount(s, e);
    StepKeepsWorkConserving(s, e);
  }

  lemma {:induction false} RunsAreWellScheduled(es: seq<Event>)
    ensures WellScheduled(Run(es))
  {
    if es != [] {
      RunsAreWellScheduled(es[..|es| - 1]);
      StepKeepsWellScheduled(Run(es[..|es| - 1]), es[|es| - 1]);
    }
  }

  lemma {:induction false} EveryJobIsAccountedFor(es: seq<Event>)
    ensures var s := Run(es);
            && |s.running| + |s.waiting| + |s.finished| == |s.scheduled|
            && multiset(s.scheduled) == s.running + multiset(s.waiting) + multiset(s.finished)
  {
    RunsAreWellScheduled(es);
    var s := Run(es);
    assert |multiset(s.started)| == |s.running| + |multiset(s.finished)|;
  }

  // Jobs start in the order in which they were scheduled.
  lemma StartOrderIsScheduleOrder(es: seq<Event>)
    ensures Run(es).started <= Run(es).scheduled
  {
    RunsAreWellScheduled(es);
  }

  function ScheduledJobs(es: seq<Event>): seq<string> {
    if es == [] then []
    else
      var front, e := ScheduledJobs(es[..|es| - 1]), es[|es| - 1];
      if e.Schedule? then front + [e.job] else front
  }

  // The ends of jobs that were running when they came.
  ghost function EndedJobs(es: seq<Event>): seq<string> {
    if es == [] then []
    else
      var n := |es| - 1;
      var front, e := EndedJobs(es[..n]), es[n];
      if e.Finish? && e.job in Run(es[..n]).running then front + [e.job] else front
  }

  // Every run, told from its events: a slot is free again as soon as its job has ended, and
  // the first jobs that were scheduled have started, four more than have ended.
  lemma {:induction false} RunsAreDetermined(es: seq<Event>)
    ensures var s := Run(es);
            && s.scheduled == ScheduledJobs(es) && s.finished == EndedJobs(es)
            && var begun := if |s.scheduled| <= |s.finished| + 4 then |s.scheduled|
                            else |s.finished| + 4;
            && |s.finished| <= begun && s.started == s.scheduled[..begun] && s.waiting == s.scheduled[begun..]
            && s.runningCount == begun - |s.finished|
            && s.running == multiset(s.started) - multiset(s.finished)
  {
    HistoryIs(es);
    EveryJobIsAccountedFor(es);
    RunsAreWellScheduled(es);
    var s := Run(es);
    assert |multiset(s.started)| == |s.started| && |multiset(s.finished)| == |s.finished|;
    assert |s.started| == |s.running| + |s.finished|;
  }

  lemma {:induction false} HistoryIs(es: seq<Event>)
    ensures Run(es).scheduled == ScheduledJobs(es) && Run(es).finished == EndedJobs(es)
  {
    if es != [] {
      HistoryIs(es[..|es| - 1]);
      RunsAreWellScheduled(es[..|es| - 1]);
      HistoryStep(Run(es[..|es| - 1]), es[|es| - 1]);
    }
  }

  lemma {:induction false} HistoryStep(s: State, e: Event)
    requires WorkConserving(s)
    ensures Step(s, e).scheduled == (if e.Schedule? then s.scheduled + [e.job] else s.scheduled)
    ensures Step(s, e).finished == (if e.Finish? && e.job in s.running then s.finished + [e.job] else s.finished)
  {
    match e {
      case Schedule(_) =>
      case Finish(job) =>
        assert job in s.running ==> |s.running| > 0;
    }
  }

  class BackgroundScheduler {
    var runningBackground: nat
    var queuedBackground: seq<string>
    ghost var history: State

    ghost predicate Valid()
      reads this
    {
      && history.runningCount == runningBackground && history.waiting == queuedBackground
      && WellScheduled(history)
    }

    constructor ()
      ensures Valid() && history == Initial
    {
      runningBackground, queuedBackground, history := 0, [], Initial;
    }

    // Starts the job, or queues it while all slots are taken.
    method SubmitJob(job: string) returns (starts: bool)
      modifies this`runningBackground, this`queuedBackground
      ensures starts <==> old(runningBackground) < MAX_BACKGROUND_CONCURRENCY
      ensures runningBackground == old(runningBackground) + (if starts then 1 else 0)
      ensures queuedBackground == old(queuedBackground) + (if starts then [] else [job])
    {
      if runningBackground >= MAX_BACKGROUND_CONCURRENCY {
        queuedBackground := queuedBackground + [job];
        return false;
      }
      runningBackground := runningBackground + 1;
      return true;
    }

    method ScheduleBackground(job: string) returns (starts: bool)
      requires Valid()
      modifies this
      ensures Valid() && history == Step(old(history), Schedule(job))
      ensures starts <==> old(runningBackground) < MAX_BACKGROUND_CONCURRENCY
    {
      starts := SubmitJob(job);
      StepKeepsWellScheduled(history, Schedule(job));
      history := Step(history, Schedule(job));
    }

    // The continuation of a run that ended; it reports the job that takes over, if any.
    method RunEnded(job: string) returns (next: seq<string>)
      requires Valid() && job in history.running
      modifies this
      ensures Valid() && history == Step(old(history), Finish(job))
      ensures next == old(queuedBackground)[..if old(queuedBackground) == [] then 0 else 1]
    {
      assert |history.running| > 0;
      StepKeepsWellScheduled(history, Finish(job));
      runningBackground := runningBackground - 1;
      next := [];
      if queuedBackground != [] {
        var first := queuedBackground[0];
        next := [first];
        queuedBackground := queuedBackground[1..];
        var _ := SubmitJob(first);
      }
      history := Step(history, Finish(job));
    }
  }
}
