/** The lifecycle reporter: handlers publish the agent's state, one delivery at a time coalesces it. */
module Reporter {
  import opened Options
  import opened History

  datatype Phase = Blocked | Working | Idle
  datatype Status = Status(phase: Phase, message: Option<string>)
  datatype Report = Report(status: Status, seqNo: int)

  // The coalescing queue; `enqueued` and `reported` record what was ever handed to
  // `enqueueState` and to `reportState`.
  datatype Queue = Queue(
    sequence: int, inflight: Option<Report>, pending: Option<Report>, enqueued: seq<Report>, reported: seq<Report>)

  datatype State = State(
    queue: Queue, rootInteractive: bool, starting: nat, agentWorking: bool,
    blockerDepth: nat, blockerLabel: Option<string>, last: Option<Status>)

  // `identified`: the session has a path or an id, so that reporting it consumes a number.
  // `SessionReady` is the rest of a session start, after its session report was awaited.
  // `Delivered` ends a delivery, whether it went well or not.
  datatype Event =
    | BlockedChanged(active: bool, caption: Option<string>)
    | SessionStart(hasUI: bool, identified: bool)
    | SessionReady(idle: bool)
    | AgentStart(identified: bool)
    | AgentSettled(idle: bool)
    | Delivered

  function Start(clock: int): State {
    State(Queue(clock, None, None, [], []), false, 0, false, 0, None, None)
  }

  function Desired(s: State): Status {
    if s.blockerDepth > 0 then Status(Blocked, s.blockerLabel)
    else Status(if s.agentWorking then Working else Idle, None)
  }

  function Bump(q: Queue, identified: bool): Queue {
    if identified then q.(sequence := q.sequence + 1) else q
  }

  // A report waits for the delivery under way, replacing one that already waits.
  function Enqueue(q: Queue, status: Status): Queue {
    var r := Report(status, q.sequence + 1);
    var t := q.(sequence := q.sequence + 1, enqueued := q.enqueued + [r]);
    if q.inflight.Some? then t.(pending := Some(r)) else t.(inflight := Some(r), reported := t.reported + [r])
  }

  function Landed(q: Queue): Queue {
    if q.pending.Some? then q.(inflight := q.pending, pending := None, reported := q.reported + [q.pending.value])
    else q.(inflight := None)
  }

  function Publish(s: State, force: bool): State {
    if !force && s.last == Some(Desired(s)) then s
    else s.(last := Some(Desired(s)), queue := Enqueue(s.queue, Desired(s)))
  }

  function Blocker(s: State, active: bool, caption: Option<string>): State {
    if active then s.(blockerDepth := s.blockerDepth + 1, blockerLabel := caption)
    else if s.blockerDepth <= 1 then s.(blockerDepth := 0, blockerLabel := None)
    else s.(blockerDepth := s.blockerDepth - 1)
  }

  function Step(s: State, e: Event): State {
    match e
    case BlockedChanged(active, caption) =>
      if s.rootInteractive then Publish(Blocker(s, active, caption), false) else s
    case SessionStart(hasUI, identified) =>
      if hasUI then s.(rootInteractive := true, starting := s.starting + 1, queue := Bump(s.queue, identified)) else s
    case SessionReady(idle) =>
      if s.starting == 0 then s else Publish(s.(starting := s.starting - 1, agentWorking := !idle), true)
    case AgentStart(identified) =>
      if s.rootInteractive then Publish(s.(queue := Bump(s.queue, identified), agentWorking := true), false) else s
    case AgentSettled(idle) =>
      if s.rootInteractive && idle then Publish(s.(agentWorking := false), false) else s
    case Delivered => if s.queue.inflight.Some? then s.(queue := Landed(s.queue)) else s
  }

  function Run(clock: int, es: seq<Event>): State {
    if es == [] then Start(clock) else Step(Run(clock, es[..|es| - 1]), es[|es| - 1])
  }

  // `a` results from `b` by leaving out elements.
  ghost predicate Subsequence(a: seq<Report>, b: seq<Report>) {
    a == [] || (b != [] &&
                (Subsequence(a, b[..|b| - 1]) ||
                 (a[|a| - 1] == b[|b| - 1] && Subsequence(a[..|a| - 1], b[..|b| - 1]))))
  }

  ghost predicate Increasing(rs: seq<Report>) {
    forall i, j :: 0 <= i < j < |rs| ==> rs[i].seqNo < rs[j].seqNo
  }

  lemma {:induction false} SubsequenceMember(a: seq<Report>, b: seq<Report>, r: Report)
    requires Subsequence(a, b) && r in a
    ensures r in b
  {
    if Subsequence(a, b[..|b| - 1]) {
      SubsequenceMember(a, b[..|b| - 1], r);
    } else if r in a[..|a| - 1] {
      SubsequenceMember(a[..|a| - 1], b[..|b| - 1], r);
    }
  }

  lemma {:induction false} SubsequenceIncreases(a: seq<Report>, b: seq<Report>)
    requires Subsequence(a, b) && Increasing(b)
    ensures Increasing(a)
  {
    if a != [] {
      var c := b[..|b| - 1];
      if Subsequence(a, c) {
        SubsequenceIncreases(a, c);
      } else {
        var front := a[..|a| - 1];
        SubsequenceIncreases(front, c);
        forall i, j | 0 <= i < j < |a|
          ensures a[i].seqNo < a[j].seqNo
        {
          SubsequenceMember(front, c, front[i]);
          if j < |front| { assert front[i].seqNo < front[j].seqNo; }
        }
      }
    }
  }

  // One delivery at a time, and nothing waits without one.
  ghost predicate OneFlush(q: Queue) {
    && (q.pending.Some? ==> q.inflight.Some?)
    && (q.inflight.Some? ==> q.reported != [] && q.reported[|q.reported| - 1] == q.inflight.value)
  }

  // The newest report is the one that waits, or else the one that was sent last.
  ghost predicate NothingLost(q: Queue) {
    && (q.pending.Some? ==>
          && q.enqueued != [] && q.enqueued[|q.enqueued| - 1] == q.pending.value
          && Subsequence(q.reported, q.enqueued[..|q.enqueued| - 1]))
    && (q.pending.None? ==>
          && Subsequence(q.reported, q.enqueued)
          && (q.enqueued != [] ==> q.reported != [] && q.reported[|q.reported| - 1] == q.enqueued[|q.enqueued| - 1]))
  }

  ghost predicate Numbered(q: Queue) {
    Increasing(q.enqueued) && (q.enqueued != [] ==> q.enqueued[|q.enqueued| - 1].seqNo <= q.sequence)
  }

  ghost predicate Queued(q: Queue) {
    OneFlush(q) && NothingLost(q) && Numbered(q)
  }

  // Once something was published, the newest report says what is true now.
  ghost predicate UpToDate(s: State) {
    && (s.queue.enqueued == [] <==> s.last.None?)
    && (s.last.Some? ==> s.last.value == Desired(s) == s.queue.enqueued[|s.queue.enqueued| - 1].status)
    && (s.blockerDepth == 0 ==> s.blockerLabel.None?)
    && (!s.rootInteractive ==> s.starting == 0 && s.queue.enqueued == [])
  }

  ghost predicate Coalesces(s: State) {
    Queued(s.queue) && UpToDate(s)
  }

  lemma {:induction false} EnqueueKeepsQueued(q: Queue, status: Status)
    requires Queued(q)
    ensures Queued(Enqueue(q, status))
  {
    var r := Report(status, q.sequence + 1);
    var longer := q.enqueued + [r];
    assert longer[..|longer| - 1] == q.enqueued;
    if q.pending.Some? {
      assert Subsequence(q.reported, q.enqueued);
    }
    if q.inflight.None? {
      var sent := q.reported + [r];
      assert sent[..|sent| - 1] == q.reported;
    }
  }

  lemma {:induction false} LandedKeepsQueued(q: Queue)
    requires Queued(q)
    ensures Queued(Landed(q))
  {
    if q.pending.Some? {
      var sent := q.reported + [q.pending.value];
      assert sent[..|sent| - 1] == q.reported;
    }
  }

  lemma {:induction false} BumpKeepsQueued(q: Queue, identified: bool)
    requires Queued(q)
    ensures Queued(Bump(q, identified))
  {}

  lemma {:induction false} PublishKeepsQueued(s: State, force: bool)
    requires Queued(s.queue)
    ensures Queued(Publish(s, force).queue)
  {
    EnqueueKeepsQueued(s.queue, Desired(s));
  }

  lemma {:induction false} StepKeepsQueued(s: State, e: Event)
    requires Queued(s.queue)
    ensures Queued(Step(s, e).queue)
  {
    match e {
      case BlockedChanged(active, caption) => PublishKeepsQueued(Blocker(s, active, caption), false);
      case SessionStart(_, identified) => BumpKeepsQueued(s.queue, identified);
      case SessionReady(idle) =>
        if s.starting > 0 { PublishKeepsQueued(s.(starting := s.starting - 1, agentWorking := !idle), true); }
      case AgentStart(identified) =>
        BumpKeepsQueued(s.queue, identified);
        PublishKeepsQueued(s.(queue := Bump(s.queue, identified), agentWorking := true), false);
      case AgentSettled(_) => PublishKeepsQueued(s.(agentWorking := false), false);
      case Delivered => LandedKeepsQueued(s.queue);
    }
  }

  // What publishing needs of a state in which the facts have just changed.
  ghost predicate Publishable(s: State) {
    && (s.queue.enqueued == [] <==> s.last.None?)
    && (s.last.Some? ==> s.last.value == s.queue.enqueued[|s.queue.enqueued| - 1].status)
    && (s.blockerDepth == 0 ==> s.blockerLabel.None?)
    && s.rootInteractive
  }

  lemma {:induction false} PublishBringsUpToDate(s: State, force: bool)
    requires Publishable(s)
    ensures UpToDate(Publish(s, force))
  {}

  lemma {:induction false} StepKeepsUpToDate(s: State, e: Event)
    requires UpToDate(s)
    ensures UpToDate(Step(s, e))
  {
    match e {
      case BlockedChanged(active, caption) =>
        if s.rootInteractive { PublishBringsUpToDate(Blocker(s, active, caption), false); }
      case SessionStart(_, _) =>
      case SessionReady(idle) =>
        if s.starting > 0 { PublishBringsUpToDate(s.(starting := s.starting - 1, agentWorking := !idle), true); }
      case AgentStart(identified) =>
        if s.rootInteractive { PublishBringsUpToDate(s.(queue := Bump(s.queue, identified), agentWorking := true), false); }
      case AgentSettled(_) =>
        if s.rootInteractive { PublishBringsUpToDate(s.(agentWorking := false), false); }
      case Delivered =>
    }
  }

  lemma {:induction false} RunsCoalesce(clock: int, es: seq<Event>)
    ensures Coalesces(Run(clock, es))
  {
    if es != [] {
      var before := Run(clock, es[..|es| - 1]);
      RunsCoalesce(clock, es[..|es| - 1]);
      StepKeepsQueued(before, es[|es| - 1]);
      StepKeepsUpToDate(before, es[|es| - 1]);
    }
  }

  // Sent reports are some of the enqueued ones, in order, under strictly increasing numbers.
  lemma {:induction false} ReportsAreOrdered(clock: int, es: seq<Event>)
    ensures var s := Run(clock, es);
            Subsequence(s.queue.reported, s.queue.enqueued) && Increasing(s.queue.reported) && Increasing(s.queue.enqueued)
  {
    RunsCoalesce(clock, es);
    var s := Run(clock, es);
    SubsequenceIncreases(s.queue.reported, s.queue.enqueued);
  }

  // At rest the last report sent is the last one enqueued, and it is true.
  lemma {:induction false} AtRestTheLatestStateIsReported(clock: int, es: seq<Event>)
    requires Run(clock, es).queue.inflight.None? && Run(clock, es).queue.enqueued != []
    ensures var s := Run(clock, es);
            && s.queue.pending.None? && s.queue.reported != []
            && s.queue.reported[|s.queue.reported| - 1] == s.queue.enqueued[|s.queue.enqueued| - 1]
            && s.queue.reported[|s.queue.reported| - 1].status == Desired(s)
  {
    RunsCoalesce(clock, es);
  }

  // However much was enqueued, the end of two deliveries brings rest.
  lemma {:induction false} TwoDeliveriesBringRest(clock: int, es: seq<Event>)
    requires Run(clock, es).queue.enqueued != []
    ensures var s := Run(clock, es + [Delivered, Delivered]);
            && s.queue.inflight.None? && s.queue.enqueued == Run(clock, es).queue.enqueued && s.queue.reported != []
            && s.queue.reported[|s.queue.reported| - 1].status == Desired(Run(clock, es))
  {
    var s, once, twice := Run(clock, es), es + [Delivered], es + [Delivered, Delivered];
    RunsCoalesce(clock, es);
    assert once[..|once| - 1] == es && twice[..|twice| - 1] == once;
    RunsCoalesce(clock, once);
    RunsCoalesce(clock, twice);
  }

  // ---------------------------------------------------------------------------
  // The facts, told from the events
  // ---------------------------------------------------------------------------

  function Before(clock: int, es: seq<Event>, i: nat): State {
    if i <= |es| then Run(clock, es[..i]) else Run(clock, es)
  }

  function EventAt(es: seq<Event>, i: nat): Event {
    if i < |es| then es[i] else Delivered
  }

  // A session with a user interface has started before the i-th event.
  ghost predicate InteractiveAt(es: seq<Event>, i: nat) {
    exists j: nat :: j < i && j < |es| && es[j].SessionStart? && es[j].hasUI
  }

  // How many sessions have started and are not ready yet.
  ghost function Starting(es: seq<Event>): nat {
    if es == [] then 0
    else
      var before, e := Starting(es[..|es| - 1]), es[|es| - 1];
      if e.SessionStart? && e.hasUI then before + 1
      else if e.SessionReady? && before > 0 then before - 1
      else before
  }

  ghost predicate WorksAt(es: seq<Event>, i: nat) {
    var e := EventAt(es, i);
    i < |es| && ((e.AgentStart? && InteractiveAt(es, i)) || (e == SessionReady(false) && Starting(es[..i]) > 0))
  }

  ghost predicate RestsAt(es: seq<Event>, i: nat) {
    var e := EventAt(es, i);
    i < |es| && ((e == AgentSettled(true) && InteractiveAt(es, i)) || (e == SessionReady(true) && Starting(es[..i]) > 0))
  }

  lemma NextState(clock: int, es: seq<Event>, i: nat)
    requires i < |es|
    ensures Before(clock, es, i + 1) == Step(Before(clock, es, i), es[i])
  {
    assert es[..i + 1][..i] == es[..i];
  }

  lemma InteractiveSnoc(es: seq<Event>, i: nat)
    requires i < |es|
    ensures InteractiveAt(es, i + 1) <==> InteractiveAt(es, i) || (es[i].SessionStart? && es[i].hasUI)
  {
    if InteractiveAt(es, i) {
      var j: nat :| j < i && j < |es| && es[j].SessionStart? && es[j].hasUI;
      assert j < i + 1 && es[j].SessionStart? && es[j].hasUI;
    }
  }

  lemma {:induction false} StartStep(s: State, e: Event)
    ensures Step(s, e).rootInteractive <==> s.rootInteractive || (e.SessionStart? && e.hasUI)
    ensures Step(s, e).starting ==
            if e.SessionStart? && e.hasUI then s.starting + 1
            else if e.SessionReady? && s.starting > 0 then s.starting - 1 else s.starting
  {
    match e {
      case BlockedChanged(_, _) =>
      case SessionStart(_, _) =>
      case SessionReady(_) =>
      case AgentStart(_) =>
      case AgentSettled(_) =>
      case Delivered =>
    }
  }

  lemma {:induction false} InteractiveIff(clock: int, es: seq<Event>, i: nat)
    requires i <= |es|
    ensures Before(clock, es, i).rootInteractive <==> InteractiveAt(es, i)
    ensures Before(clock, es, i).starting == Starting(es[..i])
  {
    if i > 0 {
      InteractiveIff(clock, es, i - 1);
      NextState(clock, es, i - 1);
      InteractiveSnoc(es, i - 1);
      StartStep(Before(clock, es, i - 1), es[i - 1]);
      assert es[..i][..i - 1] == es[..i - 1];
    }
  }

  ghost predicate AgentWorks(es: seq<Event>) {
    Latched(|es|, false, (i: nat) => WorksAt(es, i), (i: nat) => RestsAt(es, i))
  }

  // The agent works exactly if the last event that told so told that it does.
  lemma {:induction false} WorkingIff(clock: int, es: seq<Event>)
    ensures Run(clock, es).agentWorking <==> AgentWorks(es)
  {
    var flag, works, rests := (i: nat) => Before(clock, es, i).agentWorking, (i: nat) => WorksAt(es, i), (i: nat) => RestsAt(es, i);
    forall i: nat | i < |es|
      ensures MovesAt(i, flag, works, rests)
    {
      NextState(clock, es, i);
      InteractiveIff(clock, es, i);
      WorkStep(Before(clock, es, i), es[i]);
    }
    FlagIsLatched(|es|, flag, works, rests);
    assert es[..|es|] == es && Before(clock, es, 0) == Start(clock);
  }

  lemma {:induction false} WorkStep(s: State, e: Event)
    ensures Step(s, e).agentWorking <==>
            || (e.AgentStart? && s.rootInteractive) || (e == SessionReady(false) && s.starting > 0)
            || (s.agentWorking && !((e == AgentSettled(true) && s.rootInteractive) || (e == SessionReady(true) && s.starting > 0)))
  {
    match e {
      case BlockedChanged(_, _) =>
      case SessionStart(_, _) =>
      case SessionReady(_) =>
      case AgentStart(_) =>
      case AgentSettled(_) =>
      case Delivered =>
    }
  }

  // The surplus of openings over closings from the i-th event on.
  ghost function Surplus(es: seq<Event>, i: nat): int
    requires i <= |es|
    decreases |es| - i
  {
    if i == |es| then 0
    else Surplus(es, i + 1) + if !es[i].BlockedChanged? || !InteractiveAt(es, i) then 0 else if es[i].active then 1 else -1
  }

  lemma {:induction false} SurplusSnoc(es: seq<Event>, i: nat)
    requires es != [] && i < |es|
    ensures var n := |es| - 1;
            Surplus(es, i) == Surplus(es[..n], i) +
              if !es[n].BlockedChanged? || !InteractiveAt(es, n) then 0 else if es[n].active then 1 else -1
    decreases |es| - i
  {
    var n := |es| - 1;
    if i < n {
      SurplusSnoc(es, i + 1);
      assert es[..n][i] == es[i];
      SameInteractive(es, i);
    } else {
      assert Surplus(es, n + 1) == 0;
    }
  }

  lemma SameInteractive(es: seq<Event>, i: nat)
    requires i < |es|
    ensures InteractiveAt(es[..|es| - 1], i) <==> InteractiveAt(es, i)
  {
    var front := es[..|es| - 1];
    assert forall j: nat :: j < |front| ==> front[j] == es[j];
    if InteractiveAt(front, i) {
      var j: nat :| j < i && j < |front| && front[j].SessionStart? && front[j].hasUI;
      assert es[j].SessionStart? && es[j].hasUI;
    }
    if InteractiveAt(es, i) {
      var j: nat :| j < i && j < |es| && es[j].SessionStart? && es[j].hasUI;
      assert front[j].SessionStart? && front[j].hasUI;
    }
  }

  // The depth is the largest surplus of openings over closings in any last stretch of the run.
  lemma {:induction false} DepthIsTheLargestSurplus(clock: int, es: seq<Event>, i: nat) returns (k: nat)
    requires i <= |es|
    ensures Surplus(es, i) <= Run(clock, es).blockerDepth
    ensures k <= |es| && Surplus(es, k) == Run(clock, es).blockerDepth
  {
    k := |es|;
    if es != [] {
      var n := |es| - 1;
      var front, s := es[..n], Run(clock, es[..n]);
      InteractiveIff(clock, es, n);
      DepthStep(s, es[n]);
      var m := DepthIsTheLargestSurplus(clock, front, if i < n then i else n);
      SurplusSnoc(es, m);
      if i < n { SurplusSnoc(es, i); } else { SurplusSnoc(es, n); }
      if !(es[n].BlockedChanged? && !es[n].active && s.rootInteractive && s.blockerDepth == 0) {
        k := m;
      }
    }
  }

  lemma {:induction false} DepthStep(s: State, e: Event)
    ensures Step(s, e).blockerDepth ==
            if !e.BlockedChanged? || !s.rootInteractive then s.blockerDepth
            else if e.active then s.blockerDepth + 1
            else if s.blockerDepth > 0 then s.blockerDepth - 1 else 0
  {
    match e {
      case BlockedChanged(_, _) =>
      case SessionStart(_, _) =>
      case SessionReady(_) =>
      case AgentStart(_) =>
      case AgentSettled(_) =>
      case Delivered =>
    }
  }

  // The last opening.
  ghost predicate LastOpening(es: seq<Event>, i: nat) {
    && i < |es| && es[i].BlockedChanged? && es[i].active && InteractiveAt(es, i)
    && forall j: nat :: i < j < |es| && es[j].BlockedChanged? && InteractiveAt(es, j) ==> !es[j].active
  }

  // While something blocks, the caption is that of the last opening; otherwise there is none.
  lemma {:induction false} CaptionIsTheLastOnes(clock: int, es: seq<Event>, i: nat)
    ensures Run(clock, es).blockerDepth == 0 ==> Run(clock, es).blockerLabel == None
    ensures Run(clock, es).blockerDepth > 0 && LastOpening(es, i) ==> Run(clock, es).blockerLabel == es[i].caption
  {
    if es != [] {
      var n := |es| - 1;
      var s := Run(clock, es[..n]);
      InteractiveIff(clock, es, n);
      CaptionIsTheLastOnes(clock, es[..n], i);
      CaptionStep(s, es[n]);
      DepthStep(s, es[n]);
      if i < n && LastOpening(es, i) {
        OpenedBefore(es, i);
      }
    }
  }

  lemma OpenedBefore(es: seq<Event>, i: nat)
    requires i < |es| - 1 && LastOpening(es, i)
    ensures var n := |es| - 1;
            && es[..n][i] == es[i] && LastOpening(es[..n], i)
            && (es[n].BlockedChanged? && InteractiveAt(es, n) ==> !es[n].active)
  {
    var front := es[..|es| - 1];
    SameInteractive(es, i);
    forall j: nat | i < j < |front| && front[j].BlockedChanged? && InteractiveAt(front, j)
      ensures !front[j].active
    {
      SameInteractive(es, j);
      assert front[j] == es[j];
    }
  }

  lemma {:induction false} CaptionStep(s: State, e: Event)
    ensures Step(s, e).blockerLabel ==
            if !e.BlockedChanged? || !s.rootInteractive then s.blockerLabel
            else if e.active then e.caption
            else if s.blockerDepth > 1 then s.blockerLabel else None
  {
    match e {
      case BlockedChanged(_, _) =>
      case SessionStart(_, _) =>
      case SessionReady(_) =>
      case AgentStart(_) =>
      case AgentSettled(_) =>
      case Delivered =>
    }
  }

  // At rest the last report says blocked, with that caption, if some last stretch of the run
  // opened more than it closed, else working if the agent works, else idle.
  lemma {:induction false} WhatIsReportedAtRest(clock: int, es: seq<Event>, i: nat) returns (k: nat)
    requires Run(clock, es).queue.inflight.None? && Run(clock, es).queue.enqueued != []
    ensures k <= |es| && Run(clock, es).queue.reported != []
    ensures var reported := Run(clock, es).queue.reported;
            match reported[|reported| - 1].status
            case Status(Blocked, message) => Surplus(es, k) > 0 && (LastOpening(es, i) ==> message == es[i].caption)
            case Status(phase, message) =>
              (i <= |es| ==> Surplus(es, i) <= 0) && message == None && (phase == Working <==> AgentWorks(es))
  {
    AtRestTheLatestStateIsReported(clock, es);
    WorkingIff(clock, es);
    CaptionIsTheLastOnes(clock, es, i);
    k := DepthIsTheLargestSurplus(clock, es, if i <= |es| then i else 0);
  }

  // Every number goes to one report of a state or of a session.
  lemma {:induction false} NumbersAreUsedOnce(clock: int, es: seq<Event>)
    ensures var q := Run(clock, es).queue; q.sequence == clock + |q.enqueued| + SessionReports(es)
  {
    if es != [] {
      NumbersAreUsedOnce(clock, es[..|es| - 1]);
      var n := |es| - 1;
      InteractiveIff(clock, es, n);
      NumberStep(Run(clock, es[..n]), es[n]);
    }
  }

  ghost function SessionReports(es: seq<Event>): nat {
    if es == [] then 0
    else
      var n := |es| - 1;
      SessionReports(es[..n]) +
      match es[n]
      case SessionStart(true, true) => 1
      case AgentStart(true) => if InteractiveAt(es, n) then 1 else 0
      case _ => 0
  }

  lemma {:induction false} NumberStep(s: State, e: Event)
    ensures var q, r := s.queue, Step(s, e).queue;
            r.sequence - q.sequence == |r.enqueued| - |q.enqueued| +
              match e
              case SessionStart(true, true) => 1
              case AgentStart(true) => if s.rootInteractive then 1 else 0
              case _ => 0
  {
    match e {
      case BlockedChanged(_, _) =>
      case SessionStart(_, _) =>
      case SessionReady(_) =>
      case AgentStart(_) =>
      case AgentSettled(_) =>
      case Delivered =>
    }
  }

  function UnderWay(q: Queue): nat {
    if q.inflight.Some? then 1 else 0
  }

  // How many deliveries have ended.
  ghost function Ended(clock: int, es: seq<Event>): nat {
    if es == [] then 0
    else
      var n := |es| - 1;
      Ended(clock, es[..n]) + if es[n] == Delivered then UnderWay(Run(clock, es[..n]).queue) else 0
  }

  // Every report that was sent has been delivered, but for the one that is under way.
  lemma {:induction false} DeliveriesAreOneAtATime(clock: int, es: seq<Event>)
    ensures var q := Run(clock, es).queue;
            |q.reported| == Ended(clock, es) + UnderWay(q)
  {
    if es != [] {
      DeliveriesAreOneAtATime(clock, es[..|es| - 1]);
      DeliveryStep(Run(clock, es[..|es| - 1]), es[|es| - 1]);
    }
  }

  lemma {:induction false} DeliveryStep(s: State, e: Event)
    ensures var q, r := s.queue, Step(s, e).queue;
            |r.reported| - UnderWay(r) == |q.reported| - UnderWay(q) + if e == Delivered then UnderWay(q) else 0
  {
    match e {
      case BlockedChanged(_, _) =>
      case SessionStart(_, _) =>
      case SessionReady(_) =>
      case AgentStart(_) =>
      case AgentSettled(_) =>
      case Delivered =>
    }
  }

  // Only the end of a session start reports the same status twice in a row, and it always
  // reports.
  lemma {:induction false} WhatIsEnqueued(clock: int, es: seq<Event>, e: Event)
    ensures var q, r := Run(clock, es).queue, Run(clock, es + [e]).queue;
            && q.enqueued <= r.enqueued && |r.enqueued| <= |q.enqueued| + 1
            && (e.SessionReady? && Starting(es) > 0 ==> |r.enqueued| == |q.enqueued| + 1)
            && (|r.enqueued| == |q.enqueued| + 1 && !e.SessionReady? && q.enqueued != [] ==>
                  r.enqueued[|q.enqueued|].status != q.enqueued[|q.enqueued| - 1].status)
  {
    assert (es + [e])[..|es|] == es;
    RunsCoalesce(clock, es);
    InteractiveIff(clock, es, |es|);
    assert es[..|es|] == es;
    EnqueueStep(Run(clock, es), e);
  }

  lemma {:induction false} EnqueueStep(s: State, e: Event)
    requires UpToDate(s)
    ensures var q, r := s.queue, Step(s, e).queue;
            && q.enqueued <= r.enqueued && |r.enqueued| <= |q.enqueued| + 1
            && (e.SessionReady? && s.starting > 0 ==> |r.enqueued| == |q.enqueued| + 1)
            && (|r.enqueued| == |q.enqueued| + 1 && !e.SessionReady? && q.enqueued != [] ==>
                  r.enqueued[|q.enqueued|].status != q.enqueued[|q.enqueued| - 1].status)
  {
    match e {
      case BlockedChanged(_, _) =>
      case SessionStart(_, _) =>
      case SessionReady(_) =>
      case AgentStart(_) =>
      case AgentSettled(_) =>
      case Delivered =>
    }
  }

  class HerdrReporter {
    var sequence: int
    var sending: bool
    var pendingState: Option<Report>
    var rootInteractiveSession: bool
    var agentWorking: bool
    var blockerDepth: nat
    var blockerLabel: Option<string>
    var lastState: Option<Status>
    ghost var history: State

    ghost predicate Mirrors(s: State)
      reads this
    {
      && sequence == s.queue.sequence && sending == s.queue.inflight.Some? && pendingState == s.queue.pending
      && rootInteractiveSession == s.rootInteractive && agentWorking == s.agentWorking
      && blockerDepth == s.blockerDepth && blockerLabel == s.blockerLabel
      && lastState == s.last
    }

    ghost predicate Valid()
      reads this
    {
      Coalesces(history) && Mirrors(history)
    }

    constructor (clock: int)
      ensures Valid() && history == Start(clock)
    {
      sequence, sending, pendingState := clock, false, None;
      rootInteractiveSession, agentWorking, blockerDepth, blockerLabel := false, false, 0, None;
      lastState, history := None, Start(clock);
    }

    function DesiredState(): Status
      reads this
    {
      if blockerDepth > 0 then Status(Blocked, blockerLabel)
      else Status(if agentWorking then Working else Idle, None)
    }

    // Hands a report to the flush; the result is what goes out at once, if anything.
    method EnqueueState(status: Status) returns (out: Option<Report>)
      requires pendingState.Some? ==> sending
      modifies this`sequence, this`sending, this`pendingState
      ensures sequence == old(sequence) + 1 && sending
      ensures pendingState == if old(sending) then Some(Report(status, sequence)) else None
      ensures out == if old(sending) then None else Some(Report(status, sequence))
    {
      sequence := sequence + 1;
      pendingState := Some(Report(status, sequence));
      out := None;
      if !sending { out := FlushNext(); }
    }

    // One turn of the flush loop: takes the report that waits, or ends the flush.
    method FlushNext() returns (out: Option<Report>)
      modifies this`sending, this`pendingState
      ensures out == old(pendingState) && pendingState == None && sending == out.Some?
    {
      out := pendingState;
      pendingState := None;
      sending := out.Some?;
    }

    method PublishState(ghost s: State, force: bool) returns (out: Option<Report>)
      requires Mirrors(s) && (sending || pendingState.None?)
      modifies this`sequence, this`sending, this`pendingState, this`lastState
      ensures Mirrors(Publish(s, force))
      ensures Publish(s, force).queue.reported == s.queue.reported + Sent(out)
    {
      var next := DesiredState();
      if !force && Some(next) == lastState { return None; }
      lastState := Some(next);
      out := EnqueueState(next);
    }

    method SetBlocker(ghost s: State, active: bool, caption: Option<string>)
      requires Mirrors(s)
      modifies this`blockerDepth, this`blockerLabel
      ensures Mirrors(Blocker(s, active, caption))
    {
      if active {
        blockerDepth := blockerDepth + 1;
        blockerLabel := caption;
      } else {
        blockerDepth := if blockerDepth == 0 then 0 else blockerDepth - 1;
        if blockerDepth == 0 { blockerLabel := None; }
      }
    }

    method OnBlocked(active: bool, caption: Option<string>) returns (out: Option<Report>)
      requires Valid()
      modifies this
      ensures Valid() && history == Step(old(history), BlockedChanged(active, caption))
      ensures history.queue.reported == old(history).queue.reported + Sent(out)
    {
      ghost var e := BlockedChanged(active, caption);
      StepKeepsCoalescing(history, e);
      out := None;
      if rootInteractiveSession {
        ghost var t := Blocker(history, active, caption);
        assert t.queue == history.queue;
        SetBlocker(history, active, caption);
        out := PublishState(t, false);
      }
      history := Step(history, e);
    }

    method OnSessionStart(hasUI: bool, identified: bool)
      requires Valid()
      modifies this
      ensures Valid() && history == Step(old(history), SessionStart(hasUI, identified))
    {
      StepKeepsCoalescing(history, SessionStart(hasUI, identified));
      if hasUI {
        rootInteractiveSession := true;
        if identified { sequence := sequence + 1; }
      }
      history := Step(history, SessionStart(hasUI, identified));
    }

    method OnSessionReady(idle: bool) returns (out: Option<Report>)
      requires Valid() && history.starting > 0
      modifies this
      ensures Valid() && history == Step(old(history), SessionReady(idle))
      ensures history.queue.reported == old(history).queue.reported + Sent(out)
    {
      StepKeepsCoalescing(history, SessionReady(idle));
      ghost var t := history.(starting := history.starting - 1, agentWorking := !idle);
      assert t.queue == history.queue && Step(history, SessionReady(idle)) == Publish(t, true);
      agentWorking := !idle;
      out := PublishState(t, true);
      history := Step(history, SessionReady(idle));
    }

    method OnAgentStart(identified: bool) returns (out: Option<Report>)
      requires Valid()
      modifies this
      ensures Valid() && history == Step(old(history), AgentStart(identified))
      ensures history.queue.reported == old(history).queue.reported + Sent(out)
    {
      StepKeepsCoalescing(history, AgentStart(identified));
      out := None;
      if rootInteractiveSession {
        if identified { sequence := sequence + 1; }
        agentWorking := true;
        out := PublishState(history.(queue := Bump(history.queue, identified), agentWorking := true), false);
      }
      history := Step(history, AgentStart(identified));
    }

    method OnAgentSettled(idle: bool) returns (out: Option<Report>)
      requires Valid()
      modifies this
      ensures Valid() && history == Step(old(history), AgentSettled(idle))
      ensures history.queue.reported == old(history).queue.reported + Sent(out)
    {
      StepKeepsCoalescing(history, AgentSettled(idle));
      out := None;
      if rootInteractiveSession && idle {
        agentWorking := false;
        out := PublishState(history.(agentWorking := false), false);
      }
      history := Step(history, AgentSettled(idle));
    }

    method OnDelivered() returns (out: Option<Report>)
      requires Valid() && sending
      modifies this
      ensures Valid() && history == Step(old(history), Delivered)
      ensures history.queue.reported == old(history).queue.reported + Sent(out)
    {
      StepKeepsCoalescing(history, Delivered);
      out := FlushNext();
      history := Step(history, Delivered);
    }
  }

  function Sent(out: Option<Report>): seq<Report> {
    if out.Some? then [out.value] else []
  }

  lemma {:induction false} StepKeepsCoalescing(s: State, e: Event)
    requires Coalesces(s)
    ensures Coalesces(Step(s, e))
  {
    StepKeepsQueued(s, e);
    StepKeepsUpToDate(s, e);
  }
}
