/** The life of one Bash task: promotion, completion, flushing and waiting, interleaved. */
module BashTask {
  import opened Options

  // What the foreground call was answered.
  datatype Outcome = Backgrounded | Aborted | TimedOut | Exited(code: Option<int>)

  datatype WaitResult = Resolved | Rejected

  datatype Event =
    | Register                                             // the foreground call starts waiting
    | Promote                                              // the pager asks for the background
    | Kill
    | Timeout                                              // the deadline timer fires
    | Abort                                                // the caller's abort signal fires
    | Finish(code: Option<int>)                            // the process closes or fails
    | Flush                                                // the log has been written out
    | Wait(waiter: nat, alreadyAborted: bool)
    | WaitTimeout(waiter: nat)
    | WaitAbort(waiter: nat)

  // The foreground call and the process.
  datatype Call = Call(
    foreground: bool, registered: bool, completed: bool, backgrounded: bool, flushed: bool,
    explicitlyKilled: bool, timedOut: bool, aborted: bool, exitCode: Option<int>,
    settler: bool, promote: bool, settled: seq<Outcome>, messages: nat)

  // Those who wait for the task to complete, and what the others were told.
  datatype Waiting = Waiting(waiters: set<nat>, told: map<nat, WaitResult>)

  datatype State = State(call: Call, waiting: Waiting)

  function Started(background: bool): State {
    State(Call(!background, false, false, background, false, false, false, false, None, false, false, [], 0),
          Waiting({}, map[]))
  }

  // ---------------------------------------------------------------------------
  // One step
  // ---------------------------------------------------------------------------

  function Answer(c: Call, toBackground: bool): Outcome {
    if toBackground then Backgrounded
    else if c.aborted then Aborted
    else if c.timedOut then TimedOut
    else Exited(c.exitCode)
  }

  function Settle(c: Call, toBackground: bool): Call {
    c.(settler := false, promote := false, settled := c.settled + [Answer(c, toBackground)])
  }

  function Flushed(c: Call): Call {
    var told := if c.backgrounded then c.(messages := c.messages + 1) else c;
    (if told.settler then Settle(told, false) else told).(flushed := true)
  }

  function CallStep(c: Call, e: Event): Call {
    match e
    case Register =>
      if !c.foreground || c.registered then c
      else
        var r := c.(registered := true, settler := true, promote := true);
        if r.completed then Settle(r, false) else r
    case Promote =>
      if !c.promote || c.completed || c.backgrounded then c else Settle(c.(backgrounded := true), true)
    case Kill => if c.completed then c else c.(explicitlyKilled := true)
    case Timeout => if c.completed then c else c.(timedOut := true)
    case Abort => c.(aborted := true)
    case Finish(code) => if c.completed then c else c.(completed := true, exitCode := code)
    case Flush => if c.completed && !c.flushed then Flushed(c) else c
    case _ => c
  }

  function WaitStep(w: Waiting, c: Call, e: Event): Waiting {
    match e
    case Wait(id, alreadyAborted) =>
      if id in w.waiters || id in w.told then w
      else if c.completed then w.(told := w.told[id := Resolved])
      else if alreadyAborted then w.(told := w.told[id := Rejected])
      else w.(waiters := w.waiters + {id})
    case WaitTimeout(id) =>
      if id in w.waiters then Waiting(w.waiters - {id}, w.told[id := Resolved]) else w
    case WaitAbort(id) =>
      if id in w.waiters then Waiting(w.waiters - {id}, w.told[id := Rejected]) else w
    case Flush =>
      if c.completed && !c.flushed then Waiting({}, w.told + map id | id in w.waiters :: Resolved) else w
    case _ => w
  }

  function Step(s: State, e: Event): State {
    State(CallStep(s.call, e), WaitStep(s.waiting, s.call, e))
  }

  function Run(background: bool, es: seq<Event>): State {
    if es == [] then Started(background) else Step(Run(background, es[..|es| - 1]), es[|es| - 1])
  }

  lemma RunAppend(background: bool, es: seq<Event>, later: seq<Event>)
    requires later != []
    ensures var n := |later| - 1;
            Run(background, es + later) == Step(Run(background, es + later[..n]), later[n])
  {
    assert (es + later)[..|es + later| - 1] == es + later[..|later| - 1];
  }

  // ---------------------------------------------------------------------------
  // What every reachable state satisfies
  // ---------------------------------------------------------------------------

  ghost predicate Consistent(c: Call) {
    && (c.flushed ==> c.completed)
    && (c.settler ==> c.registered) && (c.registered ==> c.foreground)
    && c.settler == c.promote
    && (c.registered && !c.completed && !c.backgrounded ==> c.promote)
       // The call is answered once: either the settler is still set, or the answer is out.
    && |c.settled| == (if c.registered && !c.settler then 1 else 0)
    && (c.flushed ==> !c.settler)
       // The answer is "backgrounded" exactly for promoted foreground tasks.
    && (c.foreground ==> (c.backgrounded <==> c.settled != [] && c.settled[0] == Backgrounded))
    && (!c.foreground ==> c.backgrounded)
       // One completion message, at the flush, for background tasks only.
    && c.messages == (if c.flushed && c.backgrounded then 1 else 0)
  }

  // Every waiter is either waiting or answered, and none outlives the flush.
  ghost predicate Accounted(w: Waiting, c: Call) {
    w.waiters !! w.told.Keys && (c.flushed ==> w.waiters == {})
  }

  lemma StepKeepsConsistent(c: Call, e: Event)
    requires Consistent(c)
    ensures Consistent(CallStep(c, e)) && CallStep(c, e).foreground == c.foreground
  {
  }

  lemma StepKeepsAccounted(w: Waiting, c: Call, e: Event)
    requires Accounted(w, c) && (c.flushed ==> c.completed)
    ensures Accounted(WaitStep(w, c, e), CallStep(c, e))
  {
  }

  lemma {:induction false} RunsAreConsistent(background: bool, es: seq<Event>)
    ensures var s := Run(background, es);
            Consistent(s.call) && Accounted(s.waiting, s.call) && s.call.foreground == !background
  {
    if es != [] {
      var s := Run(background, es[..|es| - 1]);
      RunsAreConsistent(background, es[..|es| - 1]);
      StepKeepsConsistent(s.call, es[|es| - 1]);
      StepKeepsAccounted(s.waiting, s.call, es[|es| - 1]);
    }
  }

  // A foreground call that is waiting when the log is flushed, or starts waiting later, has
  // exactly one answer; before that it has at most one. A background start never has any.
  lemma SettlesExactlyOnce(background: bool, es: seq<Event>)
    ensures var c := Run(background, es).call;
            && |c.settled| <= 1
            && (background ==> c.settled == [])
            && (c.registered && c.flushed ==> |c.settled| == 1)
  {
    RunsAreConsistent(background, es);
  }

  // The completion message is sent once, at the flush, and only for background tasks.
  lemma MessageExactlyForBackground(background: bool, es: seq<Event>)
    ensures var c := Run(background, es).call;
            c.messages == if c.flushed && c.backgrounded then 1 else 0
  {
    RunsAreConsistent(background, es);
  }

  // ---------------------------------------------------------------------------
  // Promotion against completion
  // ---------------------------------------------------------------------------

  // Some promotion request came while the call was waiting and before the process ended.
  ghost predicate PromotedInTime(es: seq<Event>) {
    exists i :: 0 <= i < |es| && PromotesAt(es, i)
  }

  ghost predicate PromotesAt(es: seq<Event>, i: nat)
    requires i < |es|
  {
    es[i] == Promote && Register in es[..i] && forall e :: e in es[..i] ==> !e.Finish?
  }

  lemma {:induction false} HistoryFacts(es: seq<Event>)
    ensures var c := Run(false, es).call;
            && (c.registered <==> Register in es)
            && (c.completed <==> exists e :: e in es && e.Finish?)
  {
    RunsAreConsistent(false, es);
    if es != [] {
      var n := |es| - 1;
      HistoryFacts(es[..n]);
      RunsAreConsistent(false, es[..n]);
      assert forall e :: e in es <==> e in es[..n] || e == es[n];
      CallHistory(Run(false, es[..n]).call, es[n]);
    }
  }

  lemma CallHistory(c: Call, e: Event)
    requires Consistent(c) && c.foreground
    ensures CallStep(c, e).registered <==> c.registered || e == Register
    ensures CallStep(c, e).completed <==> c.completed || e.Finish?
    ensures CallStep(c, e).backgrounded <==> c.backgrounded || (e == Promote && c.promote && !c.completed)
  {
    match e {
      case Register =>
      case Promote =>
      case Flush =>
      case _ =>
    }
  }

  // The answer is "backgrounded" exactly when promotion came before completion.
  lemma {:induction false} BackgroundedIffPromotedInTime(es: seq<Event>)
    ensures Run(false, es).call.backgrounded <==> PromotedInTime(es)
    ensures Backgrounded in Run(false, es).call.settled <==> PromotedInTime(es)
  {
    RunsAreConsistent(false, es);
    if es != [] {
      var n := |es| - 1;
      BackgroundedIffPromotedInTime(es[..n]);
      RunsAreConsistent(false, es[..n]);
      HistoryFacts(es[..n]);
      CallHistory(Run(false, es[..n]).call, es[n]);
      PromotedInTimeStep(es);
    }
  }

  lemma PromotedInTimeStep(es: seq<Event>)
    requires es != []
    ensures PromotedInTime(es) <==> PromotedInTime(es[..|es| - 1]) || PromotesAt(es, |es| - 1)
  {
    var n := |es| - 1;
    forall i | 0 <= i < n ensures PromotesAt(es[..n], i) <==> PromotesAt(es, i) {
      assert es[..n][i] == es[i] && es[..n][..i] == es[..i];
    }
  }

  // ---------------------------------------------------------------------------
  // What the events alone say
  // ---------------------------------------------------------------------------

  ghost predicate Ended(es: seq<Event>) {
    exists e :: e in es && e.Finish?
  }

  // The i-th event is the first end of the process.
  ghost predicate FirstFinish(es: seq<Event>, i: nat)
    requires i < |es|
  {
    es[i].Finish? && !Ended(es[..i])
  }

  // The event came while the process was running.
  ghost predicate BeforeFinish(es: seq<Event>, e: Event) {
    exists i: nat :: i < |es| && es[i] == e && !Ended(es[..i])
  }

  ghost predicate FlushedAfterFinish(es: seq<Event>) {
    exists i: nat :: i < |es| && es[i] == Flush && Ended(es[..i])
  }

  ghost predicate RegisteredAfterFinish(es: seq<Event>) {
    exists i: nat :: i < |es| && es[i] == Register && Register !in es[..i] && Ended(es[..i])
  }

  lemma EndedSnoc(es: seq<Event>)
    requires es != []
    ensures Ended(es) <==> Ended(es[..|es| - 1]) || es[|es| - 1].Finish?
  {
    assert forall e :: e in es <==> e in es[..|es| - 1] || e == es[|es| - 1];
  }

  lemma BeforeFinishSnoc(es: seq<Event>, e: Event)
    requires es != []
    ensures var n := |es| - 1; BeforeFinish(es, e) <==> BeforeFinish(es[..n], e) || (es[n] == e && !Ended(es[..n]))
  {
    var n := |es| - 1;
    forall i: nat | i < n
      ensures es[..n][i] == es[i] && es[..n][..i] == es[..i]
    {
    }
    if BeforeFinish(es[..n], e) {
      var i: nat :| i < n && es[..n][i] == e && !Ended(es[..n][..i]);
      assert es[i] == e && !Ended(es[..i]);
    }
    if BeforeFinish(es, e) {
      var i: nat :| i < |es| && es[i] == e && !Ended(es[..i]);
      if i < n {
        assert es[..n][i] == e && !Ended(es[..n][..i]);
      }
    }
  }

  lemma FlushedSnoc(es: seq<Event>)
    requires es != []
    ensures var n := |es| - 1; FlushedAfterFinish(es) <==> FlushedAfterFinish(es[..n]) || (es[n] == Flush && Ended(es[..n]))
  {
    var n := |es| - 1;
    forall i: nat | i < n
      ensures es[..n][i] == es[i] && es[..n][..i] == es[..i]
    {
    }
    if FlushedAfterFinish(es[..n]) {
      var i: nat :| i < n && es[..n][i] == Flush && Ended(es[..n][..i]);
      assert es[i] == Flush && Ended(es[..i]);
    }
    if FlushedAfterFinish(es) {
      var i: nat :| i < |es| && es[i] == Flush && Ended(es[..i]);
      if i < n {
        assert es[..n][i] == Flush && Ended(es[..n][..i]);
      }
    }
  }

  // What every run knows, from its events: whether the process has ended and with what code,
  // whether the log is flushed, and what hit the process while it ran.
  ghost predicate Knows(c: Call, es: seq<Event>) {
    && (c.completed <==> Ended(es)) && (c.flushed <==> FlushedAfterFinish(es))
    && (c.aborted <==> Abort in es)
    && (c.timedOut <==> BeforeFinish(es, Timeout)) && (c.explicitlyKilled <==> BeforeFinish(es, Kill))
    && (forall i: nat :: i < |es| && FirstFinish(es, i) ==> c.exitCode == es[i].code)
  }

  lemma FirstFinishSnoc(es: seq<Event>, i: nat)
    requires es != [] && i < |es|
    ensures var n := |es| - 1;
            FirstFinish(es, i) <==> (i < n && FirstFinish(es[..n], i)) || (i == n && es[n].Finish? && !Ended(es[..n]))
  {
    var n := |es| - 1;
    if i < n {
      assert es[..n][i] == es[i] && es[..n][..i] == es[..i];
    }
  }

  lemma FirstFinishEnds(es: seq<Event>, i: nat)
    requires i < |es| && FirstFinish(es, i)
    ensures Ended(es)
  {
    assert es[i] in es;
  }

  lemma {:induction false} RunsKnow(background: bool, es: seq<Event>)
    ensures Knows(Run(background, es).call, es)
  {
    if es != [] {
      var n := |es| - 1;
      RunsKnow(background, es[..n]);
      EndedSnoc(es);
      FlushedSnoc(es);
      BeforeFinishSnoc(es, Timeout);
      BeforeFinishSnoc(es, Kill);
      assert Abort in es <==> Abort in es[..n] || es[n] == Abort;
      KnowStep(Run(background, es[..n]).call, es[n]);
      forall i: nat | i < |es| && FirstFinish(es, i)
        ensures Run(background, es).call.exitCode == es[i].code
      {
        FirstFinishSnoc(es, i);
        if i < n {
          FirstFinishEnds(es[..n], i);
          assert es[..n][i] == es[i];
        }
      }
    }
  }

  lemma {:induction false} KnowStep(c: Call, e: Event)
    ensures var d := CallStep(c, e);
            && (d.completed <==> c.completed || e.Finish?)
            && (d.flushed <==> c.flushed || (e == Flush && c.completed))
            && (d.aborted <==> c.aborted || e == Abort)
            && (d.timedOut <==> c.timedOut || (e == Timeout && !c.completed))
            && (d.explicitlyKilled <==> c.explicitlyKilled || (e == Kill && !c.completed))
            && d.exitCode == (if e.Finish? && !c.completed then e.code else c.exitCode)
  {
    match e {
      case Register =>
      case Promote =>
      case Flush =>
      case _ =>
    }
  }

  // ---------------------------------------------------------------------------
  // Which answer, and when
  // ---------------------------------------------------------------------------

  // The i-th event brings the answer.
  ghost predicate SettledBy(es: seq<Event>, i: nat)
    requires i < |es|
  {
    Run(false, es[..i]).call.settled == [] && Run(false, es[..i + 1]).call.settled != []
  }

  // An answer other than "backgrounded" is "aborted" exactly if an abort came before it, else
  // "timed out" exactly if the deadline passed while the process ran, else the code with which
  // the process first ended.
  lemma {:induction false} WhichAnswer(es: seq<Event>, i: nat)
    requires i < |es| && SettledBy(es, i) && !PromotedInTime(es[..i + 1])
    ensures Run(false, es[..i + 1]).call.settled ==
            [if Abort in es[..i] then Aborted
             else if BeforeFinish(es[..i], Timeout) then TimedOut
             else Exited(Run(false, es[..i]).call.exitCode)]
    ensures forall j: nat :: j < i && FirstFinish(es[..i], j) ==> Run(false, es[..i]).call.exitCode == es[j].code
    ensures Ended(es[..i])
  {
    var before, all := es[..i], es[..i + 1];
    assert all[..|all| - 1] == before && all[|all| - 1] == es[i];
    RunsKnow(false, before);
    RunsAreConsistent(false, before);
    RunsAreConsistent(false, all);
    BackgroundedIffPromotedInTime(all);
    AnswerStep(Run(false, before).call, es[i]);
  }

  lemma {:induction false} AnswerStep(c: Call, e: Event)
    requires Consistent(c) && c.settled == [] && CallStep(c, e).settled != [] && !CallStep(c, e).backgrounded
    ensures c.completed
    ensures CallStep(c, e).settled ==
            [if c.aborted then Aborted else if c.timedOut then TimedOut else Exited(c.exitCode)]
  {
    match e {
      case Register =>
      case Promote =>
      case Flush =>
      case _ =>
    }
  }

  ghost predicate AnswerDue(c: Call, late: bool) {
    c.settled != [] <==> c.backgrounded || (c.registered && c.completed && (late || c.flushed))
  }

  lemma {:induction false} DueStep(c: Call, e: Event, late: bool)
    requires Consistent(c) && c.foreground && AnswerDue(c, late) && (late ==> c.registered && c.completed)
    ensures AnswerDue(CallStep(c, e), late || (e == Register && !c.registered && c.completed))
  {
    match e {
      case Register =>
      case Promote =>
      case Flush =>
      case _ =>
    }
  }

  lemma {:induction false} AnswerIsDue(es: seq<Event>)
    ensures AnswerDue(Run(false, es).call, RegisteredAfterFinish(es))
    ensures RegisteredAfterFinish(es) ==> Register in es && Ended(es)
  {
    if es != [] {
      var n := |es| - 1;
      var c := Run(false, es[..n]).call;
      AnswerIsDue(es[..n]);
      RunsAreConsistent(false, es[..n]);
      HistoryFacts(es[..n]);
      RegisteredSnoc(es);
      EndedSnoc(es);
      assert c.completed <==> Ended(es[..n]);
      DueStep(c, es[n], RegisteredAfterFinish(es[..n]));
      assert RegisteredAfterFinish(es) <==>
          RegisteredAfterFinish(es[..n]) || (es[n] == Register && !c.registered && c.completed);
    }
  }

  // The call has its answer exactly if it was promoted in time, or the process has ended and
  // the call registered, before the end and with a flush after it, or only then.
  lemma {:induction false} AnsweredIff(es: seq<Event>)
    ensures Run(false, es).call.settled != [] <==>
            || PromotedInTime(es)
            || (Register in es && Ended(es) && (RegisteredAfterFinish(es) || FlushedAfterFinish(es)))
  {
    AnswerIsDue(es);
    HistoryFacts(es);
    RunsKnow(false, es);
    BackgroundedIffPromotedInTime(es);
  }

  lemma RegisteredSnoc(es: seq<Event>)
    requires es != []
    ensures var n := |es| - 1;
            && (RegisteredAfterFinish(es) <==>
                RegisteredAfterFinish(es[..n]) || (es[n] == Register && Register !in es[..n] && Ended(es[..n])))
            && (Register in es <==> Register in es[..n] || es[n] == Register)
  {
    var n := |es| - 1;
    forall i: nat | i < n
      ensures es[..n][i] == es[i] && es[..n][..i] == es[..i]
    {
    }
    if RegisteredAfterFinish(es[..n]) {
      var i: nat :| i < n && es[..n][i] == Register && Register !in es[..n][..i] && Ended(es[..n][..i]);
      assert es[i] == Register && Register !in es[..i] && Ended(es[..i]);
    }
    if RegisteredAfterFinish(es) {
      var i: nat :| i < |es| && es[i] == Register && Register !in es[..i] && Ended(es[..i]);
      if i < n {
        assert es[..n][i] == Register && Register !in es[..n][..i] && Ended(es[..n][..i]);
      }
    }
  }

  lemma CompletedStep(c: Call, e: Event)
    requires c.completed
    ensures var d := CallStep(c, e);
            d.completed && d.backgrounded == c.backgrounded && d.exitCode == c.exitCode && c.settled <= d.settled
  {
    match e {
      case Register =>
      case Promote =>
      case Flush =>
      case _ =>
    }
  }

  // Once the process has ended, neither the background flag nor the exit code changes, and
  // an answer, once given, stays.
  lemma {:induction false} CompletionIsFinal(background: bool, es: seq<Event>, later: seq<Event>)
    requires Run(background, es).call.completed
    ensures var c, d := Run(background, es).call, Run(background, es + later).call;
            d.completed && d.backgrounded == c.backgrounded && d.exitCode == c.exitCode && c.settled <= d.settled
    decreases |later|
  {
    if later == [] {
      assert es + later == es;
    } else {
      var n := |later| - 1;
      CompletionIsFinal(background, es, later[..n]);
      RunAppend(background, es, later);
      CompletedStep(Run(background, es + later[..n]).call, later[n]);
    }
  }

  lemma ToldStep(w: Waiting, c: Call, e: Event, id: nat)
    requires Accounted(w, c)
    ensures var v := WaitStep(w, c, e);
            && (id in w.told ==> id in v.told && v.told[id] == w.told[id])
            && (id in w.waiters || id in w.told ==> id in v.waiters || id in v.told)
            && (e.Wait? && e.waiter == id ==> id in v.waiters || id in v.told)
  {
  }

  // Whoever asked is waiting or answered, never both; an answer never changes; and after
  // the flush everybody who asked has been answered.
  lemma {:induction false} WaitersAreAnswered(background: bool, es: seq<Event>, id: nat, alreadyAborted: bool)
    requires Wait(id, alreadyAborted) in es
    ensures var s := Run(background, es);
            && (id in s.waiting.waiters <==> id !in s.waiting.told)
            && (s.call.flushed ==> id in s.waiting.told)
  {
    RunsAreConsistent(background, es);
    var n := |es| - 1;
    var s := Run(background, es[..n]);
    RunsAreConsistent(background, es[..n]);
    ToldStep(s.waiting, s.call, es[n], id);
    if es[n] != Wait(id, alreadyAborted) {
      assert Wait(id, alreadyAborted) in es[..n];
      WaitersAreAnswered(background, es[..n], id, alreadyAborted);
    }
  }

  lemma {:induction false} AnswersNeverChange(background: bool, es: seq<Event>, later: seq<Event>, id: nat)
    requires id in Run(background, es).waiting.told
    ensures var w, v := Run(background, es).waiting, Run(background, es + later).waiting;
            id in v.told && v.told[id] == w.told[id]
    decreases |later|
  {
    if later == [] {
      assert es + later == es;
    } else {
      var n := |later| - 1;
      AnswersNeverChange(background, es, later[..n], id);
      RunAppend(background, es, later);
      RunsAreConsistent(background, es + later[..n]);
      var s := Run(background, es + later[..n]);
      ToldStep(s.waiting, s.call, later[n], id);
    }
  }

  // ---------------------------------------------------------------------------
  // What a waiter is told
  // ---------------------------------------------------------------------------

  ghost predicate Unknown(w: Waiting, id: nat) {
    id !in w.waiters && id !in w.told
  }

  // The event tells the waiter this: an abort, before or while it waits, rejects; the end of
  // the process before it asks, its own deadline, and the flush while it waits, resolve.
  ghost predicate TellsNow(s: State, e: Event, id: nat, r: WaitResult) {
    match r
    case Rejected =>
      || (e == Wait(id, true) && Unknown(s.waiting, id) && !s.call.completed)
      || (e == WaitAbort(id) && id in s.waiting.waiters)
    case Resolved =>
      || (e.Wait? && e.waiter == id && Unknown(s.waiting, id) && s.call.completed)
      || (e == WaitTimeout(id) && id in s.waiting.waiters)
      || (e == Flush && s.call.completed && !s.call.flushed && id in s.waiting.waiters)
  }

  ghost predicate TellsAt(background: bool, es: seq<Event>, i: nat, id: nat, r: WaitResult)
    requires i < |es|
  {
    TellsNow(Run(background, es[..i]), es[i], id, r)
  }

  ghost predicate Told(w: Waiting, id: nat, r: WaitResult) {
    id in w.told && w.told[id] == r
  }

  lemma {:induction false} TellStep(s: State, e: Event, id: nat, r: WaitResult)
    requires Accounted(s.waiting, s.call)
    ensures Told(Step(s, e).waiting, id, r) <==> Told(s.waiting, id, r) || TellsNow(s, e, id, r)
  {
    match e {
      case Wait(_, _) =>
      case WaitTimeout(_) =>
      case WaitAbort(_) =>
      case Flush =>
      case _ =>
    }
  }

  // In every run a waiter has been told something exactly if some event told it so.
  lemma {:induction false} ToldIff(background: bool, es: seq<Event>, id: nat, r: WaitResult)
    ensures Told(Run(background, es).waiting, id, r) <==> exists i: nat :: i < |es| && TellsAt(background, es, i, id, r)
  {
    if es != [] {
      var n := |es| - 1;
      ToldIff(background, es[..n], id, r);
      RunsAreConsistent(background, es[..n]);
      TellStep(Run(background, es[..n]), es[n], id, r);
      forall i: nat | i < n
        ensures TellsAt(background, es[..n], i, id, r) <==> TellsAt(background, es, i, id, r)
      {
        assert es[..n][..i] == es[..i] && es[..n][i] == es[i];
      }
      assert TellsAt(background, es, n, id, r) <==> TellsNow(Run(background, es[..n]), es[n], id, r);
    }
  }

  // ---------------------------------------------------------------------------
  // The task object
  // ---------------------------------------------------------------------------

  class BackgroundTask {
    const foreground: bool
    var registered: bool
    var completed: bool
    var backgrounded: bool
    var flushed: bool
    var explicitlyKilled: bool
    var timedOut: bool
    var aborted: bool
    var exitCode: Option<int>
    var foregroundSettler: bool
    var promote: bool
    var waiters: set<nat>
    // What has been answered and sent.
    var settled: seq<Outcome>
    var messages: nat
    var told: map<nat, WaitResult>

    ghost function CallView(): Call
      reads this
    {
      Call(foreground, registered, completed, backgrounded, flushed, explicitlyKilled, timedOut, aborted,
           exitCode, foregroundSettler, promote, settled, messages)
    }

    ghost function View(): State
      reads this
    {
      State(CallView(), Waiting(waiters, told))
    }

    constructor (background: bool)
      ensures View() == Started(background)
    {
      foreground, backgrounded := !background, background;
      registered, completed, flushed, explicitlyKilled, timedOut, aborted := false, false, false, false, false, false;
      exitCode, foregroundSettler, promote, waiters := None, false, false, {};
      settled, messages, told := [], 0, map[];
    }

    method SettleForeground(toBackground: bool)
      modifies this`foregroundSettler, this`promote, this`settled
      ensures CallView() == Settle(old(CallView()), toBackground)
    {
      foregroundSettler := false;
      promote := false;
      if toBackground {
        settled := settled + [Backgrounded];
        return;
      }
      if aborted {
        settled := settled + [Aborted];
        return;
      }
      if timedOut {
        settled := settled + [TimedOut];
        return;
      }
      settled := settled + [Exited(exitCode)];
    }

    method RegisterForeground()
      requires foreground && !registered
      modifies this
      ensures View() == Step(old(View()), Register)
    {
      registered := true;
      foregroundSettler := true;
      promote := true;
      if completed {
        SettleForeground(false);
      }
    }

    method PromoteToBackground()
      modifies this
      ensures View() == Step(old(View()), Promote)
    {
      if !promote || completed || backgrounded {
        return;
      }
      backgrounded := true;
      SettleForeground(true);
    }

    method KillTask()
      modifies this
      ensures View() == Step(old(View()), Kill)
    {
      if completed {
        return;
      }
      explicitlyKilled := true;
    }

    method DeadlineReached()
      modifies this
      ensures View() == Step(old(View()), Timeout)
    {
      if !completed {
        timedOut := true;
      }
    }

    method FinishTask(code: Option<int>)
      modifies this
      ensures View() == Step(old(View()), Finish(code))
    {
      if completed {
        return;
      }
      completed := true;
      exitCode := code;
    }

    method CallWaiters()
      modifies this`waiters, this`told
      ensures waiters == {} && told == old(told) + map id | id in old(waiters) :: Resolved
    {
      ghost var all, before := waiters, told;
      while waiters != {}
        invariant waiters <= all
        invariant told == before + map id | id in all - waiters :: Resolved
        decreases waiters
      {
        var w :| w in waiters;
        waiters := waiters - {w};
        told := told[w := Resolved];
      }
      assert all - waiters == all;
    }

    method NotifyAndSettle()
      modifies this`messages, this`foregroundSettler, this`promote, this`settled
      ensures CallView().(flushed := true) == Flushed(old(CallView()))
    {
      if backgrounded {
        messages := messages + 1;
      }
      if foregroundSettler {
        SettleForeground(false);
      }
    }

    method LogFlushed()
      requires completed && !flushed
      modifies this
      ensures View() == Step(old(View()), Flush)
    {
      NotifyAndSettle();
      CallWaiters();
      flushed := true;
    }

    method WaitForCompletion(id: nat, alreadyAborted: bool)
      requires id !in waiters && id !in told
      modifies this`waiters, this`told
      ensures View() == Step(old(View()), Wait(id, alreadyAborted))
    {
      if completed {
        told := told[id := Resolved];
        return;
      }
      if alreadyAborted {
        told := told[id := Rejected];
        return;
      }
      waiters := waiters + {id};
    }

    method WaiterDone(id: nat, byAbort: bool)
      requires id in waiters
      modifies this`waiters, this`told
      ensures View() == Step(old(View()), if byAbort then WaitAbort(id) else WaitTimeout(id))
    {
      waiters := waiters - {id};
      told := told[id := if byAbort then Rejected else Resolved];
    }
  }
}
