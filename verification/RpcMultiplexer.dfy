/** Requests, replies, timeouts and the process exit over one shared table of pending ids. */
module RpcMultiplexer {
  import opened Options
  import Decimal

  const PREFIX := "pi-grok"

  // One line of the child's output, parsed or not.
  datatype Line = Parsed(isResponse: bool, id: Option<string>, body: string) | Garbage(text: string)

  // What is put into a request's one-shot channel.
  datatype Answer = Reply(line: Line) | ExitError(message: string)

  // What a caller gets.
  datatype Outcome = Answered(answer: Answer) | WriterClosed | TimedOut

  datatype Phase = Inserted | Waiting | Expired | Done(outcome: Outcome)

  datatype Emitted = LineEvent(line: Line) | ExitEvent(message: string)

  datatype Event =
    | Send(hasDeadline: bool)              // allocate an id and enter it as pending
    | Written(id: string, ok: bool)        // the writer took the command, or is closed
    | Received(line: Line)                 // the dispatcher reads a line
    | Expire(id: string)                   // the deadline passes while nothing has arrived
    | Cleanup(id: string)                  // the expired request leaves the table
    | Collect(id: string)                  // the caller takes its answer
    | Exit(message: string)                // the exit coordinator drains the table

  datatype Table = Table(
    nextId: nat, pending: set<string>, slots: map<string, Answer>, phases: map<string, Phase>,
    deadlines: set<string>, exited: Option<string>)

  // The lines read so far, and what went to the event stream.
  datatype Stream = Stream(received: seq<Line>, emitted: seq<Emitted>)

  datatype State = State(table: Table, stream: Stream)

  const Initial := State(Table(1, {}, map[], map[], {}, None), Stream([], []))

  // ---------------------------------------------------------------------------
  // One step
  // ---------------------------------------------------------------------------

  // The pending request that a line answers, if any.
  function Addressee(t: Table, line: Line): (id: Option<string>)
    ensures id.Some? ==> line.Parsed? && line.isResponse && line.id == id && id.value in t.pending
  {
    if line.Parsed? && line.isResponse && line.id.Some? && line.id.value in t.pending then line.id else None
  }

  predicate InPhase(t: Table, id: string, phase: Phase) {
    id in t.phases && t.phases[id] == phase
  }

  function TableStep(t: Table, e: Event): Table {
    match e
    case Send(hasDeadline) =>
      var id := Decimal.Id(PREFIX, t.nextId);
      t.(nextId := t.nextId + 1, pending := t.pending + {id}, phases := t.phases[id := Inserted],
      deadlines := if hasDeadline then t.deadlines + {id} else t.deadlines)
    case Written(id, ok) =>
      if !InPhase(t, id, Inserted) then t
      else if ok then t.(phases := t.phases[id := Waiting])
      else t.(pending := t.pending - {id}, phases := t.phases[id := Done(WriterClosed)])
    case Received(line) =>
      var to := Addressee(t, line);
      if to.Some? then t.(pending := t.pending - {to.value}, slots := t.slots[to.value := Reply(line)]) else t
    case Expire(id) =>
      if InPhase(t, id, Waiting) && id in t.deadlines && id !in t.slots then t.(phases := t.phases[id := Expired]) else t
    case Cleanup(id) =>
      if InPhase(t, id, Expired) then t.(pending := t.pending - {id}, phases := t.phases[id := Done(TimedOut)]) else t
    case Collect(id) =>
      if InPhase(t, id, Waiting) && id in t.slots then t.(phases := t.phases[id := Done(Answered(t.slots[id]))]) else t
    case Exit(message) =>
      if t.exited.Some? then t
      else t.(pending := {}, slots := t.slots + map id | id in t.pending :: ExitError(message), exited := Some(message))
  }

  function StreamStep(s: Stream, t: Table, e: Event): Stream {
    match e
    case Received(line) =>
      var r := s.(received := s.received + [line]);
      if Addressee(t, line).Some? then r else r.(emitted := s.emitted + [LineEvent(line)])
    case Exit(message) => if t.exited.Some? then s else s.(emitted := s.emitted + [ExitEvent(message)])
    case _ => s
  }

  function Step(s: State, e: Event): State {
    State(TableStep(s.table, e), StreamStep(s.stream, s.table, e))
  }

  function Run(es: seq<Event>): State {
    if es == [] then Initial else Step(Run(es[..|es| - 1]), es[|es| - 1])
  }

  lemma {:induction false} RunAppend(es: seq<Event>, later: seq<Event>)
    requires later != []
    ensures var n := |later| - 1;
            Run(es + later) == Step(Run(es + later[..n]), later[n])
  {
    assert (es + later)[..|es + later| - 1] == es + later[..|later| - 1];
  }

  // ---------------------------------------------------------------------------
  // The table
  // ---------------------------------------------------------------------------

  // Ids come from the counter, so the next one is new.
  ghost predicate CountedIds(t: Table) {
    t.nextId >= 1 && forall id :: id in t.phases ==> exists n :: 1 <= n < t.nextId && id == Decimal.Id(PREFIX, n)
  }

  // A request is pending until its channel is filled or it leaves; a filled channel holds
  // a reply with the request's own id or the one exit error.
  ghost predicate Sound(t: Table) {
    && t.pending <= t.phases.Keys && t.slots.Keys <= t.phases.Keys
    && t.pending !! t.slots.Keys
    && (forall id :: id in t.slots ==>
          match t.slots[id]
          case Reply(line) => line.Parsed? && line.isResponse && line.id == Some(id)
          case ExitError(message) => t.exited == Some(message))
  }

  // A caller that was answered got what is in its channel.
  ghost predicate AnsweredFromSlots(t: Table) {
    forall id :: id in t.phases && t.phases[id].Done? && t.phases[id].outcome.Answered? ==>
                   id in t.slots && t.phases[id].outcome.answer == t.slots[id]
  }

  lemma NextIdIsNew(t: Table)
    requires CountedIds(t)
    ensures Decimal.Id(PREFIX, t.nextId) !in t.phases
  {
    var id := Decimal.Id(PREFIX, t.nextId);
    if id in t.phases {
      var n :| 1 <= n < t.nextId && id == Decimal.Id(PREFIX, n);
      Decimal.IdInjective(PREFIX, n, t.nextId);
    }
  }

  lemma StepKeepsCounted(t: Table, e: Event)
    requires CountedIds(t)
    ensures CountedIds(TableStep(t, e))
  {
    var u := TableStep(t, e);
    forall id | id in u.phases ensures exists n :: 1 <= n < u.nextId && id == Decimal.Id(PREFIX, n) {
      if id in t.phases {
        var n :| 1 <= n < t.nextId && id == Decimal.Id(PREFIX, n);
        assert 1 <= n < u.nextId;
      } else {
        assert e.Send? && id == Decimal.Id(PREFIX, t.nextId);
      }
    }
  }

  lemma StepKeepsSound(t: Table, e: Event)
    requires CountedIds(t) && Sound(t)
    ensures Sound(TableStep(t, e))
  {
    match e {
      case Send(_) => NextIdIsNew(t);
      case Written(_, _) =>
      case Received(_) =>
      case Expire(_) =>
      case Cleanup(_) =>
      case Collect(_) =>
      case Exit(_) =>
    }
  }

  lemma StepKeepsAnswered(t: Table, e: Event)
    requires CountedIds(t) && Sound(t) && AnsweredFromSlots(t)
    ensures AnsweredFromSlots(TableStep(t, e))
  {
    match e {
      case Send(_) => NextIdIsNew(t);
      case Written(_, _) =>
      case Received(_) =>
      case Expire(_) =>
      case Cleanup(_) =>
      case Collect(_) =>
      case Exit(_) =>
    }
  }

  lemma {:induction false} RunsAreSound(es: seq<Event>)
    ensures CountedIds(Run(es).table) && Sound(Run(es).table) && AnsweredFromSlots(Run(es).table)
  {
    if es != [] {
      RunsAreSound(es[..|es| - 1]);
      StepKeepsCounted(Run(es[..|es| - 1]).table, es[|es| - 1]);
      StepKeepsSound(Run(es[..|es| - 1]).table, es[|es| - 1]);
      StepKeepsAnswered(Run(es[..|es| - 1]).table, es[|es| - 1]);
    }
  }

  // An id is never handed out twice.
  lemma IdsAreNeverReused(es: seq<Event>)
    ensures Decimal.Id(PREFIX, Run(es).table.nextId) !in Run(es).table.phases
  {
    RunsAreSound(es);
    NextIdIsNew(Run(es).table);
  }

  // A reply in a request's channel carries that request's id; an error there is the exit error.
  lemma {:induction false} AnswersReachTheirRequest(es: seq<Event>, id: string)
    requires id in Run(es).table.slots
    ensures match Run(es).table.slots[id]
            case Reply(line) => line.Parsed? && line.isResponse && line.id == Some(id)
            case ExitError(message) => Run(es).table.exited == Some(message)
  {
    RunsAreSound(es);
  }

  // So a caller is answered with the reply to its own request, or with the exit error.
  lemma CallersGetTheirOwnReply(es: seq<Event>, id: string)
    requires id in Run(es).table.phases && Run(es).table.phases[id].Done?
    requires Run(es).table.phases[id].outcome.Answered?
    ensures match Run(es).table.phases[id].outcome.answer
            case Reply(line) => line.Parsed? && line.isResponse && line.id == Some(id)
            case ExitError(message) => Run(es).table.exited == Some(message)
  {
    RunsAreSound(es);
  }

  // ---------------------------------------------------------------------------
  // One outcome
  // ---------------------------------------------------------------------------

  lemma StepKeepsOutcome(t: Table, e: Event, id: string)
    requires CountedIds(t) && Sound(t) && id in t.phases
    ensures var u := TableStep(t, e);
            && id in u.phases
            && (t.phases[id].Done? ==> u.phases[id] == t.phases[id])
            && (id in t.slots ==> id in u.slots && u.slots[id] == t.slots[id])
            && (id !in t.pending ==> id !in u.pending)
  {
    match e {
      case Send(_) => NextIdIsNew(t);
      case Written(_, _) =>
      case Received(_) =>
      case Expire(_) =>
      case Cleanup(_) =>
      case Collect(_) =>
      case Exit(_) =>
    }
  }

  // A request's outcome and its channel, once set, never change, and a request that left
  // the table never returns to it.
  lemma {:induction false} OutcomesAreFinal(es: seq<Event>, later: seq<Event>, id: string)
    requires id in Run(es).table.phases
    ensures var t, u := Run(es).table, Run(es + later).table;
            && id in u.phases
            && (t.phases[id].Done? ==> u.phases[id] == t.phases[id])
            && (id in t.slots ==> id in u.slots && u.slots[id] == t.slots[id])
            && (id !in t.pending ==> id !in u.pending)
    decreases |later|
  {
    if later == [] {
      assert es + later == es;
    } else {
      var n := |later| - 1;
      OutcomesAreFinal(es, later[..n], id);
      RunAppend(es, later);
      RunsAreSound(es + later[..n]);
      StepKeepsOutcome(Run(es + later[..n]).table, later[n], id);
    }
  }

  // ---------------------------------------------------------------------------
  // What fills a channel
  // ---------------------------------------------------------------------------

  // The line is a response that names the request.
  ghost predicate RespondsTo(line: Line, id: string) {
    line.Parsed? && line.isResponse && line.id == Some(id)
  }

  // The i-th event is the line, and it responds to the request, which is pending then.
  ghost predicate RepliedAt(es: seq<Event>, i: nat, id: string, line: Line)
    requires i < |es|
  {
    es[i] == Received(line) && RespondsTo(line, id) && id in Run(es[..i]).table.pending
  }

  // The i-th event is the line, and it responds to no request that is pending then.
  ghost predicate StrayAt(es: seq<Event>, i: nat, line: Line)
    requires i < |es|
  {
    es[i] == Received(line) && forall id :: id in Run(es[..i]).table.pending ==> !RespondsTo(line, id)
  }

  // The i-th event is the first exit, and the request is pending then.
  ghost predicate DrainedAt(es: seq<Event>, i: nat, id: string, message: string)
    requires i < |es|
  {
    es[i] == Exit(message) && Run(es[..i]).table.exited.None? && id in Run(es[..i]).table.pending
  }

  // In a run, a channel holds a line exactly when that line came as a response to the
  // request while it was pending.
  lemma {:induction false} DeliveredIffAddressed(es: seq<Event>, id: string, line: Line)
    ensures id in Run(es).table.slots && Run(es).table.slots[id] == Reply(line) <==>
            exists i: nat :: i < |es| && RepliedAt(es, i, id, line)
  {
    if es != [] {
      var n := |es| - 1;
      DeliveredIffAddressed(es[..n], id, line);
      RunsAreSound(es[..n]);
      SlotStep(Run(es[..n]).table, es[n], id);
      forall i: nat | i < n
        ensures RepliedAt(es[..n], i, id, line) <==> RepliedAt(es, i, id, line)
      {
        assert es[..n][..i] == es[..i] && es[..n][i] == es[i];
      }
      assert RepliedAt(es, n, id, line) <==>
          es[n] == Received(line) && RespondsTo(line, id) && id in Run(es[..n]).table.pending;
    }
  }

  // A line becomes an event exactly when it responds to no request that is pending when it comes.
  lemma {:induction false} EmittedIffStray(es: seq<Event>, line: Line)
    ensures LineEvent(line) in Run(es).stream.emitted <==> exists i: nat :: i < |es| && StrayAt(es, i, line)
  {
    if es != [] {
      var n := |es| - 1;
      EmittedIffStray(es[..n], line);
      forall i: nat | i < n
        ensures StrayAt(es[..n], i, line) <==> StrayAt(es, i, line)
      {
        assert es[..n][..i] == es[..i] && es[..n][i] == es[i];
      }
      EmitStep(Run(es[..n]), es[n], line);
      assert StrayAt(es, n, line) <==>
          es[n] == Received(line) && forall id :: id in Run(es[..n]).table.pending ==> !RespondsTo(line, id);
    }
  }

  lemma {:induction false} EmitStep(s: State, e: Event, line: Line)
    ensures LineEvent(line) in Step(s, e).stream.emitted <==>
            || LineEvent(line) in s.stream.emitted
            || (e == Received(line) && forall id :: id in s.table.pending ==> !RespondsTo(line, id))
  {
    if e.Received? {
      var to := Addressee(s.table, e.line);
      if to.Some? { assert RespondsTo(e.line, to.value); }
    }
  }

  // The process's end becomes an event exactly once, with the first exit.
  lemma {:induction false} ExitIsEmittedOnce(es: seq<Event>, message: string)
    ensures ExitEvent(message) in Run(es).stream.emitted <==> Run(es).table.exited == Some(message)
    ensures Run(es).table.exited.None? <==> forall e :: e in es ==> !e.Exit?
  {
    if es != [] {
      var n := |es| - 1;
      ExitIsEmittedOnce(es[..n], message);
      assert forall e :: e in es <==> e in es[..n] || e == es[n];
    }
  }

  ghost function LinesRead(es: seq<Event>): seq<Line> {
    if es == [] then []
    else
      var front, e := LinesRead(es[..|es| - 1]), es[|es| - 1];
      if e.Received? then front + [e.line] else front
  }

  lemma {:induction false} ReceivedIsWhatWasRead(es: seq<Event>)
    ensures Run(es).stream.received == LinesRead(es)
  {
    if es != [] {
      ReceivedIsWhatWasRead(es[..|es| - 1]);
    }
  }

  // What was read or emitted stays in place; later events only add to it.
  lemma {:induction false} StreamsOnlyGrow(es: seq<Event>, later: seq<Event>)
    ensures Run(es).stream.received <= Run(es + later).stream.received
    ensures Run(es).stream.emitted <= Run(es + later).stream.emitted
    decreases |later|
  {
    if later == [] {
      assert es + later == es;
    } else {
      StreamsOnlyGrow(es, later[..|later| - 1]);
      RunAppend(es, later);
    }
  }

  // A channel holds the exit error exactly when the request was pending at the exit.
  lemma {:induction false} ExitDrainsThePending(es: seq<Event>, id: string, message: string)
    ensures id in Run(es).table.slots && Run(es).table.slots[id] == ExitError(message) <==>
            exists i: nat :: i < |es| && DrainedAt(es, i, id, message)
  {
    if es != [] {
      var n := |es| - 1;
      ExitDrainsThePending(es[..n], id, message);
      RunsAreSound(es[..n]);
      SlotStep(Run(es[..n]).table, es[n], id);
      forall i: nat | i < n
        ensures DrainedAt(es[..n], i, id, message) <==> DrainedAt(es, i, id, message)
      {
        assert es[..n][..i] == es[..i] && es[..n][i] == es[i];
      }
      assert DrainedAt(es, n, id, message) <==>
          es[n] == Exit(message) && Run(es[..n]).table.exited.None? && id in Run(es[..n]).table.pending;
    }
  }

  // One event fills a channel only while its request is pending, and never refills it.
  lemma {:induction false} SlotStep(t: Table, e: Event, id: string)
    requires Sound(t)
    ensures var u := TableStep(t, e);
            if id in t.slots then id in u.slots && u.slots[id] == t.slots[id]
            else if e.Received? && Addressee(t, e.line) == Some(id) then id in u.slots && u.slots[id] == Reply(e.line)
            else if e.Exit? && t.exited.None? && id in t.pending then id in u.slots && u.slots[id] == ExitError(e.message)
            else id !in u.slots
  {
    match e {
      case Received(line) =>
      case Exit(message) =>
      case _ =>
    }
  }

  // ---------------------------------------------------------------------------
  // How a request came to stand where it stands
  // ---------------------------------------------------------------------------

  datatype Moment = Sent | SentTimed | Accepted | RefusedByWriter | RanOut | Removed | Collected(answer: Answer)

  // The event is this moment of the request's life.
  ghost predicate HappensNow(t: Table, e: Event, id: string, m: Moment) {
    match m
    case Sent => e.Send? && id == Decimal.Id(PREFIX, t.nextId)
    case SentTimed => e == Send(true) && id == Decimal.Id(PREFIX, t.nextId)
    case Accepted => e == Written(id, true) && InPhase(t, id, Inserted)
    case RefusedByWriter => e == Written(id, false) && InPhase(t, id, Inserted)
    case RanOut => e == Expire(id) && InPhase(t, id, Waiting) && id in t.deadlines && id !in t.slots
    case Removed => e == Cleanup(id) && InPhase(t, id, Expired)
    case Collected(answer) => e == Collect(id) && InPhase(t, id, Waiting) && id in t.slots && t.slots[id] == answer
  }

  // The table shows that the moment has been.
  ghost predicate Shows(t: Table, id: string, m: Moment) {
    match m
    case Sent => id in t.phases
    case SentTimed => id in t.deadlines
    case Accepted => id in t.phases && t.phases[id] != Inserted && t.phases[id] != Done(WriterClosed)
    case RefusedByWriter => InPhase(t, id, Done(WriterClosed))
    case RanOut => InPhase(t, id, Expired) || InPhase(t, id, Done(TimedOut))
    case Removed => InPhase(t, id, Done(TimedOut))
    case Collected(answer) => InPhase(t, id, Done(Answered(answer)))
  }

  ghost predicate HappensAt(es: seq<Event>, i: nat, id: string, m: Moment)
    requires i < |es|
  {
    HappensNow(Run(es[..i]).table, es[i], id, m)
  }

  lemma {:induction false} EarlyMomentStep(t: Table, e: Event, id: string, m: Moment)
    requires CountedIds(t) && (m.Sent? || m.SentTimed? || m.Accepted? || m.RefusedByWriter?)
    ensures Shows(TableStep(t, e), id, m) <==> Shows(t, id, m) || HappensNow(t, e, id, m)
  {
    match e {
      case Send(_) => NextIdIsNew(t);
      case Written(_, _) =>
      case Received(_) =>
      case Expire(_) =>
      case Cleanup(_) =>
      case Collect(_) =>
      case Exit(_) =>
    }
  }

  lemma {:induction false} LateMomentStep(t: Table, e: Event, id: string, m: Moment)
    requires CountedIds(t) && (m.RanOut? || m.Removed? || m.Collected?)
    ensures Shows(TableStep(t, e), id, m) <==> Shows(t, id, m) || HappensNow(t, e, id, m)
  {
    match e {
      case Send(_) => NextIdIsNew(t);
      case Written(_, _) =>
      case Received(_) =>
      case Expire(_) =>
      case Cleanup(_) =>
      case Collect(_) =>
      case Exit(_) =>
    }
  }

  lemma {:induction false} MomentStep(t: Table, e: Event, id: string, m: Moment)
    requires CountedIds(t)
    ensures Shows(TableStep(t, e), id, m) <==> Shows(t, id, m) || HappensNow(t, e, id, m)
  {
    if m.RanOut? || m.Removed? || m.Collected? {
      LateMomentStep(t, e, id, m);
    } else {
      EarlyMomentStep(t, e, id, m);
    }
  }

  // In every run the table shows a moment exactly when it has been: a request is known if it
  // was sent, was refused by the writer before it was ever accepted, timed out if it had a
  // deadline that passed on an empty channel, and was answered with what it then found there.
  lemma {:induction false} ShownIffHappened(es: seq<Event>, id: string, m: Moment)
    ensures Shows(Run(es).table, id, m) <==> exists i: nat :: i < |es| && HappensAt(es, i, id, m)
  {
    if es != [] {
      var n := |es| - 1;
      ShownIffHappened(es[..n], id, m);
      RunsAreSound(es[..n]);
      MomentStep(Run(es[..n]).table, es[n], id, m);
      forall i: nat | i < n
        ensures HappensAt(es[..n], i, id, m) <==> HappensAt(es, i, id, m)
      {
        assert es[..n][..i] == es[..i] && es[..n][i] == es[i];
      }
      assert HappensAt(es, n, id, m) <==> HappensNow(Run(es[..n]).table, es[n], id, m);
    }
  }

  // A request is pending from its sending until its channel is filled or it fails.
  lemma {:induction false} PendingIff(es: seq<Event>, id: string)
    ensures var t := Run(es).table;
            id in t.pending <==>
            id in t.phases && id !in t.slots && !InPhase(t, id, Done(WriterClosed)) && !InPhase(t, id, Done(TimedOut))
  {
    if es != [] {
      var t := Run(es[..|es| - 1]).table;
      PendingIff(es[..|es| - 1], id);
      RunsAreSound(es[..|es| - 1]);
      PendingStep(t, es[|es| - 1], id);
    }
  }

  ghost predicate StillOpen(t: Table, id: string) {
    id in t.phases && id !in t.slots && !InPhase(t, id, Done(WriterClosed)) && !InPhase(t, id, Done(TimedOut))
  }

  lemma {:induction false} PendingStep(t: Table, e: Event, id: string)
    requires CountedIds(t) && Sound(t) && (id in t.pending <==> StillOpen(t, id))
    ensures id in TableStep(t, e).pending <==> StillOpen(TableStep(t, e), id)
  {
    match e {
      case Send(_) => NextIdIsNew(t);
      case Written(_, _) =>
      case Received(_) =>
      case Expire(_) =>
      case Cleanup(_) =>
      case Collect(_) =>
      case Exit(_) =>
    }
  }

  // ---------------------------------------------------------------------------
  // No request is lost
  // ---------------------------------------------------------------------------

  // The request can still be answered, has been, or has failed on its own.
  ghost predicate Kept(t: Table, id: string) {
    id in t.pending || id in t.slots || InPhase(t, id, Done(WriterClosed)) || InPhase(t, id, Done(TimedOut))
  }

  lemma {:induction false} StepKeepsRequest(t: Table, e: Event, id: string)
    requires CountedIds(t) && id in TableStep(t, e).phases && (id in t.phases ==> Kept(t, id))
    ensures Kept(TableStep(t, e), id)
  {
    match e {
      case Send(_) => NextIdIsNew(t);
      case Written(_, _) =>
      case Received(_) =>
      case Expire(_) =>
      case Cleanup(_) =>
      case Collect(_) =>
      case Exit(_) =>
    }
  }

  // In every run each request ever sent is pending, has its answer in its channel, or ended
  // with a closed writer or a timeout.
  lemma {:induction false} NoRequestIsLost(es: seq<Event>, id: string)
    requires id in Run(es).table.phases
    ensures Kept(Run(es).table, id)
  {
    if es != [] {
      var t := Run(es[..|es| - 1]).table;
      RunsAreSound(es[..|es| - 1]);
      if id in t.phases {
        NoRequestIsLost(es[..|es| - 1], id);
      }
      StepKeepsRequest(t, es[|es| - 1], id);
    }
  }

  // ---------------------------------------------------------------------------
  // Routing
  // ---------------------------------------------------------------------------

  ghost function Lines(emitted: seq<Emitted>): multiset<Line> {
    if emitted == [] then multiset{}
    else
      var n := |emitted| - 1;
      Lines(emitted[..n]) + (if emitted[n].LineEvent? then multiset{emitted[n].line} else multiset{})
  }

  // The lines that sit in channels.
  ghost function Replies(slots: map<string, Answer>): set<Line> {
    set id | id in slots && slots[id].Reply? :: slots[id].line
  }

  // In every run each line read went to exactly one place: into the channel of the request
  // it answers, or to the events.
  lemma {:induction false} EveryLineIsRoutedOnce(es: seq<Event>)
    ensures var s := Run(es);
            multiset(s.stream.received) == Lines(s.stream.emitted) + multiset(Replies(s.table.slots))
  {
    if es != [] {
      var before := Run(es[..|es| - 1]);
      EveryLineIsRoutedOnce(es[..|es| - 1]);
      RunsAreSound(es[..|es| - 1]);
      RouteStep(before, es[|es| - 1]);
    }
  }

  ghost predicate Routed(received: seq<Line>, emitted: seq<Emitted>, slots: map<string, Answer>) {
    multiset(received) == Lines(emitted) + multiset(Replies(slots))
  }

  lemma {:induction false} ReceivedIsRouted(s: State, line: Line)
    requires Sound(s.table) && Routed(s.stream.received, s.stream.emitted, s.table.slots)
    ensures var r := Step(s, Received(line)); Routed(r.stream.received, r.stream.emitted, r.table.slots)
  {
    var lines := s.stream.received;
    assert multiset(lines + [line]) == multiset(lines) + multiset{line};
    var r := Step(s, Received(line));
    if Addressee(s.table, line).Some? {
      assert r.stream.emitted == s.stream.emitted;
      RepliesGrow(s.table, line);
    } else {
      assert r.table == s.table;
      LinesGrow(s.stream.emitted, LineEvent(line));
    }
  }

  lemma {:induction false} ExitIsRouted(s: State, message: string)
    requires Sound(s.table) && Routed(s.stream.received, s.stream.emitted, s.table.slots)
    ensures var r := Step(s, Exit(message)); Routed(r.stream.received, r.stream.emitted, r.table.slots)
  {
    var r := Step(s, Exit(message));
    if s.table.exited.None? {
      ExitKeepsReplies(s.table, message);
      LinesGrow(s.stream.emitted, ExitEvent(message));
      assert Replies(r.table.slots) == Replies(s.table.slots) && Lines(r.stream.emitted) == Lines(s.stream.emitted);
    } else {
      assert r.table == s.table && r.stream == s.stream;
    }
  }

  lemma {:induction false} RouteStep(s: State, e: Event)
    requires Sound(s.table) && Routed(s.stream.received, s.stream.emitted, s.table.slots)
    ensures var r := Step(s, e); Routed(r.stream.received, r.stream.emitted, r.table.slots)
  {
    match e {
      case Received(line) => ReceivedIsRouted(s, line);
      case Exit(message) => ExitIsRouted(s, message);
      case _ => assert Step(s, e).stream == s.stream && Step(s, e).table.slots == s.table.slots;
    }
  }

  lemma LinesGrow(emitted: seq<Emitted>, e: Emitted)
    ensures Lines(emitted + [e]) == Lines(emitted) + (if e.LineEvent? then multiset{e.line} else multiset{})
  {
    assert (emitted + [e])[..|emitted|] == emitted;
  }

  lemma RepliesGrow(t: Table, line: Line)
    requires Sound(t) && Addressee(t, line).Some?
    ensures multiset(Replies(TableStep(t, Received(line)).slots)) == multiset(Replies(t.slots)) + multiset{line}
  {
    var id := line.id.value;
    var slots := t.slots[id := Reply(line)];
    assert line !in Replies(t.slots);
    assert Replies(slots) == Replies(t.slots) + {line} by {
      assert slots[id].line in Replies(slots);
      forall l | l in Replies(t.slots)
        ensures l in Replies(slots)
      {
        var other :| other in t.slots && t.slots[other].Reply? && t.slots[other].line == l;
        assert slots[other] == t.slots[other];
      }
    }
  }

  lemma ExitKeepsReplies(t: Table, message: string)
    requires Sound(t)
    ensures Replies(t.slots + map id | id in t.pending :: ExitError(message)) == Replies(t.slots)
  {
    var slots := t.slots + map id | id in t.pending :: ExitError(message);
    forall l | l in Replies(t.slots)
      ensures l in Replies(slots)
    {
      var id :| id in t.slots && t.slots[id].Reply? && t.slots[id].line == l;
      assert slots[id] == t.slots[id];
    }
  }

  // ---------------------------------------------------------------------------
  // The shared object
  // ---------------------------------------------------------------------------

  class PiRpc {
    var nextId: nat
    var pending: set<string>
    var slots: map<string, Answer>
    var phases: map<string, Phase>
    var deadlines: set<string>
    var exited: Option<string>
    var received: seq<Line>
    var emitted: seq<Emitted>

    ghost function View(): State
      reads this
    {
      State(Table(nextId, pending, slots, phases, deadlines, exited), Stream(received, emitted))
    }

    constructor ()
      ensures View() == Run([])
    {
      nextId, pending, slots, phases, deadlines, exited := 1, {}, map[], map[], {}, None;
      received, emitted := [], [];
    }

    method BeginRequest(hasDeadline: bool) returns (id: string)
      modifies this
      ensures View() == Step(old(View()), Send(hasDeadline))
      ensures id == Decimal.Id("pi-grok", old(nextId))
    {
      id := Decimal.Id(PREFIX, nextId);
      nextId := nextId + 1;
      pending := pending + {id};
      phases := phases[id := Inserted];
      if hasDeadline {
        deadlines := deadlines + {id};
      }
    }

    method WriterAccepted(id: string, ok: bool)
      requires id in phases && phases[id] == Inserted
      modifies this
      ensures View() == Step(old(View()), Written(id, ok))
    {
      if ok {
        phases := phases[id := Waiting];
      } else {
        pending := pending - {id};
        phases := phases[id := Done(WriterClosed)];
      }
    }

    method Dispatch(line: Line)
      modifies this
      ensures View() == Step(old(View()), Received(line))
    {
      received := received + [line];
      if line.Parsed? && line.isResponse && line.id.Some? && line.id.value in pending {
        pending := pending - {line.id.value};
        slots := slots[line.id.value := Reply(line)];
        return;
      }
      emitted := emitted + [LineEvent(line)];
    }

    method DeadlinePassed(id: string)
      requires id in phases && phases[id] == Waiting && id in deadlines && id !in slots
      modifies this`phases
      ensures View() == Step(old(View()), Expire(id))
    {
      phases := phases[id := Expired];
    }

    method RemoveExpired(id: string)
      requires id in phases && phases[id] == Expired
      modifies this`phases, this`pending
      ensures View() == Step(old(View()), Cleanup(id))
    {
      pending := pending - {id};
      phases := phases[id := Done(TimedOut)];
    }

    method TakeAnswer(id: string) returns (answer: Answer)
      requires id in phases && phases[id] == Waiting && id in slots
      modifies this`phases
      ensures View() == Step(old(View()), Collect(id))
      ensures answer == slots[id]
    {
      answer := slots[id];
      phases := phases[id := Done(Answered(answer))];
    }

    method FailPending(message: string)
      modifies this`pending, this`slots
      ensures pending == {}
      ensures slots == old(slots) + map id | id in old(pending) :: ExitError(message)
    {
      ghost var all, before := pending, slots;
      while pending != {}
        invariant pending <= all
        invariant slots == before + map id | id in all - pending :: ExitError(message)
        decreases pending
      {
        var id :| id in pending;
        pending := pending - {id};
        slots := slots[id := ExitError(message)];
      }
      assert all - pending == all;
    }

    method ProcessExited(message: string)
      requires exited.None?
      modifies this
      ensures View() == Step(old(View()), Exit(message))
    {
      FailPending(message);
      exited := Some(message);
      emitted := emitted + [ExitEvent(message)];
    }
  }
}
