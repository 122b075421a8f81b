/** Where interleaved tool calls and bindings do lose something, and exactly when. */
module RollbackRaces {
  import opened Options
  import opened RollbackJournal
  import opened RollbackTools
  import opened RollbackRuns

  // ---------------------------------------------------------------------------
  // The slot of the edit tool
  // ---------------------------------------------------------------------------

  // The path of the last read that was put into the slot, unless the slot was cleared since.
  ghost function LastTouch(sha: Digest, start: Disk, es: seq<Event>): Option<Path> {
    if es == [] then None
    else
      var n := |es| - 1;
      var s, earlier := Run(sha, start, es[..n]), LastTouch(sha, start, es[..n]);
      match es[n]
      case Remember(p) => if p in s.calls && s.calls[p].HasRead? then Some(p) else earlier
      case Clear(p) => if At(s, p, Recorded) then None else earlier
      case Take(p, capturing) =>
        if !capturing && p in s.calls && s.calls[p].Written? && s.calls[p].tool == EditTool then None else earlier
      case _ => earlier
  }

  lemma {:induction false} SlotHoldsLastTouch(sha: Digest, start: Disk, es: seq<Event>)
    ensures var slot := Run(sha, start, es).slot;
            LastTouch(sha, start, es) == if slot.Some? then Some(slot.value.0) else None
  {
    if es != [] {
      var n := |es| - 1;
      SlotHoldsLastTouch(sha, start, es[..n]);
      TouchStep(sha, Run(sha, start, es[..n]), es[n]);
    }
  }

  lemma TouchStep(sha: Digest, s: State, e: Event)
    ensures Step(sha, s, e).slot ==
            match e
            case Remember(p) =>
              (if p in s.calls && s.calls[p].HasRead? then Some((p, s.calls[p].data)) else s.slot)
            case Clear(p) => (if At(s, p, Recorded) then None else s.slot)
            case Take(p, capturing) =>
              (if !capturing && p in s.calls && s.calls[p].Written? && s.calls[p].tool == EditTool then None else s.slot)
            case _ => s.slot
  {
    match e {
      case Number(_, _, _) =>
      case Take(_, _) =>
      case _ =>
    }
  }

  // In every run a call finds its path as it knows it, captured or not.
  lemma {:induction false} RunsKeepPhases(sha: Digest, start: Disk, es: seq<Event>, p: Path)
    ensures PathFits(sha, Run(sha, start, es), p)
  {
    if es != [] {
      var n := |es| - 1;
      RunsKeepPhases(sha, start, es[..n], p);
      PhaseStep(sha, Run(sha, start, es[..n]), es[n], p);
    }
  }

  lemma PhaseStep(sha: Digest, s: State, e: Event, p: Path)
    requires PathFits(sha, s, p)
    ensures PathFits(sha, Step(sha, s, e), p)
  {
    if HasPath(e) && e.path != p {
      SameCall(sha, s, e, p);
    } else if HasPath(e) && !e.Number? && !e.Append? {
      OwnPhase(sha, s, e, p);
    }
  }

  // Over every interleaving: the state that an edit is about to record as the previous one
  // is the true one exactly when the slot was last touched by its own read.
  lemma {:induction false} EditRecordsTrueBeforeIff(sha: Digest, start: Disk, es: seq<Event>, p: Path)
    requires var s := Run(sha, start, es); p in s.calls && s.calls[p].Written? && s.calls[p].tool == EditTool
    ensures var s := Run(sha, start, es);
            EditBefore(s.slot, p) == s.calls[p].was <==> LastTouch(sha, start, es) == Some(p)
    ensures FalseTake(Run(sha, start, es), Take(p, true), p) <==> LastTouch(sha, start, es) != Some(p)
  {
    RunsKeepPhases(sha, start, es, p);
    SlotHoldsLastTouch(sha, start, es);
  }

  lemma Then(sha: Digest, start: Disk, es: seq<Event>, e: Event)
    ensures Run(sha, start, es + [e]) == Step(sha, Run(sha, start, es), e)
  {
    assert (es + [e])[..|es|] == es;
  }

  // Both files are read before the first one is written: its read is gone from the slot.
  lemma OverlappingEditsLoseTheSnapshot(sha: Digest, a: Content, b: Content, c: Content)
    ensures var start: Disk := map["a" := a, "b" := b];
            var es := [Read("a"), Remember("a"), Read("b"), Remember("b"), Land("a", c)];
            var s := Run(sha, start, es);
            At(s, "a", Written(EditTool, Some(a), None, c)) && EditBefore(s.slot, "a") == None
  {
    var start: Disk := map["a" := a, "b" := b];
    var es := [];
    Then(sha, start, es, Read("a"));
    es := es + [Read("a")];
    Then(sha, start, es, Remember("a"));
    es := es + [Remember("a")];
    Then(sha, start, es, Read("b"));
    es := es + [Read("b")];
    Then(sha, start, es, Remember("b"));
    es := es + [Remember("b")];
    Then(sha, start, es, Land("a", c));
    es := es + [Land("a", c)];
    assert es == [Read("a"), Remember("a"), Read("b"), Remember("b"), Land("a", c)];
  }

  // The second file is read while the first one's record is on its way: when that call clears
  // the slot, the second read is gone, although it was the last one.
  lemma ClearingLosesTheSnapshot(sha: Digest, s: State, b: Content, c: Content)
    requires At(s, "a", Recorded) && "b" !in s.calls && "b" in s.disk && s.disk["b"] == b
    ensures var s1 := Step(sha, s, Read("b"));
            var s2 := Step(sha, s1, Remember("b"));
            var s3 := Step(sha, s2, Clear("a"));
            var s4 := Step(sha, s3, Land("b", c));
            At(s4, "b", Written(EditTool, Some(b), None, c)) && EditBefore(s4.slot, "b") == None
  {}

  // Such a state is reached by a single edit.
  lemma OneEditIsRecorded(sha: Digest, a: Content, b: Content, c: Content)
    requires NoCollisions(sha) && a != c && Fitting(Some(a)) && Fitting(Some(c))
    ensures var start: Disk := map["a" := a, "b" := b];
            var s := Run(sha, start, [Read("a"), Remember("a"), Land("a", c)] + CaptureEvents("a", "call"));
            At(s, "a", Recorded) && "b" !in s.calls && "b" in s.disk && s.disk["b"] == b
  {
    OneEditLands(sha, a, b, c);
    CaptureRuns(sha, map["a" := a, "b" := b], [Read("a"), Remember("a"), Land("a", c)], "a", "call",
                Written(EditTool, Some(a), None, c));
  }

  function CaptureEvents(p: Path, toolCallId: string): seq<Event> {
    [Take(p, true), Number(p, toolCallId, false), Append(p)]
  }

  function Before(s: State, p: Path, phase: Phase): Option<Content>
    requires phase.Written?
  {
    if phase.tool == EditTool then EditBefore(s.slot, p) else phase.looked
  }

  function RecordOf(sha: Digest, s: State, p: Path, toolCallId: string, phase: Phase): Mutation
    requires phase.Written?
  {
    Mutation(s.sequence + 1, toolCallId, phase.tool, p, RefOf(sha, Before(s, p, phase)), RefOf(sha, Some(phase.content)), None)
  }

  // What a capture needs of a landed write in order to be recorded.
  ghost predicate WillRecord(s: State, p: Path, phase: Phase) {
    && phase.Written? && At(s, p, phase)
    && !CaptureRefused(false, Before(s, p, phase), phase.content) && Before(s, p, phase) != Some(phase.content)
  }

  // The state before the record is appended.
  function OnItsWay(sha: Digest, s: State, p: Path, toolCallId: string, phase: Phase): State
    requires phase.Written?
  {
    s.(blobs := StoredBoth(sha, s.blobs, false, Before(s, p, phase), phase.content), sequence := s.sequence + 1,
       calls := s.calls[p := Appending(phase.tool, phase.was, RecordOf(sha, s, p, toolCallId, phase))])
  }

  lemma CaptureSteps(sha: Digest, s: State, p: Path, toolCallId: string, phase: Phase)
    requires NoCollisions(sha) && WillRecord(s, p, phase)
    ensures Step(sha, Step(sha, s, Take(p, true)), Number(p, toolCallId, false)) == OnItsWay(sha, s, p, toolCallId, phase)
  {
    var before := Before(s, p, phase);
    var taken := s.(calls := s.calls[p := Capturing(phase.tool, phase.was, before, phase.content)]);
    assert Step(sha, s, Take(p, true)) == taken;
    SameReferenceIff(sha, before, Some(phase.content));
    var m := RecordOf(sha, s, p, toolCallId, phase);
    assert taken.calls[p := Appending(phase.tool, phase.was, m)] == s.calls[p := Appending(phase.tool, phase.was, m)];
  }

  // A capture from the landed write to the record, undisturbed.
  lemma CaptureRuns(sha: Digest, start: Disk, es: seq<Event>, p: Path, toolCallId: string, phase: Phase)
    requires NoCollisions(sha) && WillRecord(Run(sha, start, es), p, phase)
    ensures var s, t := Run(sha, start, es), Run(sha, start, es + CaptureEvents(p, toolCallId));
            && t.disk == s.disk && t.binder == s.binder && t.slot == s.slot && t.sequence == s.sequence + 1
            && t.calls == Finished(s.calls, p, phase.tool)
            && t.journal == s.journal + [RecordOf(sha, s, p, toolCallId, phase)]
  {
    var s := Run(sha, start, es);
    var one, two := es + [Take(p, true)], es + [Take(p, true)] + [Number(p, toolCallId, false)];
    Then(sha, start, es, Take(p, true));
    Then(sha, start, one, Number(p, toolCallId, false));
    CaptureSteps(sha, s, p, toolCallId, phase);
    Then(sha, start, two, Append(p));
    assert two + [Append(p)] == es + CaptureEvents(p, toolCallId);
    var m := RecordOf(sha, s, p, toolCallId, phase);
    assert Finished(s.calls[p := Appending(phase.tool, phase.was, m)], p, phase.tool) == Finished(s.calls, p, phase.tool);
  }

  lemma OneEditLands(sha: Digest, a: Content, b: Content, c: Content)
    ensures var start: Disk := map["a" := a, "b" := b];
            var s := Run(sha, start, [Read("a"), Remember("a"), Land("a", c)]);
            && s.disk == start["a" := c] && s.slot == Some(("a", a)) && s.sequence == 0
            && s.calls == map["a" := Written(EditTool, Some(a), None, c)]
  {
    var start: Disk := map["a" := a, "b" := b];
    Then(sha, start, [], Read("a"));
    assert [] + [Read("a")] == [Read("a")];
    Then(sha, start, [Read("a")], Remember("a"));
    assert [Read("a")] + [Remember("a")] == [Read("a"), Remember("a")];
    Then(sha, start, [Read("a"), Remember("a")], Land("a", c));
    assert [Read("a"), Remember("a")] + [Land("a", c)] == [Read("a"), Remember("a"), Land("a", c)];
  }

  // ---------------------------------------------------------------------------
  // Rewriting against appending
  // ---------------------------------------------------------------------------

  function Numbers(ms: seq<Mutation>): set<nat> {
    set m | m in ms :: m.sequence
  }

  ghost predicate Distinct(ms: seq<Mutation>) {
    forall i, j :: 0 <= i < j < |ms| ==> ms[i].sequence != ms[j].sequence
  }

  // The numbers of all records that were ever appended.
  ghost function Appended(sha: Digest, start: Disk, es: seq<Event>): set<nat> {
    if es == [] then {}
    else
      var n := |es| - 1;
      var s, e := Run(sha, start, es[..n]), es[n];
      Appended(sha, start, es[..n]) +
      if e.Append? && e.path in s.calls && s.calls[e.path].Appending? then {s.calls[e.path].record.sequence} else {}
  }

  ghost predicate NeverOvertaken(sha: Digest, start: Disk, es: seq<Event>) {
    es == [] ||
    var n := |es| - 1;
    NeverOvertaken(sha, start, es[..n]) && !Overtaken(Run(sha, start, es[..n]), es[n])
  }

  ghost predicate PendingApart(calls: map<Path, Phase>, ms: seq<Mutation>, last: nat) {
    && (forall p :: p in calls && calls[p].Appending? ==>
          calls[p].record.sequence <= last && calls[p].record.sequence !in Numbers(ms))
    && (forall p, q :: p in calls && q in calls && calls[p].Appending? && calls[q].Appending? && p != q ==>
          calls[p].record.sequence != calls[q].record.sequence)
  }

  // No number is used twice, neither in the journal nor on its way there.
  ghost predicate NumbersApart(s: State) {
    && Distinct(s.journal) && (forall n :: n in Numbers(s.journal) ==> n <= s.sequence)
    && PendingApart(s.calls, s.journal, s.sequence)
    && BinderFits(s)
  }

  // A number that no step can bring back.
  ghost predicate Lost(s: State, n: nat) {
    && n <= s.sequence && n !in Numbers(s.journal)
    && (s.binder.Reloaded? ==> n !in Numbers(s.binder.snapshot))
    && forall p :: p in s.calls && s.calls[p].Appending? ==> s.calls[p].record.sequence != n
  }

  lemma {:induction false} InsertKeepsDistinct(sorted: seq<Mutation>, m: Mutation)
    requires Distinct(sorted) && m.sequence !in Numbers(sorted)
    ensures Distinct(Insert(sorted, m)) && Numbers(Insert(sorted, m)) == Numbers(sorted) + {m.sequence}
  {
    if sorted != [] && sorted[|sorted| - 1].sequence > m.sequence {
      var front, last := sorted[..|sorted| - 1], sorted[|sorted| - 1];
      assert sorted == front + [last];
      NumbersSnoc(front, last);
      LastIsNew(front, last);
      InsertKeepsDistinct(front, m);
      NumbersSnoc(Insert(front, m), last);
      DistinctSnoc(Insert(front, m), last);
    } else {
      NumbersSnoc(sorted, m);
      DistinctSnoc(sorted, m);
    }
  }

  lemma NumbersSnoc(ms: seq<Mutation>, m: Mutation)
    ensures Numbers(ms + [m]) == Numbers(ms) + {m.sequence}
  {
    assert forall x :: x in ms + [m] <==> x in ms || x == m;
  }

  lemma DistinctSnoc(ms: seq<Mutation>, m: Mutation)
    requires Distinct(ms) && m.sequence !in Numbers(ms)
    ensures Distinct(ms + [m])
  {
    forall i | 0 <= i < |ms|
      ensures ms[i].sequence != m.sequence
    {
      assert ms[i] in ms;
    }
  }

  lemma {:induction false} SortedNumbers(ms: seq<Mutation>)
    requires Distinct(ms)
    ensures Distinct(Sorted(ms)) && Numbers(Sorted(ms)) == Numbers(ms)
  {
    if ms != [] {
      var front, m := ms[..|ms| - 1], ms[|ms| - 1];
      SortedNumbers(front);
      assert ms == front + [m];
      NumbersSnoc(front, m);
      LastIsNew(front, m);
      InsertKeepsDistinct(Sorted(front), m);
    }
  }

  lemma LastIsNew(front: seq<Mutation>, m: Mutation)
    requires Distinct(front + [m])
    ensures m.sequence !in Numbers(front)
  {
    forall x | x in front
      ensures x.sequence != m.sequence
    {
      var i :| 0 <= i < |front| && front[i] == x;
      assert (front + [m])[i] == x && (front + [m])[|front|] == m;
    }
  }

  lemma RewrittenNumbers(ms: seq<Mutation>, numbers: set<nat>, entryOf: map<string, string>)
    requires Distinct(ms)
    ensures var r := Sorted(BindAll(ms, numbers, entryOf)); Distinct(r) && Numbers(r) == Numbers(ms)
  {
    var bound := BindAll(ms, numbers, entryOf);
    BindKeepsPath(ms, numbers, entryOf, "");
    forall i | 0 <= i < |ms|
      ensures bound[i].sequence == ms[i].sequence
    {
      BindAllAt(ms, numbers, entryOf, i);
    }
    SameNumbers(ms, bound);
    SortedNumbers(bound);
  }

  lemma SameNumbers(a: seq<Mutation>, b: seq<Mutation>)
    requires |a| == |b| && Distinct(a) && forall i :: 0 <= i < |a| ==> b[i].sequence == a[i].sequence
    ensures Distinct(b) && Numbers(b) == Numbers(a)
  {
    forall n
      ensures n in Numbers(a) <==> n in Numbers(b)
    {
      if n in Numbers(a) {
        var i :| 0 <= i < |a| && a[i].sequence == n;
        assert b[i] in b;
      }
      if n in Numbers(b) {
        var i :| 0 <= i < |b| && b[i].sequence == n;
        assert a[i] in a;
      }
    }
  }

  // ---------------------------------------------------------------------------
  // Which records survive
  // ---------------------------------------------------------------------------

  lemma QuietNumbers(sha: Digest, s: State, e: Event)
    requires NumbersApart(s) && HasPath(e) && !e.Append? && !e.Number?
    ensures var t := Step(sha, s, e);
            && NumbersApart(t) && t.journal == s.journal && t.sequence == s.sequence && t.binder == s.binder
            && forall p :: p in t.calls && t.calls[p].Appending? ==> p in s.calls && t.calls[p] == s.calls[p]
  {
    var t := Step(sha, s, e);
    QuietCall(sha, s, e, e.path);
    forall p | p in t.calls && t.calls[p].Appending?
      ensures p in s.calls && t.calls[p] == s.calls[p]
    {
      if p != e.path {
        SameCall(sha, s, e, p);
      }
    }
    assert t.binder == s.binder by {
      match e {
        case Take(_, _) =>
        case _ =>
      }
    }
  }

  lemma NumberingNumbers(sha: Digest, s: State, e: Event)
    requires NumbersApart(s) && e.Number?
    ensures var t := Step(sha, s, e);
            && NumbersApart(t) && t.journal == s.journal && t.sequence >= s.sequence && t.binder == s.binder
            && forall p :: p in t.calls && t.calls[p].Appending? ==>
                             (p in s.calls && t.calls[p] == s.calls[p]) || t.calls[p].record.sequence > s.sequence
  {
  }

  lemma AppendingNumbers(sha: Digest, s: State, e: Event)
    requires NumbersApart(s) && e.Append? && e.path in s.calls && s.calls[e.path].Appending?
    ensures var t, n := Step(sha, s, e), s.calls[e.path].record.sequence;
            && NumbersApart(t) && Numbers(t.journal) == Numbers(s.journal) + {n} && t.sequence == s.sequence
            && t.binder == s.binder
            && forall p :: p in t.calls && t.calls[p].Appending? ==> p in s.calls && t.calls[p] == s.calls[p] && p != e.path
  {
    var m := s.calls[e.path].record;
    NumbersSnoc(s.journal, m);
    DistinctSnoc(s.journal, m);
    if s.binder.Reloaded? {
      assert s.binder.snapshot <= s.journal + [m];
    }
  }

  lemma BindingNumbers(sha: Digest, s: State, e: Event)
    requires NumbersApart(s) && !HasPath(e)
    ensures var t := Step(sha, s, e);
            && NumbersApart(t) && t.calls == s.calls && t.sequence == s.sequence
            && Numbers(t.journal) == (if e.Rewrite? && s.binder.Reloaded? then Numbers(s.binder.snapshot) else Numbers(s.journal))
            && Numbers(t.journal) <= Numbers(s.journal)
  {
    if e.Rewrite? && s.binder.Reloaded? {
      var b := s.binder;
      assert forall i :: 0 <= i < |b.snapshot| ==> b.snapshot[i] == s.journal[i] && s.journal[i] in s.journal;
      assert Distinct(b.snapshot) && Numbers(b.snapshot) <= Numbers(s.journal);
      RewrittenNumbers(b.snapshot, b.numbers, b.entryOf);
    }
  }

  lemma StepKeepsNumbersApart(sha: Digest, s: State, e: Event)
    requires NumbersApart(s)
    ensures NumbersApart(Step(sha, s, e))
  {
    if !HasPath(e) {
      BindingNumbers(sha, s, e);
    } else if e.Number? {
      NumberingNumbers(sha, s, e);
    } else if !e.Append? {
      QuietNumbers(sha, s, e);
    } else if e.path in s.calls && s.calls[e.path].Appending? {
      AppendingNumbers(sha, s, e);
    }
  }

  lemma StepKeepsLost(sha: Digest, s: State, e: Event, n: nat)
    requires NumbersApart(s) && Lost(s, n)
    ensures Lost(Step(sha, s, e), n)
  {
    if !HasPath(e) {
      BindingNumbers(sha, s, e);
    } else if e.Number? {
      NumberingNumbers(sha, s, e);
    } else if !e.Append? {
      QuietNumbers(sha, s, e);
    } else if e.path in s.calls && s.calls[e.path].Appending? {
      AppendingNumbers(sha, s, e);
    }
  }

  // A rewrite that is overtaken loses a record for good.
  lemma OvertakenLoses(sha: Digest, s: State, e: Event) returns (n: nat)
    requires NumbersApart(s) && Overtaken(s, e)
    ensures n in Numbers(s.journal) && Lost(Step(sha, s, e), n)
  {
    var snapshot := s.binder.snapshot;
    var m := s.journal[|snapshot|];
    n := m.sequence;
    assert m in s.journal;
    BindingNumbers(sha, s, e);
    forall x | x in snapshot
      ensures x.sequence != n
    {
      var i :| 0 <= i < |snapshot| && snapshot[i] == x;
      assert s.journal[i] == x;
    }
  }

  // What a run has appended is what its journal holds, or something is lost for good.
  ghost predicate Kept(s: State, appended: set<nat>, never: bool) {
    if never then Numbers(s.journal) == appended
    else exists n :: n in appended && Lost(s, n)
  }

  lemma KeptStep(sha: Digest, s: State, e: Event, appended: set<nat>, never: bool)
    requires NumbersApart(s) && Kept(s, appended, never) && Numbers(s.journal) <= appended
    ensures var now := appended +
              if e.Append? && e.path in s.calls && s.calls[e.path].Appending? then {s.calls[e.path].record.sequence} else {};
            && Numbers(Step(sha, s, e).journal) <= now && Kept(Step(sha, s, e), now, never && !Overtaken(s, e))
  {
    var t := Step(sha, s, e);
    if !never {
      var n :| n in appended && Lost(s, n);
      StepKeepsLost(sha, s, e, n);
    } else if Overtaken(s, e) {
      var n := OvertakenLoses(sha, s, e);
    }
    JournalNumbers(sha, s, e);
  }

  lemma JournalNumbers(sha: Digest, s: State, e: Event)
    requires NumbersApart(s)
    ensures var added := if e.Append? && e.path in s.calls && s.calls[e.path].Appending? then {s.calls[e.path].record.sequence} else {};
            && Numbers(Step(sha, s, e).journal) <= Numbers(s.journal) + added
            && (!Overtaken(s, e) ==> Numbers(Step(sha, s, e).journal) == Numbers(s.journal) + added)
  {
    if !HasPath(e) {
      BindingNumbers(sha, s, e);
      if e.Rewrite? && s.binder.Reloaded? && !Overtaken(s, e) {
        assert s.binder.snapshot == s.journal;
      }
    } else if e.Number? {
      NumberingNumbers(sha, s, e);
    } else if !e.Append? {
      QuietNumbers(sha, s, e);
    } else if e.path in s.calls && s.calls[e.path].Appending? {
      AppendingNumbers(sha, s, e);
    }
  }

  lemma {:induction false} RunsKeepNumbers(sha: Digest, start: Disk, es: seq<Event>)
    ensures var s, appended := Run(sha, start, es), Appended(sha, start, es);
            && NumbersApart(s) && Numbers(s.journal) <= appended
            && Kept(s, appended, NeverOvertaken(sha, start, es))
  {
    if es != [] {
      var n := |es| - 1;
      RunsKeepNumbers(sha, start, es[..n]);
      var s := Run(sha, start, es[..n]);
      StepKeepsNumbersApart(sha, s, es[n]);
      KeptStep(sha, s, es[n], Appended(sha, start, es[..n]), NeverOvertaken(sha, start, es[..n]));
    }
  }

  // Over every interleaving: the journal holds every record ever appended exactly when no
  // rewrite was overtaken by an append.
  lemma {:induction false} NothingIsLostIff(sha: Digest, start: Disk, es: seq<Event>)
    ensures Numbers(Run(sha, start, es).journal) == Appended(sha, start, es) <==> NeverOvertaken(sha, start, es)
  {
    RunsKeepNumbers(sha, start, es);
    if !NeverOvertaken(sha, start, es) {
      var n :| n in Appended(sha, start, es) && Lost(Run(sha, start, es), n);
      assert n !in Numbers(Run(sha, start, es).journal);
    }
  }

  function WriteEvents(p: Path, content: Content): seq<Event> {
    [Look(p), Land(p, content)] + CaptureEvents(p, p)
  }

  lemma LookThenLand(sha: Digest, s: State, p: Path, content: Content)
    requires p !in s.calls && p !in s.disk
    ensures Step(sha, Step(sha, s, Look(p)), Land(p, content)) ==
            s.(disk := s.disk[p := content], calls := s.calls[p := Written(WriteTool, None, None, content)])
  {
    var t := s.(calls := s.calls[p := Looked(None)]);
    assert Step(sha, s, Look(p)) == t;
    assert t.calls[p := Written(WriteTool, None, None, content)] == s.calls[p := Written(WriteTool, None, None, content)];
  }

  lemma LandRuns(sha: Digest, start: Disk, es: seq<Event>, p: Path, content: Content)
    requires p !in Run(sha, start, es).calls && p !in Run(sha, start, es).disk
    ensures var s := Run(sha, start, es);
            Run(sha, start, es + [Look(p)] + [Land(p, content)]) ==
            s.(disk := s.disk[p := content], calls := s.calls[p := Written(WriteTool, None, None, content)])
  {
    Then(sha, start, es, Look(p));
    Then(sha, start, es + [Look(p)], Land(p, content));
    LookThenLand(sha, Run(sha, start, es), p, content);
  }

  lemma LandedWriteWillRecord(sha: Digest, s: State, p: Path, content: Content)
    requires Fitting(Some(content))
    ensures var phase := Written(WriteTool, None, None, content);
            var landed := s.(disk := s.disk[p := content], calls := s.calls[p := phase]);
            && WillRecord(landed, p, phase)
            && RecordOf(sha, landed, p, p, phase) == Mutation(s.sequence + 1, p, WriteTool, p, Absent, Blob(sha(content)), None)
            && (p !in s.calls ==> Finished(landed.calls, p, WriteTool) == s.calls)
  {
    var phase := Written(WriteTool, None, None, content);
    if p !in s.calls {
      assert s.calls[p := phase] - {p} == s.calls;
    }
  }

  lemma WriteRuns(sha: Digest, start: Disk, es: seq<Event>, p: Path, content: Content)
    requires NoCollisions(sha) && Fitting(Some(content))
    requires p !in Run(sha, start, es).calls && p !in Run(sha, start, es).disk
    ensures var s, t := Run(sha, start, es), Run(sha, start, es + WriteEvents(p, content));
            && t.disk == s.disk[p := content] && t.binder == s.binder && t.calls == s.calls && t.sequence == s.sequence + 1
            && t.journal == s.journal + [Mutation(t.sequence, p, WriteTool, p, Absent, Blob(sha(content)), None)]
  {
    var landed := es + [Look(p)] + [Land(p, content)];
    LandRuns(sha, start, es, p, content);
    LandedWriteWillRecord(sha, Run(sha, start, es), p, content);
    CaptureRuns(sha, start, landed, p, p, Written(WriteTool, None, None, content));
    SameEvents(es, p, content);
  }

  lemma SameEvents(es: seq<Event>, p: Path, content: Content)
    ensures es + [Look(p)] + [Land(p, content)] + CaptureEvents(p, p) == es + WriteEvents(p, content)
  {}

  function BindEvents(): seq<Event> {
    [Pick(map["a" := "e1"]), Reload]
  }

  // A file is written, and the binding of its record has read the journal.
  lemma OneRecordReloaded(sha: Digest, c: Content)
    requires NoCollisions(sha) && Fitting(Some(c))
    ensures var s := Run(sha, map[], WriteEvents("a", c) + BindEvents());
            && s.calls == map[] && s.disk == map["a" := c] && |s.journal| == 1 && s.journal[0].path == "a"
            && s.binder.Reloaded? && s.binder.snapshot == s.journal
  {
    var a, pick := WriteEvents("a", c), Pick(map["a" := "e1"]);
    var start: Disk := map[];
    WriteRuns(sha, start, [], "a", c);
    assert [] + a == a;
    var s := Run(sha, start, a);
    assert s.binder == Resting && |s.journal| == 1 && s.journal[0] in s.journal;
    assert s.journal[0].sequence in Unbound(s.journal, map["a" := "e1"]);
    Then(sha, start, a, pick);
    Then(sha, start, a + [pick], Reload);
    assert a + [pick] + [Reload] == a + BindEvents();
  }

  // A rewrite that is overtaken leaves only what it has read.
  lemma OvertakenRun(sha: Digest, start: Disk, es: seq<Event>)
    requires Overtaken(Run(sha, start, es), Rewrite)
    ensures Appended(sha, start, es + [Rewrite]) != Numbers(Run(sha, start, es + [Rewrite]).journal)
    ensures Run(sha, start, es + [Rewrite]).journal == Rewritten(Run(sha, start, es).binder)
  {
    var all := es + [Rewrite];
    Then(sha, start, es, Rewrite);
    assert all[..|all| - 1] == es && all[|all| - 1] == Rewrite;
    assert !NeverOvertaken(sha, start, all);
    NothingIsLostIff(sha, start, all);
  }

  // A second file is written before the journal is rewritten. Its record is gone, and with
  // it the way back.
  lemma LateRecordIsLost(sha: Digest, c: Content, es: seq<Event>)
    requires NoCollisions(sha) && Fitting(Some(c))
    requires es == WriteEvents("a", c) + BindEvents() + WriteEvents("b", c)
    ensures "b" in Run(sha, map[], es).disk && Run(sha, map[], es).calls == map[]
    ensures Appended(sha, map[], es + [Rewrite]) != Numbers(Run(sha, map[], es + [Rewrite]).journal)
    ensures forall m :: m in Run(sha, map[], es + [Rewrite]).journal ==> m.path == "a"
  {
    var bound := WriteEvents("a", c) + BindEvents();
    OneRecordReloaded(sha, c);
    WriteRuns(sha, map[], bound, "b", c);
    OvertakenRun(sha, map[], es);
    RewrittenContents(Run(sha, map[], es).binder);
  }
}
