/** What every interleaving of the file tools leaves in the journal. */
module RollbackRuns {
  import opened Options
  import opened RollbackJournal
  import opened RollbackTools

  // ---------------------------------------------------------------------------
  // The journal, path by path
  // ---------------------------------------------------------------------------

  function OnPath(ms: seq<Mutation>, p: Path): seq<Mutation> {
    if ms == [] then []
    else
      var front := OnPath(ms[..|ms| - 1], p);
      if ms[|ms| - 1].path == p then front + [ms[|ms| - 1]] else front
  }

  // The state that the records of one path lead to.
  function Led(on: seq<Mutation>, first: Ref): Ref {
    if on == [] then first else on[|on| - 1].after
  }

  // Each record of one path starts where the one before it ended.
  ghost predicate Chain(on: seq<Mutation>, first: Ref) {
    on == [] || (Chain(on[..|on| - 1], first) && on[|on| - 1].before == Led(on[..|on| - 1], first))
  }

  ghost predicate Ascending(on: seq<Mutation>, last: nat) {
    && (forall i, j :: 0 <= i < j < |on| ==> on[i].sequence < on[j].sequence)
    && (forall i :: 0 <= i < |on| ==> on[i].sequence <= last)
  }

  lemma OnPathSnoc(ms: seq<Mutation>, m: Mutation, p: Path)
    ensures OnPath(ms + [m], p) == if m.path == p then OnPath(ms, p) + [m] else OnPath(ms, p)
  {
    assert (ms + [m])[..|ms|] == ms;
  }

  lemma ChainSnoc(on: seq<Mutation>, m: Mutation, first: Ref)
    ensures Chain(on + [m], first) <==> Chain(on, first) && m.before == Led(on, first)
    ensures Led(on + [m], first) == m.after
  {
    assert (on + [m])[..|on|] == on;
  }

  // Replaying the journal leads every path to where its own records lead.
  lemma {:induction false} LedIsReplayed(sha: Digest, blobs: Blobs, start: Disk, ms: seq<Mutation>, p: Path)
    requires NoCollisions(sha) && ContentAddressed(sha, blobs) && AllStored(blobs, ms)
    ensures RefOf(sha, StateAt(Replayed(blobs, start, ms), p)) == Led(OnPath(ms, p), RefOf(sha, StateAt(start, p)))
  {
    if ms != [] {
      var n := |ms| - 1;
      LedIsReplayed(sha, blobs, start, ms[..n], p);
      assert ms[n] in ms;
      RefsAreFaithful(sha, blobs, ms[n].after, Deref(blobs, ms[n].after));
    }
  }

  ghost predicate Linked(front: seq<Mutation>, m: Mutation, p: Path, first: Ref) {
    Chain(OnPath(front, p), first) && (p == m.path ==> m.before == Led(OnPath(front, p), first))
  }

  lemma LinkedIff(front: seq<Mutation>, m: Mutation, p: Path, first: Ref)
    ensures Chain(OnPath(front + [m], p), first) <==> Linked(front, m, p, first)
  {
    OnPathSnoc(front, m, p);
    if p == m.path {
      ChainSnoc(OnPath(front, p), m, first);
    }
  }

  ghost predicate AllChained(sha: Digest, start: Disk, ms: seq<Mutation>) {
    forall p :: Chain(OnPath(ms, p), RefOf(sha, StateAt(start, p)))
  }

  // A journal is a true record of a run exactly when the records of every path are linked.
  // The order of records of different paths is irrelevant.
  lemma {:induction false} RecordsIffAllChained(sha: Digest, blobs: Blobs, start: Disk, ms: seq<Mutation>)
    requires NoCollisions(sha) && ContentAddressed(sha, blobs) && AllStored(blobs, ms)
    ensures Records(blobs, start, ms) <==> AllChained(sha, start, ms)
  {
    if ms != [] {
      var n := |ms| - 1;
      var m, front := ms[n], ms[..n];
      RecordsIffAllChained(sha, blobs, start, front);
      LedIsReplayed(sha, blobs, start, front, m.path);
      assert m in ms && ms == front + [m];
      RefsAreFaithful(sha, blobs, m.before, StateAt(Replayed(blobs, start, front), m.path));
      forall p
        ensures Chain(OnPath(ms, p), RefOf(sha, StateAt(start, p))) <==>
                Linked(front, m, p, RefOf(sha, StateAt(start, p)))
      {
        LinkedIff(front, m, p, RefOf(sha, StateAt(start, p)));
      }
      assert AllChained(sha, start, front) && Linked(front, m, m.path, RefOf(sha, StateAt(start, m.path)))
        ==> AllChained(sha, start, ms);
    }
  }

  // ---------------------------------------------------------------------------
  // Rewriting keeps the records of every path
  // ---------------------------------------------------------------------------

  // The same mutations, up to their tree entries.
  ghost predicate SameButBound(a: seq<Mutation>, b: seq<Mutation>) {
    |a| == |b| && forall i :: 0 <= i < |a| ==> b[i] == a[i].(treeEntryId := b[i].treeEntryId)
  }

  lemma {:induction false} SameChain(a: seq<Mutation>, b: seq<Mutation>, first: Ref)
    requires SameButBound(a, b)
    ensures Chain(a, first) <==> Chain(b, first)
    ensures Led(a, first) == Led(b, first)
  {
    if a != [] {
      SameChain(a[..|a| - 1], b[..|b| - 1], first);
    }
  }

  lemma {:induction false} BindKeepsPath(ms: seq<Mutation>, numbers: set<nat>, entryOf: map<string, string>, p: Path)
    ensures SameButBound(OnPath(ms, p), OnPath(BindAll(ms, numbers, entryOf), p))
    ensures |BindAll(ms, numbers, entryOf)| == |ms|
  {
    if ms != [] {
      var n := |ms| - 1;
      BindKeepsPath(ms[..n], numbers, entryOf, p);
      OnPathSnoc(BindAll(ms[..n], numbers, entryOf), BindOne(ms[n], numbers, entryOf), p);
    }
  }

  ghost predicate Younger(m: Mutation, on: seq<Mutation>) {
    forall i :: 0 <= i < |on| ==> on[i].sequence < m.sequence
  }

  lemma YoungerPrefix(m: Mutation, on: seq<Mutation>, last: Mutation)
    requires Younger(m, on + [last])
    ensures Younger(m, on) && last.sequence < m.sequence
  {
    assert (on + [last])[|on|] == last;
    assert forall i :: 0 <= i < |on| ==> (on + [last])[i] == on[i];
  }

  // A record that is younger than all of its own path goes behind them all.
  lemma {:induction false} InsertKeepsPath(sorted: seq<Mutation>, m: Mutation, p: Path)
    requires m.path == p ==> Younger(m, OnPath(sorted, p))
    ensures OnPath(Insert(sorted, m), p) == if m.path == p then OnPath(sorted, p) + [m] else OnPath(sorted, p)
  {
    if sorted != [] && sorted[|sorted| - 1].sequence > m.sequence {
      var front, last := sorted[..|sorted| - 1], sorted[|sorted| - 1];
      assert Insert(sorted, m) == Insert(front, m) + [last];
      OnPathSnoc(Insert(front, m), last, p);
      if m.path == p && last.path == p {
        YoungerPrefix(m, OnPath(front, p), last);
      } else {
        InsertKeepsPath(front, m, p);
      }
    } else {
      OnPathSnoc(sorted, m, p);
    }
  }

  lemma {:induction false} SortKeepsPath(ms: seq<Mutation>, p: Path, last: nat)
    requires Ascending(OnPath(ms, p), last)
    ensures OnPath(Sorted(ms), p) == OnPath(ms, p)
  {
    if ms != [] {
      var front, m := ms[..|ms| - 1], ms[|ms| - 1];
      if m.path == p {
        AscendingFront(OnPath(front, p), m, last);
      }
      SortKeepsPath(front, p, last);
      InsertKeepsPath(Sorted(front), m, p);
    }
  }

  lemma AscendingFront(on: seq<Mutation>, m: Mutation, last: nat)
    requires Ascending(on + [m], last)
    ensures Ascending(on, last) && Younger(m, on)
  {
    assert forall i :: 0 <= i < |on| ==> (on + [m])[i] == on[i];
    assert (on + [m])[|on|] == m;
  }

  // A rewrite may reorder the journal, but the records of every path keep their order.
  lemma {:induction false} RewriteKeepsPath(b: Binder, p: Path, last: nat)
    requires b.Reloaded? && Ascending(OnPath(b.snapshot, p), last)
    ensures SameButBound(OnPath(b.snapshot, p), OnPath(Rewritten(b), p))
    ensures Ascending(OnPath(Rewritten(b), p), last)
  {
    BindKeepsPath(b.snapshot, b.numbers, b.entryOf, p);
    SortKeepsPath(BindAll(b.snapshot, b.numbers, b.entryOf), p, last);
  }

  // ---------------------------------------------------------------------------
  // One path in a run
  // ---------------------------------------------------------------------------

  ghost predicate SlotFits(slot: Slot, p: Path, data: Option<Content>) {
    slot.Some? && slot.value.0 == p ==> Some(slot.value.1) == data
  }

  // What a call knows of its path. No other call writes it meanwhile, so what was read is
  // still there, and the slot can only be wrong by holding another path or nothing.
  ghost predicate PhaseFits(sha: Digest, slot: Slot, p: Path, now: Option<Content>, phase: Phase) {
    match phase
    case Looked(before) => before == now
    case HasRead(data) => now == Some(data)
    case Remembered(data) => now == Some(data) && SlotFits(slot, p, now)
    case Written(tool, was, looked, content) =>
      now == Some(content) && (if tool == WriteTool then looked == was else was.Some? && SlotFits(slot, p, was))
    case Capturing(tool, was, before, content) =>
      now == Some(content) && (before == was || (before == None && tool == EditTool))
    case Appending(tool, was, m) =>
      m.path == p && m.after == RefOf(sha, now) && (m.before == RefOf(sha, was) || (m.before == Absent && tool == EditTool))
    case Recorded => true
  }

  ghost predicate PathFits(sha: Digest, s: State, p: Path) {
    p in s.calls ==> PhaseFits(sha, s.slot, p, StateAt(s.disk, p), s.calls[p])
  }

  // The state of the path that the journal should know of.
  ghost function Expected(s: State, p: Path): Option<Content> {
    if p !in s.calls then StateAt(s.disk, p)
    else
      match s.calls[p]
      case Written(_, was, _, _) => was
      case Capturing(_, was, _, _) => was
      case Appending(_, was, _) => was
      case _ => StateAt(s.disk, p)
  }

  // A record that says something false is on its way.
  ghost predicate FalsePending(sha: Digest, s: State, p: Path) {
    p in s.calls &&
    match s.calls[p]
    case Capturing(_, was, before, _) => before != was
    case Appending(_, was, m) => m.before != RefOf(sha, was)
    case _ => false
  }

  ghost predicate OrderFits(s: State, p: Path) {
    && Ascending(OnPath(s.journal, p), s.sequence)
    && (p in s.calls && s.calls[p].Appending? ==>
          var m := s.calls[p].record;
          m.sequence <= s.sequence && forall i :: 0 <= i < |OnPath(s.journal, p)| ==> OnPath(s.journal, p)[i].sequence < m.sequence)
  }

  ghost predicate LedFits(sha: Digest, first: Ref, s: State, p: Path) {
    Chain(OnPath(s.journal, p), first) ==> Led(OnPath(s.journal, p), first) == RefOf(sha, Expected(s, p))
  }

  ghost predicate PathRecorded(sha: Digest, first: Ref, s: State, p: Path) {
    PathFits(sha, s, p) && OrderFits(s, p) && LedFits(sha, first, s, p)
  }

  // Nothing false is recorded of the path, and nothing false is on its way.
  ghost predicate True(sha: Digest, first: Ref, s: State, p: Path) {
    Chain(OnPath(s.journal, p), first) && !FalsePending(sha, s, p)
  }

  // An edit call takes the slot while it holds another path or nothing.
  ghost predicate FalseTake(s: State, e: Event, p: Path) {
    && e == Take(p, true) && p in s.calls && s.calls[p].Written? && s.calls[p].tool == EditTool
    && !(s.slot.Some? && s.slot.value.0 == p)
  }

  // A write goes without a capture, or its capture is refused.
  ghost predicate Missed(s: State, e: Event) {
    || (e.Take? && !e.capturing && e.path in s.calls && s.calls[e.path].Written?)
    || (e.Number? && e.path in s.calls && s.calls[e.path].Capturing? &&
        CaptureRefused(e.isLink, s.calls[e.path].before, s.calls[e.path].content))
  }

  // A record was appended after the binding read the journal that it now rewrites.
  ghost predicate Overtaken(s: State, e: Event) {
    e.Rewrite? && s.binder.Reloaded? && |s.binder.snapshot| != |s.journal|
  }

  ghost predicate BinderFits(s: State) {
    s.binder.Reloaded? ==> s.binder.snapshot <= s.journal
  }

  ghost predicate HasPath(e: Event) {
    !(e.Pick? || e.Reload? || e.Rewrite?)
  }

  lemma OtherPath(sha: Digest, first: Ref, s: State, e: Event, p: Path)
    requires HasPath(e) && e.path != p && PathFits(sha, s, e.path) && PathRecorded(sha, first, s, p)
    ensures PathRecorded(sha, first, Step(sha, s, e), p)
    ensures True(sha, first, Step(sha, s, e), p) <==> True(sha, first, s, p)
  {
    var t := Step(sha, s, e);
    SameJournal(sha, s, e, p);
    SameCall(sha, s, e, p);
  }

  lemma SameJournal(sha: Digest, s: State, e: Event, p: Path)
    requires HasPath(e) && e.path != p && PathFits(sha, s, e.path)
    ensures OnPath(Step(sha, s, e).journal, p) == OnPath(s.journal, p) && Step(sha, s, e).sequence >= s.sequence
  {
    if e.Append? && e.path in s.calls && s.calls[e.path].Appending? {
      OnPathSnoc(s.journal, s.calls[e.path].record, p);
    }
  }

  lemma SameCall(sha: Digest, s: State, e: Event, p: Path)
    requires HasPath(e) && e.path != p
    ensures var t := Step(sha, s, e);
            && (p in t.calls <==> p in s.calls) && (p in s.calls ==> t.calls[p] == s.calls[p])
            && StateAt(t.disk, p) == StateAt(s.disk, p)
            && (t.slot == s.slot || t.slot.None? || t.slot.value.0 == e.path)
  {
    match e {
      case Number(r, id, isLink) =>
      case Take(r, capturing) =>
      case _ =>
    }
  }

  // Reading, landing, taking the slot and clearing it.
  lemma OwnPhase(sha: Digest, s: State, e: Event, p: Path)
    requires HasPath(e) && e.path == p && !e.Number? && !e.Append? && PathFits(sha, s, p)
    ensures PathFits(sha, Step(sha, s, e), p)
    ensures !Missed(s, e) ==>
              && Expected(Step(sha, s, e), p) == Expected(s, p)
              && (FalsePending(sha, Step(sha, s, e), p) <==> FalsePending(sha, s, p) || FalseTake(s, e, p))
  {
    match e {
      case Look(_) =>
      case Read(_) =>
      case Remember(_) =>
      case GiveUp(_) =>
      case Land(_, _) =>
      case Take(_, _) =>
      case Clear(_) =>
    }
  }

  // They leave the journal alone.
  lemma OwnCall(sha: Digest, first: Ref, s: State, e: Event, p: Path)
    requires HasPath(e) && e.path == p && !e.Number? && !e.Append? && !Missed(s, e) && PathRecorded(sha, first, s, p)
    ensures PathRecorded(sha, first, Step(sha, s, e), p)
    ensures True(sha, first, Step(sha, s, e), p) <==> True(sha, first, s, p) && !FalseTake(s, e, p)
  {
    OwnPhase(sha, s, e, p);
    QuietCall(sha, s, e, p);
  }

  lemma QuietCall(sha: Digest, s: State, e: Event, p: Path)
    requires HasPath(e) && e.path == p && !e.Number? && !e.Append?
    ensures var t := Step(sha, s, e);
            && t.journal == s.journal && t.sequence == s.sequence
            && (p in t.calls && t.calls[p].Appending? ==> p in s.calls && t.calls[p] == s.calls[p])
  {
    match e {
      case Take(_, _) =>
      case _ =>
    }
  }

  lemma OwnNumber(sha: Digest, first: Ref, s: State, e: Event, p: Path)
    requires NoCollisions(sha) && e.Number? && e.path == p && !Missed(s, e) && PathRecorded(sha, first, s, p)
    ensures PathRecorded(sha, first, Step(sha, s, e), p)
    ensures True(sha, first, Step(sha, s, e), p) <==> True(sha, first, s, p)
  {
    if p in s.calls && s.calls[p].Capturing? {
      var before, was, content := s.calls[p].before, s.calls[p].was, Some(s.calls[p].content);
      SameReferenceIff(sha, before, was);
      SameReferenceIff(sha, before, content);
    }
  }

  lemma SameReferenceIff(sha: Digest, a: Option<Content>, b: Option<Content>)
    requires NoCollisions(sha)
    ensures RefOf(sha, a) == RefOf(sha, b) <==> a == b
  {}

  lemma OwnAppend(sha: Digest, first: Ref, s: State, e: Event, p: Path)
    requires e.Append? && e.path == p && PathRecorded(sha, first, s, p)
    ensures PathRecorded(sha, first, Step(sha, s, e), p)
    ensures True(sha, first, Step(sha, s, e), p) <==> True(sha, first, s, p)
  {
    if p in s.calls && s.calls[p].Appending? {
      var m, t := s.calls[p].record, Step(sha, s, e);
      assert e == Append(p);
      AppendLeaves(sha, s, p);
      AppendOrders(s, t, p);
      ChainSnoc(OnPath(s.journal, p), m, first);
    }
  }

  lemma AppendOrders(s: State, t: State, p: Path)
    requires OrderFits(s, p) && p in s.calls && s.calls[p].Appending? && s.calls[p].record.path == p
    requires t.journal == s.journal + [s.calls[p].record] && t.sequence == s.sequence
    requires p in t.calls ==> !t.calls[p].Appending?
    ensures OrderFits(t, p) && OnPath(t.journal, p) == OnPath(s.journal, p) + [s.calls[p].record]
  {
    OnPathSnoc(s.journal, s.calls[p].record, p);
    AscendingSnoc(OnPath(s.journal, p), s.calls[p].record, s.sequence);
  }

  lemma AppendLeaves(sha: Digest, s: State, p: Path)
    requires p in s.calls && s.calls[p].Appending?
    ensures var t := Step(sha, s, Append(p));
            && PathFits(sha, t, p) && Expected(t, p) == StateAt(s.disk, p) && !FalsePending(sha, t, p)
            && t.journal == s.journal + [s.calls[p].record] && t.sequence == s.sequence
            && (p in t.calls ==> !t.calls[p].Appending?)
  {}

  lemma AscendingSnoc(on: seq<Mutation>, m: Mutation, last: nat)
    requires Ascending(on, last) && m.sequence <= last
    requires forall i :: 0 <= i < |on| ==> on[i].sequence < m.sequence
    ensures Ascending(on + [m], last)
  {}

  lemma BindingStep(sha: Digest, first: Ref, s: State, e: Event, p: Path)
    requires !HasPath(e) && BinderFits(s) && !Overtaken(s, e) && PathRecorded(sha, first, s, p)
    ensures PathRecorded(sha, first, Step(sha, s, e), p)
    ensures True(sha, first, Step(sha, s, e), p) <==> True(sha, first, s, p)
  {
    var t := Step(sha, s, e);
    if e.Rewrite? && s.binder.Reloaded? {
      RewriteStep(first, s, p);
      assert t == s.(journal := Rewritten(s.binder), binder := Resting);
    } else {
      assert t == s.(binder := t.binder);
    }
  }

  lemma RewriteStep(first: Ref, s: State, p: Path)
    requires BinderFits(s) && s.binder.Reloaded? && |s.binder.snapshot| == |s.journal| && OrderFits(s, p)
    ensures var t := s.(journal := Rewritten(s.binder), binder := Resting);
            && OrderFits(t, p)
            && (Chain(OnPath(t.journal, p), first) <==> Chain(OnPath(s.journal, p), first))
            && Led(OnPath(t.journal, p), first) == Led(OnPath(s.journal, p), first)
  {
    var t := s.(journal := Rewritten(s.binder), binder := Resting);
    assert s.binder.snapshot == s.journal;
    RewriteKeepsPath(s.binder, p, s.sequence);
    SameChain(OnPath(s.journal, p), OnPath(t.journal, p), first);
    SameOrder(s, t, p);
  }

  lemma SameOrder(s: State, t: State, p: Path)
    requires OrderFits(s, p) && t.calls == s.calls && t.sequence == s.sequence
    requires SameButBound(OnPath(s.journal, p), OnPath(t.journal, p))
    ensures OrderFits(t, p)
  {
    var before, after := OnPath(s.journal, p), OnPath(t.journal, p);
    assert forall i :: 0 <= i < |after| ==> after[i].sequence == before[i].sequence;
  }

  lemma BinderStep(sha: Digest, s: State, e: Event)
    requires BinderFits(s)
    ensures BinderFits(Step(sha, s, e))
  {}

  // ---------------------------------------------------------------------------
  // Whole runs
  // ---------------------------------------------------------------------------

  // Every write is captured, and no rewrite is overtaken by an append.
  ghost predicate Undisturbed(sha: Digest, start: Disk, es: seq<Event>) {
    forall i :: 0 <= i < |es| ==> var s := Run(sha, start, es[..i]); !Missed(s, es[i]) && !Overtaken(s, es[i])
  }

  // Every edit call of the path took the slot while it held this path.
  ghost predicate TakesTrue(sha: Digest, start: Disk, es: seq<Event>, p: Path) {
    es == [] ||
    var n := |es| - 1;
    TakesTrue(sha, start, es[..n], p) && !FalseTake(Run(sha, start, es[..n]), es[n], p)
  }

  lemma UndisturbedPrefix(sha: Digest, start: Disk, es: seq<Event>)
    requires es != [] && Undisturbed(sha, start, es)
    ensures var n := |es| - 1;
            && Undisturbed(sha, start, es[..n])
            && !Missed(Run(sha, start, es[..n]), es[n]) && !Overtaken(Run(sha, start, es[..n]), es[n])
  {
    var n := |es| - 1;
    forall i | 0 <= i < n
      ensures es[..n][..i] == es[..i] && es[..n][i] == es[i]
    {
    }
  }

  lemma {:induction false} RunsFit(sha: Digest, start: Disk, es: seq<Event>, p: Path)
    requires NoCollisions(sha) && Undisturbed(sha, start, es)
    ensures var s, first := Run(sha, start, es), RefOf(sha, StateAt(start, p));
            && BinderFits(s) && PathRecorded(sha, first, s, p)
            && (True(sha, first, s, p) <==> TakesTrue(sha, start, es, p))
    decreases |es|
  {
    if es != [] {
      var n := |es| - 1;
      UndisturbedPrefix(sha, start, es);
      RunsFit(sha, start, es[..n], p);
      if HasPath(es[n]) {
        RunsFit(sha, start, es[..n], es[n].path);
      }
      var s, e, first := Run(sha, start, es[..n]), es[n], RefOf(sha, StateAt(start, p));
      BinderStep(sha, s, e);
      if !HasPath(e) {
        BindingStep(sha, first, s, e, p);
      } else if e.path != p {
        OtherPath(sha, first, s, e, p);
      } else if e.Number? {
        OwnNumber(sha, first, s, e, p);
      } else if e.Append? {
        OwnAppend(sha, first, s, e, p);
      } else {
        OwnCall(sha, first, s, e, p);
      }
    }
  }

  // ---------------------------------------------------------------------------
  // The blobs
  // ---------------------------------------------------------------------------

  ghost predicate PendingStored(blobs: Blobs, calls: map<Path, Phase>) {
    forall p :: p in calls && calls[p].Appending? ==>
                  Stored(blobs, calls[p].record.before) && Stored(blobs, calls[p].record.after)
  }

  // Every blob that the journal, or a record on its way, refers to is in the store.
  ghost predicate StoreFits(sha: Digest, s: State) {
    && ContentAddressed(sha, s.blobs) && AllStored(s.blobs, s.journal) && PendingStored(s.blobs, s.calls)
    && (s.binder.Reloaded? ==> AllStored(s.blobs, s.binder.snapshot))
  }

  ghost predicate Grown(blobs: Blobs, more: Blobs) {
    blobs.Keys <= more.Keys
  }

  lemma StoredBothGrows(sha: Digest, blobs: Blobs, isLink: bool, before: Option<Content>, content: Content)
    requires ContentAddressed(sha, blobs)
    ensures var more := StoredBoth(sha, blobs, isLink, before, content);
            && ContentAddressed(sha, more) && Grown(blobs, more)
            && (!CaptureRefused(isLink, before, content) ==>
                  Stored(more, RefOf(sha, before)) && Stored(more, RefOf(sha, Some(content))))
  {}

  lemma MoreBlobsFit(blobs: Blobs, more: Blobs, ms: seq<Mutation>, calls: map<Path, Phase>)
    requires Grown(blobs, more) && AllStored(blobs, ms) && PendingStored(blobs, calls)
    ensures AllStored(more, ms) && PendingStored(more, calls)
  {}

  lemma {:induction false} InsertContents(sorted: seq<Mutation>, m: Mutation)
    ensures multiset(Insert(sorted, m)) == multiset(sorted) + multiset{m}
  {
    if sorted != [] && sorted[|sorted| - 1].sequence > m.sequence {
      var front, last := sorted[..|sorted| - 1], sorted[|sorted| - 1];
      assert sorted == front + [last];
      InsertContents(front, m);
      assert multiset(Insert(front, m) + [last]) == multiset(front) + multiset{m} + multiset{last};
    }
  }

  // Sorting neither loses nor invents a record.
  lemma {:induction false} SortedContents(ms: seq<Mutation>)
    ensures multiset(Sorted(ms)) == multiset(ms)
  {
    if ms != [] {
      var front, last := ms[..|ms| - 1], ms[|ms| - 1];
      SortedContents(front);
      InsertContents(Sorted(front), last);
      assert ms == front + [last];
    }
  }

  lemma {:induction false} BindAllAt(ms: seq<Mutation>, numbers: set<nat>, entryOf: map<string, string>, i: nat)
    requires i < |ms|
    ensures |BindAll(ms, numbers, entryOf)| == |ms| && BindAll(ms, numbers, entryOf)[i] == BindOne(ms[i], numbers, entryOf)
  {
    BindKeepsPath(ms, numbers, entryOf, "");
    if i < |ms| - 1 {
      BindAllAt(ms[..|ms| - 1], numbers, entryOf, i);
    } else {
      BindKeepsPath(ms[..|ms| - 1], numbers, entryOf, "");
    }
  }

  // Each rewritten record is a bound one of the snapshot, and each of the snapshot is there.
  lemma RewrittenContents(b: Binder)
    requires b.Reloaded?
    ensures forall m :: m in Rewritten(b) <==>
                        exists i :: 0 <= i < |b.snapshot| && m == BindOne(b.snapshot[i], b.numbers, b.entryOf)
  {
    var bound := BindAll(b.snapshot, b.numbers, b.entryOf);
    SortedContents(bound);
    BindKeepsPath(b.snapshot, b.numbers, b.entryOf, "");
    forall i | 0 <= i < |b.snapshot|
      ensures bound[i] == BindOne(b.snapshot[i], b.numbers, b.entryOf)
    {
      BindAllAt(b.snapshot, b.numbers, b.entryOf, i);
    }
    forall m
      ensures m in Rewritten(b) <==> m in bound
    {
      assert m in Rewritten(b) <==> m in multiset(Rewritten(b));
      assert m in bound <==> m in multiset(bound);
    }
  }

  lemma StepKeepsStore(sha: Digest, s: State, e: Event)
    requires StoreFits(sha, s)
    ensures StoreFits(sha, Step(sha, s, e))
  {
    if e.Rewrite? && s.binder.Reloaded? {
      RewrittenContents(s.binder);
    } else if e.Number? && e.path in s.calls && s.calls[e.path].Capturing? {
      NumberKeepsStore(sha, s, e);
    } else if HasPath(e) {
      CallKeepsStore(sha, s, e);
    }
  }

  lemma NumberKeepsStore(sha: Digest, s: State, e: Event)
    requires StoreFits(sha, s) && e.Number? && e.path in s.calls && s.calls[e.path].Capturing?
    ensures StoreFits(sha, Step(sha, s, e))
  {
    var t, phase := Step(sha, s, e), s.calls[e.path];
    assert t == NumberStep(sha, s, e.path, e.toolCallId, e.isLink, phase.tool, phase.was, phase.before, phase.content);
    StoredBothGrows(sha, s.blobs, e.isLink, phase.before, phase.content);
    MoreBlobsFit(s.blobs, t.blobs, s.journal, s.calls);
    if s.binder.Reloaded? {
      MoreBlobsFit(s.blobs, t.blobs, s.binder.snapshot, s.calls);
    }
    forall p | p in t.calls && t.calls[p].Appending?
      ensures Stored(t.blobs, t.calls[p].record.before) && Stored(t.blobs, t.calls[p].record.after)
    {
      if p != e.path {
        assert p in s.calls && t.calls[p] == s.calls[p];
      }
    }
  }

  lemma CallKeepsStore(sha: Digest, s: State, e: Event)
    requires StoreFits(sha, s) && HasPath(e) && !(e.Number? && e.path in s.calls && s.calls[e.path].Capturing?)
    ensures StoreFits(sha, Step(sha, s, e))
  {
    var t := Step(sha, s, e);
    assert t.blobs == s.blobs && t.binder == s.binder;
    forall p | p in t.calls && t.calls[p].Appending?
      ensures p in s.calls && t.calls[p] == s.calls[p]
    {
      if p != e.path {
        SameCall(sha, s, e, p);
      }
    }
  }

  lemma {:induction false} RunsAreStored(sha: Digest, start: Disk, es: seq<Event>)
    ensures StoreFits(sha, Run(sha, start, es))
  {
    if es != [] {
      RunsAreStored(sha, start, es[..|es| - 1]);
      StepKeepsStore(sha, Run(sha, start, es[..|es| - 1]), es[|es| - 1]);
    }
  }

  // ---------------------------------------------------------------------------
  // At rest
  // ---------------------------------------------------------------------------

  // Over every interleaving of tool calls and bindings in which each write is captured and
  // no rewrite is overtaken: once no call is under way, the journal is a complete record of
  // how the disk got from the start to now exactly when each edit took the slot in time.
  lemma {:induction false} JournalIsCompleteIff(sha: Digest, start: Disk, es: seq<Event>)
    requires NoCollisions(sha) && Undisturbed(sha, start, es) && Run(sha, start, es).calls == map[]
    ensures var s := Run(sha, start, es);
            Tracks(s.blobs, start, s.journal, s.disk) <==> forall p :: TakesTrue(sha, start, es, p)
  {
    var s := Run(sha, start, es);
    RunsAreStored(sha, start, es);
    RecordsIffAllChained(sha, s.blobs, start, s.journal);
    if AllChained(sha, start, s.journal) {
      ChainedRunTracks(sha, start, es);
    } else {
      var p :| !Chain(OnPath(s.journal, p), RefOf(sha, StateAt(start, p)));
      RunsFit(sha, start, es, p);
      assert !TakesTrue(sha, start, es, p);
    }
  }

  lemma {:induction false} ChainedRunTracks(sha: Digest, start: Disk, es: seq<Event>)
    requires NoCollisions(sha) && Undisturbed(sha, start, es) && Run(sha, start, es).calls == map[]
    requires AllChained(sha, start, Run(sha, start, es).journal)
    ensures var s := Run(sha, start, es); Tracks(s.blobs, start, s.journal, s.disk)
    ensures forall p :: TakesTrue(sha, start, es, p)
  {
    var s := Run(sha, start, es);
    RunsAreStored(sha, start, es);
    RecordsIffAllChained(sha, s.blobs, start, s.journal);
    forall p
      ensures TakesTrue(sha, start, es, p)
    {
      ChainedPath(sha, start, es, p);
    }
    forall p
      ensures StateAt(Replayed(s.blobs, start, s.journal), p) == StateAt(s.disk, p)
    {
      ChainedPath(sha, start, es, p);
    }
    SameDisk(Replayed(s.blobs, start, s.journal), s.disk);
  }

  lemma {:induction false} ChainedPath(sha: Digest, start: Disk, es: seq<Event>, p: Path)
    requires NoCollisions(sha) && Undisturbed(sha, start, es) && Run(sha, start, es).calls == map[]
    requires StoreFits(sha, Run(sha, start, es))
    requires Chain(OnPath(Run(sha, start, es).journal, p), RefOf(sha, StateAt(start, p)))
    ensures TakesTrue(sha, start, es, p)
    ensures var s := Run(sha, start, es); StateAt(Replayed(s.blobs, start, s.journal), p) == StateAt(s.disk, p)
  {
    var s := Run(sha, start, es);
    RunsFit(sha, start, es, p);
    LedIsReplayed(sha, s.blobs, start, s.journal, p);
    SameReferenceIff(sha, StateAt(Replayed(s.blobs, start, s.journal), p), StateAt(s.disk, p));
  }

  lemma SameDisk(a: Disk, b: Disk)
    requires forall p :: StateAt(a, p) == StateAt(b, p)
    ensures a == b
  {
    forall p
      ensures p in a <==> p in b
      ensures p in a ==> a[p] == b[p]
    {
      assert StateAt(a, p) == StateAt(b, p);
    }
  }
}
