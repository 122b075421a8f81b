/** Where each record of the journal comes from, and which tree entry it is bound to. */
module RollbackOrigins {
  import opened Options
  import opened History
  import opened RollbackJournal
  import opened RollbackTools
  import opened RollbackRuns
  import opened RollbackRaces

  // ---------------------------------------------------------------------------
  // One binding
  // ---------------------------------------------------------------------------

  // The record with the entry of its call, unless it was bound before or its call has none.
  function BoundTo(m: Mutation, entryOf: map<string, string>): Option<string> {
    match m.treeEntryId
    case Some(e) => Some(e)
    case None => if m.toolCallId in entryOf then Some(entryOf[m.toolCallId]) else None
  }

  ghost predicate SameButEntry(x: Mutation, m: Mutation) {
    && x.sequence == m.sequence && x.toolCallId == m.toolCallId && x.tool == m.tool && x.path == m.path
    && x.before == m.before && x.after == m.after
  }

  // An undisturbed binding binds every unbound record whose call has an entry to just that
  // entry, and leaves every other record as it is.
  lemma {:induction false} BindingBinds(sha: Digest, s: State, entryOf: map<string, string>)
    requires NumbersApart(s) && s.binder == Resting
    ensures var t := Step(sha, Step(sha, Step(sha, s, Pick(entryOf)), Reload), Rewrite);
            && (forall m :: m in s.journal ==> exists x :: x in t.journal && SameButEntry(x, m) && x.treeEntryId == BoundTo(m, entryOf))
            && (forall x :: x in t.journal ==> exists m :: m in s.journal && SameButEntry(x, m) && x.treeEntryId == BoundTo(m, entryOf))
  {
    var numbers := Unbound(s.journal, entryOf);
    var t := Step(sha, Step(sha, Step(sha, s, Pick(entryOf)), Reload), Rewrite);
    forall m | m in s.journal
      ensures m.sequence in numbers <==> m.treeEntryId.None? && m.toolCallId in entryOf
    {
      PickedIff(s.journal, entryOf, m);
    }
    if numbers == {} {
      assert t.journal == s.journal;
      forall m | m in s.journal
        ensures m.treeEntryId == BoundTo(m, entryOf) && SameButEntry(m, m)
      {
        assert m.sequence !in numbers;
      }
    } else {
      var b := Reloaded(numbers, entryOf, s.journal);
      assert t.journal == Rewritten(b);
      RewrittenContents(b);
      forall m | m in s.journal
        ensures BindOne(m, numbers, entryOf) in t.journal
        ensures SameButEntry(BindOne(m, numbers, entryOf), m) && BindOne(m, numbers, entryOf).treeEntryId == BoundTo(m, entryOf)
      {
        var i :| 0 <= i < |s.journal| && s.journal[i] == m;
        assert BindOne(m, numbers, entryOf) == BindOne(b.snapshot[i], b.numbers, b.entryOf);
      }
    }
  }

  lemma PickedIff(ms: seq<Mutation>, entryOf: map<string, string>, m: Mutation)
    requires Distinct(ms) && m in ms
    ensures m.sequence in Unbound(ms, entryOf) <==> m.treeEntryId.None? && m.toolCallId in entryOf
  {
    if m.sequence in Unbound(ms, entryOf) {
      var x :| x in ms && x.treeEntryId.None? && x.toolCallId in entryOf && x.sequence == m.sequence;
      var i :| 0 <= i < |ms| && ms[i] == x;
      var j :| 0 <= j < |ms| && ms[j] == m;
      assert i == j;
    }
  }

  // ---------------------------------------------------------------------------
  // The origin of a record
  // ---------------------------------------------------------------------------

  // The tool that last opened the path, by looking at it or by reading it.
  ghost function Opener(sha: Digest, start: Disk, es: seq<Event>, p: Path): Tool {
    if es == [] then WriteTool
    else
      var n := |es| - 1;
      var s := Run(sha, start, es[..n]);
      if es[n] == Look(p) && p !in s.calls then WriteTool
      else if es[n] == Read(p) && p !in s.calls && p in s.disk then EditTool
      else Opener(sha, start, es[..n], p)
  }

  ghost predicate ToolFits(phase: Phase, opener: Tool) {
    match phase
    case Looked(_) => opener == WriteTool
    case HasRead(_) => opener == EditTool
    case Remembered(_) => opener == EditTool
    case Written(tool, _, _, _) => tool == opener
    case Capturing(tool, _, _, _) => tool == opener
    case Appending(tool, _, m) => tool == opener
    case Recorded => opener == EditTool
  }

  lemma {:induction false} CallsKnowTheirTool(sha: Digest, start: Disk, es: seq<Event>, p: Path)
    ensures var s := Run(sha, start, es); p in s.calls ==> ToolFits(s.calls[p], Opener(sha, start, es, p))
  {
    if es != [] {
      var n := |es| - 1;
      CallsKnowTheirTool(sha, start, es[..n], p);
      ToolStep(sha, Run(sha, start, es[..n]), es[n], p, Opener(sha, start, es[..n], p));
    }
  }

  lemma {:induction false} ToolStep(sha: Digest, s: State, e: Event, p: Path, opener: Tool)
    requires p in s.calls ==> ToolFits(s.calls[p], opener)
    ensures var t := Step(sha, s, e);
            p in t.calls ==>
              ToolFits(t.calls[p], if e == Look(p) && p !in s.calls then WriteTool
                                   else if e == Read(p) && p !in s.calls && p in s.disk then EditTool else opener)
  {
    if HasPath(e) && e.path != p {
      SameCall(sha, s, e, p);
    } else {
      match e {
        case Look(_) =>
        case Read(_) =>
        case Remember(_) =>
        case GiveUp(_) =>
        case Land(_, _) =>
        case Take(_, _) =>
        case Number(_, _, _) =>
        case Append(_) =>
        case Clear(_) =>
        case _ =>
      }
    }
  }

  // The i-th event gives the record its number: it names the tool call, comes while the call
  // on the path is captured, and finds there what the record says.
  ghost predicate NumberedAt(sha: Digest, start: Disk, es: seq<Event>, i: nat, m: Mutation)
    requires i < |es|
  {
    var s := Run(sha, start, es[..i]);
    && es[i] == Number(m.path, m.toolCallId, false) && m.sequence == s.sequence + 1
    && m.path in s.calls && s.calls[m.path].Capturing?
    && m.tool == Opener(sha, start, es[..i], m.path)
    && m.before == RefOf(sha, s.calls[m.path].before) && m.after == Blob(sha(s.calls[m.path].content))
  }

  ghost predicate Originates(sha: Digest, start: Disk, es: seq<Event>, m: Mutation) {
    exists i: nat :: i < |es| && NumberedAt(sha, start, es, i, m)
  }

  // Some binding was given this entry for the call.
  ghost predicate WasPicked(es: seq<Event>, toolCallId: string, entry: string) {
    exists i: nat :: i < |es| && es[i].Pick? && toolCallId in es[i].entryOf && es[i].entryOf[toolCallId] == entry
  }

  ghost predicate Explained(sha: Digest, start: Disk, es: seq<Event>, m: Mutation) {
    Originates(sha, start, es, m) && (m.treeEntryId.Some? ==> WasPicked(es, m.toolCallId, m.treeEntryId.value))
  }

  ghost predicate AllExplained(sha: Digest, start: Disk, es: seq<Event>, s: State) {
    && (forall m :: m in s.journal ==> Explained(sha, start, es, m))
    && (forall p :: p in s.calls && s.calls[p].Appending? ==>
          s.calls[p].record.treeEntryId.None? && Originates(sha, start, es, s.calls[p].record))
    && (s.binder.Reloaded? ==> forall m :: m in s.binder.snapshot ==> Explained(sha, start, es, m))
    && (s.binder != Resting ==> exists i: nat :: i < |es| && es[i] == Pick(s.binder.entryOf))
  }

  lemma ExplainedLater(sha: Digest, start: Disk, es: seq<Event>, m: Mutation)
    requires es != []
    ensures Originates(sha, start, es[..|es| - 1], m) ==> Originates(sha, start, es, m)
    ensures Explained(sha, start, es[..|es| - 1], m) ==> Explained(sha, start, es, m)
  {
    var front := es[..|es| - 1];
    if Originates(sha, start, front, m) {
      var i: nat :| i < |front| && NumberedAt(sha, start, front, i, m);
      assert front[..i] == es[..i] && front[i] == es[i];
      assert NumberedAt(sha, start, es, i, m);
    }
    if m.treeEntryId.Some? && WasPicked(front, m.toolCallId, m.treeEntryId.value) {
      var i: nat :| i < |front| && front[i].Pick? && m.toolCallId in front[i].entryOf
                    && front[i].entryOf[m.toolCallId] == m.treeEntryId.value;
      assert es[i] == front[i];
    }
  }

  lemma {:induction false} StateIsStillExplained(sha: Digest, start: Disk, es: seq<Event>, s: State)
    requires es != [] && AllExplained(sha, start, es[..|es| - 1], s)
    ensures AllExplained(sha, start, es, s)
  {
    var front := es[..|es| - 1];
    forall m
      ensures Explained(sha, start, front, m) ==> Explained(sha, start, es, m)
      ensures Originates(sha, start, front, m) ==> Originates(sha, start, es, m)
    {
      ExplainedLater(sha, start, es, m);
    }
    if s.binder != Resting {
      var i: nat :| i < |front| && front[i] == Pick(s.binder.entryOf);
      assert es[i] == front[i];
    }
  }

  // In every run each record of the journal has such an origin: its number, its tool, its call
  // and its snapshots come from one event, and its entry from one binding.
  lemma {:induction false} RecordsAreExplained(sha: Digest, start: Disk, es: seq<Event>)
    ensures AllExplained(sha, start, es, Run(sha, start, es))
  {
    if es != [] {
      var n := |es| - 1;
      var s, e := Run(sha, start, es[..n]), es[n];
      RecordsAreExplained(sha, start, es[..n]);
      StateIsStillExplained(sha, start, es, s);
      if e.Rewrite? && s.binder.Reloaded? {
        RewriteExplains(sha, start, es, s);
      } else if e.Number? && e.path in s.calls && s.calls[e.path].Capturing? {
        CallsKnowTheirTool(sha, start, es[..n], e.path);
        NumberExplains(sha, start, es, s);
      } else if HasPath(e) {
        CallExplains(sha, start, es, s);
      } else if e.Pick? {
        assert es[n] == Pick(e.entryOf);
      }
    }
  }

  lemma {:induction false} RewriteExplains(sha: Digest, start: Disk, es: seq<Event>, s: State)
    requires es != [] && AllExplained(sha, start, es, s) && s.binder.Reloaded?
    ensures AllExplained(sha, start, es, Step(sha, s, Rewrite))
  {
    var b := s.binder;
    RewrittenContents(b);
    var k: nat :| k < |es| && es[k] == Pick(b.entryOf);
    forall m | m in Rewritten(b)
      ensures Explained(sha, start, es, m)
    {
      var i :| 0 <= i < |b.snapshot| && m == BindOne(b.snapshot[i], b.numbers, b.entryOf);
      var was := b.snapshot[i];
      assert was in b.snapshot && Explained(sha, start, es, was);
      var j: nat :| j < |es| && NumberedAt(sha, start, es, j, was);
      assert NumberedAt(sha, start, es, j, m);
      if m.treeEntryId != was.treeEntryId {
        assert WasPicked(es, m.toolCallId, m.treeEntryId.value) by {
          assert es[k].Pick? && m.toolCallId in es[k].entryOf;
        }
      }
    }
  }

  lemma {:induction false} NumberExplains(sha: Digest, start: Disk, es: seq<Event>, s: State)
    requires es != [] && s == Run(sha, start, es[..|es| - 1]) && AllExplained(sha, start, es, s)
    requires var e := es[|es| - 1];
             && e.Number? && e.path in s.calls && s.calls[e.path].Capturing?
             && ToolFits(s.calls[e.path], Opener(sha, start, es[..|es| - 1], e.path))
    ensures AllExplained(sha, start, es, Step(sha, s, es[|es| - 1]))
  {
    var n := |es| - 1;
    var e := es[n];
    var t, c := Step(sha, s, e), s.calls[e.path];
    assert t == NumberStep(sha, s, e.path, e.toolCallId, e.isLink, c.tool, c.was, c.before, c.content);
    assert t.journal == s.journal && t.binder == s.binder;
    forall p | p in t.calls && t.calls[p].Appending?
      ensures t.calls[p].record.treeEntryId.None? && Originates(sha, start, es, t.calls[p].record)
    {
      if p == e.path {
        assert NumberedAt(sha, start, es, n, t.calls[p].record);
      } else {
        assert p in s.calls && t.calls[p] == s.calls[p];
      }
    }
  }

  lemma {:induction false} CallExplains(sha: Digest, start: Disk, es: seq<Event>, s: State)
    requires es != [] && AllExplained(sha, start, es, s)
    requires var e := es[|es| - 1]; HasPath(e) && !(e.Number? && e.path in s.calls && s.calls[e.path].Capturing?)
    ensures AllExplained(sha, start, es, Step(sha, s, es[|es| - 1]))
  {
    var e := es[|es| - 1];
    var t := Step(sha, s, e);
    assert t.binder == s.binder;
    forall p | p in t.calls && t.calls[p].Appending?
      ensures p in s.calls && t.calls[p] == s.calls[p]
    {
      if p != e.path {
        SameCall(sha, s, e, p);
      }
    }
    assert t.journal == s.journal ||
        (e.Append? && e.path in s.calls && s.calls[e.path].Appending? && t.journal == s.journal + [s.calls[e.path].record]);
  }

  // ---------------------------------------------------------------------------
  // Which captures are recorded
  // ---------------------------------------------------------------------------

  // A capture gets a number exactly if its path is no link, both states are at most ten
  // mebibytes long, and they differ.
  lemma {:induction false} NumberedIff(sha: Digest, s: State, p: Path, toolCallId: string, isLink: bool)
    requires NoCollisions(sha) && p in s.calls && s.calls[p].Capturing?
    ensures var t, before, content := Step(sha, s, Number(p, toolCallId, isLink)), s.calls[p].before, s.calls[p].content;
            p in t.calls && t.calls[p].Appending? <==>
            && !isLink && |content| <= 10485760 && (before.Some? ==> |before.value| <= 10485760)
            && before != Some(content)
  {
    SameReferenceIff(sha, s.calls[p].before, Some(s.calls[p].content));
  }

  // No blob is longer than that.
  lemma {:induction false} BlobsAreSmall(sha: Digest, start: Disk, es: seq<Event>, h: string)
    requires h in Run(sha, start, es).blobs
    ensures |Run(sha, start, es).blobs[h]| <= 10485760
  {
    var n := |es| - 1;
    var s, e := Run(sha, start, es[..n]), es[n];
    if h in s.blobs {
      BlobsAreSmall(sha, start, es[..n], h);
    }
    if e.Number? && e.path in s.calls && s.calls[e.path].Capturing? {
      var c := s.calls[e.path];
      assert Step(sha, s, e) == NumberStep(sha, s, e.path, e.toolCallId, e.isLink, c.tool, c.was, c.before, c.content);
    } else {
      SameBlobs(sha, s, e);
    }
  }

  lemma {:induction false} SameBlobs(sha: Digest, s: State, e: Event)
    requires !(e.Number? && e.path in s.calls && s.calls[e.path].Capturing?)
    ensures Step(sha, s, e).blobs == s.blobs
  {
    match e {
      case Take(_, _) =>
      case Number(_, _, _) =>
      case _ =>
    }
  }

  // A capture that is refused for a link or for the previous content stores nothing; one that
  // is refused for the new content has stored the previous one.
  lemma {:induction false} WhatIsStored(sha: Digest, s: State, p: Path, toolCallId: string, isLink: bool)
    requires p in s.calls && s.calls[p].Capturing?
    ensures var blobs, before, content := Step(sha, s, Number(p, toolCallId, isLink)).blobs, s.calls[p].before, s.calls[p].content;
            var fits := before.Some? ==> |before.value| <= 10485760;
            && (isLink || !fits ==> blobs == s.blobs)
            && (!isLink && fits && |content| > 10485760 ==>
                  blobs == if before.Some? then s.blobs[sha(before.value) := before.value] else s.blobs)
            && (!isLink && fits && |content| <= 10485760 ==>
                  blobs == (if before.Some? then s.blobs[sha(before.value) := before.value] else s.blobs)[sha(content) := content])
  {
    var c := s.calls[p];
    assert Step(sha, s, Number(p, toolCallId, isLink)) ==
        NumberStep(sha, s, p, toolCallId, isLink, c.tool, c.was, c.before, c.content);
  }

  // ---------------------------------------------------------------------------
  // When a path is busy
  // ---------------------------------------------------------------------------

  function Before(sha: Digest, start: Disk, es: seq<Event>, i: nat): State {
    if i <= |es| then Run(sha, start, es[..i]) else Run(sha, start, es)
  }

  function EventAt(es: seq<Event>, i: nat): Event {
    if i < |es| then es[i] else Reload
  }

  ghost predicate Opens(s: State, e: Event, p: Path) {
    p !in s.calls && (e == Look(p) || (e == Read(p) && p in s.disk))
  }

  // A call ends when it gives up before writing, goes on untracked, records nothing or has
  // recorded; an edit that was tracked ends only when it has cleared the slot.
  ghost predicate Closes(s: State, e: Event, p: Path) {
    p in s.calls &&
    match s.calls[p]
    case Looked(_) => e == GiveUp(p)
    case HasRead(_) => false
    case Remembered(_) => e == GiveUp(p)
    case Written(_, _, _, _) => e == Take(p, false)
    case Capturing(tool, _, before, content) =>
      && tool == WriteTool && e.Number? && e.path == p
      && (e.isLink || |content| > 10485760 || (before.Some? && |before.value| > 10485760) || before == Some(content))
    case Appending(tool, _, _) => tool == WriteTool && e == Append(p)
    case Recorded => e == Clear(p)
  }

  ghost predicate OpensAt(sha: Digest, start: Disk, es: seq<Event>, i: nat, p: Path) {
    Opens(Before(sha, start, es, i), EventAt(es, i), p)
  }

  ghost predicate ClosesAt(sha: Digest, start: Disk, es: seq<Event>, i: nat, p: Path) {
    Closes(Before(sha, start, es, i), EventAt(es, i), p)
  }

  lemma {:induction false} BusyStep(sha: Digest, s: State, e: Event, p: Path)
    requires NoCollisions(sha)
    ensures p in Step(sha, s, e).calls <==> Opens(s, e, p) || (p in s.calls && !Closes(s, e, p))
  {
    if HasPath(e) && e.path != p {
      SameCall(sha, s, e, p);
    } else if e.Number? && p in s.calls && s.calls[p].Capturing? {
      SameReferenceIff(sha, s.calls[p].before, Some(s.calls[p].content));
    } else {
      match e {
        case Look(_) =>
        case Read(_) =>
        case Remember(_) =>
        case GiveUp(_) =>
        case Land(_, _) =>
        case Take(_, _) =>
        case Number(_, _, _) =>
        case Append(_) =>
        case Clear(_) =>
        case _ =>
      }
    }
  }

  // A path is busy from the event that opens a call on it to the one that ends it.
  lemma {:induction false} BusyIff(sha: Digest, start: Disk, es: seq<Event>, p: Path)
    requires NoCollisions(sha)
    ensures p in Run(sha, start, es).calls <==>
            Latched(|es|, false, (i: nat) => OpensAt(sha, start, es, i, p), (i: nat) => ClosesAt(sha, start, es, i, p))
  {
    var flag, opens, closes := (i: nat) => p in Before(sha, start, es, i).calls,
      (i: nat) => OpensAt(sha, start, es, i, p), (i: nat) => ClosesAt(sha, start, es, i, p);
    forall i: nat | i < |es|
      ensures MovesAt(i, flag, opens, closes)
    {
      assert es[..i + 1][..i] == es[..i];
      assert Before(sha, start, es, i + 1) == Step(sha, Before(sha, start, es, i), es[i]);
      BusyStep(sha, Before(sha, start, es, i), es[i], p);
    }
    FlagIsLatched(|es|, flag, opens, closes);
    assert es[..|es|] == es && Before(sha, start, es, 0) == RollbackTools.Start(start);
  }
}
