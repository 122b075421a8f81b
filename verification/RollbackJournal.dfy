/** What a journal of before/after snapshots means, and what rolling it back restores. */
module RollbackJournal {
  import opened Options

  type Path = string

  type Content = seq<bv8>

  type Disk = map<Path, Content>

  // The blob store: content by digest.
  type Blobs = map<string, Content>

  type Digest = Content -> string

  datatype Ref = Absent | Blob(hash: string)

  datatype Tool = WriteTool | EditTool

  // A mutation without a tree entry id is still unbound.
  datatype Mutation = Mutation(
    sequence: nat, toolCallId: string, tool: Tool, path: Path, before: Ref, after: Ref,
    treeEntryId: Option<string>)

  function StateAt(disk: Disk, p: Path): Option<Content> {
    if p in disk then Some(disk[p]) else None
  }

  function WithState(disk: Disk, p: Path, state: Option<Content>): (r: Disk)
    ensures forall q :: StateAt(r, q) == if q == p then state else StateAt(disk, q)
  {
    if state.Some? then disk[p := state.value] else disk - {p}
  }

  function RefOf(sha: Digest, state: Option<Content>): Ref {
    if state.Some? then Blob(sha(state.value)) else Absent
  }

  predicate Stored(blobs: Blobs, ref: Ref) {
    ref.Blob? ==> ref.hash in blobs
  }

  function Deref(blobs: Blobs, ref: Ref): Option<Content>
    requires Stored(blobs, ref)
  {
    if ref.Blob? then Some(blobs[ref.hash]) else None
  }

  ghost predicate NoCollisions(sha: Digest) {
    forall c, d :: sha(c) == sha(d) ==> c == d
  }

  ghost predicate ContentAddressed(sha: Digest, blobs: Blobs) {
    forall h :: h in blobs ==> sha(blobs[h]) == h
  }

  ghost predicate AllStored(blobs: Blobs, ms: seq<Mutation>) {
    forall m :: m in ms ==> Stored(blobs, m.before) && Stored(blobs, m.after)
  }

  // A stored reference and the state it stands for determine each other.
  lemma {:induction false} RefsAreFaithful(sha: Digest, blobs: Blobs, ref: Ref, state: Option<Content>)
    requires NoCollisions(sha) && ContentAddressed(sha, blobs) && Stored(blobs, ref)
    ensures Deref(blobs, ref) == state <==> ref == RefOf(sha, state)
  {
  }

  // ---------------------------------------------------------------------------
  // Selecting mutations
  // ---------------------------------------------------------------------------

  predicate IsSelected(m: Mutation, branch: set<string>, target: string) {
    m.treeEntryId.Some? && m.treeEntryId.value in branch && m.treeEntryId.value != target
  }

  function Selected(ms: seq<Mutation>, branch: set<string>, target: string): seq<Mutation> {
    if ms == [] then []
    else (if IsSelected(ms[0], branch, target) then [ms[0]] else []) + Selected(ms[1..], branch, target)
  }

  lemma {:induction false} SelectedContents(ms: seq<Mutation>, branch: set<string>, target: string)
    ensures forall m :: m in Selected(ms, branch, target) <==> m in ms && IsSelected(m, branch, target)
  {
    if ms != [] {
      SelectedContents(ms[1..], branch, target);
      assert forall m :: m in ms <==> m == ms[0] || m in ms[1..];
    }
  }

  // The record belongs to an entry of the branch, and not to the target.
  ghost predicate OfOtherEntry(m: Mutation, branch: set<string>, target: string) {
    exists id :: id in branch && id != target && m.treeEntryId == Some(id)
  }

  // A record is selected exactly when it belongs to an entry of the branch other than the target.
  lemma {:induction false} SelectedIff(ms: seq<Mutation>, branch: set<string>, target: string, m: Mutation)
    ensures m in Selected(ms, branch, target) <==> m in ms && OfOtherEntry(m, branch, target)
  {
    SelectedContents(ms, branch, target);
  }

  // The first record of the path that belongs to such an entry.
  ghost predicate FirstOfOthers(ms: seq<Mutation>, branch: set<string>, target: string, p: Path, i: nat)
    requires i < |ms|
  {
    && ms[i].path == p && OfOtherEntry(ms[i], branch, target)
    && forall j :: 0 <= j < i && ms[j].path == p ==> !OfOtherEntry(ms[j], branch, target)
  }

  // The last record of the path that belongs to such an entry.
  ghost predicate LastOfOthers(ms: seq<Mutation>, branch: set<string>, target: string, p: Path, i: nat)
    requires i < |ms|
  {
    && ms[i].path == p && OfOtherEntry(ms[i], branch, target)
    && forall j :: i < j < |ms| && ms[j].path == p ==> !OfOtherEntry(ms[j], branch, target)
  }

  // Selecting keeps the order: the first selected record of a path is the first in the journal.
  lemma {:induction false} FirstSelected(ms: seq<Mutation>, branch: set<string>, target: string, p: Path, i: nat)
    requires i < |ms| && FirstOfOthers(ms, branch, target, p, i)
    ensures FirstOn(Selected(ms, branch, target), p) == Some(ms[i])
  {
    var rest := Selected(ms[1..], branch, target);
    if i == 0 {
      SelectedIff([ms[0]], branch, target, ms[0]);
      assert IsSelected(ms[0], branch, target);
      assert Selected(ms, branch, target) == [ms[0]] + rest;
    } else {
      assert forall j :: 0 <= j < |ms| - 1 ==> ms[1..][j] == ms[j + 1];
      FirstSelected(ms[1..], branch, target, p, i - 1);
      if IsSelected(ms[0], branch, target) {
        SelectedIff([ms[0]], branch, target, ms[0]);
        assert [ms[0]][1..] == [] && Selected([ms[0]], branch, target) == [ms[0]];
        assert ms[0].path != p;
        assert Selected(ms, branch, target) == [ms[0]] + rest && ([ms[0]] + rest)[1..] == rest;
      } else {
        assert Selected(ms, branch, target) == rest;
      }
    }
  }

  lemma {:induction false} LastSelected(ms: seq<Mutation>, branch: set<string>, target: string, p: Path, i: nat)
    requires i < |ms| && LastOfOthers(ms, branch, target, p, i)
    ensures LastOn(Selected(ms, branch, target), p) == Some(ms[i])
  {
    var front, last := ms[..|ms| - 1], ms[|ms| - 1];
    var earlier := Selected(front, branch, target);
    assert ms == front + [last];
    SelectedAppend(front, [last], branch, target);
    SelectedIff([last], branch, target, last);
    assert [last][1..] == [] && Selected([last], branch, target) == if OfOtherEntry(last, branch, target) then [last] else [];
    if i < |front| {
      LastSelected(front, branch, target, p, i);
      if OfOtherEntry(last, branch, target) {
        assert (earlier + [last])[..|earlier|] == earlier;
      } else {
        assert earlier + [] == earlier;
      }
    }
  }

  lemma {:induction false} SelectedAppend(a: seq<Mutation>, b: seq<Mutation>, branch: set<string>, target: string)
    ensures Selected(a + b, branch, target) == Selected(a, branch, target) + Selected(b, branch, target)
  {
    if a == [] {
      assert a + b == b;
    } else {
      SelectedAppend(a[1..], b, branch, target);
      assert (a + b)[0] == a[0] && (a + b)[1..] == a[1..] + b;
      var head := if IsSelected(a[0], branch, target) then [a[0]] else [];
      var left, right := Selected(a[1..], branch, target), Selected(b, branch, target);
      assert head + (left + right) == (head + left) + right;
    }
  }

  function FirstOn(ms: seq<Mutation>, p: Path): (m: Option<Mutation>)
    ensures m.Some? ==> m.value in ms && m.value.path == p
  {
    if ms == [] then None
    else if ms[0].path == p then Some(ms[0])
    else FirstOn(ms[1..], p)
  }

  function LastOn(ms: seq<Mutation>, p: Path): (m: Option<Mutation>)
    ensures m.Some? ==> m.value in ms && m.value.path == p
  {
    if ms == [] then None
    else if ms[|ms| - 1].path == p then Some(ms[|ms| - 1])
    else LastOn(ms[..|ms| - 1], p)
  }

  lemma {:induction false} FirstAndLastFound(ms: seq<Mutation>, m: Mutation)
    requires m in ms
    ensures FirstOn(ms, m.path).Some? && LastOn(ms, m.path).Some?
  {
    var n := |ms| - 1;
    if ms[0] != m {
      FirstAndLastFound(ms[1..], m);
    }
    if ms[n] != m {
      assert m in ms[..n];
      FirstAndLastFound(ms[..n], m);
    }
  }

  lemma {:induction false} FirstOnAppend(a: seq<Mutation>, b: seq<Mutation>, p: Path)
    ensures FirstOn(a + b, p) == if FirstOn(a, p).Some? then FirstOn(a, p) else FirstOn(b, p)
  {
    if a == [] {
      assert a + b == b;
    } else if a[0].path != p {
      FirstOnAppend(a[1..], b, p);
      assert (a + b)[1..] == a[1..] + b;
    }
  }

  // ---------------------------------------------------------------------------
  // What a rollback of some mutations restores
  // ---------------------------------------------------------------------------

  // Every touched path gets the `before` of its first mutation; the others stay.
  ghost function RestoredAt(blobs: Blobs, disk: Disk, ms: seq<Mutation>, p: Path): Option<Content>
    requires AllStored(blobs, ms)
  {
    var first := FirstOn(ms, p);
    if first.Some? then Deref(blobs, first.value.before) else StateAt(disk, p)
  }

  // The mutations record a run of the disk from `start`: each `before` is the state the
  // path had, each `after` the state it was given, and nothing else changed.
  ghost predicate Records(blobs: Blobs, start: Disk, ms: seq<Mutation>)
    requires AllStored(blobs, ms)
  {
    ms == [] ||
    var n := |ms| - 1;
    Records(blobs, start, ms[..n]) &&
    StateAt(Replayed(blobs, start, ms[..n]), ms[n].path) == Deref(blobs, ms[n].before)
  }

  ghost function Replayed(blobs: Blobs, start: Disk, ms: seq<Mutation>): Disk
    requires AllStored(blobs, ms)
  {
    if ms == [] then start
    else
      var n := |ms| - 1;
      WithState(Replayed(blobs, start, ms[..n]), ms[n].path, Deref(blobs, ms[n].after))
  }

  // Rolling a recorded run back reaches the disk it started from.
  lemma {:induction false} RollbackInverts(blobs: Blobs, start: Disk, ms: seq<Mutation>, p: Path)
    requires AllStored(blobs, ms) && Records(blobs, start, ms)
    ensures RestoredAt(blobs, Replayed(blobs, start, ms), ms, p) == StateAt(start, p)
    decreases |ms|
  {
    if ms != [] {
      var n := |ms| - 1;
      assert ms == ms[..n] + [ms[n]];
      RollbackInverts(blobs, start, ms[..n], p);
      FirstOnAppend(ms[..n], [ms[n]], p);
    }
  }

  // After a recorded run every touched path is in the state its last mutation left.
  lemma {:induction false} ReplayedEndsAtLast(blobs: Blobs, start: Disk, ms: seq<Mutation>, p: Path)
    requires AllStored(blobs, ms)
    ensures var last := LastOn(ms, p);
            StateAt(Replayed(blobs, start, ms), p) ==
            if last.Some? then Deref(blobs, last.value.after) else StateAt(start, p)
    decreases |ms|
  {
    if ms != [] && ms[|ms| - 1].path != p {
      ReplayedEndsAtLast(blobs, start, ms[..|ms| - 1], p);
    }
  }

  lemma {:induction false} ReplayedAppend(blobs: Blobs, start: Disk, a: seq<Mutation>, b: seq<Mutation>)
    requires AllStored(blobs, a + b)
    ensures AllStored(blobs, a) && AllStored(blobs, b)
    ensures Replayed(blobs, start, a + b) == Replayed(blobs, Replayed(blobs, start, a), b)
    ensures Records(blobs, start, a + b) <==>
            Records(blobs, start, a) && Records(blobs, Replayed(blobs, start, a), b)
    decreases |b|
  {
    assert forall m :: m in a || m in b ==> m in a + b;
    if b == [] {
      assert a + b == a;
    } else {
      var n := |b| - 1;
      assert (a + b)[..|a| + n] == a + b[..n];
      assert AllStored(blobs, a + b[..n]);
      ReplayedAppend(blobs, start, a, b[..n]);
    }
  }

  // The mutations are a complete record of how the disk got from `start` to `now`.
  ghost predicate Tracks(blobs: Blobs, start: Disk, ms: seq<Mutation>, now: Disk) {
    AllStored(blobs, ms) && Records(blobs, start, ms) && Replayed(blobs, start, ms) == now
  }

  // ---------------------------------------------------------------------------
  // Rolling back to a target
  // ---------------------------------------------------------------------------

  // What has to hold of a path, given the mutations up to the target, those after it, and the
  // selected ones of both. The first selected mutation, wherever it is, must start from the
  // state at the target; without one, the mutations after the target must cancel out.
  ghost predicate NetsOut(pre: seq<Mutation>, post: seq<Mutation>, selectedPre: seq<Mutation>,
                          selectedPost: seq<Mutation>, p: Path) {
    if FirstOn(selectedPre, p).Some? then
      LastOn(pre, p).Some? && FirstOn(selectedPre, p).value.before == LastOn(pre, p).value.after
    else if FirstOn(selectedPost, p).Some? then
      FirstOn(post, p).Some? && FirstOn(selectedPost, p).value.before == FirstOn(post, p).value.before
    else
      FirstOn(post, p).Some? ==>
        LastOn(post, p).Some? && LastOn(post, p).value.after == FirstOn(post, p).value.before
  }

  // `pre` was recorded up to the target and `post` after it; some of both is selected. Rolling
  // the selected mutations back takes a path to its state at the target exactly when it nets out.
  lemma {:induction false} RollbackReachesTargetIff(sha: Digest, blobs: Blobs, start: Disk, pre: seq<Mutation>,
                                                    post: seq<Mutation>, branch: set<string>, target: string, p: Path)
    requires NoCollisions(sha) && ContentAddressed(sha, blobs) && AllStored(blobs, pre + post)
    requires Records(blobs, start, pre + post)
    ensures AllStored(blobs, pre) && AllStored(blobs, Selected(pre + post, branch, target))
    ensures RestoredAt(blobs, Replayed(blobs, start, pre + post), Selected(pre + post, branch, target), p)
            == StateAt(Replayed(blobs, start, pre), p)
            <==> NetsOut(pre, post, Selected(pre, branch, target), Selected(post, branch, target), p)
  {
    var selectedPre, selectedPost := Selected(pre, branch, target), Selected(post, branch, target);
    SelectedAppend(pre, post, branch, target);
    ReplayedAppend(blobs, start, pre, post);
    SelectedContents(pre, branch, target);
    SelectedContents(post, branch, target);
    SelectedContents(pre + post, branch, target);
    FirstOnAppend(selectedPre, selectedPost, p);
    var atTarget := Replayed(blobs, start, pre);
    if FirstOn(selectedPre, p).Some? {
      var first := FirstOn(selectedPre, p).value;
      FirstAndLastFound(pre, first);
      ReplayedEndsAtLast(blobs, start, pre, p);
      SameState(sha, blobs, first.before, LastOn(pre, p).value.after);
    } else {
      RollbackInverts(blobs, atTarget, post, p);
      ReplayedEndsAtLast(blobs, atTarget, post, p);
      if FirstOn(post, p).Some? {
        FirstAndLastFound(post, FirstOn(post, p).value);
        SameState(sha, blobs, LastOn(post, p).value.after, FirstOn(post, p).value.before);
      }
      if FirstOn(selectedPost, p).Some? {
        FirstAndLastFound(post, FirstOn(selectedPost, p).value);
        SameState(sha, blobs, FirstOn(selectedPost, p).value.before, FirstOn(post, p).value.before);
      }
    }
  }

  lemma SameState(sha: Digest, blobs: Blobs, a: Ref, b: Ref)
    requires NoCollisions(sha) && ContentAddressed(sha, blobs) && Stored(blobs, a) && Stored(blobs, b)
    ensures Deref(blobs, a) == Deref(blobs, b) <==> a == b
  {}

  // In particular when nothing above the target is selected.
  lemma {:induction false} RollbackReachesTarget(sha: Digest, blobs: Blobs, start: Disk, pre: seq<Mutation>,
                              post: seq<Mutation>, branch: set<string>, target: string, p: Path)
    requires NoCollisions(sha) && ContentAddressed(sha, blobs) && AllStored(blobs, pre + post)
    requires Records(blobs, start, pre + post) && Selected(pre + post, branch, target) == post
    ensures AllStored(blobs, pre) && AllStored(blobs, post)
    ensures RestoredAt(blobs, Replayed(blobs, start, pre + post), post, p) == StateAt(Replayed(blobs, start, pre), p)
  {
    ReplayedAppend(blobs, start, pre, post);
    RollbackInverts(blobs, Replayed(blobs, start, pre), post, p);
  }

  // A file created above the target and left alone since is deleted by a rollback that is
  // only meant to undo a later change.
  lemma MutationsAboveTheTargetAreUndone(blobs: Blobs, h: string)
    requires h in blobs
    ensures var above := Mutation(1, "c1", WriteTool, "a", Absent, Blob(h), Some("e1"));
            var below := Mutation(2, "c2", WriteTool, "b", Absent, Blob(h), Some("e3"));
            var branch := {"e1", "e2", "e3"};
            && AllStored(blobs, [above, below]) && Records(blobs, map[], [above, below])
            && StateAt(Replayed(blobs, map[], [above]), "a") == Some(blobs[h])
            && Selected([above, below], branch, "e2") == [above, below]
            && RestoredAt(blobs, Replayed(blobs, map[], [above, below]), [above, below], "a") == None
  {
    var above := Mutation(1, "c1", WriteTool, "a", Absent, Blob(h), Some("e1"));
    var below := Mutation(2, "c2", WriteTool, "b", Absent, Blob(h), Some("e3"));
    assert [above, below][..1] == [above] && [above][..0] == [];
    assert [above, below][1..] == [below] && [below][1..] == [];
    assert Selected([below], {"e1", "e2", "e3"}, "e2") == [below];
    assert Selected([above, below], {"e1", "e2", "e3"}, "e2") == [above] + [below];
    var none: Disk := map[];
    var once := Replayed(blobs, none, [above]);
    assert Replayed(blobs, none, [above][..0]) == none;
    assert once == WithState(none, "a", Some(blobs[h]));
    assert StateAt(once, "b") == None;
    assert Records(blobs, none, [above][..0]) && Records(blobs, none, [above]);
    assert FirstOn([above, below], "a") == Some(above);
  }
}
