/** The parent-chain walks of the session log, each written independently in its component. */
module ParentWalks {
  import opened Options

  // Which parent, if any, each known id names.
  type Links = map<string, Option<string>>

  datatype LogEntry = LogEntry(id: string, parent: Option<string>, isLeaf: bool)

  predicate HasParent(links: Links, id: string) {
    id in links && links[id].Some?
  }

  // The ids met from `id` upwards before an id of `seen` comes up.
  ghost function Climb(links: Links, id: string, seen: set<string>): set<string>
    decreases links.Keys - seen, id !in seen
  {
    if id in seen then {}
    else if HasParent(links, id) then {id} + Climb(links, links[id].value, seen + {id})
    else {id}
  }

  // The active branch of a leaf.
  ghost function Branch(links: Links, leaf: string): set<string> {
    Climb(links, leaf, {})
  }

  ghost predicate Closed(links: Links, s: set<string>) {
    forall id :: id in s && HasParent(links, id) ==> links[id].value in s
  }

  lemma {:induction false} ClimbIsClosed(links: Links, id: string, seen: set<string>)
    ensures id in Climb(links, id, seen) + seen
    ensures forall x :: x in Climb(links, id, seen) && HasParent(links, x) ==>
                          links[x].value in Climb(links, id, seen) + seen
    decreases links.Keys - seen, id !in seen
  {
    if id !in seen && HasParent(links, id) {
      ClimbIsClosed(links, links[id].value, seen + {id});
    }
  }

  lemma {:induction false} ClimbIsLeast(links: Links, id: string, seen: set<string>, t: set<string>)
    requires id in t && Closed(links, t)
    ensures Climb(links, id, seen) <= t
    decreases links.Keys - seen, id !in seen
  {
    if id !in seen && HasParent(links, id) {
      ClimbIsLeast(links, links[id].value, seen + {id}, t);
    }
  }

  // The branch is the least set of ids that holds the leaf and every named parent.
  lemma BranchIsLeastClosed(links: Links, leaf: string)
    ensures leaf in Branch(links, leaf) && Closed(links, Branch(links, leaf))
    ensures forall t :: leaf in t && Closed(links, t) ==> Branch(links, leaf) <= t
  {
    ClimbIsClosed(links, leaf, {});
    forall t | leaf in t && Closed(links, t) ensures Branch(links, leaf) <= t {
      ClimbIsLeast(links, leaf, {}, t);
    }
  }

  // ---------------------------------------------------------------------------
  // Links of a log
  // ---------------------------------------------------------------------------

  // Inserting one entry after another: the last entry with an id wins.
  function LastLinks(log: seq<LogEntry>): (links: Links)
    ensures forall id :: id in links <==> exists e :: e in log && e.id == id
  {
    if log == [] then map[]
    else
      var e := log[|log| - 1];
      assert forall x :: x in log <==> x in log[..|log| - 1] || x == e;
      LastLinks(log[..|log| - 1])[e.id := e.parent]
  }

  function Find(log: seq<LogEntry>, id: string): (e: Option<LogEntry>)
    ensures e.Some? ==> e.value in log && e.value.id == id
    ensures e.None? <==> forall x :: x in log ==> x.id != id
  {
    if log == [] then None
    else if log[0].id == id then Some(log[0])
    else Find(log[1..], id)
  }

  ghost predicate UniqueIds(log: seq<LogEntry>) {
    forall i, j :: 0 <= i < j < |log| ==> log[i].id != log[j].id
  }

  lemma {:induction false} UniqueLink(log: seq<LogEntry>, e: LogEntry)
    requires UniqueIds(log) && e in log
    ensures e.id in LastLinks(log) && LastLinks(log)[e.id] == e.parent
  {
    var n := |log| - 1;
    if e != log[n] {
      assert e in log[..n];
      UniqueLink(log[..n], e);
      assert e.id != log[n].id;
    }
  }

  // Looking ids up from the front: the first entry with an id wins.
  function FirstLinks(log: seq<LogEntry>): Links {
    if log == [] then map[] else FirstLinks(log[1..])[log[0].id := log[0].parent]
  }

  lemma {:induction false} FindFollowsFirstLinks(log: seq<LogEntry>, id: string)
    ensures id in FirstLinks(log) <==> Find(log, id).Some?
    ensures id in FirstLinks(log) ==> FirstLinks(log)[id] == Find(log, id).value.parent
  {
    if log != [] && log[0].id != id {
      FindFollowsFirstLinks(log[1..], id);
    }
  }

  lemma {:induction false} UniqueIdsUniqueLinks(log: seq<LogEntry>)
    requires UniqueIds(log)
    ensures FirstLinks(log) == LastLinks(log)
  {
    var first, last := FirstLinks(log), LastLinks(log);
    forall id
      ensures id in first <==> id in last
      ensures id in first ==> first[id] == last[id]
    {
      FindFollowsFirstLinks(log, id);
      if id in first {
        UniqueLink(log, Find(log, id).value);
      }
    }
  }

  // ---------------------------------------------------------------------------
  // The walks
  // ---------------------------------------------------------------------------

  // The cache metrics walk. It keeps the last id even if no entry carries it, and stops at
  // the first id it meets again.
  method ActiveBranchIdSet(log: seq<LogEntry>, leaf: Option<string>) returns (ids: set<string>)
    ensures ids == if leaf.None? then LastLinks(log).Keys else Branch(LastLinks(log), leaf.value)
  {
    var byId: Links := map[];
    for k := 0 to |log|
      invariant byId == LastLinks(log[..k])
    {
      assert log[..k + 1][..k] == log[..k];
      byId := byId[log[k].id := log[k].parent];
    }
    assert log[..|log|] == log;
    if leaf.None? {
      return byId.Keys;
    }
    var current := leaf.value;
    ids := {};
    while current !in ids
      invariant ids + Climb(byId, current, ids) == Branch(byId, leaf.value)
      decreases byId.Keys - ids, current !in ids
    {
      ids := ids + {current};
      if !HasParent(byId, current) {
        break;
      }
      current := byId[current].value;
    }
  }

  // The tree view's walk: it marks the first row of every id it meets, skips ids without a
  // row, and stops at the first id it meets again.
  method MarkActivePath(rows: seq<LogEntry>, leaf: string) returns (marked: seq<bool>)
    ensures |marked| == |rows|
    ensures forall k :: 0 <= k < |rows| ==>
                          (marked[k] <==> rows[k].id in Branch(LastLinks(rows), leaf) && FirstRow(rows, rows[k].id) == k)
  {
    var parents := LastLinks(rows);
    marked := seq(|rows|, k => false);
    var cursor := Some(leaf);
    var seen: set<string> := {};
    while cursor.Some?
      invariant |marked| == |rows|
      invariant seen + (if cursor.Some? then Climb(parents, cursor.value, seen) else {}) == Branch(parents, leaf)
      invariant forall k :: 0 <= k < |rows| ==>
                              (marked[k] <==> rows[k].id in seen && FirstRow(rows, rows[k].id) == k)
      decreases parents.Keys - seen, cursor.Some?
    {
      var id := cursor.value;
      if id in seen {
        break;
      }
      seen := seen + {id};
      var row := FirstRow(rows, id);
      if row < |rows| {
        marked := marked[row := true];
      }
      cursor := if id in parents then parents[id] else None;
    }
  }

  function FirstRow(rows: seq<LogEntry>, id: string, from: nat := 0): (k: nat)
    requires from <= |rows|
    ensures from <= k <= |rows|
    ensures k < |rows| ==> rows[k].id == id
    ensures forall j :: from <= j < k ==> rows[j].id != id
    decreases |rows| - from
  {
    if from == |rows| || rows[from].id == id then from else FirstRow(rows, id, from + 1)
  }

  // From the leaf up: known ids, none repeated, each naming the next.
  ghost predicate PartialPath(links: Links, leaf: string, path: seq<string>) {
    && path != [] && path[0] == leaf
    && (forall i :: 0 <= i < |path| ==> path[i] in links)
    && (forall i :: 0 <= i < |path| - 1 ==> links[path[i]] == Some(path[i + 1]))
    && (forall i, j :: 0 <= i < j < |path| ==> path[i] != path[j])
  }

  // Such a path up to a root.
  ghost predicate IsRootPath(links: Links, leaf: string, path: seq<string>) {
    PartialPath(links, leaf, path) && links[path[|path| - 1]] == None
  }

  // The replay walk: all or nothing. A missing id or a repeated one yields no path at all.
  method ReplayPath(links: Links, leaf: string) returns (path: seq<string>)
    ensures path != [] ==> IsRootPath(links, leaf, path) && Branch(links, leaf) == set id | id in path
    ensures path != [] <==> Branch(links, leaf) <= links.Keys && ReachesRoot(links, Branch(links, leaf))
  {
    path := [];
    var cursor := Some(leaf);
    var seen: set<string> := {};
    while cursor.Some?
      invariant seen == (set id | id in path) && seen <= links.Keys
      invariant path == [] ==> cursor == Some(leaf)
      invariant path != [] ==> PartialPath(links, leaf, path) && links[path[|path| - 1]] == cursor
      invariant seen + (if cursor.Some? then Climb(links, cursor.value, seen) else {}) == Branch(links, leaf)
      invariant cursor.Some? ==> forall id :: id in seen ==> HasParent(links, id)
      decreases links.Keys - seen, cursor.Some?
    {
      var id := cursor.value;
      if id in seen {
        return [];
      }
      if id !in links {
        return [];
      }
      ghost var before := path;
      path := path + [id];
      assert (set x | x in path) == seen + {id};
      seen := seen + {id};
      cursor := links[id];
    }
    assert path[|path| - 1] in seen && !HasParent(links, path[|path| - 1]);
  }

  // The rollback walk. It starts at the first entry flagged as leaf, looks parents up by a
  // front-to-back search, keeps only ids that have an entry, and has no guard against cycles.
  method GetBranchEntryIds(log: seq<LogEntry>) returns (ids: set<string>)
    requires WalkEnds(log)
    ensures ids == BranchEntryIds(log)
  {
    ids := {};
    var current := FirstLeaf(log);
    if current.None? {
      return;
    }
    ghost var links, leaf := FirstLinks(log), current.value;
    ghost var above := ClimbFrom(links, leaf.parent, {});
    ghost var seen: set<string> := {};
    while current.Some?
      invariant current.Some? ==> ids + {current.value.id} == {leaf.id} + seen && OnTheWay(links, above, seen, current.value)
      invariant current.None? ==> ids == {leaf.id} + above * links.Keys
      decreases links.Keys - seen, current.Some?
    {
      var e := current.value;
      OneParentUp(log, above, seen, e);
      ids := ids + {e.id};
      current := ParentEntry(log, e);
      if current.Some? { seen := seen + {current.value.id}; }
    }
  }

  function ParentEntry(log: seq<LogEntry>, e: LogEntry): Option<LogEntry> {
    if e.parent.Some? then Find(log, e.parent.value) else None
  }

  ghost function ClimbFrom(links: Links, parent: Option<string>, seen: set<string>): set<string> {
    if parent.Some? then Climb(links, parent.value, seen) else {}
  }

  ghost function BranchEntryIds(log: seq<LogEntry>): set<string> {
    match FirstLeaf(log)
    case None => {}
    case Some(leaf) => {leaf.id} + ClimbFrom(FirstLinks(log), leaf.parent, {}) * FirstLinks(log).Keys
  }

  ghost predicate ReachesRoot(links: Links, ids: set<string>) {
    exists root :: root in ids && !HasParent(links, root)
  }

  // Some id above the leaf has no parent entry, so that the walk comes to an end.
  ghost predicate WalkEnds(log: seq<LogEntry>) {
    var leaf := FirstLeaf(log);
    leaf.Some? && leaf.value.parent.Some? ==>
      ReachesRoot(FirstLinks(log), ClimbFrom(FirstLinks(log), leaf.value.parent, {}))
  }

  // The walk has followed the links of `seen` and stands at an entry that is the last of them,
  // or the leaf.
  ghost predicate OnTheWay(links: Links, above: set<string>, seen: set<string>, e: LogEntry) {
    && seen <= links.Keys && seen + ClimbFrom(links, e.parent, seen) == above
    && (e.parent.Some? ==> ReachesRoot(links, above))
    && forall id :: id in seen ==> HasParent(links, id) || (id == e.id && links[id] == e.parent)
  }

  lemma OneParentUp(log: seq<LogEntry>, above: set<string>, seen: set<string>, e: LogEntry)
    requires OnTheWay(FirstLinks(log), above, seen, e)
    ensures match ParentEntry(log, e)
            case Some(up) => up.id !in seen && OnTheWay(FirstLinks(log), above, seen + {up.id}, up)
            case None => above * FirstLinks(log).Keys == seen
  {
    var links := FirstLinks(log);
    if e.parent.Some? {
      var p := e.parent.value;
      FindFollowsFirstLinks(log, p);
      var root :| root in above && !HasParent(links, root);
      assert root !in seen;
    }
  }

  // The entry at which the walk stands after k steps.
  ghost function EntryAfter(log: seq<LogEntry>, k: nat): Option<LogEntry> {
    if k == 0 then FirstLeaf(log)
    else
      var e := EntryAfter(log, k - 1);
      if e.Some? then ParentEntry(log, e.value) else None
  }

  lemma {:induction false} EndlessWalk(log: seq<LogEntry>, k: nat)
    requires !WalkEnds(log)
    ensures var above := ClimbFrom(FirstLinks(log), FirstLeaf(log).value.parent, {});
            var e := EntryAfter(log, k);
            e.Some? && e.value.parent.Some? && e.value.parent.value in above
  {
    var links, leaf := FirstLinks(log), FirstLeaf(log).value;
    BranchIsLeastClosed(links, leaf.parent.value);
    if k > 0 {
      EndlessWalk(log, k - 1);
      var p := EntryAfter(log, k - 1).value.parent.value;
      FindFollowsFirstLinks(log, p);
      assert HasParent(links, p);
    }
  }

  lemma {:induction false} WalkComesToRest(log: seq<LogEntry>, above: set<string>, seen: set<string>, k: nat) returns (n: nat)
    requires EntryAfter(log, k).Some? && OnTheWay(FirstLinks(log), above, seen, EntryAfter(log, k).value)
    ensures EntryAfter(log, n).None?
    decreases FirstLinks(log).Keys - seen
  {
    OneParentUp(log, above, seen, EntryAfter(log, k).value);
    n := k + 1;
    if EntryAfter(log, k + 1).Some? {
      n := WalkComesToRest(log, above, seen + {EntryAfter(log, k + 1).value.id}, k + 1);
    }
  }

  // The unguarded walk ends exactly when the leaf has no parent or some id above it has none.
  lemma WalkEndsIff(log: seq<LogEntry>)
    ensures WalkEnds(log) <==> exists n: nat :: EntryAfter(log, n).None?
  {
    if WalkEnds(log) {
      if FirstLeaf(log).None? {
        assert EntryAfter(log, 0).None?;
      } else {
        var n := WalkComesToRest(log, ClimbFrom(FirstLinks(log), FirstLeaf(log).value.parent, {}), {}, 0);
      }
    } else {
      forall n: nat
        ensures EntryAfter(log, n).Some?
      {
        EndlessWalk(log, n);
      }
    }
  }

  // Two entries that name each other keep the walk going forever.
  lemma {:induction false} TwoEntryCycleNeverEnds(a: string, b: string, k: nat)
    requires a != b
    ensures var log := [LogEntry(a, Some(b), true), LogEntry(b, Some(a), false)];
            EntryAfter(log, k) == Some(log[k % 2]) && !WalkEnds(log)
  {
    var log := [LogEntry(a, Some(b), true), LogEntry(b, Some(a), false)];
    CycleSteps(log, a, b, k);
    forall n: nat
      ensures EntryAfter(log, n).Some?
    {
      CycleSteps(log, a, b, n);
    }
    WalkEndsIff(log);
  }

  lemma {:induction false} CycleSteps(log: seq<LogEntry>, a: string, b: string, k: nat)
    requires a != b && log == [LogEntry(a, Some(b), true), LogEntry(b, Some(a), false)]
    ensures EntryAfter(log, k) == Some(log[k % 2])
  {
    if k > 0 {
      CycleSteps(log, a, b, k - 1);
      assert log[1..][0] == log[1];
    }
  }

  function FirstLeaf(log: seq<LogEntry>): (e: Option<LogEntry>)
    ensures e.Some? ==> e.value in log && e.value.isLeaf
    ensures e.None? ==> forall x :: x in log ==> !x.isLeaf
  {
    if log == [] then None
    else if log[0].isLeaf then Some(log[0])
    else FirstLeaf(log[1..])
  }

  // The leaf is the first entry that is flagged, and a search finds the first entry of an id.
  lemma {:induction false} FirstLeafIs(log: seq<LogEntry>, i: nat)
    requires i < |log| && log[i].isLeaf && forall j :: 0 <= j < i ==> !log[j].isLeaf
    ensures FirstLeaf(log) == Some(log[i])
  {
    if i > 0 {
      FirstLeafIs(log[1..], i - 1);
    }
  }

  lemma {:induction false} FindIs(log: seq<LogEntry>, i: nat)
    requires i < |log| && forall j :: 0 <= j < i ==> log[j].id != log[i].id
    ensures Find(log, log[i].id) == Some(log[i])
  {
    if i > 0 {
      FindIs(log[1..], i - 1);
    }
  }

  // ---------------------------------------------------------------------------
  // Agreement
  // ---------------------------------------------------------------------------

  lemma {:induction false} BranchUnfolds(links: Links, id: string)
    requires HasParent(links, id)
    ensures Branch(links, id) == {id} + Branch(links, links[id].value)
  {
    var up := links[id].value;
    BranchIsLeastClosed(links, id);
    BranchIsLeastClosed(links, up);
    assert Closed(links, {id} + Branch(links, up));
  }

  // With unique ids the rollback walk sees the known ids of the same branch as the others,
  // and ends exactly when that branch reaches a root.
  lemma {:induction false} UniqueBranch(log: seq<LogEntry>)
    requires UniqueIds(log) && FirstLeaf(log).Some?
    ensures var links, leaf := LastLinks(log), FirstLeaf(log).value.id;
            && leaf in links
            && BranchEntryIds(log) == Branch(links, leaf) * links.Keys
            && (WalkEnds(log) <==> ReachesRoot(links, Branch(links, leaf)))
  {
    var links, leaf := LastLinks(log), FirstLeaf(log).value;
    UniqueIdsUniqueLinks(log);
    UniqueLink(log, leaf);
    if leaf.parent.Some? {
      BranchUnfolds(links, leaf.id);
    } else {
      assert leaf.id in Branch(links, leaf.id) && !HasParent(links, leaf.id);
    }
  }

  // The four walks on a log with unique ids. The metrics and the marking walk see the whole
  // branch, the rollback walk its known ids, and the replay walk the branch or nothing. All
  // of them agree exactly when every id on the branch is known.
  method AllWalksAgree(log: seq<LogEntry>)
    returns (metrics: set<string>, marked: seq<bool>, path: seq<string>, rollback: set<string>)
    requires UniqueIds(log) && FirstLeaf(log).Some? && WalkEnds(log)
    ensures |marked| == |log| && forall k :: 0 <= k < |log| ==> (marked[k] <==> log[k].id in metrics)
    ensures rollback == metrics * LastLinks(log).Keys
    ensures metrics == rollback <==> path != []
    ensures path != [] ==> IsRootPath(LastLinks(log), FirstLeaf(log).value.id, path) && metrics == set id | id in path
  {
    var leaf := FirstLeaf(log).value;
    UniqueBranch(log);
    metrics := ActiveBranchIdSet(log, Some(leaf.id));
    marked := MarkActivePath(log, leaf.id);
    path := ReplayPath(LastLinks(log), leaf.id);
    rollback := GetBranchEntryIds(log);
    forall k | 0 <= k < |log|
      ensures FirstRow(log, log[k].id) == k
    {
      var first := FirstRow(log, log[k].id);
      assert first <= k;
    }
  }

  // Unique ids, every named parent present, and every parent ranked below its child.
  ghost predicate WellFormed(log: seq<LogEntry>, rank: string -> nat) {
    && UniqueIds(log)
    && forall e :: e in log && e.parent.Some? ==> rank(e.parent.value) < rank(e.id) && e.parent.value in LastLinks(log)
  }

  lemma {:induction false} LinkComesFromEntry(log: seq<LogEntry>, id: string)
    requires id in LastLinks(log)
    ensures exists e :: e in log && e.id == id && e.parent == LastLinks(log)[id]
  {
    var n := |log| - 1;
    if log[n].id == id {
      assert log[n] in log;
    } else {
      LinkComesFromEntry(log[..n], id);
      var e :| e in log[..n] && e.id == id && e.parent == LastLinks(log[..n])[id];
      assert e in log;
    }
  }

  lemma {:induction false} RootExists(log: seq<LogEntry>, rank: string -> nat, s: set<string>, id: string)
    requires WellFormed(log, rank) && Closed(LastLinks(log), s) && id in s && id in LastLinks(log)
    ensures ReachesRoot(LastLinks(log), s)
    decreases rank(id)
  {
    var links := LastLinks(log);
    if HasParent(links, id) {
      LinkComesFromEntry(log, id);
      RootExists(log, rank, s, links[id].value);
    }
  }

  // On a well-formed log, one without cycles or missing parents, the branch of a present leaf
  // is known and reaches a root: all four walks end and agree.
  lemma {:induction false} WellFormedBranch(log: seq<LogEntry>, rank: string -> nat, leaf: string)
    requires WellFormed(log, rank) && leaf in LastLinks(log)
    ensures Branch(LastLinks(log), leaf) <= LastLinks(log).Keys && ReachesRoot(LastLinks(log), Branch(LastLinks(log), leaf))
    ensures WalkEnds(log)
  {
    var links := LastLinks(log);
    forall id | id in links.Keys && HasParent(links, id) ensures links[id].value in links.Keys {
      LinkComesFromEntry(log, id);
    }
    BranchIsLeastClosed(links, leaf);
    assert Closed(links, links.Keys);
    RootExists(log, rank, Branch(links, leaf), leaf);
    if FirstLeaf(log).Some? {
      UniqueBranch(log);
      var first := FirstLeaf(log).value.id;
      BranchIsLeastClosed(links, first);
      RootExists(log, rank, Branch(links, first), first);
    }
  }
}
