/** Planning a rollback against the disk, and carrying the plan out. */
module RollbackPlan {
  import opened Options
  import opened RollbackJournal

  datatype Action = Restore | Delete | Noop

  datatype PlannedPath = PlannedPath(
    path: Path, action: Action, currentDigest: Option<string>, targetDigest: Option<string>)

  datatype Problem = TargetNotOnBranch | ExpectedAbsent | ExpectedContent | ContentMismatch

  datatype Conflict = Conflict(subject: string, problem: Problem)

  datatype Plan = Plan(eligible: bool, paths: seq<PlannedPath>, conflicts: seq<Conflict>)

  function DigestOf(ref: Ref): Option<string> {
    if ref.Blob? then Some(ref.hash) else None
  }

  // What the planning loop adds for one path. A path that should be and is absent gets a
  // no-op entry in addition to the one for its target state.
  function PlanPath(current: Ref, first: Mutation, last: Mutation): (seq<PlannedPath>, seq<Conflict>) {
    var p := last.path;
    if last.after == Absent && current != Absent then ([], [Conflict(p, ExpectedAbsent)])
    else if last.after.Blob? && current == Absent then ([], [Conflict(p, ExpectedContent)])
    else if last.after.Blob? && current != last.after then ([], [Conflict(p, ContentMismatch)])
    else
      var extra := if last.after == Absent then [PlannedPath(p, Noop, None, None)] else [];
      var action := if first.before == Absent then (if current != Absent then Delete else Noop)
                    else (if current == first.before then Noop else Restore);
      (extra + [PlannedPath(p, action, DigestOf(current), DigestOf(first.before))], [])
  }

  // The path is not in the state that its last selected mutation left.
  ghost predicate Drifted(sha: Digest, disk: Disk, ms: seq<Mutation>, p: Path) {
    LastOn(ms, p).Some? && RefOf(sha, StateAt(disk, p)) != LastOn(ms, p).value.after
  }

  // The path is not in the state before its first selected mutation.
  ghost predicate NeedsWork(sha: Digest, disk: Disk, ms: seq<Mutation>, p: Path) {
    FirstOn(ms, p).Some? && RefOf(sha, StateAt(disk, p)) != FirstOn(ms, p).value.before
  }

  // An entry is planned for an undrifted path, acts only where work is needed, and then
  // leads to the state before the first selected mutation.
  ghost predicate EntryFits(sha: Digest, disk: Disk, ms: seq<Mutation>, e: PlannedPath) {
    && FirstOn(ms, e.path).Some? && !Drifted(sha, disk, ms, e.path)
    && (e.action != Noop ==> NeedsWork(sha, disk, ms, e.path))
    && (e.action == Delete ==> FirstOn(ms, e.path).value.before == Absent && e.targetDigest == None)
    && (e.action == Restore ==>
          e.targetDigest.Some? && FirstOn(ms, e.path).value.before == Blob(e.targetDigest.value))
    && (e.action == Noop ==> e.targetDigest == e.currentDigest && (e.path in disk ==> !NeedsWork(sha, disk, ms, e.path)))
    && e.currentDigest == if e.path in disk then Some(sha(disk[e.path])) else None
  }

  // A conflict says how the path differs from what its last selected mutation left.
  ghost predicate ConflictFits(disk: Disk, ms: seq<Mutation>, c: Conflict) {
    && LastOn(ms, c.subject).Some?
    && (c.problem == ExpectedAbsent <==> LastOn(ms, c.subject).value.after == Absent)
    && (c.problem == ExpectedContent <==> LastOn(ms, c.subject).value.after != Absent && c.subject !in disk)
    && c.problem != TargetNotOnBranch
  }

  // Every covered path is either reported as drifted or, if it needs work, acted on.
  ghost predicate Fits(sha: Digest, disk: Disk, ms: seq<Mutation>, covered: set<Path>,
                       paths: seq<PlannedPath>, conflicts: seq<Conflict>) {
    && (forall e :: e in paths ==> e.path in covered && EntryFits(sha, disk, ms, e))
    && (forall c :: c in conflicts ==> 
          c.subject in covered && Drifted(sha, disk, ms, c.subject) && ConflictFits(disk, ms, c))
    && (forall p :: p in covered && Drifted(sha, disk, ms, p) ==> exists c :: c in conflicts && c.subject == p)
    && (forall p :: p in covered && !Drifted(sha, disk, ms, p) && NeedsWork(sha, disk, ms, p) ==>
          exists e :: e in paths && e.path == p && e.action != Noop)
  }

  // What the loop adds for one path is either one conflict or entries that fit.
  lemma PlanPathAlone(sha: Digest, disk: Disk, ms: seq<Mutation>, p: Path)
    requires FirstOn(ms, p).Some? && LastOn(ms, p).Some?
    ensures var (es, cs) := PlanPath(RefOf(sha, StateAt(disk, p)), FirstOn(ms, p).value, LastOn(ms, p).value);
            if Drifted(sha, disk, ms, p)
            then es == [] && |cs| == 1 && cs[0].subject == p && ConflictFits(disk, ms, cs[0])
            else cs == [] && es != [] && (forall e :: e in es ==> e.path == p && EntryFits(sha, disk, ms, e)) &&
                 (NeedsWork(sha, disk, ms, p) ==> es[|es| - 1].action != Noop) &&
                 |es| == (if LastOn(ms, p).value.after == Absent then 2 else 1)
  {
  }

  lemma {:induction false} PlanPathFits(sha: Digest, disk: Disk, ms: seq<Mutation>, covered: set<Path>,
                                        paths: seq<PlannedPath>, conflicts: seq<Conflict>, p: Path)
    requires Fits(sha, disk, ms, covered, paths, conflicts)
    requires p !in covered && FirstOn(ms, p).Some? && LastOn(ms, p).Some?
    ensures var (es, cs) := PlanPath(RefOf(sha, StateAt(disk, p)), FirstOn(ms, p).value, LastOn(ms, p).value);
            Fits(sha, disk, ms, covered + {p}, paths + es, conflicts + cs)
  {
    var (es, cs) := PlanPath(RefOf(sha, StateAt(disk, p)), FirstOn(ms, p).value, LastOn(ms, p).value);
    PlanPathAlone(sha, disk, ms, p);
    OnePathMore(sha, disk, ms, covered, paths, conflicts, p, es, cs);
  }

  lemma OnePathMore(sha: Digest, disk: Disk, ms: seq<Mutation>, covered: set<Path>, paths: seq<PlannedPath>,
                    conflicts: seq<Conflict>, p: Path, es: seq<PlannedPath>, cs: seq<Conflict>)
    requires Fits(sha, disk, ms, covered, paths, conflicts)
    requires if Drifted(sha, disk, ms, p)
             then es == [] && |cs| == 1 && cs[0].subject == p && ConflictFits(disk, ms, cs[0])
             else cs == [] && es != [] && (forall e :: e in es ==> e.path == p && EntryFits(sha, disk, ms, e)) &&
                  (NeedsWork(sha, disk, ms, p) ==> es[|es| - 1].action != Noop)
    ensures Fits(sha, disk, ms, covered + {p}, paths + es, conflicts + cs)
  {
    forall q | q in covered + {p} && Drifted(sha, disk, ms, q)
      ensures exists c :: c in conflicts + cs && c.subject == q
    {
      if q == p {
        assert cs[0] in conflicts + cs;
      } else {
        var c :| c in conflicts && c.subject == q;
        assert c in conflicts + cs;
      }
    }
    forall q | q in covered + {p} && !Drifted(sha, disk, ms, q) && NeedsWork(sha, disk, ms, q)
      ensures exists e :: e in paths + es && e.path == q && e.action != Noop
    {
      if q == p {
        assert es[|es| - 1] in paths + es;
      } else {
        var e :| e in paths && e.path == q && e.action != Noop;
        assert e in paths + es;
      }
    }
  }

  function EntriesOn(paths: seq<PlannedPath>, p: Path): nat {
    if paths == [] then 0
    else EntriesOn(paths[..|paths| - 1], p) + if paths[|paths| - 1].path == p then 1 else 0
  }

  function ConflictsOn(conflicts: seq<Conflict>, p: Path): nat {
    if conflicts == [] then 0
    else ConflictsOn(conflicts[..|conflicts| - 1], p) + if conflicts[|conflicts| - 1].subject == p then 1 else 0
  }

  // A drifted path is reported once and has no entry; any other covered one has one entry, or
  // two if it should be, and is, absent.
  ghost predicate Counted(sha: Digest, disk: Disk, ms: seq<Mutation>, covered: set<Path>,
                          paths: seq<PlannedPath>, conflicts: seq<Conflict>) {
    forall p ::
      && EntriesOn(paths, p) == (if p !in covered || Drifted(sha, disk, ms, p) then 0
                                 else if LastOn(ms, p).Some? && LastOn(ms, p).value.after == Absent then 2 else 1)
      && ConflictsOn(conflicts, p) == if p in covered && Drifted(sha, disk, ms, p) then 1 else 0
  }

  lemma EntriesOnMore(paths: seq<PlannedPath>, es: seq<PlannedPath>, p: Path, q: Path)
    requires |es| <= 2 && forall e :: e in es ==> e.path == p
    ensures EntriesOn(paths + es, q) == EntriesOn(paths, q) + if q == p then |es| else 0
  {
    if |es| == 0 {
      assert paths + es == paths;
    } else if |es| == 1 {
      assert es[0] in es && (paths + es)[..|paths|] == paths;
    } else {
      assert es[0] in es && es[1] in es;
      assert (paths + es)[..|paths| + 1] == paths + [es[0]] && (paths + [es[0]])[..|paths|] == paths;
    }
  }

  lemma {:induction false} PlanPathCounts(sha: Digest, disk: Disk, ms: seq<Mutation>, covered: set<Path>,
                                          paths: seq<PlannedPath>, conflicts: seq<Conflict>, p: Path)
    requires Counted(sha, disk, ms, covered, paths, conflicts)
    requires p !in covered && FirstOn(ms, p).Some? && LastOn(ms, p).Some?
    ensures var (es, cs) := PlanPath(RefOf(sha, StateAt(disk, p)), FirstOn(ms, p).value, LastOn(ms, p).value);
            Counted(sha, disk, ms, covered + {p}, paths + es, conflicts + cs)
  {
    var (es, cs) := PlanPath(RefOf(sha, StateAt(disk, p)), FirstOn(ms, p).value, LastOn(ms, p).value);
    PlanPathAlone(sha, disk, ms, p);
    forall q
      ensures EntriesOn(paths + es, q) == EntriesOn(paths, q) + if q == p then |es| else 0
      ensures ConflictsOn(conflicts + cs, q) == ConflictsOn(conflicts, q) + if q == p then |cs| else 0
    {
      EntriesOnMore(paths, es, p, q);
      if cs == [] {
        assert conflicts + cs == conflicts;
      } else {
        assert (conflicts + cs)[..|conflicts|] == conflicts;
      }
    }
  }

  ghost predicate PlannedFor(sha: Digest, disk: Disk, ms: seq<Mutation>, covered: set<Path>,
                             paths: seq<PlannedPath>, conflicts: seq<Conflict>) {
    Fits(sha, disk, ms, covered, paths, conflicts) && Counted(sha, disk, ms, covered, paths, conflicts)
  }

  lemma PlanOnePath(sha: Digest, disk: Disk, ms: seq<Mutation>, covered: set<Path>, paths: seq<PlannedPath>,
                    conflicts: seq<Conflict>, p: Path, first: Mutation, last: Mutation)
    requires PlannedFor(sha, disk, ms, covered, paths, conflicts) && p !in covered
    requires FirstOn(ms, p) == Some(first) && LastOn(ms, p) == Some(last)
    ensures var (es, cs) := PlanPath(RefOf(sha, StateAt(disk, p)), first, last);
            PlannedFor(sha, disk, ms, covered + {p}, paths + es, conflicts + cs)
  {
    PlanPathFits(sha, disk, ms, covered, paths, conflicts, p);
    PlanPathCounts(sha, disk, ms, covered, paths, conflicts, p);
  }

  function Touched(ms: seq<Mutation>): set<Path> {
    set m | m in ms :: m.path
  }

  lemma TouchedIff(ms: seq<Mutation>, p: Path)
    ensures p in Touched(ms) <==> FirstOn(ms, p).Some?
    ensures p in Touched(ms) <==> LastOn(ms, p).Some?
  {
    if p in Touched(ms) {
      var m :| m in ms && m.path == p;
      FirstAndLastFound(ms, m);
    }
  }

  function HasWork(paths: seq<PlannedPath>): (b: bool)
    ensures b <==> exists e :: e in paths && e.action != Noop
  {
    exists e :: e in paths && e.action != Noop
  }

  ghost predicate IsPlan(sha: Digest, disk: Disk, ms: seq<Mutation>, plan: Plan) {
    && Fits(sha, disk, ms, Touched(ms), plan.paths, plan.conflicts)
    && Counted(sha, disk, ms, Touched(ms), plan.paths, plan.conflicts)
    && plan.eligible == (plan.conflicts == [] && HasWork(plan.paths))
  }

  // A plan is eligible exactly when no touched path has drifted and some path needs work.
  lemma EligibleIff(sha: Digest, disk: Disk, ms: seq<Mutation>, plan: Plan)
    requires IsPlan(sha, disk, ms, plan)
    ensures plan.conflicts == [] <==> forall p :: !Drifted(sha, disk, ms, p)
    ensures plan.eligible <==>
            (forall p :: !Drifted(sha, disk, ms, p)) && exists p :: NeedsWork(sha, disk, ms, p)
  {
    forall p ensures Drifted(sha, disk, ms, p) || NeedsWork(sha, disk, ms, p) ==> p in Touched(ms) {
      TouchedIff(ms, p);
    }
    if plan.conflicts != [] {
      assert plan.conflicts[0] in plan.conflicts;
    } else {
      if HasWork(plan.paths) {
        var e :| e in plan.paths && e.action != Noop;
        assert NeedsWork(sha, disk, ms, e.path);
      }
    }
  }

  // ---------------------------------------------------------------------------
  // Carrying a plan out
  // ---------------------------------------------------------------------------

  function Active(paths: seq<PlannedPath>): (r: seq<PlannedPath>)
    ensures forall e :: e in r <==> e in paths && e.action != Noop
  {
    if paths == [] then []
    else (if paths[0].action != Noop then [paths[0]] else []) + Active(paths[1..])
  }

  // The active entries keep their order: the first one comes first, and the others follow.
  lemma {:induction false} ActiveKeepsTheOrder(paths: seq<PlannedPath>, i: nat)
    requires i < |paths| && paths[i].action != Noop && forall j :: 0 <= j < i ==> paths[j].action == Noop
    ensures Active(paths) == [paths[i]] + Active(paths[i + 1..])
  {
    if i > 0 {
      ActiveKeepsTheOrder(paths[1..], i - 1);
      assert paths[1..][i..] == paths[i + 1..];
    }
  }

  predicate CanApply(blobs: Blobs, e: PlannedPath) {
    e.action == Restore && e.targetDigest.Some? ==> e.targetDigest.value in blobs
  }

  function Apply(blobs: Blobs, disk: Disk, e: PlannedPath): Disk {
    if e.action == Delete then disk - {e.path}
    else if e.action == Restore && e.targetDigest.Some? && e.targetDigest.value in blobs
    then disk[e.path := blobs[e.targetDigest.value]]
    else disk
  }

  function ApplyAll(blobs: Blobs, disk: Disk, es: seq<PlannedPath>): Disk {
    if es == [] then disk
    else Apply(blobs, ApplyAll(blobs, disk, es[..|es| - 1]), es[|es| - 1])
  }

  // The first entry from `from` on whose blob is missing, or the number of entries.
  function FirstMissing(blobs: Blobs, es: seq<PlannedPath>, from: nat := 0): (k: nat)
    requires from <= |es|
    ensures from <= k <= |es|
    ensures forall j :: from <= j < k ==> CanApply(blobs, es[j])
    ensures k < |es| ==> !CanApply(blobs, es[k])
    decreases |es| - from
  {
    if from == |es| || !CanApply(blobs, es[from]) then from else FirstMissing(blobs, es, from + 1)
  }

  ghost predicate AllFit(sha: Digest, disk: Disk, ms: seq<Mutation>, es: seq<PlannedPath>) {
    forall i :: 0 <= i < |es| ==> es[i].action != Noop && EntryFits(sha, disk, ms, es[i])
  }

  ghost predicate Mentions(es: seq<PlannedPath>, p: Path) {
    exists i :: 0 <= i < |es| && es[i].path == p
  }

  lemma MentionsSnoc(es: seq<PlannedPath>, p: Path)
    requires es != []
    ensures Mentions(es, p) <==> Mentions(es[..|es| - 1], p) || es[|es| - 1].path == p
  {
    if Mentions(es[..|es| - 1], p) {
      var i :| 0 <= i < |es| - 1 && es[..|es| - 1][i].path == p;
      assert es[i].path == p;
    }
  }

  lemma {:induction false} AppliedAt(sha: Digest, blobs: Blobs, disk: Disk, ms: seq<Mutation>,
                                     es: seq<PlannedPath>, p: Path)
    requires AllStored(blobs, ms) && AllFit(sha, disk, ms, es)
    ensures StateAt(ApplyAll(blobs, disk, es), p) ==
            if Mentions(es, p) then RestoredAt(blobs, disk, ms, p) else StateAt(disk, p)
    decreases |es|
  {
    if es != [] {
      var n := |es| - 1;
      AppliedAt(sha, blobs, disk, ms, es[..n], p);
      MentionsSnoc(es, p);
      EntryRestores(sha, blobs, disk, ms, ApplyAll(blobs, disk, es[..n]), es[n], p);
    }
  }

  lemma EntryRestores(sha: Digest, blobs: Blobs, disk: Disk, ms: seq<Mutation>, now: Disk, e: PlannedPath, p: Path)
    requires AllStored(blobs, ms) && e.action != Noop && EntryFits(sha, disk, ms, e)
    ensures CanApply(blobs, e)
    ensures StateAt(Apply(blobs, now, e), p) == if e.path == p then RestoredAt(blobs, disk, ms, p) else StateAt(now, p)
  {
  }

  // Carrying an unconflicted plan out puts every touched path into the state before its
  // first selected mutation and leaves every other path alone. No blob is missing.
  lemma PlanRestores(sha: Digest, blobs: Blobs, disk: Disk, ms: seq<Mutation>, plan: Plan, p: Path)
    requires NoCollisions(sha) && ContentAddressed(sha, blobs) && AllStored(blobs, ms)
    requires IsPlan(sha, disk, ms, plan) && plan.conflicts == []
    ensures FirstMissing(blobs, Active(plan.paths)) == |Active(plan.paths)|
    ensures StateAt(ApplyAll(blobs, disk, Active(plan.paths)), p) == RestoredAt(blobs, disk, ms, p)
  {
    var es := Active(plan.paths);
    assert forall i :: 0 <= i < |es| ==> es[i] in es;
    AppliedAt(sha, blobs, disk, ms, es, p);
    var k := FirstMissing(blobs, es);
    if k < |es| {
      EntryRestores(sha, blobs, disk, ms, disk, es[k], p);
    }
    if FirstOn(ms, p).Some? && !Mentions(es, p) {
      TouchedIff(ms, p);
      assert !Drifted(sha, disk, ms, p);
      assert !NeedsWork(sha, disk, ms, p);
      RefsAreFaithful(sha, blobs, FirstOn(ms, p).value.before, StateAt(disk, p));
    }
  }

  // A fully recorded run never drifts: only external changes and unrecorded writes do.
  lemma {:induction false} RecordedRunNeverDrifts(sha: Digest, blobs: Blobs, start: Disk, ms: seq<Mutation>, p: Path)
    requires NoCollisions(sha) && ContentAddressed(sha, blobs) && AllStored(blobs, ms)
    ensures !Drifted(sha, Replayed(blobs, start, ms), ms, p)
  {
    ReplayedEndsAtLast(blobs, start, ms, p);
    if LastOn(ms, p).Some? {
      RefsAreFaithful(sha, blobs, LastOn(ms, p).value.after, StateAt(Replayed(blobs, start, ms), p));
    }
  }
}
