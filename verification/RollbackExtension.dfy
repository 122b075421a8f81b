/** The rollback extension: its tools, its journal file, and rollback requests. */
module RollbackExtension {
  import opened Options
  import opened RollbackJournal
  import opened RollbackTools
  import opened RollbackRuns
  import opened RollbackPlan
  import opened ParentWalks

  datatype TxState = Prepared | Committed | Failed

  datatype Record =
    | MutationRecord(mutation: Mutation)
    | TransactionRecord(targetEntryId: string, sourceLeafId: string, plannedPaths: seq<Path>, state: TxState)

  function Mutations(records: seq<Record>): seq<Mutation> {
    if records == [] then []
    else
      var n := |records| - 1;
      var front := Mutations(records[..n]);
      if records[n].MutationRecord? then front + [records[n].mutation] else front
  }

  function Transactions(records: seq<Record>): seq<Record> {
    if records == [] then []
    else
      var n := |records| - 1;
      var front := Transactions(records[..n]);
      if records[n].TransactionRecord? then front + [records[n]] else front
  }

  function AsRecords(ms: seq<Mutation>): seq<Record> {
    if ms == [] then [] else AsRecords(ms[..|ms| - 1]) + [MutationRecord(ms[|ms| - 1])]
  }

  // ---------------------------------------------------------------------------
  // Sorting the journal file
  // ---------------------------------------------------------------------------

  function SortKey(r: Record): nat {
    if r.MutationRecord? then r.mutation.sequence else 0
  }

  // A stable sort by sequence number, in which transactions count as number zero.
  function StableSort(records: seq<Record>): seq<Record> {
    if records == [] then []
    else InsertRecord(StableSort(records[..|records| - 1]), records[|records| - 1])
  }

  function InsertRecord(sorted: seq<Record>, r: Record): seq<Record> {
    if sorted != [] && SortKey(sorted[|sorted| - 1]) > SortKey(r)
    then InsertRecord(sorted[..|sorted| - 1], r) + [sorted[|sorted| - 1]]
    else sorted + [r]
  }

  ghost predicate InOrder(records: seq<Record>) {
    records == [] ||
    var n := |records| - 1;
    InOrder(records[..n]) && (n > 0 ==> SortKey(records[n - 1]) <= SortKey(records[n]))
  }

  lemma MutationsSnoc(records: seq<Record>, r: Record)
    ensures Mutations(records + [r]) ==
            if r.MutationRecord? then Mutations(records) + [r.mutation] else Mutations(records)
  {
    assert (records + [r])[..|records|] == records;
  }

  lemma {:induction false} LastMutation(records: seq<Record>)
    requires InOrder(records) && Mutations(records) != []
    ensures Mutations(records)[|Mutations(records)| - 1].sequence <= SortKey(records[|records| - 1])
  {
    var n := |records| - 1;
    if !records[n].MutationRecord? {
      LastMutation(records[..n]);
    }
  }

  lemma InOrderSnoc(records: seq<Record>, r: Record)
    ensures InOrder(records + [r]) <==>
            InOrder(records) && (records != [] ==> SortKey(records[|records| - 1]) <= SortKey(r))
  {
    assert (records + [r])[..|records|] == records;
  }

  lemma {:induction false} InsertKeepsOrder(sorted: seq<Record>, r: Record)
    requires InOrder(sorted)
    ensures InOrder(InsertRecord(sorted, r))
    ensures var all := InsertRecord(sorted, r);
            SortKey(all[|all| - 1]) == (if sorted != [] && SortKey(sorted[|sorted| - 1]) > SortKey(r)
                                        then SortKey(sorted[|sorted| - 1]) else SortKey(r))
  {
    if sorted != [] && SortKey(sorted[|sorted| - 1]) > SortKey(r) {
      var front, last := sorted[..|sorted| - 1], sorted[|sorted| - 1];
      InsertKeepsOrder(front, r);
      InOrderSnoc(InsertRecord(front, r), last);
    } else {
      InOrderSnoc(sorted, r);
    }
  }

  lemma {:induction false} InsertMutation(sorted: seq<Record>, r: Record)
    requires InOrder(sorted)
    ensures Mutations(InsertRecord(sorted, r)) ==
            if r.MutationRecord? then Insert(Mutations(sorted), r.mutation) else Mutations(sorted)
  {
    if sorted != [] && SortKey(sorted[|sorted| - 1]) > SortKey(r) {
      var front, last := sorted[..|sorted| - 1], sorted[|sorted| - 1];
      InsertMutation(front, r);
      MutationsSnoc(InsertRecord(front, r), last);
      assert (Mutations(front) + [last.mutation])[..|Mutations(front)|] == Mutations(front);
    } else {
      MutationsSnoc(sorted, r);
      if Mutations(sorted) != [] {
        LastMutation(sorted);
      }
    }
  }

  lemma SortedSnoc(ms: seq<Mutation>, m: Mutation)
    ensures Sorted(ms + [m]) == Insert(Sorted(ms), m)
  {
    assert (ms + [m])[..|ms|] == ms;
  }

  // Sorting all records sorts the mutations among them.
  lemma {:induction false} MutationsOfSorted(records: seq<Record>)
    ensures InOrder(StableSort(records)) && Mutations(StableSort(records)) == Sorted(Mutations(records))
  {
    if records != [] {
      var front, last := records[..|records| - 1], records[|records| - 1];
      MutationsOfSorted(front);
      InsertKeepsOrder(StableSort(front), last);
      InsertMutation(StableSort(front), last);
      assert StableSort(records) == InsertRecord(StableSort(front), last);
      if last.MutationRecord? {
        SortedSnoc(Mutations(front), last.mutation);
      }
    }
  }

  lemma {:induction false} MutationsOfRecords(ms: seq<Mutation>)
    ensures Mutations(AsRecords(ms)) == ms
  {
    if ms != [] {
      var n := |ms| - 1;
      MutationsOfRecords(ms[..n]);
      MutationsSnoc(AsRecords(ms[..n]), MutationRecord(ms[n]));
    }
  }

  lemma {:induction false} TransactionsAddNone(records: seq<Record>, more: seq<Record>)
    ensures Mutations(records + Transactions(more)) == Mutations(records)
  {
    if more == [] {
      assert records + Transactions(more) == records;
    } else {
      var n := |more| - 1;
      TransactionsAddNone(records, more[..n]);
      if more[n].TransactionRecord? {
        assert records + Transactions(more) == (records + Transactions(more[..n])) + [more[n]];
        MutationsSnoc(records + Transactions(more[..n]), more[n]);
      }
    }
  }

  lemma TransactionsSnoc(records: seq<Record>, r: Record)
    ensures Transactions(records + [r]) ==
            if r.TransactionRecord? then Transactions(records) + [r] else Transactions(records)
  {
    assert (records + [r])[..|records|] == records;
  }

  lemma {:induction false} InsertTransaction(sorted: seq<Record>, r: Record)
    ensures Transactions(InsertRecord(sorted, r)) ==
            if r.TransactionRecord? then Transactions(sorted) + [r] else Transactions(sorted)
  {
    if sorted != [] && SortKey(sorted[|sorted| - 1]) > SortKey(r) {
      var front, last := sorted[..|sorted| - 1], sorted[|sorted| - 1];
      InsertTransaction(front, r);
      TransactionsSnoc(InsertRecord(front, r), last);
    } else {
      TransactionsSnoc(sorted, r);
    }
  }

  // Sorting keeps the transactions in their order.
  lemma {:induction false} TransactionsOfSorted(records: seq<Record>)
    ensures Transactions(StableSort(records)) == Transactions(records)
  {
    if records != [] {
      var front, last := records[..|records| - 1], records[|records| - 1];
      TransactionsOfSorted(front);
      InsertTransaction(StableSort(front), last);
    }
  }

  lemma {:induction false} MutationsAddNone(ms: seq<Mutation>, more: seq<Record>)
    ensures Transactions(AsRecords(ms) + Transactions(more)) == Transactions(more)
    decreases |ms| + |more|
  {
    if more != [] {
      var n := |more| - 1;
      MutationsAddNone(ms, more[..n]);
      if more[n].TransactionRecord? {
        assert AsRecords(ms) + Transactions(more) == (AsRecords(ms) + Transactions(more[..n])) + [more[n]];
        TransactionsSnoc(AsRecords(ms) + Transactions(more[..n]), more[n]);
      }
    } else if ms != [] {
      var n := |ms| - 1;
      MutationsAddNone(ms[..n], []);
      assert AsRecords(ms) + [] == (AsRecords(ms[..n]) + []) + [MutationRecord(ms[n])];
      TransactionsSnoc(AsRecords(ms[..n]) + [], MutationRecord(ms[n]));
    }
  }

  // The rewritten file holds the mutations in the order of their numbers, and all transactions.
  lemma RewrittenJournal(ms: seq<Mutation>, records: seq<Record>)
    ensures Mutations(StableSort(AsRecords(ms) + Transactions(records))) == Sorted(ms)
    ensures Transactions(StableSort(AsRecords(ms) + Transactions(records))) == Transactions(records)
  {
    MutationsOfSorted(AsRecords(ms) + Transactions(records));
    TransactionsAddNone(AsRecords(ms), records);
    MutationsOfRecords(ms);
    TransactionsOfSorted(AsRecords(ms) + Transactions(records));
    MutationsAddNone(ms, records);
  }

  // ---------------------------------------------------------------------------
  // The extension
  // ---------------------------------------------------------------------------

  datatype Outcome = RolledBack | Refused(plan: Plan) | Broken

  class Extension {
    const sha: Digest
    var active: bool
    var sequence: nat
    var journal: seq<Record>
    var blobs: Blobs
    var files: Disk
    var symlinks: set<Path>
    var editSlot: Slot
    // The suspended tool calls, by the path they hold, and the suspended binding with the
    // records it has read.
    var calls: map<Path, Phase>
    var binder: Binder
    var reloaded: seq<Record>

    ghost function View(): State
      reads this
    {
      State(files, blobs, sequence, Mutations(journal), editSlot, calls, binder)
    }

    // Every reference in the journal, or on its way there, has its blob.
    ghost predicate Valid()
      reads this
    {
      NoCollisions(sha) && StoreFits(sha, View()) && (binder.Reloaded? ==> Mutations(reloaded) == binder.snapshot)
    }

    constructor (sha: Digest, files: Disk, symlinks: set<Path>)
      requires NoCollisions(sha)
      ensures Valid() && this.sha == sha && View() == RollbackTools.Start(files)
    {
      this.sha, this.files, this.symlinks := sha, files, symlinks;
      active, sequence, journal, blobs, editSlot := true, 0, [], map[], None;
      calls, binder, reloaded := map[], Resting, [];
    }

    method WriteBlob(data: Content) returns (hash: Option<string>)
      requires NoCollisions(sha) && ContentAddressed(sha, blobs)
      modifies this`blobs
      ensures if |data| > MAX_BLOB_SIZE then hash == None && blobs == old(blobs)
              else hash == Some(sha(data)) && blobs == old(blobs)[sha(data) := data]
    {
      if |data| > MAX_BLOB_SIZE {
        return None;
      }
      var h := sha(data);
      if h !in blobs {
        blobs := blobs[h := data];
      }
      assert blobs[h] == data;
      return Some(h);
    }

    method SnapshotRef(data: Option<Content>) returns (ref: Option<Ref>)
      requires NoCollisions(sha) && ContentAddressed(sha, blobs)
      modifies this`blobs
      ensures blobs == Store(sha, old(blobs), data) && ContentAddressed(sha, blobs)
      ensures ref == if Fitting(data) then Some(RefOf(sha, data)) else None
    {
      if data.None? {
        return Some(Absent);
      }
      var hash := WriteBlob(data.value);
      return if hash.Some? then Some(Blob(hash.value)) else None;
    }

    method AppendJournal(record: Record)
      modifies this`journal
      ensures journal == old(journal) + [record]
      ensures Mutations(journal) ==
              if record.MutationRecord? then old(Mutations(journal)) + [record.mutation] else old(Mutations(journal))
    {
      MutationsSnoc(journal, record);
      journal := journal + [record];
    }

    // The write tool reads the file before it writes it.
    method LookAtFile(path: Path)
      requires Valid() && path !in calls
      modifies this`calls
      ensures Valid() && View() == Step(sha, old(View()), Look(path))
    {
      StepKeepsStore(sha, View(), Look(path));
      calls := calls[path := Looked(StateAt(files, path))];
    }

    // The edit tool reads the file, and then puts it into the slot.
    method ReadFile(path: Path) returns (data: Content)
      requires Valid() && path !in calls && path in files
      modifies this`calls
      ensures Valid() && View() == Step(sha, old(View()), Read(path)) && data == files[path]
    {
      StepKeepsStore(sha, View(), Read(path));
      data := files[path];
      calls := calls[path := HasRead(data)];
    }

    method RememberRead(path: Path)
      requires Valid() && path in calls && calls[path].HasRead?
      modifies this`calls, this`editSlot
      ensures Valid() && View() == Step(sha, old(View()), Remember(path))
    {
      StepKeepsStore(sha, View(), Remember(path));
      editSlot := Some((path, calls[path].data));
      calls := calls[path := Remembered(calls[path].data)];
    }

    // The call fails before it writes.
    method AbandonCall(path: Path)
      requires Valid() && path in calls && (calls[path].Looked? || calls[path].Remembered?)
      modifies this`calls
      ensures Valid() && View() == Step(sha, old(View()), GiveUp(path))
    {
      StepKeepsStore(sha, View(), GiveUp(path));
      calls := calls - {path};
    }

    method LandWrite(path: Path, content: Content)
      requires Valid() && path in calls && (calls[path].Looked? || calls[path].Remembered?)
      modifies this`calls, this`files
      ensures Valid() && View() == Step(sha, old(View()), Land(path, content))
    {
      StepKeepsStore(sha, View(), Land(path, content));
      var was := StateAt(files, path);
      if calls[path].Looked? {
        calls := calls[path := Written(WriteTool, was, calls[path].before, content)];
      } else {
        calls := calls[path := Written(EditTool, was, None, content)];
      }
      files := files[path := content];
    }

    // The write has returned. A tracked call goes on to capture what it takes for the previous
    // content; any other call is done.
    method TakeSnapshot(path: Path, hasToolCall: bool)
      requires Valid() && path in calls && calls[path].Written?
      modifies this`calls, this`editSlot
      ensures Valid() && View() == Step(sha, old(View()), Take(path, hasToolCall && active))
    {
      StepKeepsStore(sha, View(), Take(path, hasToolCall && active));
      var tool := calls[path].tool;
      if hasToolCall && active {
        var before := if tool == EditTool then EditBefore(editSlot, path) else calls[path].looked;
        calls := calls[path := Capturing(tool, calls[path].was, before, calls[path].content)];
        return;
      }
      calls := calls - {path};
      if tool == EditTool { editSlot := None; }
    }

    // Both references of a capture, once their blobs are stored, unless it is refused.
    method SnapshotBoth(isLink: bool, before: Option<Content>, content: Content) returns (refs: Option<(Ref, Ref)>)
      requires NoCollisions(sha) && ContentAddressed(sha, blobs)
      modifies this`blobs
      ensures blobs == StoredBoth(sha, old(blobs), isLink, before, content)
      ensures refs == if CaptureRefused(isLink, before, content) then None
                      else Some((RefOf(sha, before), RefOf(sha, Some(content))))
    {
      if isLink {
        return None;
      }
      var from := SnapshotRef(before);
      if from.None? {
        return None;
      }
      var to := SnapshotRef(Some(content));
      return if to.Some? then Some((from.value, to.value)) else None;
    }

    // Blobs are written before the record that refers to them. A capture that is refused, or
    // that finds nothing changed, records nothing.
    method CaptureMutation(path: Path, toolCallId: string)
      requires Valid() && path in calls && calls[path].Capturing?
      modifies this`calls, this`blobs, this`sequence
      ensures Valid() && View() == Step(sha, old(View()), Number(path, toolCallId, path in symlinks))
    {
      var c := calls[path];
      ghost var s, e := View(), Number(path, toolCallId, path in symlinks);
      StepKeepsStore(sha, s, e);
      assert Step(sha, s, e) == NumberStep(sha, s, path, toolCallId, path in symlinks, c.tool, c.was, c.before, c.content);
      var refs := SnapshotBoth(path in symlinks, c.before, c.content);
      if refs.None? || refs.value.0 == refs.value.1 {
        calls := Finished(calls, path, c.tool);
        return;
      }
      sequence := sequence + 1;
      var m := Mutation(sequence, toolCallId, c.tool, path, refs.value.0, refs.value.1, None);
      calls := calls[path := Appending(c.tool, c.was, m)];
    }

    method AppendRecord(path: Path)
      requires Valid() && path in calls && calls[path].Appending?
      modifies this`calls, this`journal
      ensures Valid() && View() == Step(sha, old(View()), Append(path))
    {
      StepKeepsStore(sha, View(), Append(path));
      AppendJournal(MutationRecord(calls[path].record));
      calls := Finished(calls, path, calls[path].tool);
    }

    method ClearSlot(path: Path)
      requires Valid() && path in calls && calls[path] == Recorded
      modifies this`calls, this`editSlot
      ensures Valid() && View() == Step(sha, old(View()), Clear(path))
    {
      StepKeepsStore(sha, View(), Clear(path));
      editSlot := None;
      calls := calls - {path};
    }

    // A binding picks the records that have found their tree entry, reads the journal again,
    // and writes all of it back.
    method PickUnbound(entryOf: map<string, string>)
      requires Valid() && binder == Resting
      modifies this`binder
      ensures Valid()
      ensures View() == if active then Step(sha, old(View()), Pick(entryOf)) else old(View())
    {
      if !active {
        return;
      }
      var numbers := Unbound(Mutations(journal), entryOf);
      if numbers != {} {
        binder := Picked(numbers, entryOf);
      }
    }

    method ReloadJournal()
      requires Valid() && binder.Picked?
      modifies this`binder, this`reloaded
      ensures Valid() && View() == Step(sha, old(View()), Reload)
    {
      reloaded := journal;
      binder := Reloaded(binder.numbers, binder.entryOf, Mutations(reloaded));
    }

    method RewriteJournal()
      requires Valid() && binder.Reloaded?
      modifies this`binder, this`journal
      ensures Valid() && View() == Step(sha, old(View()), Rewrite)
      ensures Transactions(journal) == Transactions(reloaded)
    {
      StepKeepsStore(sha, View(), Rewrite);
      var bound := BindAll(Mutations(reloaded), binder.numbers, binder.entryOf);
      RewrittenJournal(bound, reloaded);
      assert Step(sha, View(), Rewrite) == View().(journal := Sorted(bound), binder := Resting);
      journal := StableSort(AsRecords(bound) + Transactions(reloaded));
      binder := Resting;
    }

    method ComputeRollbackPlan(target: string, branchIds: set<string>) returns (plan: Plan)
      ensures if target !in branchIds then plan == Plan(false, [], [Conflict(target, TargetNotOnBranch)])
              else IsPlan(sha, files, Selected(Mutations(journal), branchIds, target), plan)
    {
      if target !in branchIds {
        return Plan(false, [], [Conflict(target, TargetNotOnBranch)]);
      }
      plan := PlanPaths(Selected(Mutations(journal), branchIds, target));
    }

    // One pass over the touched paths, each against the disk.
    method PlanPaths(afterTarget: seq<Mutation>) returns (plan: Plan)
      ensures IsPlan(sha, files, afterTarget, plan)
    {
      var pathFirst, pathLast, order := GroupByPath(afterTarget);
      var paths: seq<PlannedPath> := [];
      var conflicts: seq<Conflict> := [];
      ghost var covered: set<Path> := {};
      for k := 0 to |order|
        invariant covered == SetOf(order[..k])
        invariant PlannedFor(sha, files, afterTarget, covered, paths, conflicts)
      {
        var p := order[k];
        GroupedAt(afterTarget, pathFirst, pathLast, order, k);
        var (es, cs) := PlanPath(RefOf(sha, StateAt(files, p)), pathFirst[p], pathLast[p]);
        PlanOnePath(sha, files, afterTarget, covered, paths, conflicts, p, pathFirst[p], pathLast[p]);
        paths, conflicts, covered := paths + es, conflicts + cs, covered + {p};
      }
      assert order[..|order|] == order;
      OrderIsTouched(afterTarget, pathFirst, pathLast, order);
      plan := Plan(conflicts == [] && HasWork(paths), paths, conflicts);
    }

    // The first and the last mutation of every path, and the paths in order of appearance.
    static method GroupByPath(ms: seq<Mutation>)
      returns (pathFirst: map<Path, Mutation>, pathLast: map<Path, Mutation>, order: seq<Path>)
      ensures Grouped(ms, pathFirst, pathLast, order)
    {
      pathFirst, pathLast, order := map[], map[], [];
      for k := 0 to |ms|
        invariant Grouped(ms[..k], pathFirst, pathLast, order)
      {
        var m := ms[k];
        assert ms[..k + 1] == ms[..k] + [m];
        GroupedStep(ms[..k], pathFirst, pathLast, order, m);
        if m.path !in pathFirst {
          pathFirst := pathFirst[m.path := m];
          order := order + [m.path];
        }
        pathLast := pathLast[m.path := m];
      }
      assert ms[..|ms|] == ms;
    }

    // Entries are applied in order up to the first whose blob is missing.
    method ApplyPaths(activePaths: seq<PlannedPath>) returns (ok: bool)
      modifies this`files
      ensures var k := FirstMissing(blobs, activePaths);
              (ok <==> k == |activePaths|) && files == ApplyAll(blobs, old(files), activePaths[..k])
    {
      for k := 0 to |activePaths|
        invariant FirstMissing(blobs, activePaths, k) == FirstMissing(blobs, activePaths)
        invariant files == ApplyAll(blobs, old(files), activePaths[..k])
      {
        var e := activePaths[k];
        assert activePaths[..k + 1][..k] == activePaths[..k];
        if e.action == Delete {
          files := files - {e.path};
        } else if e.action == Restore && e.targetDigest.Some? {
          if e.targetDigest.value !in blobs {
            return false;
          }
          files := files[e.path := blobs[e.targetDigest.value]];
        }
      }
      return true;
    }

    method ExecuteRollback(plan: Plan, target: string, sourceLeafId: string) returns (ok: bool)
      modifies this`files, this`journal
      ensures var es := Active(plan.paths);
              var k := FirstMissing(blobs, es);
              (ok <==> k == |es|) && files == ApplyAll(blobs, old(files), es[..k])
      ensures exists tx: Record :: tx.TransactionRecord? && tx.state == Prepared && tx.targetEntryId == target &&
                                   tx.sourceLeafId == sourceLeafId &&
                                   |tx.plannedPaths| == |Active(plan.paths)| &&
                                   (forall k :: 0 <= k < |tx.plannedPaths| ==> tx.plannedPaths[k] == Active(plan.paths)[k].path) &&
                                   journal == old(journal) + [tx, tx.(state := if ok then Committed else Failed)]
      ensures Mutations(journal) == old(Mutations(journal))
    {
      var activePaths := Active(plan.paths);
      var tx := TransactionRecord(target, sourceLeafId, PathsOf(activePaths), Prepared);
      AppendJournal(tx);
      ok := ApplyPaths(activePaths);
      tx := tx.(state := if ok then Committed else Failed);
      AppendJournal(tx);
      assert journal == old(journal) + [tx.(state := Prepared), tx];
    }

    // The plan for a request, and what it takes and does.
    method PreparePlan(target: string, branchIds: set<string>) returns (plan: Plan)
      requires Valid()
      ensures var ms := Selected(Mutations(journal), branchIds, target);
              && AllStored(blobs, ms)
              && (plan.eligible <==> CanRollBack(sha, files, ms) && target in branchIds)
              && (plan.eligible ==> FirstMissing(blobs, Active(plan.paths)) == |Active(plan.paths)|)
              && (plan.eligible ==> Restored(blobs, files, ms, ApplyAll(blobs, files, Active(plan.paths))))
    {
      plan := ComputeRollbackPlan(target, branchIds);
      SelectedContents(Mutations(journal), branchIds, target);
      if target in branchIds {
        PlanOutcome(sha, blobs, files, Selected(Mutations(journal), branchIds, target), plan);
      }
    }

    // A request either rolls back completely or changes no file. It rolls back exactly
    // when the target is on the branch, no selected path has drifted and one needs work.
    method Execute(target: string, entries: seq<LogEntry>) returns (outcome: Outcome)
      requires Valid() && WalkEnds(entries)
      modifies this`files, this`journal
      ensures Valid() && Mutations(journal) == old(Mutations(journal))
      ensures var branch, ms := BranchEntryIds(entries), Mutations(journal);
              && (outcome.RolledBack? <==>
                    target in branch && NoneDrifted(sha, old(files), ms, branch, target) && SomeWork(sha, old(files), ms, branch, target))
              && (outcome.RolledBack? ==> forall p :: RolledBackAt(blobs, ms, branch, target, old(files), files, p))
      ensures outcome.RolledBack? ==>
                exists tx: Record :: tx.TransactionRecord? && tx.state == Prepared && tx.targetEntryId == target &&
                                     (FirstLeaf(entries).Some? ==> tx.sourceLeafId == FirstLeaf(entries).value.id) &&
                                     (FirstLeaf(entries).None? ==> tx.sourceLeafId == "unknown") &&
                                     journal == old(journal) + [tx, tx.(state := Committed)]
      ensures !outcome.RolledBack? ==> outcome.Refused? && files == old(files) && journal == old(journal)
    {
      var branchIds := GetBranchEntryIds(entries);
      var plan := PreparePlan(target, branchIds);
      RequestOutcome(sha, files, Mutations(journal), branchIds, target);
      if !plan.eligible {
        return Refused(plan);
      }
      assert Active(plan.paths)[..|Active(plan.paths)|] == Active(plan.paths);
      ghost var was := files;
      var ok := ExecuteRollback(plan, target, LeafName(entries));
      AllRolledBack(blobs, Mutations(journal), branchIds, target, was, files);
      return if ok then RolledBack else Broken;
    }
  }

  function LeafName(entries: seq<LogEntry>): string {
    var leaf := FirstLeaf(entries);
    if leaf.Some? then leaf.value.id else "unknown"
  }

  function PathsOf(es: seq<PlannedPath>): seq<Path> {
    seq(|es|, i requires 0 <= i < |es| => es[i].path)
  }

  ghost predicate CanRollBack(sha: Digest, disk: Disk, ms: seq<Mutation>) {
    Undrifted(sha, disk, ms) && exists p :: NeedsWork(sha, disk, ms, p)
  }

  ghost predicate Restored(blobs: Blobs, disk: Disk, ms: seq<Mutation>, now: Disk)
    requires AllStored(blobs, ms)
  {
    forall p :: StateAt(now, p) == RestoredAt(blobs, disk, ms, p)
  }

  // Every path with a record of a branch entry other than the target is as its last one left it.
  ghost predicate NoneDrifted(sha: Digest, disk: Disk, ms: seq<Mutation>, branch: set<string>, target: string) {
    forall i :: 0 <= i < |ms| && LastOfOthers(ms, branch, target, ms[i].path, i) ==>
                  ms[i].after == if ms[i].path in disk then Blob(sha(disk[ms[i].path])) else Absent
  }

  // Some such path is not as it was before its first one.
  ghost predicate SomeWork(sha: Digest, disk: Disk, ms: seq<Mutation>, branch: set<string>, target: string) {
    exists i: nat :: i < |ms| && WorkAt(sha, disk, ms, branch, target, i)
  }

  ghost predicate WorkAt(sha: Digest, disk: Disk, ms: seq<Mutation>, branch: set<string>, target: string, i: nat)
    requires i < |ms|
  {
    FirstOfOthers(ms, branch, target, ms[i].path, i) &&
    ms[i].before != if ms[i].path in disk then Blob(sha(disk[ms[i].path])) else Absent
  }

  // Such a path is back in the state before its first one; any other path is untouched.
  ghost predicate RolledBackAt(blobs: Blobs, ms: seq<Mutation>, branch: set<string>, target: string,
                               was: Disk, now: Disk, p: Path) {
    && (forall i :: 0 <= i < |ms| && FirstOfOthers(ms, branch, target, p, i) ==>
          match ms[i].before
          case Absent => p !in now
          case Blob(h) => h in blobs && p in now && now[p] == blobs[h])
    && ((forall m :: m in ms && m.path == p ==> !OfOtherEntry(m, branch, target)) ==>
          (p in now <==> p in was) && (p in was ==> now[p] == was[p]))
  }

  ghost predicate Undrifted(sha: Digest, disk: Disk, ms: seq<Mutation>) {
    forall p :: !Drifted(sha, disk, ms, p)
  }

  lemma {:induction false} NoDriftIff(sha: Digest, disk: Disk, ms: seq<Mutation>, branch: set<string>, target: string)
    ensures Undrifted(sha, disk, Selected(ms, branch, target)) <==> NoneDrifted(sha, disk, ms, branch, target)
  {
    var selected := Selected(ms, branch, target);
    if Undrifted(sha, disk, selected) {
      forall i | 0 <= i < |ms| && LastOfOthers(ms, branch, target, ms[i].path, i)
        ensures ms[i].after == if ms[i].path in disk then Blob(sha(disk[ms[i].path])) else Absent
      {
        LastSelected(ms, branch, target, ms[i].path, i);
        assert !Drifted(sha, disk, selected, ms[i].path);
      }
    }
    if NoneDrifted(sha, disk, ms, branch, target) {
      forall p
        ensures !Drifted(sha, disk, selected, p)
      {
        if LastOn(selected, p).Some? {
          var i := LastOther(ms, branch, target, p, LastOn(selected, p).value);
          LastSelected(ms, branch, target, p, i);
          assert LastOfOthers(ms, branch, target, ms[i].path, i);
        }
      }
      assert Undrifted(sha, disk, selected);
    }
  }

  lemma {:induction false} WorkIff(sha: Digest, disk: Disk, ms: seq<Mutation>, branch: set<string>, target: string)
    ensures (exists p :: NeedsWork(sha, disk, Selected(ms, branch, target), p)) <==> SomeWork(sha, disk, ms, branch, target)
  {
    var selected := Selected(ms, branch, target);
    if exists p :: NeedsWork(sha, disk, selected, p) {
      var p :| NeedsWork(sha, disk, selected, p);
      var i := FirstOther(ms, branch, target, p, FirstOn(selected, p).value);
      FirstSelected(ms, branch, target, p, i);
      assert WorkAt(sha, disk, ms, branch, target, i);
      assert SomeWork(sha, disk, ms, branch, target);
    }
    if SomeWork(sha, disk, ms, branch, target) {
      var i: nat :| i < |ms| && WorkAt(sha, disk, ms, branch, target, i);
      FirstSelected(ms, branch, target, ms[i].path, i);
      assert NeedsWork(sha, disk, selected, ms[i].path);
      assert exists p :: NeedsWork(sha, disk, selected, p);
    }
  }

  lemma RequestOutcome(sha: Digest, disk: Disk, ms: seq<Mutation>, branch: set<string>, target: string)
    ensures CanRollBack(sha, disk, Selected(ms, branch, target)) <==>
            NoneDrifted(sha, disk, ms, branch, target) && SomeWork(sha, disk, ms, branch, target)
  {
    NoDriftIff(sha, disk, ms, branch, target);
    WorkIff(sha, disk, ms, branch, target);
  }

  lemma {:induction false} FirstOther(ms: seq<Mutation>, branch: set<string>, target: string, p: Path, m: Mutation) returns (i: nat)
    requires m in Selected(ms, branch, target) && m.path == p
    ensures i < |ms| && FirstOfOthers(ms, branch, target, p, i)
  {
    SelectedIff(ms, branch, target, m);
    i := 0;
    while !(ms[i].path == p && OfOtherEntry(ms[i], branch, target))
      invariant i < |ms|
      invariant exists k :: i <= k < |ms| && ms[k] == m
      invariant forall j :: 0 <= j < i && ms[j].path == p ==> !OfOtherEntry(ms[j], branch, target)
      decreases |ms| - i
    {
      i := i + 1;
    }
  }

  lemma {:induction false} LastOther(ms: seq<Mutation>, branch: set<string>, target: string, p: Path, m: Mutation) returns (i: nat)
    requires m in Selected(ms, branch, target) && m.path == p
    ensures i < |ms| && LastOfOthers(ms, branch, target, p, i)
  {
    SelectedIff(ms, branch, target, m);
    i := |ms| - 1;
    while !(ms[i].path == p && OfOtherEntry(ms[i], branch, target))
      invariant 0 <= i < |ms|
      invariant exists k :: 0 <= k <= i && ms[k] == m
      invariant forall j :: i < j < |ms| && ms[j].path == p ==> !OfOtherEntry(ms[j], branch, target)
      decreases i
    {
      i := i - 1;
    }
  }

  lemma {:induction false} AllRolledBack(blobs: Blobs, ms: seq<Mutation>, branch: set<string>, target: string, was: Disk, now: Disk)
    requires AllStored(blobs, Selected(ms, branch, target)) && Restored(blobs, was, Selected(ms, branch, target), now)
    ensures forall p :: RolledBackAt(blobs, ms, branch, target, was, now, p)
  {
    var selected := Selected(ms, branch, target);
    forall p
      ensures RolledBackAt(blobs, ms, branch, target, was, now, p)
    {
      assert StateAt(now, p) == RestoredAt(blobs, was, selected, p);
      forall i | 0 <= i < |ms| && FirstOfOthers(ms, branch, target, p, i)
        ensures FirstOn(selected, p) == Some(ms[i])
      {
        FirstSelected(ms, branch, target, p, i);
      }
      if FirstOn(selected, p).Some? {
        SelectedIff(ms, branch, target, FirstOn(selected, p).value);
      }
    }
  }

  lemma {:induction false} PlanOutcome(sha: Digest, blobs: Blobs, disk: Disk, ms: seq<Mutation>, plan: Plan)
    requires NoCollisions(sha) && ContentAddressed(sha, blobs) && AllStored(blobs, ms)
    requires IsPlan(sha, disk, ms, plan)
    ensures plan.eligible <==> CanRollBack(sha, disk, ms)
    ensures plan.eligible ==> FirstMissing(blobs, Active(plan.paths)) == |Active(plan.paths)|
    ensures plan.eligible ==> Restored(blobs, disk, ms, ApplyAll(blobs, disk, Active(plan.paths)))
  {
    EligibleIff(sha, disk, ms, plan);
    if plan.eligible {
      PlanRestores(sha, blobs, disk, ms, plan, "");
      forall p ensures StateAt(ApplyAll(blobs, disk, Active(plan.paths)), p) == RestoredAt(blobs, disk, ms, p) {
        PlanRestores(sha, blobs, disk, ms, plan, p);
      }
    }
  }

  // From the first read of a tool to the last restored file: after any interleaving of tool
  // calls and bindings that was captured and came to rest, with every edit in time and no
  // record lost, a plan over the whole journal has no conflict, and carrying it out gives
  // back the disk on which it all began.
  lemma {:induction false} CapturedRunRollsBack(sha: Digest, start: Disk, es: seq<Event>, plan: Plan, p: Path)
    requires NoCollisions(sha) && Undisturbed(sha, start, es) && Run(sha, start, es).calls == map[]
    requires forall q :: TakesTrue(sha, start, es, q)
    requires var s := Run(sha, start, es); IsPlan(sha, s.disk, s.journal, plan)
    ensures plan.conflicts == []
    ensures var s := Run(sha, start, es);
            StateAt(ApplyAll(s.blobs, s.disk, Active(plan.paths)), p) == StateAt(start, p)
  {
    var s := Run(sha, start, es);
    RunsAreStored(sha, start, es);
    JournalIsCompleteIff(sha, start, es);
    forall q
      ensures !Drifted(sha, s.disk, s.journal, q)
    {
      RecordedRunNeverDrifts(sha, s.blobs, start, s.journal, q);
    }
    EligibleIff(sha, s.disk, s.journal, plan);
    PlanRestores(sha, s.blobs, s.disk, s.journal, plan, p);
    RollbackInverts(s.blobs, start, s.journal, p);
  }

  // Every touched path once, each with its first and its last mutation.
  ghost predicate Grouped(ms: seq<Mutation>, pathFirst: map<Path, Mutation>, pathLast: map<Path, Mutation>, order: seq<Path>) {
    && (forall i, j :: 0 <= i < j < |order| ==> order[i] != order[j])
    && (forall p :: p in order <==> p in pathFirst)
    && (forall p :: FirstOn(ms, p) == if p in pathFirst then Some(pathFirst[p]) else None)
    && (forall p :: LastOn(ms, p) == if p in pathLast then Some(pathLast[p]) else None)
  }

  ghost function SetOf(order: seq<Path>): set<Path> {
    set p | p in order
  }

  lemma OrderIsTouched(ms: seq<Mutation>, pathFirst: map<Path, Mutation>, pathLast: map<Path, Mutation>, order: seq<Path>)
    requires Grouped(ms, pathFirst, pathLast, order)
    ensures SetOf(order) == Touched(ms)
  {
    forall p
      ensures p in order <==> p in Touched(ms)
    {
      TouchedIff(ms, p);
    }
  }

  lemma GroupedAt(ms: seq<Mutation>, pathFirst: map<Path, Mutation>, pathLast: map<Path, Mutation>, order: seq<Path>, k: nat)
    requires Grouped(ms, pathFirst, pathLast, order) && k < |order|
    ensures var p := order[k];
            && p in pathFirst && FirstOn(ms, p) == Some(pathFirst[p])
            && p in pathLast && LastOn(ms, p) == Some(pathLast[p])
            && p !in SetOf(order[..k]) && SetOf(order[..k + 1]) == SetOf(order[..k]) + {p}
  {
    assert order[k] in order;
    TouchedIff(ms, order[k]);
    assert order[..k + 1] == order[..k] + [order[k]];
  }

  lemma GroupedStep(ms: seq<Mutation>, pathFirst: map<Path, Mutation>, pathLast: map<Path, Mutation>,
                    order: seq<Path>, m: Mutation)
    requires Grouped(ms, pathFirst, pathLast, order)
    ensures Grouped(ms + [m], if m.path in pathFirst then pathFirst else pathFirst[m.path := m], pathLast[m.path := m],
                    if m.path in pathFirst then order else order + [m.path])
  {
    forall p
      ensures FirstOn(ms + [m], p) == if FirstOn(ms, p).Some? || m.path != p then FirstOn(ms, p) else Some(m)
      ensures LastOn(ms + [m], p) == if m.path == p then Some(m) else LastOn(ms, p)
    {
      GroupStep(ms, m, p);
    }
  }

  lemma GroupStep(ms: seq<Mutation>, m: Mutation, p: Path)
    ensures FirstOn(ms + [m], p) == if FirstOn(ms, p).Some? || m.path != p then FirstOn(ms, p) else Some(m)
    ensures LastOn(ms + [m], p) == if m.path == p then Some(m) else LastOn(ms, p)
  {
    FirstOnAppend(ms, [m], p);
    assert (ms + [m])[..|ms|] == ms;
  }
}
