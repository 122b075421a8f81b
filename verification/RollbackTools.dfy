/** The write tool, the edit tool and the binding of tree entries, split at their awaits. */
module RollbackTools {
  import opened Options
  import opened RollbackJournal

  const MAX_BLOB_SIZE := 10 * 1024 * 1024

  // One slot remembers the last file that the edit tool read.
  type Slot = Option<(Path, Content)>

  function EditBefore(slot: Slot, p: Path): Option<Content> {
    if slot.Some? && slot.value.0 == p then Some(slot.value.1) else None
  }

  // How far the call has come that holds a path's place in the mutation queue. `was` is the
  // state just before the write; an edit call does not know it.
  datatype Phase =
    | Looked(before: Option<Content>)      // the write tool has read the file, or found none
    | HasRead(data: Content)               // the edit tool has read it
    | Remembered(data: Content)            // and has put it into the slot
    | Written(tool: Tool, was: Option<Content>, looked: Option<Content>, content: Content)
    | Capturing(tool: Tool, was: Option<Content>, before: Option<Content>, content: Content)
    | Appending(tool: Tool, was: Option<Content>, record: Mutation)
    | Recorded                             // the edit tool has still to clear the slot

  // A binding first picks records, then reads the journal again, then rewrites it.
  datatype Binder =
    | Resting
    | Picked(numbers: set<nat>, entryOf: map<string, string>)
    | Reloaded(numbers: set<nat>, entryOf: map<string, string>, snapshot: seq<Mutation>)

  datatype Event =
    | Look(path: Path)
    | Read(path: Path)
    | Remember(path: Path)
    | GiveUp(path: Path)                   // the call fails before it writes
    | Land(path: Path, content: Content)   // the content is on the disk
    | Take(path: Path, capturing: bool)    // the call goes on, and captures if it is tracked
    | Number(path: Path, toolCallId: string, isLink: bool)   // the blobs are stored
    | Append(path: Path)                   // the record is in the journal
    | Clear(path: Path)
    | Pick(entryOf: map<string, string>)   // entry ids by tool call
    | Reload
    | Rewrite

  datatype State = State(
    disk: Disk, blobs: Blobs, sequence: nat, journal: seq<Mutation>, slot: Slot,
    calls: map<Path, Phase>, binder: Binder)

  function Start(disk: Disk): State {
    State(disk, map[], 0, [], None, map[], Resting)
  }

  // ---------------------------------------------------------------------------
  // One step
  // ---------------------------------------------------------------------------

  predicate Fitting(state: Option<Content>) {
    state.Some? ==> |state.value| <= MAX_BLOB_SIZE
  }

  function Store(sha: Digest, blobs: Blobs, state: Option<Content>): Blobs {
    if state.Some? && Fitting(state) then blobs[sha(state.value) := state.value] else blobs
  }

  // The call leaves the queue; an edit call clears the slot first.
  function Finished(calls: map<Path, Phase>, p: Path, tool: Tool): map<Path, Phase> {
    if tool == EditTool then calls[p := Recorded] else calls - {p}
  }

  function TakeStep(s: State, p: Path, capturing: bool, tool: Tool, was: Option<Content>,
                    looked: Option<Content>, content: Content): State {
    if capturing then
      s.(calls := s.calls[p := Capturing(tool, was, if tool == EditTool then EditBefore(s.slot, p) else looked, content)])
    else
      s.(calls := s.calls - {p}, slot := if tool == EditTool then None else s.slot)
  }

  // A capture is refused for a symbolic link and for content that does not fit a blob.
  predicate CaptureRefused(isLink: bool, before: Option<Content>, content: Content) {
    isLink || !Fitting(before) || !Fitting(Some(content))
  }

  function StoredBoth(sha: Digest, blobs: Blobs, isLink: bool, before: Option<Content>, content: Content): Blobs {
    if isLink || !Fitting(before) then blobs
    else Store(sha, Store(sha, blobs, before), Some(content))
  }

  function NumberStep(sha: Digest, s: State, p: Path, toolCallId: string, isLink: bool, tool: Tool,
                      was: Option<Content>, before: Option<Content>, content: Content): State {
    var t := s.(blobs := StoredBoth(sha, s.blobs, isLink, before, content));
    var from, to := RefOf(sha, before), RefOf(sha, Some(content));
    if CaptureRefused(isLink, before, content) || from == to then t.(calls := Finished(s.calls, p, tool))
    else
      var m := Mutation(s.sequence + 1, toolCallId, tool, p, from, to, None);
      t.(sequence := s.sequence + 1, calls := s.calls[p := Appending(tool, was, m)])
  }

  function Unbound(journal: seq<Mutation>, entryOf: map<string, string>): set<nat> {
    set m | m in journal && m.treeEntryId.None? && m.toolCallId in entryOf :: m.sequence
  }

  function BindOne(m: Mutation, numbers: set<nat>, entryOf: map<string, string>): Mutation {
    if m.sequence in numbers && m.toolCallId in entryOf then m.(treeEntryId := Some(entryOf[m.toolCallId])) else m
  }

  function BindAll(ms: seq<Mutation>, numbers: set<nat>, entryOf: map<string, string>): seq<Mutation> {
    if ms == [] then []
    else BindAll(ms[..|ms| - 1], numbers, entryOf) + [BindOne(ms[|ms| - 1], numbers, entryOf)]
  }

  // A stable sort by sequence number.
  function Sorted(ms: seq<Mutation>): seq<Mutation> {
    if ms == [] then [] else Insert(Sorted(ms[..|ms| - 1]), ms[|ms| - 1])
  }

  function Insert(sorted: seq<Mutation>, m: Mutation): seq<Mutation> {
    if sorted != [] && sorted[|sorted| - 1].sequence > m.sequence
    then Insert(sorted[..|sorted| - 1], m) + [sorted[|sorted| - 1]]
    else sorted + [m]
  }

  function Rewritten(b: Binder): seq<Mutation>
    requires b.Reloaded?
  {
    Sorted(BindAll(b.snapshot, b.numbers, b.entryOf))
  }

  predicate At(s: State, p: Path, phase: Phase) {
    p in s.calls && s.calls[p] == phase
  }

  function CallStep(sha: Digest, s: State, e: Event, p: Path, phase: Phase): State {
    match (e, phase)
    case (Remember(_), HasRead(d)) => s.(slot := Some((p, d)), calls := s.calls[p := Remembered(d)])
    case (GiveUp(_), Looked(_)) => s.(calls := s.calls - {p})
    case (GiveUp(_), Remembered(_)) => s.(calls := s.calls - {p})
    case (Land(_, c), Looked(b)) =>
      s.(disk := s.disk[p := c], calls := s.calls[p := Written(WriteTool, StateAt(s.disk, p), b, c)])
    case (Land(_, c), Remembered(_)) =>
      s.(disk := s.disk[p := c], calls := s.calls[p := Written(EditTool, StateAt(s.disk, p), None, c)])
    case (Take(_, capturing), Written(tool, was, looked, c)) => TakeStep(s, p, capturing, tool, was, looked, c)
    case (Number(_, id, isLink), Capturing(tool, was, before, c)) => NumberStep(sha, s, p, id, isLink, tool, was, before, c)
    case (Append(_), Appending(tool, _, m)) => s.(journal := s.journal + [m], calls := Finished(s.calls, p, tool))
    case (Clear(_), Recorded) => s.(slot := None, calls := s.calls - {p})
    case _ => s
  }

  // An event that its call or the binding is not ready for does not happen.
  function Step(sha: Digest, s: State, e: Event): State {
    match e
    case Look(p) => if p in s.calls then s else s.(calls := s.calls[p := Looked(StateAt(s.disk, p))])
    case Read(p) => if p in s.calls || p !in s.disk then s else s.(calls := s.calls[p := HasRead(s.disk[p])])
    case Pick(entryOf) =>
      if s.binder != Resting || Unbound(s.journal, entryOf) == {} then s
      else s.(binder := Picked(Unbound(s.journal, entryOf), entryOf))
    case Reload => if s.binder.Picked? then s.(binder := Reloaded(s.binder.numbers, s.binder.entryOf, s.journal)) else s
    case Rewrite => if s.binder.Reloaded? then s.(journal := Rewritten(s.binder), binder := Resting) else s
    case _ => if e.path in s.calls then CallStep(sha, s, e, e.path, s.calls[e.path]) else s
  }

  function Run(sha: Digest, start: Disk, es: seq<Event>): State {
    if es == [] then Start(start)
    else Step(sha, Run(sha, start, es[..|es| - 1]), es[|es| - 1])
  }
}
