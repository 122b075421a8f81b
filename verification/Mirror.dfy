/** The queue mirror: a local queue in front of a mirrored remote one. */
module Mirror {
  import opened Options
  import opened RemoteQueue
  import opened LocalQueue
  import opened Text
  import Decimal

  function Prefix(origin: Origin): string {
    match origin
    case Client => "pi-client-queue"
    case Extension => "pi-extension-queue"
    case Pi => "pi-queue"
  }

  // Ids that are generated for different origins, or under different numbers, never collide.
  lemma GeneratedIdsDiffer(a: Origin, m: nat, b: Origin, n: nat)
    requires Decimal.Id(Prefix(a), m) == Decimal.Id(Prefix(b), n)
    ensures a == b && m == n
    ensures Prefix(Client) == "pi-client-queue" && Prefix(Extension) == "pi-extension-queue" && Prefix(Pi) == "pi-queue"
  {
    assert Decimal.Id(Prefix(a), m)[3] == Prefix(a)[3] && Decimal.Id(Prefix(b), n)[3] == Prefix(b)[3];
    Decimal.IdInjective(Prefix(a), m, n);
  }

  class QueueMirror {
    var localEntries: seq<Entry>
    var piEntries: seq<Entry>
    var reserved: seq<Reservation>
    var nextSeq: nat
    var running: Option<Entry>

    ghost predicate Valid()
      reads this
    {
      DistinctIds(localEntries)
    }

    ghost function RemoteView(): Remote
      reads this
    {
      Remote(piEntries, reserved, nextSeq, running)
    }

    constructor ()
      ensures Valid() && localEntries == [] && RemoteView() == Remote([], [], 0, None)
    {
      localEntries, piEntries, reserved, nextSeq, running := [], [], [], 0, None;
    }

    // The matching loop has come as far as `p`.
    ghost predicate Reached(p: Progress, usedPrev: seq<bool>, next: seq<Entry>)
      reads this
    {
      p.used == usedPrev && p.reserved == reserved && p.nextSeq == nextSeq && p.next == next
    }

    // One turn of the matching loop: an unused previous entry, else a reservation, else a new id.
    method MatchNext(previous: seq<Entry>, key: Key, usedPrev: seq<bool>, next: seq<Entry>, ghost p: Progress)
      returns (usedPrev': seq<bool>, entry: Entry)
      requires |p.used| == |previous| && Reached(p, usedPrev, next)
      modifies this`reserved, this`nextSeq
      ensures Reached(Place(previous, p, key), usedPrev', next + [entry])
    {
      usedPrev' := usedPrev;
      var index := FirstUnused(previous, usedPrev, key, 0);
      if index < |previous| {
        usedPrev' := usedPrev[index := true];
        return usedPrev', previous[index];
      }
      var reservedIndex := PickReservation(reserved, key);
      if reservedIndex < |reserved| {
        entry := FromReservation(reserved[reservedIndex], key);
        reserved := RemoveAt(reserved, reservedIndex);
      } else {
        nextSeq := nextSeq + 1;
        entry := FreshEntry(nextSeq, key);
      }
    }

    method MatchAll(previous: seq<Entry>, desired: seq<Key>, ghost start: Remote)
      returns (usedPrev: seq<bool>, next: seq<Entry>)
      requires start.entries == previous && start.reserved == reserved && start.nextSeq == nextSeq
      modifies this`reserved, this`nextSeq
      ensures Reached(PlaceAll(start, desired), usedPrev, next)
    {
      next := [];
      usedPrev := seq(|previous|, i => false);
      ghost var p := Start(start);
      for k := 0 to |desired|
        invariant p == PlaceAll(start, desired[..k]) && Reached(p, usedPrev, next)
      {
        assert desired[..k + 1][..k] == desired[..k];
        var entry: Entry;
        usedPrev, entry := MatchNext(previous, desired[k], usedPrev, next, p);
        next := next + [entry];
        p := Place(previous, p, desired[k]);
      }
      assert desired[..|desired|] == desired;
    }

    method ApplyQueueUpdate(steering: seq<string>, followUp: seq<string>)
      requires Valid()
      modifies this`piEntries, this`reserved, this`nextSeq, this`running
      ensures Valid()
      ensures RemoteView() == Reconcile(old(RemoteView()), Desired(steering, followUp))
    {
      var previous := piEntries;
      var usedPrev, next := MatchAll(previous, Desired(steering, followUp), RemoteView());
      reserved := Surviving(reserved, Ids(next));
      var dropped := FirstDropped(previous, usedPrev, 0);
      if dropped < |previous| {
        running := Some(previous[dropped]);
      }
      piEntries := next;
    }

    method EnqueueLocal(id: Option<string>, executionText: string, displayText: string,
                        images: seq<string>, lane: Lane, origin: Origin)
      returns (newId: string)
      requires Valid()
      modifies this`localEntries, this`nextSeq
      ensures Valid()
      ensures if id.Some? && !IsBlank(id.value)
              then newId == id.value && nextSeq == old(nextSeq)
              else nextSeq == old(nextSeq) + 1 && newId == Decimal.Id(Prefix(origin), nextSeq)
      ensures localEntries ==
              Enqueued(old(localEntries), Entry(newId, executionText, displayText, images, 0, lane, origin))
    {
      if id.Some? { BlankIff(id.value); }
      if id.Some? && Trim(id.value) != "" {
        newId := id.value;
      } else {
        nextSeq := nextSeq + 1;
        newId := Decimal.Id(Prefix(origin), nextSeq);
      }
      var i := IndexOf(localEntries, newId);
      if i < |localEntries| {
        var existing := localEntries[i];
        localEntries := localEntries[i := existing.(executionText := executionText, displayText := displayText,
        images := images, lane := lane, origin := origin)];
      } else {
        localEntries := localEntries + [Entry(newId, executionText, displayText, images, 0, lane, origin)];
      }
      EnqueuedKeepsIdsDistinct(old(localEntries), Entry(newId, executionText, displayText, images, 0, lane, origin));
    }

    method TakeLocal(id: string, expectedVersion: Option<nat>) returns (taken: Option<Entry>)
      requires Valid()
      modifies this`localEntries
      ensures Valid()
      ensures var i := TakeIndex(old(localEntries), id, expectedVersion);
              if i < |old(localEntries)|
              then taken == Some(old(localEntries)[i]) && localEntries == RemoveAt(old(localEntries), i)
              else taken == None && localEntries == old(localEntries)
    {
      var index := TakeIndex(localEntries, id, expectedVersion);
      if index == |localEntries| {
        return None;
      }
      taken := Some(localEntries[index]);
      localEntries := RemoveAt(localEntries, index);
    }

    method PopNextLocal() returns (popped: Option<Entry>)
      requires Valid()
      modifies this`localEntries
      ensures Valid()
      ensures if old(localEntries) == [] then popped == None && localEntries == []
              else popped == Some(old(localEntries)[0]) && localEntries == old(localEntries)[1..]
    {
      if localEntries == [] {
        return None;
      }
      popped := Some(localEntries[0]);
      localEntries := localEntries[1..];
    }

    method PushFrontLocal(entry: Entry)
      requires Valid()
      modifies this`localEntries
      ensures Valid() && localEntries == PushedFront(old(localEntries), entry)
    {
      WithoutContents(localEntries, {entry.id});
      localEntries := Without(localEntries, {entry.id});
      localEntries := [entry] + localEntries;
    }

    method EditLocal(id: string, newText: string) returns (found: bool)
      requires Valid()
      modifies this`localEntries
      ensures Valid()
      ensures found <==> id in Ids(old(localEntries))
      ensures localEntries == Edited(old(localEntries), id, newText)
    {
      var i := IndexOf(localEntries, id);
      if i == |localEntries| {
        return false;
      }
      assert localEntries[i] in localEntries;
      var entry := localEntries[i];
      entry := entry.(executionText := newText, displayText := newText);
      entry := entry.(version := entry.version + 1);
      localEntries := localEntries[i := entry];
      return true;
    }

    // Takes the requested entries out one by one, in request order; the others follow.
    static method Reordered(entries: seq<Entry>, orderedIds: seq<string>) returns (reordered: seq<Entry>)
      ensures reordered == Reorder(entries, orderedIds)
    {
      var remaining := entries;
      reordered := [];
      for k := 0 to |orderedIds|
        invariant reordered + Reorder(remaining, orderedIds[k..]) == Reorder(entries, orderedIds)
      {
        var index := IndexOf(remaining, orderedIds[k]);
        assert orderedIds[k..][0] == orderedIds[k] && orderedIds[k..][1..] == orderedIds[k + 1..];
        ReorderTurn(reordered, remaining, orderedIds[k..]);
        if index < |remaining| {
          reordered := reordered + [remaining[index]];
          remaining := RemoveAt(remaining, index);
        }
      }
      assert orderedIds[|orderedIds|..] == [];
      reordered := reordered + remaining;
    }

    method ReorderLocal(orderedIds: seq<string>) returns (changed: bool)
      requires Valid()
      modifies this`localEntries
      ensures Valid() && localEntries == Reorder(old(localEntries), orderedIds)
      ensures changed <==> localEntries != old(localEntries)
    {
      if |localEntries| < 2 {
        ShortReorder(localEntries, orderedIds);
        return false;
      }
      var before := IdList(localEntries);
      var reordered := Reordered(localEntries, orderedIds);
      ReorderPermutes(localEntries, orderedIds);
      PermutationKeepsDistinct(localEntries, reordered);
      IdsShowTheOrder(localEntries, reordered);
      localEntries := reordered;
      changed := before != IdList(localEntries);
    }

    method ClearLocal() returns (cleared: seq<Entry>)
      requires Valid()
      modifies this`localEntries
      ensures Valid() && cleared == old(localEntries) && localEntries == []
    {
      cleared := localEntries;
      localEntries := [];
    }

    method Reserve(id: string, executionText: string, displayText: string, images: seq<string>,
                   lane: Lane, origin: Origin)
      modifies this`reserved
      ensures reserved ==
              if IsBlank(id) then old(reserved)
              else Surviving(old(reserved), {id}) + [Reservation(id, executionText, displayText, images, lane, origin)]
    {
      BlankIff(id);
      if Trim(id) == "" {
        return;
      }
      reserved := Surviving(reserved, {id});
      reserved := reserved + [Reservation(id, executionText, displayText, images, lane, origin)];
    }

    method ClearRunning() returns (was: Option<Entry>)
      modifies this`reserved, this`running
      ensures was == old(running) && running == None && reserved == []
    {
      reserved := [];
      was := running;
      running := None;
    }
  }
}
