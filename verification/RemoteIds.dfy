/** When the ids of the mirrored remote queue stay pairwise distinct. */
module RemoteIds {
  import opened Options
  import opened RemoteQueue
  import Decimal

  const GENERATED := "pi-queue"

  // An id that the counter has still to generate.
  ghost predicate IsFuture(id: string, nextSeq: nat) {
    exists n :: n > nextSeq && id == Decimal.Id(GENERATED, n)
  }

  ghost predicate EntriesApart(es: seq<Entry>, nextSeq: nat) {
    && (forall i, j :: 0 <= i < j < |es| ==> es[i].id != es[j].id)
    && (forall i :: 0 <= i < |es| ==> !IsFuture(es[i].id, nextSeq))
  }

  ghost predicate ReservedApart(rs: seq<Reservation>, nextSeq: nat) {
    && (forall i, j :: 0 <= i < j < |rs| ==> rs[i].id != rs[j].id)
    && (forall i :: 0 <= i < |rs| ==> !IsFuture(rs[i].id, nextSeq))
  }

  ghost predicate NoneShared(es: seq<Entry>, rs: seq<Reservation>) {
    forall i, j :: 0 <= i < |es| && 0 <= j < |rs| ==> es[i].id != rs[j].id
  }

  // No two entries or reservations share an id, and none has an id still to be generated.
  ghost predicate IdsApart(remote: Remote) {
    && EntriesApart(remote.entries, remote.nextSeq) && ReservedApart(remote.reserved, remote.nextSeq)
    && NoneShared(remote.entries, remote.reserved)
  }

  // The previous entries that are still unused have ids of their own.
  ghost predicate UnusedApart(previous: seq<Entry>, used: seq<bool>, next: seq<Entry>)
    requires |used| == |previous|
  {
    forall i, j :: 0 <= i < |previous| && !used[i] && 0 <= j < |next| ==> previous[i].id != next[j].id
  }

  ghost predicate PlacedApart(remote: Remote, p: Progress) {
    && |p.used| == |remote.entries|
    && EntriesApart(remote.entries, p.nextSeq)
    && EntriesApart(p.next, p.nextSeq) && ReservedApart(p.reserved, p.nextSeq)
    && NoneShared(remote.entries, p.reserved) && NoneShared(p.next, p.reserved)
    && UnusedApart(remote.entries, p.used, p.next)
  }

  lemma FutureAfter(id: string, nextSeq: nat)
    requires !IsFuture(id, nextSeq)
    ensures !IsFuture(id, nextSeq + 1) && id != Decimal.Id(GENERATED, nextSeq + 1)
  {}

  lemma GeneratedIsPast(nextSeq: nat)
    ensures !IsFuture(Decimal.Id(GENERATED, nextSeq), nextSeq)
  {
    forall n | n > nextSeq
      ensures Decimal.Id(GENERATED, n) != Decimal.Id(GENERATED, nextSeq)
    {
      if Decimal.Id(GENERATED, n) == Decimal.Id(GENERATED, nextSeq) {
        Decimal.IdInjective(GENERATED, n, nextSeq);
      }
    }
  }

  lemma CarriedStaysApart(remote: Remote, p: Progress, key: Key)
    requires PlacedApart(remote, p) && FirstUnused(remote.entries, p.used, key, 0) < |remote.entries|
    ensures PlacedApart(remote, Place(remote.entries, p, key))
  {
    var i := FirstUnused(remote.entries, p.used, key, 0);
    var q := Place(remote.entries, p, key);
    assert q.next == p.next + [remote.entries[i]] && q.reserved == p.reserved && q.nextSeq == p.nextSeq;
  }

  lemma ClaimedStaysApart(remote: Remote, p: Progress, key: Key)
    requires PlacedApart(remote, p) && FirstUnused(remote.entries, p.used, key, 0) == |remote.entries|
    requires PickReservation(p.reserved, key) < |p.reserved|
    ensures PlacedApart(remote, Place(remote.entries, p, key))
  {
    var r := PickReservation(p.reserved, key);
    var q := Place(remote.entries, p, key);
    assert q.next == p.next + [FromReservation(p.reserved[r], key)] && q.used == p.used && q.nextSeq == p.nextSeq;
    assert q.reserved == RemoveAt(p.reserved, r);
  }

  lemma CountedUp(es: seq<Entry>, rs: seq<Reservation>, nextSeq: nat)
    requires EntriesApart(es, nextSeq) && ReservedApart(rs, nextSeq)
    ensures EntriesApart(es, nextSeq + 1) && ReservedApart(rs, nextSeq + 1)
    ensures forall i :: 0 <= i < |es| ==> es[i].id != Decimal.Id(GENERATED, nextSeq + 1)
    ensures forall i :: 0 <= i < |rs| ==> rs[i].id != Decimal.Id(GENERATED, nextSeq + 1)
  {
    forall i | 0 <= i < |es|
      ensures !IsFuture(es[i].id, nextSeq + 1) && es[i].id != Decimal.Id(GENERATED, nextSeq + 1)
    {
      FutureAfter(es[i].id, nextSeq);
    }
    forall i | 0 <= i < |rs|
      ensures !IsFuture(rs[i].id, nextSeq + 1) && rs[i].id != Decimal.Id(GENERATED, nextSeq + 1)
    {
      FutureAfter(rs[i].id, nextSeq);
    }
  }

  lemma FreshStaysApart(remote: Remote, p: Progress, key: Key)
    requires PlacedApart(remote, p) && FirstUnused(remote.entries, p.used, key, 0) == |remote.entries|
    requires PickReservation(p.reserved, key) == |p.reserved|
    ensures PlacedApart(remote, Place(remote.entries, p, key))
  {
    var q := Place(remote.entries, p, key);
    var added := FreshEntry(p.nextSeq + 1, key);
    assert q.next == p.next + [added] && q.used == p.used && q.reserved == p.reserved && q.nextSeq == p.nextSeq + 1;
    CountedUp(remote.entries, p.reserved, p.nextSeq);
    CountedUp(p.next, p.reserved, p.nextSeq);
    GeneratedIsPast(p.nextSeq + 1);
    assert EntriesApart(q.next, q.nextSeq);
  }

  lemma {:induction false} PlacingStaysApart(remote: Remote, keys: seq<Key>)
    requires IdsApart(remote)
    ensures PlacedApart(remote, PlaceAll(remote, keys))
    decreases |keys|
  {
    if keys != [] {
      var key := keys[|keys| - 1];
      var p := PlaceAll(remote, keys[..|keys| - 1]);
      PlacingStaysApart(remote, keys[..|keys| - 1]);
      if FirstUnused(remote.entries, p.used, key, 0) < |remote.entries| {
        CarriedStaysApart(remote, p, key);
      } else if PickReservation(p.reserved, key) < |p.reserved| {
        ClaimedStaysApart(remote, p, key);
      } else {
        FreshStaysApart(remote, p, key);
      }
    }
  }

  // Ids that are apart stay apart, whatever the remote side reports.
  lemma {:induction false} ReconcileKeepsIdsApart(remote: Remote, keys: seq<Key>)
    requires IdsApart(remote)
    ensures IdsApart(Reconcile(remote, keys))
  {
    var p := PlaceAll(remote, keys);
    PlacingStaysApart(remote, keys);
    assert forall i :: 0 <= i < |p.next| ==> p.next[i] in p.next;
    NothingLeavesReserved(p.reserved, p.next);
  }

  // The reservations that are left all have ids of their own, so dropping those that a
  // listed entry took drops none.
  lemma NothingLeavesReserved(rs: seq<Reservation>, next: seq<Entry>)
    requires NoneShared(next, rs)
    ensures Surviving(rs, Ids(next)) == rs
  {
    forall r | r in rs
      ensures r.id !in Ids(next)
    {
      forall e | e in next
        ensures e.id != r.id
      {
      }
    }
  }

  function WithReservation(remote: Remote, r: Reservation): Remote {
    remote.(reserved := Surviving(remote.reserved, {r.id}) + [r])
  }

  // A new reservation keeps them apart exactly when no listed entry has its id and the
  // counter will not generate it.
  lemma {:induction false} ReservingKeepsIdsApartIff(remote: Remote, r: Reservation)
    requires IdsApart(remote)
    ensures IdsApart(WithReservation(remote, r)) <==> r.id !in Ids(remote.entries) && !IsFuture(r.id, remote.nextSeq)
  {
    var now := WithReservation(remote, r);
    var others := Surviving(remote.reserved, {r.id});
    SurvivingApart(remote.reserved, remote.nextSeq, {r.id});
    assert now.reserved[|others|] == r;
    forall i | 0 <= i < |others|
      ensures others[i].id != r.id && others[i] in remote.reserved
    {
      assert others[i] in others;
    }
    if r.id in Ids(remote.entries) {
      var e :| e in remote.entries && e.id == r.id;
      var i :| 0 <= i < |remote.entries| && remote.entries[i] == e;
      assert now.entries[i].id == now.reserved[|others|].id;
    }
    forall i | 0 <= i < |remote.entries|
      ensures remote.entries[i].id in Ids(remote.entries)
    {
      assert remote.entries[i] in remote.entries;
    }
  }

  lemma {:induction false} SurvivingApart(rs: seq<Reservation>, nextSeq: nat, taken: set<string>)
    requires ReservedApart(rs, nextSeq)
    ensures ReservedApart(Surviving(rs, taken), nextSeq)
  {
    if rs != [] {
      SurvivingApart(rs[1..], nextSeq, taken);
      if rs[0].id !in taken {
        var left := Surviving(rs[1..], taken);
        forall i | 0 <= i < |left|
          ensures left[i].id != rs[0].id
        {
          assert left[i] in left;
        }
      }
    }
  }
}
