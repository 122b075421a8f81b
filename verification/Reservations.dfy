/** What becomes of a reservation when the remote side lists its text, or another one. */
module Reservations {
  import opened Options
  import opened RemoteQueue
  import opened RemoteIds
  import Decimal

  // No other reservation has the text and the lane of this one.
  ghost predicate OnlyExact(reserved: seq<Reservation>, r: Reservation) {
    r in reserved && forall x :: x in reserved && x.lane == r.lane && x.executionText == r.executionText ==> x == r
  }

  ghost predicate Known(remote: Remote, key: Key) {
    exists e :: e in remote.entries && KeyOf(e) == key
  }

  // The listed texts of the lane are different ones that previous entries have, so that none
  // of them needs a reservation.
  ghost predicate LaneIsKnown(remote: Remote, keys: seq<Key>, lane: Lane) {
    && DistinctKeys(keys)
    && forall j :: 0 <= j < |keys| && keys[j].lane == lane ==> Known(remote, keys[j])
  }

  lemma FirstOfKey(remote: Remote, key: Key) returns (h: nat)
    requires Known(remote, key)
    ensures h < |remote.entries| && KeyOf(remote.entries[h]) == key
    ensures forall j :: 0 <= j < h ==> KeyOf(remote.entries[j]) != key
  {
    h := 0;
    while KeyOf(remote.entries[h]) != key
      invariant h < |remote.entries|
      invariant exists j :: h <= j < |remote.entries| && KeyOf(remote.entries[j]) == key
      invariant forall j :: 0 <= j < h ==> KeyOf(remote.entries[j]) != key
      decreases |remote.entries| - h
    {
      h := h + 1;
    }
  }

  lemma {:induction false} ReservationWaits(remote: Remote, keys: seq<Key>, r: Reservation)
    requires OnlyExact(remote.reserved, r) && LaneIsKnown(remote, keys, r.lane)
    ensures OnlyExact(PlaceAll(remote, keys).reserved, r)
    decreases |keys|
  {
    if keys != [] {
      var front, last := keys[..|keys| - 1], keys[|keys| - 1];
      ReservationWaits(remote, front, r);
      var p := PlaceAll(remote, front);
      if last.lane == r.lane {
        var h := FirstOfKey(remote, last);
        HeadUsedIff(remote, front, h);
        assert last !in front;
        assert FirstUnused(remote.entries, p.used, last, 0) <= h;
      } else {
        OtherLanePlaces(remote, p, last, r);
      }
    }
  }

  lemma OtherLanePlaces(remote: Remote, p: Progress, key: Key, r: Reservation)
    requires |p.used| == |remote.entries| && OnlyExact(p.reserved, r) && key.lane != r.lane
    ensures OnlyExact(Place(remote.entries, p, key).reserved, r)
  {
    var i := PickReservation(p.reserved, key);
    if FirstUnused(remote.entries, p.used, key, 0) == |remote.entries| && i < |p.reserved| {
      var q := RemoveAt(p.reserved, i);
      assert r in multiset(p.reserved) && r != p.reserved[i];
      assert r in multiset(q);
      forall x | x in q
        ensures x in p.reserved
      {
        assert x in multiset(q);
        assert x in multiset(p.reserved);
      }
    }
  }

  // A text that was reserved, and that no previous entry has, is listed with exactly what was
  // reserved, once it is the first unknown text of its lane.
  lemma {:induction false} ReservedIsListed(remote: Remote, r: Reservation, before: seq<Key>, after: seq<Key>)
    requires forall x :: x in remote.reserved && x.id != r.id ==> x.lane != r.lane || x.executionText != r.executionText
    requires var key := Key(r.executionText, r.lane);
             !Known(remote, key) && key !in before && LaneIsKnown(remote, before, r.lane)
    ensures var e := Reconcile(WithReservation(remote, r), before + [Key(r.executionText, r.lane)] + after).entries;
            && |before| < |e|
            && e[|before|] == Entry(r.id, r.executionText, r.displayText, r.images, 0, r.lane, r.origin)
  {
    var key, now := Key(r.executionText, r.lane), WithReservation(remote, r);
    assert now.reserved[|now.reserved| - 1] == r && OnlyExact(now.reserved, r);
    forall j | 0 <= j < |before| && before[j].lane == r.lane
      ensures Known(now, before[j])
    {
      assert Known(remote, before[j]);
    }
    ReservationWaits(now, before, r);
    PlacedKeys(now, before);
    var p := PlaceAll(now, before);
    assert |p.next| == |Keys(p.next)| == |before|;
    TakesItsReservation(now, p, key, r);
    var keys := before + [key];
    assert keys[..|keys| - 1] == before;
    PlacedPrefix(now, keys, after);
  }

  lemma TakesItsReservation(remote: Remote, p: Progress, key: Key, r: Reservation)
    requires |p.used| == |remote.entries| && OnlyExact(p.reserved, r)
    requires key == Key(r.executionText, r.lane) && !Known(remote, key)
    ensures Place(remote.entries, p, key).next ==
            p.next + [Entry(r.id, r.executionText, r.displayText, r.images, 0, r.lane, r.origin)]
  {
    forall j | 0 <= j < |remote.entries|
      ensures KeyOf(remote.entries[j]) != key
    {
      assert remote.entries[j] in remote.entries;
    }
    assert p.reserved[PickReservation(p.reserved, key)] in p.reserved;
  }

  // Further texts only add to the list.
  lemma {:induction false} PlacedPrefix(remote: Remote, keys: seq<Key>, after: seq<Key>)
    ensures PlaceAll(remote, keys).next <= PlaceAll(remote, keys + after).next
    decreases |after|
  {
    if after == [] {
      assert keys + after == keys;
    } else {
      var front, last := after[..|after| - 1], after[|after| - 1];
      PlacedPrefix(remote, keys, front);
      PlacedOneMore(remote, keys + front, last);
      assert keys + front + [last] == keys + after;
    }
  }

  lemma PlacedOneMore(remote: Remote, keys: seq<Key>, last: Key)
    ensures PlaceAll(remote, keys).next <= PlaceAll(remote, keys + [last]).next
  {
    assert (keys + [last])[..|keys|] == keys;
    PlaceAppends(remote.entries, PlaceAll(remote, keys), last);
  }

  // ---------------------------------------------------------------------------
  // The only reservation of a lane
  // ---------------------------------------------------------------------------

  ghost predicate OnlyInLane(reserved: seq<Reservation>, r: Reservation) {
    multiset(reserved)[r] == 1 && forall x :: x in reserved && x.lane == r.lane ==> x == r
  }

  ghost predicate NoneInLane(reserved: seq<Reservation>, lane: Lane) {
    forall x :: x in reserved ==> x.lane != lane
  }

  // Some text of the lane is listed more often than previous entries have it.
  ghost predicate Excess(remote: Remote, keys: seq<Key>, lane: Lane) {
    exists key: Key :: key.lane == lane && Count(keys, key) > Count(Keys(remote.entries), key)
  }

  lemma RemovedContents(reserved: seq<Reservation>, i: nat)
    requires i < |reserved|
    ensures forall x :: x in RemoveAt(reserved, i) ==> x in reserved
    ensures forall x :: x in reserved && x != reserved[i] ==> x in RemoveAt(reserved, i)
  {
    var left := RemoveAt(reserved, i);
    forall x
      ensures x in left ==> x in reserved
      ensures x in reserved && x != reserved[i] ==> x in left
    {
      assert x in left <==> x in multiset(left);
      assert x in reserved <==> x in multiset(reserved);
    }
  }

  // A listed text is carried over exactly when it was listed less often before than previous
  // entries have it.
  lemma CarriedIff(remote: Remote, front: seq<Key>, last: Key)
    ensures var p := PlaceAll(remote, front);
            FirstUnused(remote.entries, p.used, last, 0) < |remote.entries| <==>
            Count(front, last) < Count(Keys(remote.entries), last)
  {
    var p := PlaceAll(remote, front);
    CarryAccount(remote, front, last);
    FreeZero(remote.entries, p.used, last);
  }

  lemma ExcessSnoc(remote: Remote, front: seq<Key>, last: Key, lane: Lane)
    ensures Excess(remote, front + [last], lane) <==>
            Excess(remote, front, lane) || (last.lane == lane && Count(front, last) >= Count(Keys(remote.entries), last))
  {
    forall key: Key
      ensures Count(front + [last], key) == Count(front, key) + if last == key then 1 else 0
    {
      CountSnoc(front, last, key);
    }
  }

  // The first excess text takes the only reservation of its lane, whatever its text.
  lemma {:induction false} LaneReservation(remote: Remote, keys: seq<Key>, r: Reservation)
    requires OnlyInLane(remote.reserved, r)
    ensures var left := PlaceAll(remote, keys).reserved;
            if Excess(remote, keys, r.lane) then NoneInLane(left, r.lane) else OnlyInLane(left, r)
    decreases |keys|
  {
    if keys != [] {
      var front, last := keys[..|keys| - 1], keys[|keys| - 1];
      LaneReservation(remote, front, r);
      ExcessSnoc(remote, front, last, r.lane);
      CarriedIff(remote, front, last);
      assert front + [last] == keys;
      LaneStep(remote, PlaceAll(remote, front), last, r);
    }
  }

  lemma LaneStep(remote: Remote, p: Progress, key: Key, r: Reservation)
    requires |p.used| == |remote.entries|
    ensures var left := Place(remote.entries, p, key).reserved;
            var carried := FirstUnused(remote.entries, p.used, key, 0) < |remote.entries|;
            && (NoneInLane(p.reserved, r.lane) ==> NoneInLane(left, r.lane))
            && (OnlyInLane(p.reserved, r) && (carried || key.lane != r.lane) ==> OnlyInLane(left, r))
            && (OnlyInLane(p.reserved, r) && !carried && key.lane == r.lane ==> NoneInLane(left, r.lane))
  {
    var i := PickReservation(p.reserved, key);
    if i < |p.reserved| {
      RemovedContents(p.reserved, i);
      var left := RemoveAt(p.reserved, i);
      assert p.reserved[i] in p.reserved;
      assert r in left ==> r in multiset(left);
    }
    assert OnlyInLane(p.reserved, r) ==> r in multiset(p.reserved);
  }

  // A reserved text that no previous entry has is listed with exactly what was reserved if
  // and only if no text listed before it is in excess; else it gets an id of its own.
  lemma {:induction false} ReservedIsListedIff(remote: Remote, r: Reservation, before: seq<Key>, after: seq<Key>)
    requires forall x :: x in remote.reserved && x.id != r.id ==> x.lane != r.lane
    requires !Known(remote, Key(r.executionText, r.lane)) && !IsFuture(r.id, remote.nextSeq)
    ensures var es := Reconcile(WithReservation(remote, r), before + [Key(r.executionText, r.lane)] + after).entries;
            && |before| < |es|
            && (es[|before|] == Entry(r.id, r.executionText, r.displayText, r.images, 0, r.lane, r.origin) <==>
                !Excess(remote, before, r.lane))
            && (es[|before|].id == r.id <==> !Excess(remote, before, r.lane))
  {
    var key, now := Key(r.executionText, r.lane), WithReservation(remote, r);
    OnlyOneLeft(remote, r);
    LaneReservation(now, before, r);
    assert Excess(now, before, r.lane) <==> Excess(remote, before, r.lane);
    PlacedKeys(now, before);
    NothingIsUsedTwice(now, before);
    var p := PlaceAll(now, before);
    assert |p.next| == |Keys(p.next)| == |before|;
    if Excess(now, before, r.lane) {
      GetsNewId(now, p, key);
    } else {
      assert r in multiset(p.reserved);
      TakesItsReservation(now, p, key, r);
    }
    var keys := before + [key];
    assert keys[..|keys| - 1] == before;
    PlacedPrefix(now, keys, after);
  }

  lemma OnlyOneLeft(remote: Remote, r: Reservation)
    requires forall x :: x in remote.reserved && x.id != r.id ==> x.lane != r.lane
    ensures OnlyInLane(WithReservation(remote, r).reserved, r)
  {
    var others := Surviving(remote.reserved, {r.id});
    assert r !in others && r !in multiset(others);
    assert multiset(others + [r]) == multiset(others) + multiset{r};
  }

  lemma GetsNewId(remote: Remote, p: Progress, key: Key)
    requires |p.used| == |remote.entries| && !Known(remote, key) && NoneInLane(p.reserved, key.lane)
    ensures Place(remote.entries, p, key).next == p.next + [FreshEntry(p.nextSeq + 1, key)]
  {
    forall j | 0 <= j < |remote.entries|
      ensures KeyOf(remote.entries[j]) != key
    {
      assert remote.entries[j] in remote.entries;
    }
    assert forall j :: 0 <= j < |p.reserved| ==> p.reserved[j] in p.reserved;
  }

  // Otherwise an unknown text that comes first takes the reservation, and the reserved text
  // itself is listed as a new entry without what was reserved.
  lemma EarlierTextTakesTheReservation(r: Reservation, other: string)
    requires other != r.executionText
    ensures var keys := [Key(other, r.lane), Key(r.executionText, r.lane)];
            Reconcile(Remote([], [r], 0, None), keys).entries ==
            [Entry(r.id, other, r.displayText, r.images, 0, r.lane, r.origin),
             Entry(Decimal.Id("pi-queue", 1), r.executionText, r.executionText, [], 0, r.lane, Pi)]
  {
    var remote := Remote([], [r], 0, None);
    var first, last := Key(other, r.lane), Key(r.executionText, r.lane);
    TakesTheOnly(r, first);
    GetsNewId(remote, PlaceAll(remote, [first]), last);
    OneMoreText(remote, [first], last);
    assert [first, last] == [first] + [last];
  }

  lemma OneMoreText(remote: Remote, keys: seq<Key>, last: Key)
    ensures Reconcile(remote, keys + [last]).entries == Place(remote.entries, PlaceAll(remote, keys), last).next
  {
    assert (keys + [last])[..|keys|] == keys;
  }

  lemma TakesTheOnly(r: Reservation, key: Key)
    requires key.lane == r.lane
    ensures var one := PlaceAll(Remote([], [r], 0, None), [key]);
            && one.reserved == [] && one.used == [] && one.nextSeq == 0
            && one.next == [Entry(r.id, key.text, r.displayText, r.images, 0, r.lane, r.origin)]
  {
    OneText(Remote([], [r], 0, None), key);
    assert PickReservation([r], key) == 0;
  }

  lemma OneText(remote: Remote, key: Key)
    ensures PlaceAll(remote, [key]) == Place(remote.entries, Start(remote), key)
  {
    assert [key][..0] == [];
    assert PlaceAll(remote, []) == Start(remote);
  }
}
