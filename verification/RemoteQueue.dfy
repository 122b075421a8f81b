/** Stable identities for a remote queue that only reports texts. */
module RemoteQueue {
  import opened Options
  import Decimal

  datatype Lane = Steering | FollowUp

  datatype Origin = Client | Extension | Pi

  datatype Entry = Entry(
    id: string, executionText: string, displayText: string, images: seq<string>,
    version: nat, lane: Lane, origin: Origin)

  datatype Reservation = Reservation(
    id: string, executionText: string, displayText: string, images: seq<string>,
    lane: Lane, origin: Origin)

  // What the remote side tells about one of its entries.
  datatype Key = Key(text: string, lane: Lane)

  // The remote half of the mirror.
  datatype Remote = Remote(
    entries: seq<Entry>, reserved: seq<Reservation>, nextSeq: nat, running: Option<Entry>)

  function KeyOf(e: Entry): Key {
    Key(e.executionText, e.lane)
  }

  function Keys(es: seq<Entry>): (ks: seq<Key>)
    ensures |ks| == |es| && forall i :: 0 <= i < |es| ==> ks[i] == KeyOf(es[i])
  {
    seq(|es|, i requires 0 <= i < |es| => KeyOf(es[i]))
  }

  function Desired(steering: seq<string>, followUp: seq<string>): (ks: seq<Key>)
    ensures |ks| == |steering| + |followUp|
    ensures forall i :: 0 <= i < |steering| ==> ks[i] == Key(steering[i], Steering)
    ensures forall i :: 0 <= i < |followUp| ==> ks[|steering| + i] == Key(followUp[i], FollowUp)
  {
    seq(|steering|, i requires 0 <= i < |steering| => Key(steering[i], Steering)) +
    seq(|followUp|, i requires 0 <= i < |followUp| => Key(followUp[i], FollowUp))
  }

  // The first entry from position `from` on that is unused and has the key, or |previous|.
  function FirstUnused(previous: seq<Entry>, used: seq<bool>, key: Key, from: nat): (index: nat)
    requires |used| == |previous| && from <= |previous|
    ensures from <= index <= |previous|
    ensures index < |previous| ==> !used[index] && KeyOf(previous[index]) == key
    ensures forall j :: from <= j < index ==> used[j] || KeyOf(previous[j]) != key
    decreases |previous| - from
  {
    if from == |previous| || (!used[from] && KeyOf(previous[from]) == key) then from
    else FirstUnused(previous, used, key, from + 1)
  }

  function FirstReservation(reserved: seq<Reservation>, key: Key, exact: bool, from: nat): (index: nat)
    requires from <= |reserved|
    ensures from <= index <= |reserved|
    ensures index < |reserved| ==>
              reserved[index].lane == key.lane && (exact ==> reserved[index].executionText == key.text)
    ensures forall j :: from <= j < index ==>
              !(reserved[j].lane == key.lane && (exact ==> reserved[j].executionText == key.text))
    decreases |reserved| - from
  {
    if from == |reserved| ||
       (reserved[from].lane == key.lane && (exact ==> reserved[from].executionText == key.text))
    then from
    else FirstReservation(reserved, key, exact, from + 1)
  }

  // An exact text match wins over a match on the lane alone.
  function PickReservation(reserved: seq<Reservation>, key: Key): (index: nat)
    ensures index <= |reserved|
    ensures index < |reserved| ==> reserved[index].lane == key.lane
    ensures forall j :: 0 <= j < index ==> reserved[j].lane != key.lane || reserved[j].executionText != key.text
    ensures index < |reserved| && reserved[index].executionText != key.text ==>
              forall j :: 0 <= j < index ==> reserved[j].lane != key.lane
    ensures index == |reserved| ==> forall r :: r in reserved ==> r.lane != key.lane
    ensures (exists r :: r in reserved && r.lane == key.lane && r.executionText == key.text) ==>
              index < |reserved| && reserved[index].executionText == key.text
  {
    var exact := FirstReservation(reserved, key, true, 0);
    if exact < |reserved| then exact else FirstReservation(reserved, key, false, 0)
  }

  function FromReservation(r: Reservation, key: Key): Entry {
    Entry(r.id, key.text, r.displayText, r.images, 0, key.lane, r.origin)
  }

  function FreshEntry(n: nat, key: Key): Entry {
    Entry(Decimal.Id("pi-queue", n), key.text, key.text, [], 0, key.lane, Pi)
  }

  function RemoveAt<T>(s: seq<T>, index: nat): (r: seq<T>)
    requires index < |s|
    ensures |r| == |s| - 1 && forall j :: 0 <= j < |r| ==> r[j] == s[if j < index then j else j + 1]
    ensures multiset(s) == multiset(r) + multiset{s[index]}
  {
    assert s == s[..index] + [s[index]] + s[index + 1..];
    s[..index] + s[index + 1..]
  }

  // ---------------------------------------------------------------------------
  // Specification of the matching loop
  // ---------------------------------------------------------------------------

  // Where an entry of the new list comes from.
  datatype Source = Carried(index: nat) | Claimed(reservation: Reservation) | Fresh(n: nat)

  datatype Progress = Progress(
    used: seq<bool>, reserved: seq<Reservation>, nextSeq: nat, next: seq<Entry>, sources: seq<Source>)

  ghost function Start(remote: Remote): (p: Progress)
    ensures |p.used| == |remote.entries|
  {
    Progress(seq(|remote.entries|, i => false), remote.reserved, remote.nextSeq, [], [])
  }

  ghost function Place(previous: seq<Entry>, p: Progress, key: Key): (q: Progress)
    requires |p.used| == |previous|
    ensures |q.used| == |previous|
  {
    var i := FirstUnused(previous, p.used, key, 0);
    var r := PickReservation(p.reserved, key);
    if i < |previous| then
      p.(used := p.used[i := true], next := p.next + [previous[i]], sources := p.sources + [Carried(i)])
    else if r < |p.reserved| then
      p.(reserved := RemoveAt(p.reserved, r), next := p.next + [FromReservation(p.reserved[r], key)],
      sources := p.sources + [Claimed(p.reserved[r])])
    else
      p.(nextSeq := p.nextSeq + 1, next := p.next + [FreshEntry(p.nextSeq + 1, key)],
      sources := p.sources + [Fresh(p.nextSeq + 1)])
  }

  ghost function PlaceAll(remote: Remote, keys: seq<Key>): (p: Progress)
    ensures |p.used| == |remote.entries|
    decreases |keys|
  {
    if keys == [] then Start(remote)
    else Place(remote.entries, PlaceAll(remote, keys[..|keys| - 1]), keys[|keys| - 1])
  }

  function Ids(es: seq<Entry>): (ids: set<string>)
    ensures forall e :: e in es ==> e.id in ids
  {
    set e | e in es :: e.id
  }

  function Surviving(reserved: seq<Reservation>, taken: set<string>): (r: seq<Reservation>)
    ensures forall x :: x in r <==> x in reserved && x.id !in taken
    ensures (forall x :: x in reserved ==> x.id !in taken) ==> r == reserved
  {
    if reserved == [] then []
    else if reserved[0].id in taken then Surviving(reserved[1..], taken)
    else [reserved[0]] + Surviving(reserved[1..], taken)
  }

  // The first follow-up of the previous list that the new list did not carry over.
  function FirstDropped(previous: seq<Entry>, used: seq<bool>, from: nat): (index: nat)
    requires |used| == |previous| && from <= |previous|
    ensures from <= index <= |previous|
    ensures index < |previous| ==> !used[index] && previous[index].lane == FollowUp
    ensures forall j :: from <= j < index ==> used[j] || previous[j].lane != FollowUp
    decreases |previous| - from
  {
    if from == |previous| || (!used[from] && previous[from].lane == FollowUp) then from
    else FirstDropped(previous, used, from + 1)
  }

  ghost function Reconcile(remote: Remote, keys: seq<Key>): Remote {
    var p := PlaceAll(remote, keys);
    var d := FirstDropped(remote.entries, p.used, 0);
    Remote(p.next, Surviving(p.reserved, Ids(p.next)), p.nextSeq,
           if d < |remote.entries| then Some(remote.entries[d]) else remote.running)
  }

  // ---------------------------------------------------------------------------
  // The new list is the remote list
  // ---------------------------------------------------------------------------

  lemma KeysSnoc(es: seq<Entry>, e: Entry)
    ensures Keys(es + [e]) == Keys(es) + [KeyOf(e)]
  {}

  lemma PlaceAppendsTheKey(previous: seq<Entry>, p: Progress, key: Key)
    requires |p.used| == |previous|
    ensures Keys(Place(previous, p, key).next) == Keys(p.next) + [key]
  {
    var q := Place(previous, p, key);
    var e := q.next[|p.next|];
    assert q.next == p.next + [e] && KeyOf(e) == key;
    KeysSnoc(p.next, e);
  }

  lemma {:induction false} PlacedKeys(remote: Remote, keys: seq<Key>)
    ensures Keys(PlaceAll(remote, keys).next) == keys
    decreases |keys|
  {
    if keys != [] {
      var front, last := keys[..|keys| - 1], keys[|keys| - 1];
      var p := PlaceAll(remote, front);
      PlacedKeys(remote, front);
      PlaceAppendsTheKey(remote.entries, p, last);
      assert PlaceAll(remote, keys) == Place(remote.entries, p, last);
      assert front + [last] == keys;
    }
  }

  lemma NewListIsTheRemoteList(remote: Remote, steering: seq<string>, followUp: seq<string>)
    ensures var es := Reconcile(remote, Desired(steering, followUp)).entries;
            && |es| == |steering| + |followUp|
            && (forall i :: 0 <= i < |steering| ==> es[i].executionText == steering[i] && es[i].lane == Steering)
            && (forall i :: |steering| <= i < |es| ==>
                  es[i].executionText == followUp[i - |steering|] && es[i].lane == FollowUp)
  {
    var keys := Desired(steering, followUp);
    PlacedKeys(remote, keys);
    var es := PlaceAll(remote, keys).next;
    assert forall i :: 0 <= i < |es| ==> KeyOf(es[i]) == Keys(es)[i];
  }

  // ---------------------------------------------------------------------------
  // As many identities as possible are kept
  // ---------------------------------------------------------------------------

  ghost function Free(previous: seq<Entry>, used: seq<bool>, key: Key): nat
    requires |used| == |previous|
  {
    if previous == [] then 0
    else
      var n := |previous| - 1;
      Free(previous[..n], used[..n], key) + (if !used[n] && KeyOf(previous[n]) == key then 1 else 0)
  }

  ghost function Count(keys: seq<Key>, key: Key): nat {
    multiset(keys)[key]
  }

  // How many entries with this key were carried over from the previous list.
  ghost function CarriedOver(keys: seq<Key>, sources: seq<Source>, key: Key): nat
    requires |sources| == |keys|
  {
    if keys == [] then 0
    else
      var n := |keys| - 1;
      CarriedOver(keys[..n], sources[..n], key) + (if sources[n].Carried? && keys[n] == key then 1 else 0)
  }

  lemma {:induction false} FreeUpdate(previous: seq<Entry>, used: seq<bool>, i: nat, key: Key)
    requires |used| == |previous| && i < |previous| && !used[i]
    ensures Free(previous, used[i := true], key) ==
            Free(previous, used, key) - (if KeyOf(previous[i]) == key then 1 else 0)
    decreases |previous|
  {
    var n := |previous| - 1;
    if i < n {
      assert used[i := true][..n] == used[..n][i := true];
      FreeUpdate(previous[..n], used[..n], i, key);
    } else {
      assert used[i := true][..n] == used[..n];
    }
  }

  lemma {:induction false} FreeZero(previous: seq<Entry>, used: seq<bool>, key: Key)
    requires |used| == |previous|
    ensures Free(previous, used, key) == 0 <==>
            forall j :: 0 <= j < |previous| ==> used[j] || KeyOf(previous[j]) != key
    decreases |previous|
  {
    if previous != [] {
      var n := |previous| - 1;
      FreeZero(previous[..n], used[..n], key);
      assert forall j :: 0 <= j < n ==> used[..n][j] == used[j] && previous[..n][j] == previous[j];
    }
  }

  lemma {:induction false} FreeAtStart(previous: seq<Entry>, key: Key)
    ensures Free(previous, seq(|previous|, i => false), key) == Count(Keys(previous), key)
    decreases |previous|
  {
    if previous != [] {
      var n := |previous| - 1;
      FreeAtStart(previous[..n], key);
      assert seq(|previous|, i => false)[..n] == seq(n, i => false);
      assert Keys(previous) == Keys(previous[..n]) + [KeyOf(previous[n])];
    }
  }

  ghost predicate Accounted(remote: Remote, keys: seq<Key>, p: Progress, key: Key)
    requires |p.used| == |remote.entries| && |p.sources| == |keys|
  {
    var carried, free := CarriedOver(keys, p.sources, key), Free(remote.entries, p.used, key);
    && carried + free == Count(Keys(remote.entries), key)
    && carried <= Count(keys, key)
    && (free > 0 ==> carried == Count(keys, key))
  }

  lemma PlaceAccounts(remote: Remote, keys: seq<Key>, p: Progress, key: Key)
    requires keys != [] && |p.used| == |remote.entries| && |p.sources| == |keys| - 1
    requires Accounted(remote, keys[..|keys| - 1], p, key)
    ensures var q := Place(remote.entries, p, keys[|keys| - 1]);
            |q.sources| == |keys| && Accounted(remote, keys, q, key)
  {
    var front, added := keys[..|keys| - 1], keys[|keys| - 1];
    var q := Place(remote.entries, p, added);
    var i := FirstUnused(remote.entries, p.used, added, 0);
    CountSnoc(front, added, key);
    assert front + [added] == keys && q.sources[..|front|] == p.sources;
    assert CarriedOver(keys, q.sources, key) ==
        CarriedOver(front, p.sources, key) + if q.sources[|front|].Carried? && added == key then 1 else 0;
    if i < |remote.entries| {
      FreeUpdate(remote.entries, p.used, i, key);
    } else {
      FreeZero(remote.entries, p.used, added);
    }
  }

  lemma CountSnoc(keys: seq<Key>, added: Key, key: Key)
    ensures Count(keys + [added], key) == Count(keys, key) + if added == key then 1 else 0
  {}

  lemma {:induction false} CarryAccount(remote: Remote, keys: seq<Key>, key: Key)
    ensures |PlaceAll(remote, keys).sources| == |keys|
    ensures Accounted(remote, keys, PlaceAll(remote, keys), key)
    decreases |keys|
  {
    if keys == [] {
      FreeAtStart(remote.entries, key);
    } else {
      var front := keys[..|keys| - 1];
      CarryAccount(remote, front, key);
      PlaceAccounts(remote, keys, PlaceAll(remote, front), key);
    }
  }

  // Greedy matching by text keeps the largest possible number of identities: for every
  // text and lane, the minimum of the old and the new count.
  lemma CarriesAsManyAsPossible(remote: Remote, keys: seq<Key>, key: Key)
    ensures |PlaceAll(remote, keys).sources| == |keys|
    ensures var carried := CarriedOver(keys, PlaceAll(remote, keys).sources, key);
            var before, now := Count(Keys(remote.entries), key), Count(keys, key);
            carried == if before <= now then before else now
  {
    CarryAccount(remote, keys, key);
  }

  // ---------------------------------------------------------------------------
  // Nothing is used twice
  // ---------------------------------------------------------------------------

  ghost function Claims(sources: seq<Source>): multiset<Reservation> {
    if sources == [] then multiset{}
    else
      var n := |sources| - 1;
      Claims(sources[..n]) + (if sources[n].Claimed? then multiset{sources[n].reservation} else multiset{})
  }

  ghost predicate SourceExplains(remote: Remote, p: Progress, i: nat)
    requires i < |p.sources| == |p.next|
  {
    match p.sources[i]
    case Carried(j) => j < |remote.entries| && p.next[i] == remote.entries[j]
    case Claimed(r) =>
      var e := p.next[i];
      && e.id == r.id && e.displayText == r.displayText && e.images == r.images && e.origin == r.origin
      && e.lane == r.lane && e.version == 0
    case Fresh(n) =>
      var e := p.next[i];
      && remote.nextSeq < n <= p.nextSeq && e.id == Decimal.Id("pi-queue", n)
      && e.displayText == e.executionText && e.images == [] && e.origin == Pi && e.version == 0
  }

  ghost predicate SourcesExplain(remote: Remote, p: Progress) {
    && |p.sources| == |p.next|
    && remote.nextSeq <= p.nextSeq
    && forall i :: 0 <= i < |p.next| ==> SourceExplains(remote, p, i)
  }

  // A previous entry is carried at most once, and is marked used exactly when carried.
  ghost predicate CarriedOnce(p: Progress) {
    && (forall i, k :: 0 <= i < k < |p.sources| && p.sources[i].Carried? ==> p.sources[i] != p.sources[k])
    && (forall j :: 0 <= j < |p.used| ==> (p.used[j] <==> Carried(j) in p.sources))
  }

  // Counter values are never handed out twice.
  ghost predicate CountedOnce(p: Progress) {
    && (forall i :: 0 <= i < |p.sources| && p.sources[i].Fresh? ==> p.sources[i].n <= p.nextSeq)
    && (forall i, k :: 0 <= i < k < |p.sources| && p.sources[i].Fresh? && p.sources[k].Fresh? ==>
          p.sources[i].n < p.sources[k].n)
  }

  // Every reservation is either still there or claimed, never both.
  ghost predicate ClaimedOnce(remote: Remote, p: Progress) {
    multiset(remote.reserved) == multiset(p.reserved) + Claims(p.sources)
  }

  lemma PlaceExplains(remote: Remote, p: Progress, key: Key)
    requires |p.used| == |remote.entries| && SourcesExplain(remote, p)
    ensures SourcesExplain(remote, Place(remote.entries, p, key))
  {
    var q := Place(remote.entries, p, key);
    forall i | 0 <= i < |q.next| ensures SourceExplains(remote, q, i) {
      if i < |p.next| {
        assert SourceExplains(remote, p, i);
      }
    }
  }

  lemma PlaceCarriesOnce(remote: Remote, p: Progress, key: Key)
    requires |p.used| == |remote.entries| && CarriedOnce(p)
    ensures CarriedOnce(Place(remote.entries, p, key))
  {
    var q := Place(remote.entries, p, key);
    var last := q.sources[|p.sources|];
    assert q.sources == p.sources + [last];
    assert last.Carried? ==> last !in p.sources;
  }

  lemma PlaceClaimsOnce(remote: Remote, p: Progress, key: Key)
    requires |p.used| == |remote.entries| && ClaimedOnce(remote, p)
    ensures ClaimedOnce(remote, Place(remote.entries, p, key))
  {
    assert Place(remote.entries, p, key).sources[..|p.sources|] == p.sources;
  }

  lemma PlaceCountsOnce(previous: seq<Entry>, p: Progress, key: Key)
    requires |p.used| == |previous| && CountedOnce(p)
    ensures CountedOnce(Place(previous, p, key))
  {
    var q := Place(previous, p, key);
    assert forall i :: 0 <= i < |p.sources| ==> q.sources[i] == p.sources[i];
  }

  ghost predicate UsedOnce(remote: Remote, p: Progress) {
    SourcesExplain(remote, p) && CarriedOnce(p) && CountedOnce(p) && ClaimedOnce(remote, p)
  }

  lemma PlaceUsesOnce(remote: Remote, p: Progress, key: Key)
    requires |p.used| == |remote.entries| && UsedOnce(remote, p)
    ensures UsedOnce(remote, Place(remote.entries, p, key))
  {
    PlaceExplains(remote, p, key);
    PlaceCarriesOnce(remote, p, key);
    PlaceCountsOnce(remote.entries, p, key);
    PlaceClaimsOnce(remote, p, key);
  }

  lemma {:induction false} NothingIsUsedTwice(remote: Remote, keys: seq<Key>)
    ensures UsedOnce(remote, PlaceAll(remote, keys))
    decreases |keys|
  {
    if keys != [] {
      var n := |keys| - 1;
      NothingIsUsedTwice(remote, keys[..n]);
      PlaceUsesOnce(remote, PlaceAll(remote, keys[..n]), keys[n]);
    }
  }

  // Entries of the same text and lane are carried over front to back.
  ghost predicate CarriedInOrder(remote: Remote, p: Progress) {
    && |p.used| == |remote.entries|
    && (forall i, j :: 0 <= i < j < |p.used| && KeyOf(remote.entries[i]) == KeyOf(remote.entries[j]) && p.used[j] ==> p.used[i])
    && (forall a, b :: 0 <= a < b < |p.sources| && p.sources[a].Carried? && p.sources[b].Carried? ==>
          var i, j := p.sources[a].index, p.sources[b].index;
          i < |remote.entries| && j < |remote.entries| && KeyOf(remote.entries[i]) == KeyOf(remote.entries[j]) ==> i < j)
  }

  lemma PlaceCarriesInOrder(remote: Remote, p: Progress, key: Key)
    requires CarriedInOrder(remote, p) && CarriedOnce(p)
    ensures CarriedInOrder(remote, Place(remote.entries, p, key))
  {
    var q, n := Place(remote.entries, p, key), |p.sources|;
    assert q.sources == p.sources + [q.sources[n]];
    if q.sources[n].Carried? {
      var j := q.sources[n].index;
      assert j == FirstUnused(remote.entries, p.used, key, 0);
      forall a | 0 <= a < n && p.sources[a].Carried? && p.sources[a].index < |remote.entries|
                 && KeyOf(remote.entries[p.sources[a].index]) == KeyOf(remote.entries[j])
        ensures p.sources[a].index < j
      {
        assert Carried(p.sources[a].index) in p.sources;
      }
    }
  }

  lemma {:induction false} EqualTextsAreCarriedInOrder(remote: Remote, keys: seq<Key>)
    ensures CarriedInOrder(remote, PlaceAll(remote, keys))
    decreases |keys|
  {
    if keys != [] {
      var n := |keys| - 1;
      EqualTextsAreCarriedInOrder(remote, keys[..n]);
      NothingIsUsedTwice(remote, keys[..n]);
      PlaceCarriesInOrder(remote, PlaceAll(remote, keys[..n]), keys[n]);
    }
  }

  // The entry becomes the running one: a follow-up that is not carried, and the first such.
  ghost predicate FirstLost(remote: Remote, sources: seq<Source>, d: nat) {
    && d < |remote.entries| && remote.entries[d].lane == FollowUp && Carried(d) !in sources
    && forall j :: 0 <= j < d && remote.entries[j].lane == FollowUp ==> Carried(j) in sources
  }

  lemma {:induction false} RunningIsTheFirstLost(remote: Remote, keys: seq<Key>, d: nat)
    requires FirstLost(remote, PlaceAll(remote, keys).sources, d)
    ensures Reconcile(remote, keys).running == Some(remote.entries[d])
  {
    NothingIsUsedTwice(remote, keys);
    var p := PlaceAll(remote, keys);
    assert !p.used[d];
    assert forall j :: 0 <= j < d ==> p.used[j] || remote.entries[j].lane != FollowUp;
    assert FirstDropped(remote.entries, p.used, 0) == d;
  }

  lemma {:induction false} NothingLostKeepsRunning(remote: Remote, keys: seq<Key>)
    requires forall d: nat :: !FirstLost(remote, PlaceAll(remote, keys).sources, d)
    ensures Reconcile(remote, keys).running == remote.running
  {
    NothingIsUsedTwice(remote, keys);
    var p := PlaceAll(remote, keys);
    var d := FirstDropped(remote.entries, p.used, 0);
    assert !FirstLost(remote, p.sources, d);
  }

  ghost function CountFresh(sources: seq<Source>): nat {
    if sources == [] then 0
    else CountFresh(sources[..|sources| - 1]) + (if sources[|sources| - 1].Fresh? then 1 else 0)
  }

  lemma PlaceCounts(previous: seq<Entry>, p: Progress, key: Key)
    requires |p.used| == |previous|
    ensures var q := Place(previous, p, key);
            q.nextSeq - p.nextSeq == CountFresh(q.sources) - CountFresh(p.sources)
  {
    var q := Place(previous, p, key);
    assert q.sources[..|p.sources|] == p.sources;
  }

  // The counter advances by one for every new entry, and only for those.
  lemma {:induction false} CounterCountsTheFresh(remote: Remote, keys: seq<Key>)
    ensures PlaceAll(remote, keys).nextSeq == remote.nextSeq + CountFresh(PlaceAll(remote, keys).sources)
    decreases |keys|
  {
    if keys != [] {
      var front, last := keys[..|keys| - 1], keys[|keys| - 1];
      CounterCountsTheFresh(remote, front);
      PlaceCounts(remote.entries, PlaceAll(remote, front), last);
    }
  }

  // Reservations that survive keep their order: the first that is not taken comes first, and
  // the others follow.
  lemma {:induction false} SurvivorsKeepTheirOrder(reserved: seq<Reservation>, taken: set<string>, i: nat)
    requires i < |reserved| && reserved[i].id !in taken && forall j :: 0 <= j < i ==> reserved[j].id in taken
    ensures Surviving(reserved, taken) == [reserved[i]] + Surviving(reserved[i + 1..], taken)
  {
    if i > 0 {
      SurvivorsKeepTheirOrder(reserved[1..], taken, i - 1);
      assert reserved[1..][i..] == reserved[i + 1..];
    }
  }

  // No reservation that survives a reconciliation shares an id with a listed entry.
  lemma NoReservationSharesAnId(remote: Remote, keys: seq<Key>, r: Reservation, e: Entry)
    requires r in Reconcile(remote, keys).reserved && e in Reconcile(remote, keys).entries
    ensures r in remote.reserved && r.id != e.id
  {
    var p := PlaceAll(remote, keys);
    NothingIsUsedTwice(remote, keys);
    assert r in p.reserved;
    assert r in multiset(p.reserved);
    assert r in multiset(remote.reserved);
  }

  // ---------------------------------------------------------------------------
  // Reconciling twice
  // ---------------------------------------------------------------------------

  ghost predicate InPlace(remote: Remote, p: Progress, n: nat)
    requires n <= |remote.entries|
  {
    && |p.used| == |remote.entries|
    && (forall i :: 0 <= i < |p.used| ==> (p.used[i] <==> i < n))
    && p.next == remote.entries[..n]
    && p.reserved == remote.reserved && p.nextSeq == remote.nextSeq
  }

  lemma PlaceInPlace(remote: Remote, p: Progress, n: nat)
    requires n < |remote.entries| && InPlace(remote, p, n)
    ensures InPlace(remote, Place(remote.entries, p, KeyOf(remote.entries[n])), n + 1)
  {
    assert FirstUnused(remote.entries, p.used, KeyOf(remote.entries[n]), 0) == n;
  }

  lemma {:induction false} SameListCarriesInPlace(remote: Remote, n: nat)
    requires n <= |remote.entries|
    ensures InPlace(remote, PlaceAll(remote, Keys(remote.entries)[..n]), n)
  {
    if n > 0 {
      var keys := Keys(remote.entries);
      SameListCarriesInPlace(remote, n - 1);
      assert keys[..n][..n - 1] == keys[..n - 1];
      PlaceInPlace(remote, PlaceAll(remote, keys[..n - 1]), n - 1);
    }
  }

  // A list that is reported unchanged leaves everything as it is.
  lemma UnchangedList(remote: Remote)
    requires Surviving(remote.reserved, Ids(remote.entries)) == remote.reserved
    ensures Reconcile(remote, Keys(remote.entries)) == remote
  {
    var keys := Keys(remote.entries);
    SameListCarriesInPlace(remote, |keys|);
    assert keys[..|keys|] == keys && remote.entries[..|keys|] == remote.entries;
    var p := PlaceAll(remote, keys);
    assert forall i :: 0 <= i < |keys| ==> p.used[i];
  }

  lemma {:induction false} SurvivingTwice(reserved: seq<Reservation>, taken: set<string>)
    ensures Surviving(Surviving(reserved, taken), taken) == Surviving(reserved, taken)
  {
    if reserved != [] {
      SurvivingTwice(reserved[1..], taken);
    }
  }

  // Applying the same lists again changes no entry, reservation, running entry or counter.
  lemma ReconcileIsIdempotent(remote: Remote, keys: seq<Key>)
    ensures Reconcile(Reconcile(remote, keys), keys) == Reconcile(remote, keys)
  {
    PlacedKeys(remote, keys);
    SurvivingTwice(PlaceAll(remote, keys).reserved, Ids(PlaceAll(remote, keys).next));
    UnchangedList(Reconcile(remote, keys));
  }

  // ---------------------------------------------------------------------------
  // Tracking the remote dequeue
  // ---------------------------------------------------------------------------

  ghost predicate FollowUpLost(remote: Remote, keys: seq<Key>) {
    exists key: Key :: key.lane == FollowUp && Count(Keys(remote.entries), key) > Count(keys, key)
  }

  // The running entry is replaced, by a follow-up of the previous list, exactly when some
  // follow-up text occurs less often than before. Losing steering entries never replaces it.
  lemma RunningReplacedIff(remote: Remote, keys: seq<Key>)
    ensures var running := Reconcile(remote, keys).running;
            if FollowUpLost(remote, keys)
            then running.Some? && running.value in remote.entries && running.value.lane == FollowUp
            else running == remote.running
  {
    var p := PlaceAll(remote, keys);
    var d := FirstDropped(remote.entries, p.used, 0);
    if d < |remote.entries| {
      var key := KeyOf(remote.entries[d]);
      CarryAccount(remote, keys, key);
      FreeZero(remote.entries, p.used, key);
      assert Count(Keys(remote.entries), key) > Count(keys, key);
    }
    forall key: Key | key.lane == FollowUp && Count(Keys(remote.entries), key) > Count(keys, key)
      ensures d < |remote.entries|
    {
      CarryAccount(remote, keys, key);
      FreeZero(remote.entries, p.used, key);
    }
  }

  // An entry that no earlier one equals in text and lane is carried over exactly when its own
  // text is listed again.
  lemma {:induction false} HeadUsedIff(remote: Remote, keys: seq<Key>, h: nat)
    requires h < |remote.entries|
    requires forall j :: 0 <= j < h ==> KeyOf(remote.entries[j]) != KeyOf(remote.entries[h])
    ensures PlaceAll(remote, keys).used[h] <==> KeyOf(remote.entries[h]) in keys
    decreases |keys|
  {
    if keys != [] {
      var n := |keys| - 1;
      HeadUsedIff(remote, keys[..n], h);
      PlaceUses(remote.entries, PlaceAll(remote, keys[..n]), keys[n], h);
      assert keys == keys[..n] + [keys[n]];
    }
  }

  lemma PlaceUses(previous: seq<Entry>, p: Progress, key: Key, h: nat)
    requires |p.used| == |previous| && h < |previous|
    requires forall j :: 0 <= j < h ==> KeyOf(previous[j]) != KeyOf(previous[h])
    ensures Place(previous, p, key).used[h] <==> p.used[h] || key == KeyOf(previous[h])
  {
    var i := FirstUnused(previous, p.used, key, 0);
  }

  // Dropping the head follow-up makes that very entry the running one exactly when its text
  // does not occur again among the follow-ups that are left.
  lemma HeadDequeueIff(remote: Remote, h: nat)
    requires h < |remote.entries| && remote.entries[h].lane == FollowUp
    requires forall j :: 0 <= j < h ==> remote.entries[j].lane == Steering
    requires forall i, j :: 0 <= i < j < |remote.entries| ==> remote.entries[i] != remote.entries[j]
    ensures var keys := Keys(remote.entries);
            Reconcile(remote, keys[..h] + keys[h + 1..]).running == Some(remote.entries[h]) <==>
            KeyOf(remote.entries[h]) !in keys[h + 1..]
  {
    var keys := Keys(remote.entries);
    var now := keys[..h] + keys[h + 1..];
    var head := KeyOf(remote.entries[h]);
    var p := PlaceAll(remote, now);
    HeadUsedIff(remote, now, h);
    CountWithout(keys, h);
    CarryAccount(remote, now, head);
    FreeZero(remote.entries, p.used, head);
    assert head in now <==> head in keys[h + 1..];
    assert FirstDropped(remote.entries, p.used, 0) == h <==> !p.used[h];
  }

  lemma CountWithout(keys: seq<Key>, h: nat)
    requires h < |keys|
    ensures Count(keys, keys[h]) == Count(keys[..h] + keys[h + 1..], keys[h]) + 1
  {
    assert keys == keys[..h] + [keys[h]] + keys[h + 1..];
  }

  // A repeated text defeats the tracking: the second of two equal follow-ups is reported
  // as running although the first one left.
  lemma RepeatedHeadIsMistaken(first: Entry, second: Entry)
    requires KeyOf(first) == KeyOf(second) && first != second && first.lane == FollowUp
    ensures Reconcile(Remote([first, second], [], 0, None), [KeyOf(first)]).running == Some(second)
  {
    var remote := Remote([first, second], [], 0, None);
    var keys := [KeyOf(first)];
    assert PlaceAll(remote, keys) == Place(remote.entries, PlaceAll(remote, keys[..0]), keys[0]);
    assert PlaceAll(remote, keys[..0]) == Start(remote);
    assert FirstUnused(remote.entries, [false, false], keys[0], 0) == 0;
    var p := PlaceAll(remote, keys);
    assert p.used == [true, false];
    assert FirstDropped(remote.entries, p.used, 0) == 1;
  }

  // The last listed text takes the entry of that text, if nothing before it has the text.
  lemma LastTakesItsEntry(remote: Remote, front: seq<Key>, last: Key, j: nat)
    requires DistinctKeys(Keys(remote.entries)) && last !in front
    requires j < |remote.entries| && KeyOf(remote.entries[j]) == last
    ensures var p := PlaceAll(remote, front);
            Place(remote.entries, p, last).next == p.next + [remote.entries[j]]
  {
    var p := PlaceAll(remote, front);
    forall k | 0 <= k < |remote.entries| && k != j
      ensures KeyOf(remote.entries[k]) != last
    {
      assert Keys(remote.entries)[k] != Keys(remote.entries)[j];
    }
    HeadUsedIff(remote, front, j);
    assert FirstUnused(remote.entries, p.used, last, 0) == j;
  }

  // With distinct texts per lane every entry whose text is still listed keeps its identity.
  lemma {:induction false} SurvivorsKeepTheirIdentity(remote: Remote, keys: seq<Key>, i: nat, j: nat)
    requires DistinctKeys(keys) && DistinctKeys(Keys(remote.entries))
    requires i < |keys| && j < |remote.entries| && KeyOf(remote.entries[j]) == keys[i]
    ensures |Reconcile(remote, keys).entries| == |keys|
    ensures Reconcile(remote, keys).entries[i] == remote.entries[j]
    decreases |keys|
  {
    var front, last := keys[..|keys| - 1], keys[|keys| - 1];
    var p := PlaceAll(remote, front);
    PlacedKeys(remote, front);
    PlaceAppends(remote.entries, p, last);
    assert |p.next| == |Keys(p.next)| == |front|;
    if i < |front| {
      SurvivorsKeepTheirIdentity(remote, front, i, j);
    } else {
      LastTakesItsEntry(remote, front, last, j);
    }
  }

  lemma PlaceAppends(previous: seq<Entry>, p: Progress, key: Key)
    requires |p.used| == |previous|
    ensures |Place(previous, p, key).next| == |p.next| + 1 && Place(previous, p, key).next[..|p.next|] == p.next
  {}

  lemma DistinctWithout(keys: seq<Key>, h: nat)
    requires h < |keys| && DistinctKeys(keys)
    ensures DistinctKeys(keys[..h] + keys[h + 1..])
  {
    var left := keys[..h] + keys[h + 1..];
    assert forall a :: 0 <= a < |left| ==> left[a] == keys[if a < h then a else a + 1];
  }

  ghost predicate DistinctKeys(keys: seq<Key>) {
    forall a, b :: 0 <= a < b < |keys| ==> keys[a] != keys[b]
  }

  // Entries whose distinct texts are all known stay, in list order.
  lemma SurvivorsStay(remote: Remote, keys: seq<Key>, stay: seq<Entry>)
    requires |stay| == |keys| && forall i :: 0 <= i < |keys| ==> stay[i] in remote.entries && KeyOf(stay[i]) == keys[i]
    requires DistinctKeys(keys) && DistinctKeys(Keys(remote.entries))
    ensures Reconcile(remote, keys).entries == stay
  {
    PlacedKeys(remote, keys);
    var es := Reconcile(remote, keys).entries;
    assert |es| == |Keys(es)| == |keys|;
    forall i | 0 <= i < |keys|
      ensures es[i] == stay[i]
    {
      var j :| 0 <= j < |remote.entries| && remote.entries[j] == stay[i];
      SurvivorsKeepTheirIdentity(remote, keys, i, j);
    }
  }

  // Dequeuing the head of a list of distinct texts: that entry runs, all others stay.
  lemma {:induction false} HeadDequeueKeepsTheRest(remote: Remote, h: nat)
    requires h < |remote.entries| && remote.entries[h].lane == FollowUp
    requires forall j :: 0 <= j < h ==> remote.entries[j].lane == Steering
    requires DistinctKeys(Keys(remote.entries))
    ensures var keys := Keys(remote.entries);
            var now := Reconcile(remote, keys[..h] + keys[h + 1..]);
            && now.entries == remote.entries[..h] + remote.entries[h + 1..]
            && now.running == Some(remote.entries[h])
  {
    HeadRuns(remote, h);
    RestStays(remote, h);
  }

  lemma HeadRuns(remote: Remote, h: nat)
    requires h < |remote.entries| && remote.entries[h].lane == FollowUp
    requires forall j :: 0 <= j < h ==> remote.entries[j].lane == Steering
    requires DistinctKeys(Keys(remote.entries))
    ensures var keys := Keys(remote.entries);
            Reconcile(remote, keys[..h] + keys[h + 1..]).running == Some(remote.entries[h])
  {
    var keys := Keys(remote.entries);
    forall i, j | 0 <= i < j < |remote.entries|
      ensures remote.entries[i] != remote.entries[j]
    {
      assert keys[i] != keys[j];
    }
    HeadDequeueIff(remote, h);
  }

  lemma RestStays(remote: Remote, h: nat)
    requires h < |remote.entries| && DistinctKeys(Keys(remote.entries))
    ensures var keys := Keys(remote.entries);
            Reconcile(remote, keys[..h] + keys[h + 1..]).entries == remote.entries[..h] + remote.entries[h + 1..]
  {
    var keys := Keys(remote.entries);
    var left, stay := keys[..h] + keys[h + 1..], remote.entries[..h] + remote.entries[h + 1..];
    DistinctWithout(keys, h);
    forall i | 0 <= i < |left|
      ensures stay[i] in remote.entries && KeyOf(stay[i]) == left[i]
    {
      assert stay[i] == remote.entries[if i < h then i else i + 1];
    }
    SurvivorsStay(remote, left, stay);
  }
}
