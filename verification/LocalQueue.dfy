/** The queue of entries that have not been handed to the remote side yet. */
module LocalQueue {
  import opened Options
  import opened RemoteQueue

  ghost predicate DistinctIds(es: seq<Entry>) {
    forall i, j :: 0 <= i < j < |es| ==> es[i].id != es[j].id
  }

  function IndexOf(es: seq<Entry>, id: string, from: nat := 0): (index: nat)
    requires from <= |es|
    ensures from <= index <= |es|
    ensures index < |es| ==> es[index].id == id
    ensures forall j :: from <= j < index ==> es[j].id != id
    decreases |es| - from
  {
    if from == |es| || es[from].id == id then from else IndexOf(es, id, from + 1)
  }

  function Without(es: seq<Entry>, ids: set<string>): seq<Entry> {
    if es == [] then []
    else (if es[0].id in ids then [] else [es[0]]) + Without(es[1..], ids)
  }

  lemma {:induction false} WithoutContents(es: seq<Entry>, ids: set<string>)
    ensures forall e :: e in Without(es, ids) <==> e in es && e.id !in ids
    ensures DistinctIds(es) ==> DistinctIds(Without(es, ids))
  {
    if es != [] {
      WithoutContents(es[1..], ids);
      assert es == [es[0]] + es[1..];
    }
  }

  lemma {:induction false} WithoutAppend(a: seq<Entry>, b: seq<Entry>, ids: set<string>)
    ensures Without(a + b, ids) == Without(a, ids) + Without(b, ids)
  {
    if a == [] {
      assert a + b == b;
    } else {
      WithoutAppend(a[1..], b, ids);
      assert (a + b)[0] == a[0] && (a + b)[1..] == a[1..] + b;
      var head := if a[0].id in ids then [] else [a[0]];
      assert Without(a + b, ids) == head + Without(a[1..] + b, ids);
      var left, right := Without(a[1..], ids), Without(b, ids);
      assert head + (left + right) == (head + left) + right;
    }
  }

  // An entry with a known id is overwritten in place and keeps its version.
  function Enqueued(es: seq<Entry>, e: Entry): (r: seq<Entry>) {
    var i := IndexOf(es, e.id);
    if i < |es| then es[i := e.(version := es[i].version)] else es + [e]
  }

  // Enqueueing never repeats an id, and adds an entry only for a new one.
  lemma EnqueuedKeepsIdsDistinct(es: seq<Entry>, e: Entry)
    requires DistinctIds(es)
    ensures DistinctIds(Enqueued(es, e))
    ensures |Enqueued(es, e)| == |es| + (if e.id in Ids(es) then 0 else 1)
    ensures forall x :: x in es && x.id != e.id ==> x in Enqueued(es, e)
  {
    var i := IndexOf(es, e.id);
    var r := Enqueued(es, e);
    if i < |es| {
      assert es[i] in es;
      forall x | x in es && x.id != e.id ensures x in r {
        var j :| 0 <= j < |es| && es[j] == x;
        assert r[j] == x;
      }
    }
  }

  function Edited(es: seq<Entry>, id: string, text: string): (r: seq<Entry>)
    ensures DistinctIds(es) ==> DistinctIds(r)
  {
    var i := IndexOf(es, id);
    if i < |es| then
      es[i := es[i].(executionText := text, displayText := text, version := es[i].version + 1)]
    else es
  }

  // The position of the entry with this id and, if a version is asked for, that version.
  function TakeIndex(es: seq<Entry>, id: string, version: Option<nat>, from: nat := 0): (index: nat)
    requires from <= |es|
    ensures from <= index <= |es|
    ensures index < |es| ==> es[index].id == id && (version.Some? ==> version.value == es[index].version)
    ensures forall j :: from <= j < index ==>
              !(es[j].id == id && (version.Some? ==> version.value == es[j].version))
    decreases |es| - from
  {
    if from == |es| || (es[from].id == id && (version.Some? ==> version.value == es[from].version)) then from
    else TakeIndex(es, id, version, from + 1)
  }

  lemma IndexOfIs(es: seq<Entry>, k: nat)
    requires DistinctIds(es) && k < |es|
    ensures IndexOf(es, es[k].id) == k
  {
    var i := IndexOf(es, es[k].id);
  }

  // Enqueueing a known id overwrites that entry where it stands, all but its version; an
  // unknown one comes last.
  lemma EnqueuedIs(es: seq<Entry>, e: Entry, k: nat)
    requires DistinctIds(es)
    ensures var r := Enqueued(es, e);
            && (k < |es| && es[k].id == e.id ==>
                  && |r| == |es| && (forall j :: 0 <= j < |es| && j != k ==> r[j] == es[j])
                  && r[k] == Entry(e.id, e.executionText, e.displayText, e.images, es[k].version, e.lane, e.origin))
            && ((forall j :: 0 <= j < |es| ==> es[j].id != e.id) ==> r == es + [e])
  {
    if k < |es| && es[k].id == e.id {
      IndexOfIs(es, k);
    }
  }

  // An edit sets both texts of the entry and raises its version by one; it touches no other.
  lemma EditedIs(es: seq<Entry>, id: string, text: string, k: nat)
    requires DistinctIds(es)
    ensures var r := Edited(es, id, text);
            && (k < |es| && es[k].id == id ==>
                  && |r| == |es| && (forall j :: 0 <= j < |es| && j != k ==> r[j] == es[j])
                  && r[k] == Entry(id, text, text, es[k].images, es[k].version + 1, es[k].lane, es[k].origin))
            && ((forall j :: 0 <= j < |es| ==> es[j].id != id) ==> r == es)
  {
    if k < |es| && es[k].id == id {
      IndexOfIs(es, k);
    }
  }

  // An entry pushed to the front leaves its old place, if it had one; the others keep theirs.
  lemma {:induction false} PushedFrontIs(es: seq<Entry>, e: Entry, k: nat)
    requires DistinctIds(es)
    ensures k < |es| && es[k].id == e.id ==> PushedFront(es, e) == [e] + es[..k] + es[k + 1..]
    ensures (forall j :: 0 <= j < |es| ==> es[j].id != e.id) ==> PushedFront(es, e) == [e] + es
  {
    if k < |es| && es[k].id == e.id {
      assert es == es[..k] + ([es[k]] + es[k + 1..]);
      WithoutAppend(es[..k], [es[k]] + es[k + 1..], {e.id});
      WithoutNothing(es[..k], {e.id});
      WithoutNothing(es[k + 1..], {e.id});
      assert ([es[k]] + es[k + 1..])[1..] == es[k + 1..];
    }
    if forall j :: 0 <= j < |es| ==> es[j].id != e.id {
      WithoutNothing(es, {e.id});
    }
  }

  function PushedFront(es: seq<Entry>, e: Entry): seq<Entry> {
    [e] + Without(es, {e.id})
  }

  function Reorder(es: seq<Entry>, ids: seq<string>): seq<Entry>
    decreases |ids|
  {
    if ids == [] then es
    else
      var i := IndexOf(es, ids[0]);
      if i < |es| then [es[i]] + Reorder(RemoveAt(es, i), ids[1..]) else Reorder(es, ids[1..])
  }

  lemma {:induction false} WithoutNothing(es: seq<Entry>, ids: set<string>)
    requires forall e :: e in es ==> e.id !in ids
    ensures Without(es, ids) == es
  {
    if es != [] {
      WithoutNothing(es[1..], ids);
    }
  }

  // Taking the head out and pushing it back restores the queue.
  lemma PopThenPushFrontRestores(es: seq<Entry>)
    requires es != [] && DistinctIds(es)
    ensures PushedFront(es[1..], es[0]) == es
  {
    WithoutNothing(es[1..], {es[0].id});
  }

  // After an edit, a take that still expects the old version finds nothing.
  lemma EditDefeatsStaleTake(es: seq<Entry>, id: string, text: string)
    requires DistinctIds(es) && id in Ids(es)
    ensures var i := IndexOf(es, id);
            && i < |es|
            && TakeIndex(Edited(es, id, text), id, Some(es[i].version)) == |es|
            && TakeIndex(Edited(es, id, text), id, Some(es[i].version + 1)) == i
            && TakeIndex(Edited(es, id, text), id, None) == i
  {
    var i := IndexOf(es, id);
    var e :| e in es && e.id == id;
    var edited := Edited(es, id, text);
    assert forall j :: 0 <= j < |es| && j != i ==> edited[j].id != id;
    assert edited[i].id == id && edited[i].version == es[i].version + 1;
    var stale, current, any := TakeIndex(edited, id, Some(es[i].version)),
      TakeIndex(edited, id, Some(es[i].version + 1)), TakeIndex(edited, id, None);
    assert stale < |es| ==> stale == i;
    assert !(current > i) && !(any > i);
  }

  // Reordering neither loses nor invents an entry.
  lemma {:induction false} ReorderPermutes(es: seq<Entry>, ids: seq<string>)
    ensures multiset(Reorder(es, ids)) == multiset(es)
    decreases |ids|
  {
    if ids != [] {
      var i := IndexOf(es, ids[0]);
      if i < |es| {
        ReorderPermutes(RemoveAt(es, i), ids[1..]);
      } else {
        ReorderPermutes(es, ids[1..]);
      }
    }
  }

  lemma {:induction false} ReorderIsIdempotent(es: seq<Entry>, ids: seq<string>)
    ensures Reorder(Reorder(es, ids), ids) == Reorder(es, ids)
    decreases |ids|
  {
    if ids != [] {
      var i := IndexOf(es, ids[0]);
      var once := Reorder(es, ids);
      if i < |es| {
        var rest := Reorder(RemoveAt(es, i), ids[1..]);
        ReorderIsIdempotent(RemoveAt(es, i), ids[1..]);
        assert once == [es[i]] + rest;
        assert IndexOf(once, ids[0]) == 0;
        assert RemoveAt(once, 0) == rest;
      } else {
        ReorderIsIdempotent(es, ids[1..]);
        ReorderPermutes(es, ids);
        forall k | 0 <= k < |once| ensures once[k].id != ids[0] {
          assert once[k] in multiset(es);
        }
      }
    }
  }

  // One turn of the reordering: what is done already and what the rest will still yield.
  lemma ReorderTurn(reordered: seq<Entry>, remaining: seq<Entry>, ids: seq<string>)
    requires ids != []
    ensures var i := IndexOf(remaining, ids[0]);
            reordered + Reorder(remaining, ids) ==
            if i < |remaining| then (reordered + [remaining[i]]) + Reorder(RemoveAt(remaining, i), ids[1..])
            else reordered + Reorder(remaining, ids[1..])
  {
    var i := IndexOf(remaining, ids[0]);
    if i < |remaining| {
      Regroup(reordered, [remaining[i]], Reorder(RemoveAt(remaining, i), ids[1..]));
    }
  }

  lemma Regroup(a: seq<Entry>, b: seq<Entry>, c: seq<Entry>)
    ensures a + (b + c) == (a + b) + c
  {}

  // The requested ids that are present, each at its first request.
  ghost function Wanted(ids: seq<string>, present: set<string>): seq<string> {
    if ids == [] then []
    else if ids[0] in present then [ids[0]] + Wanted(ids[1..], present - {ids[0]})
    else Wanted(ids[1..], present)
  }

  lemma {:induction false} WithoutRemoved(es: seq<Entry>, i: nat, ids: set<string>)
    requires DistinctIds(es) && i < |es| && es[i].id !in ids
    ensures Without(es, ids + {es[i].id}) == Without(RemoveAt(es, i), ids)
  {
    var id := es[i].id;
    var a, b := es[..i], es[i + 1..];
    var all := ids + {id};
    calc {
      Without(es, all);
      { assert es == (a + [es[i]]) + b; WithoutAppend(a + [es[i]], b, all); }
      Without(a + [es[i]], all) + Without(b, all);
      { WithoutAppend(a, [es[i]], all); assert Without([es[i]], all) == []; }
      Without(a, all) + Without(b, all);
      { WithoutMore(a, ids, id); WithoutMore(b, ids, id); }
      Without(a, ids) + Without(b, ids);
      { WithoutAppend(a, b, ids); assert RemoveAt(es, i) == a + b; }
      Without(RemoveAt(es, i), ids);
    }
  }

  lemma {:induction false} WithoutMore(es: seq<Entry>, ids: set<string>, id: string)
    requires forall e :: e in es ==> e.id != id
    ensures Without(es, ids + {id}) == Without(es, ids)
  {
    if es != [] {
      WithoutMore(es[1..], ids, id);
    }
  }

  // Requested entries come first in request order, the others keep their relative order.
  ghost predicate RequestedThenRest(es: seq<Entry>, ids: seq<string>, r: seq<Entry>) {
    var wanted := Wanted(ids, Ids(es));
    && |wanted| <= |r|
    && (forall k :: 0 <= k < |wanted| ==> r[k].id == wanted[k])
    && r[|wanted|..] == Without(es, set id | id in ids)
  }

  lemma {:induction false} ReorderIsRequestedThenRest(es: seq<Entry>, ids: seq<string>)
    requires DistinctIds(es)
    ensures RequestedThenRest(es, ids, Reorder(es, ids))
    decreases |ids|
  {
    if ids == [] {
      WithoutNothing(es, set id | id in ids);
    } else {
      var i := IndexOf(es, ids[0]);
      if i < |es| {
        ReorderIsRequestedThenRest(RemoveAt(es, i), ids[1..]);
        RequestedFirst(es, i, ids, Reorder(RemoveAt(es, i), ids[1..]));
      } else {
        ReorderIsRequestedThenRest(es, ids[1..]);
        assert ids[0] !in Ids(es);
        assert (set id | id in ids) == (set id | id in ids[1..]) + {ids[0]};
        WithoutMore(es, (set id | id in ids[1..]), ids[0]);
      }
    }
  }

  lemma {:induction false} RequestedFirst(es: seq<Entry>, i: nat, ids: seq<string>, rest: seq<Entry>)
    requires DistinctIds(es) && i < |es| && ids != [] && es[i].id == ids[0]
    requires RequestedThenRest(RemoveAt(es, i), ids[1..], rest)
    ensures RequestedThenRest(es, ids, [es[i]] + rest)
  {
    IdsRemoved(es, i);
    RequestedTail(es, i, ids);
    assert es[i] in es;
    var wanted, later := Wanted(ids, Ids(es)), Wanted(ids[1..], Ids(RemoveAt(es, i)));
    assert wanted == [ids[0]] + later;
    assert ([es[i]] + rest)[|wanted|..] == rest[|later|..];
  }

  lemma {:induction false} IdsRemoved(es: seq<Entry>, i: nat)
    requires DistinctIds(es) && i < |es|
    ensures Ids(RemoveAt(es, i)) == Ids(es) - {es[i].id}
  {
    var others := RemoveAt(es, i);
    forall id | id in Ids(es) - {es[i].id} ensures id in Ids(others) {
      var j :| 0 <= j < |es| && es[j].id == id;
      assert others[if j < i then j else j - 1] == es[j];
    }
    forall id | id in Ids(others) ensures id in Ids(es) && id != es[i].id {
      var j :| 0 <= j < |others| && others[j].id == id;
      assert others[j] == es[if j < i then j else j + 1];
    }
  }

  lemma {:induction false} WithoutRepeated(es: seq<Entry>, ids: set<string>, id: string)
    requires id in ids && forall e :: e in es ==> e.id != id
    ensures Without(es, ids) == Without(es, ids - {id})
  {
    if es != [] {
      WithoutRepeated(es[1..], ids, id);
    }
  }

  lemma {:induction false} RequestedTail(es: seq<Entry>, i: nat, ids: seq<string>)
    requires DistinctIds(es) && i < |es| && ids != [] && es[i].id == ids[0]
    ensures Without(RemoveAt(es, i), set id | id in ids[1..]) == Without(es, set id | id in ids)
  {
    var rest := set id | id in ids[1..];
    var others := RemoveAt(es, i);
    assert (set id | id in ids) == (rest - {ids[0]}) + {ids[0]};
    WithoutRemoved(es, i, rest - {ids[0]});
    if ids[0] in rest {
      WithoutRepeated(others, rest, ids[0]);
    } else {
      assert rest - {ids[0]} == rest;
    }
  }

  function IdList(es: seq<Entry>): (ids: seq<string>)
    ensures |ids| == |es| && forall i :: 0 <= i < |es| ==> ids[i] == es[i].id
  {
    seq(|es|, i requires 0 <= i < |es| => es[i].id)
  }

  lemma {:induction false} ShortReorder(es: seq<Entry>, ids: seq<string>)
    requires |es| < 2
    ensures Reorder(es, ids) == es
  {
    var r := Reorder(es, ids);
    ReorderPermutes(es, ids);
    assert |r| == |multiset(r)| == |multiset(es)| == |es|;
    if es != [] {
      assert r[0] in multiset(es);
    }
  }

  lemma TwiceCounts(r: seq<Entry>, i: nat, j: nat)
    requires i < j < |r| && r[i] == r[j]
    ensures multiset(r)[r[i]] >= 2
  {
    assert r == r[..i] + [r[i]] + r[i + 1..j] + [r[j]] + r[j + 1..];
  }

  // Entries with distinct ids are told apart by their ids.
  lemma SameIdSameEntry(es: seq<Entry>, a: Entry, b: Entry)
    requires DistinctIds(es) && a in es && b in es && a.id == b.id
    ensures a == b
  {
    var i :| 0 <= i < |es| && es[i] == a;
    var j :| 0 <= j < |es| && es[j] == b;
  }

  // A rearrangement of entries with distinct ids keeps them distinct.
  lemma {:induction false} PermutationKeepsDistinct(es: seq<Entry>, r: seq<Entry>)
    requires DistinctIds(es) && multiset(r) == multiset(es)
    ensures DistinctIds(r)
  {
    forall i, j | 0 <= i < j < |r|
      ensures r[i].id != r[j].id
    {
      assert r[i] in multiset(es) && r[j] in multiset(es);
      if r[i].id == r[j].id {
        SameIdSameEntry(es, r[i], r[j]);
        TwiceCounts(r, i, j);
        OnlyOnce(es, r[i]);
      }
    }
  }

  // It shows the same id sequence only when it is the same sequence of entries.
  lemma {:induction false} IdsShowTheOrder(es: seq<Entry>, r: seq<Entry>)
    requires DistinctIds(es) && multiset(r) == multiset(es)
    ensures IdList(r) == IdList(es) <==> r == es
  {
    if IdList(r) == IdList(es) {
      forall i | 0 <= i < |r|
        ensures r[i] == es[i]
      {
        assert r[i] in multiset(es);
        assert IdList(r)[i] == IdList(es)[i];
        SameIdSameEntry(es, r[i], es[i]);
      }
      assert |r| == |IdList(r)| == |es|;
    }
  }

  lemma {:induction false} OnlyOnce(es: seq<Entry>, e: Entry)
    requires DistinctIds(es)
    ensures multiset(es)[e] <= 1
  {
    if es != [] {
      OnlyOnce(es[1..], e);
      assert es == [es[0]] + es[1..];
      assert e == es[0] ==> e !in es[1..];
    }
  }
}
