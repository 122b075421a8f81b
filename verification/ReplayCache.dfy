/** The incremental cache of the append-only session log, against a rebuild from scratch. */
module ReplayCache {
  import opened Options
  import opened ParentWalks

  datatype Entry = Entry(id: Option<string>, parent: Option<string>, body: string)

  // A payload may leave the leaf out, or name it; a leaf that is not a string names none.
  datatype LeafField = NoLeafField | LeafField(leaf: Option<string>)

  datatype Payload = Payload(leaf: LeafField, entries: Option<seq<Entry>>)

  datatype State = State(
    sessionId: string, entries: seq<Entry>, byId: map<string, nat>, lastEntryId: Option<string>,
    leafId: Option<string>, leafKnown: bool)

  function EntriesOf(p: Payload): seq<Entry> {
    if p.entries.Some? then p.entries.value else []
  }

  function AddEntry(s: State, e: Entry, incremental: bool): State {
    if e.id.None? then s.(entries := s.entries + [e])
    else if incremental && e.id.value in s.byId then s
    else s.(entries := s.entries + [e], lastEntryId := e.id, byId := s.byId[e.id.value := |s.entries|])
  }

  function AddEntries(s: State, es: seq<Entry>, incremental: bool): State
    decreases |es|
  {
    if es == [] then s
    else AddEntry(AddEntries(s, es[..|es| - 1], incremental), es[|es| - 1], incremental)
  }

  function SetLeaf(s: State, leaf: LeafField): State {
    if leaf.LeafField? then s.(leafId := leaf.leaf, leafKnown := true) else s
  }

  function Apply(s: State, p: Payload, incremental: bool): State {
    AddEntries(SetLeaf(s, p.leaf), EntriesOf(p), incremental)
  }

  function Reset(sessionId: string, p: Payload): State {
    Apply(State(sessionId, [], map[], None, None, false), p, false)
  }

  // ---------------------------------------------------------------------------
  // The entries determine the index and the last known id
  // ---------------------------------------------------------------------------

  function Index(es: seq<Entry>): map<string, nat> {
    if es == [] then map[]
    else
      var n := |es| - 1;
      if es[n].id.Some? then Index(es[..n])[es[n].id.value := n] else Index(es[..n])
  }

  function LastId(es: seq<Entry>): Option<string> {
    if es == [] then None
    else if es[|es| - 1].id.Some? then es[|es| - 1].id
    else LastId(es[..|es| - 1])
  }

  ghost predicate Coherent(s: State) {
    s.byId == Index(s.entries) && s.lastEntryId == LastId(s.entries)
  }

  lemma AddEntryKeepsCoherent(s: State, e: Entry, incremental: bool)
    requires Coherent(s)
    ensures Coherent(AddEntry(s, e, incremental))
  {
    var r := AddEntry(s, e, incremental);
    if r != s {
      assert r.entries[..|s.entries|] == s.entries;
    }
  }

  lemma {:induction false} ApplyKeepsCoherent(s: State, es: seq<Entry>, incremental: bool)
    requires Coherent(s)
    ensures Coherent(AddEntries(s, es, incremental))
    decreases |es|
  {
    if es != [] {
      ApplyKeepsCoherent(s, es[..|es| - 1], incremental);
      AddEntryKeepsCoherent(AddEntries(s, es[..|es| - 1], incremental), es[|es| - 1], incremental);
    }
  }

  // Every indexed id points at an entry that carries it, the last one that does.
  lemma {:induction false} IndexIsSound(es: seq<Entry>, id: string)
    ensures id in Index(es) <==> exists i :: 0 <= i < |es| && es[i].id == Some(id)
    ensures id in Index(es) ==>
              Index(es)[id] < |es| && es[Index(es)[id]].id == Some(id) &&
              forall j :: Index(es)[id] < j < |es| ==> es[j].id != Some(id)
    decreases |es|
  {
    if es != [] {
      var n := |es| - 1;
      IndexIsSound(es[..n], id);
      assert forall i :: 0 <= i < n ==> es[..n][i] == es[i];
      if es[n].id != Some(id) && exists i :: 0 <= i < |es| && es[i].id == Some(id) {
        var i :| 0 <= i < |es| && es[i].id == Some(id);
        assert es[..n][i].id == Some(id);
      }
    }
  }

  // The last known id is that of the last entry which has one.
  lemma {:induction false} LastIdIs(es: seq<Entry>, i: nat)
    requires i < |es| && es[i].id.Some? && forall j :: i < j < |es| ==> es[j].id.None?
    ensures LastId(es) == es[i].id
  {
    if i < |es| - 1 {
      LastIdIs(es[..|es| - 1], i);
    }
  }

  lemma {:induction false} NoLastId(es: seq<Entry>)
    requires forall j :: 0 <= j < |es| ==> es[j].id.None?
    ensures LastId(es) == None
  {
    if es != [] {
      NoLastId(es[..|es| - 1]);
    }
  }

  // ---------------------------------------------------------------------------
  // First occurrences
  // ---------------------------------------------------------------------------

  // The log with every entry of `es` whose id it does not know yet.
  function Merged(log: seq<Entry>, es: seq<Entry>): seq<Entry>
    decreases |es|
  {
    if es == [] then log
    else
      var m := Merged(log, es[..|es| - 1]);
      var e := es[|es| - 1];
      if e.id.Some? && e.id.value in Index(m) then m else m + [e]
  }

  function Dedup(es: seq<Entry>): seq<Entry> {
    Merged([], es)
  }

  ghost predicate DistinctIds(es: seq<Entry>) {
    forall i, j :: 0 <= i < j < |es| && es[i].id.Some? ==> es[i].id != es[j].id
  }

  ghost predicate HasId(es: seq<Entry>, id: string) {
    exists i :: 0 <= i < |es| && es[i].id == Some(id)
  }

  // An entry without an id, or the first one, in the log or after it, with its id.
  ghost predicate KeptAt(log: seq<Entry>, es: seq<Entry>, i: nat)
    requires i < |es|
  {
    es[i].id.Some? ==> !HasId(log, es[i].id.value) && forall j :: 0 <= j < i ==> es[j].id != es[i].id
  }

  ghost function Rank(log: seq<Entry>, es: seq<Entry>, i: nat): nat
    requires i <= |es|
  {
    if i == 0 then 0 else Rank(log, es, i - 1) + if KeptAt(log, es, i - 1) then 1 else 0
  }

  lemma HasIdSnoc(es: seq<Entry>, e: Entry, id: string)
    ensures HasId(es + [e], id) <==> HasId(es, id) || e.id == Some(id)
  {
    if HasId(es, id) {
      var i :| 0 <= i < |es| && es[i].id == Some(id);
      assert (es + [e])[i].id == Some(id);
    }
    assert (es + [e])[|es|] == e;
  }

  lemma {:induction false} MergedIds(log: seq<Entry>, es: seq<Entry>, id: string)
    ensures HasId(Merged(log, es), id) <==> HasId(log, id) || HasId(es, id)
    decreases |es|
  {
    if es != [] {
      var front, e := es[..|es| - 1], es[|es| - 1];
      MergedIds(log, front, id);
      HasIdSnoc(Merged(log, front), e, id);
      HasIdSnoc(front, e, id);
      assert front + [e] == es;
      if e.id == Some(id) {
        IndexIsSound(Merged(log, front), id);
      }
    }
  }

  lemma {:induction false} RankPrefix(log: seq<Entry>, es: seq<Entry>, i: nat)
    requires i < |es|
    ensures Rank(log, es[..|es| - 1], i) == Rank(log, es, i)
  {
    if i > 0 {
      RankPrefix(log, es, i - 1);
      assert forall j :: 0 <= j < i ==> es[..|es| - 1][j] == es[j];
    }
  }

  lemma {:induction false} MergedLast(log: seq<Entry>, es: seq<Entry>)
    requires es != []
    ensures var n := |es| - 1;
            Merged(log, es) == if KeptAt(log, es, n) then Merged(log, es[..n]) + [es[n]] else Merged(log, es[..n])
  {
    var n := |es| - 1;
    if es[n].id.Some? {
      MergedIds(log, es[..n], es[n].id.value);
      IndexIsSound(Merged(log, es[..n]), es[n].id.value);
      assert forall j :: 0 <= j < n ==> es[..n][j] == es[j];
    }
  }

  lemma KeptInPrefix(log: seq<Entry>, es: seq<Entry>, i: nat)
    requires i < |es| - 1
    ensures KeptAt(log, es, i) <==> KeptAt(log, es[..|es| - 1], i)
  {
    assert forall j :: 0 <= j < |es| - 1 ==> es[..|es| - 1][j] == es[j];
  }

  // Merging lists the kept entries behind the log, in their order, and nothing else.
  lemma {:induction false} MergedIsTheKept(log: seq<Entry>, es: seq<Entry>, i: nat)
    requires i <= |es|
    ensures |Merged(log, es)| == |log| + Rank(log, es, |es|) && log <= Merged(log, es)
    ensures Rank(log, es, i) <= Rank(log, es, |es|)
    ensures i < |es| && KeptAt(log, es, i) ==>
              Rank(log, es, i) < Rank(log, es, |es|) && Merged(log, es)[|log| + Rank(log, es, i)] == es[i]
    decreases |es|
  {
    if es != [] {
      var n := |es| - 1;
      RankPrefix(log, es, n);
      MergedLast(log, es);
      if i < n {
        MergedIsTheKept(log, es[..n], i);
        RankPrefix(log, es, i);
        KeptInPrefix(log, es, i);
      } else {
        MergedIsTheKept(log, es[..n], n);
      }
    }
  }

  lemma {:induction false} AddEntriesMerges(s: State, es: seq<Entry>)
    requires Coherent(s)
    ensures AddEntries(s, es, true).entries == Merged(s.entries, es)
    decreases |es|
  {
    if es != [] {
      AddEntriesMerges(s, es[..|es| - 1]);
      ApplyKeepsCoherent(s, es[..|es| - 1], true);
    }
  }

  lemma {:induction false} AddEntriesAppends(s: State, es: seq<Entry>)
    ensures AddEntries(s, es, false).entries == s.entries + es
    decreases |es|
  {
    if es != [] {
      var n := |es| - 1;
      AddEntriesAppends(s, es[..n]);
      assert s.entries + es == (s.entries + es[..n]) + [es[n]];
    }
  }

  lemma LastIndexed(es: seq<Entry>, e: Entry)
    ensures Index(es + [e]) == if e.id.Some? then Index(es)[e.id.value := |es|] else Index(es)
  {
    assert (es + [e])[..|es|] == es;
  }

  lemma {:induction false} AddEntriesKeepsTheRest(s: State, es: seq<Entry>, incremental: bool)
    ensures var r := AddEntries(s, es, incremental);
            r.sessionId == s.sessionId && r.leafId == s.leafId && r.leafKnown == s.leafKnown
    decreases |es|
  {
    if es != [] {
      AddEntriesKeepsTheRest(s, es[..|es| - 1], incremental);
    }
  }

  lemma {:induction false} MergedAppend(log: seq<Entry>, a: seq<Entry>, b: seq<Entry>)
    ensures Merged(log, a + b) == Merged(Merged(log, a), b)
    decreases |b|
  {
    if b == [] {
      assert a + b == a;
    } else {
      var n := |b| - 1;
      MergedAppend(log, a, b[..n]);
      assert (a + b)[..|a| + n] == a + b[..n];
    }
  }

  lemma {:induction false} DedupKnows(es: seq<Entry>)
    ensures Index(Dedup(es)).Keys == Index(es).Keys
    ensures |Dedup(es)| <= |es|
    ensures |Dedup(es)| == |es| ==> Dedup(es) == es
    decreases |es|
  {
    if es != [] {
      var n := |es| - 1;
      DedupKnows(es[..n]);
      var m := Dedup(es[..n]);
      LastIndexed(m, es[n]);
      assert Dedup(es) == m || Dedup(es) == m + [es[n]];
      assert es == es[..n] + [es[n]];
    }
  }

  lemma {:induction false} DedupIffDistinct(es: seq<Entry>)
    ensures Dedup(es) == es <==> DistinctIds(es)
    decreases |es|
  {
    if es != [] {
      var n := |es| - 1;
      DedupKnows(es);
      DedupKnows(es[..n]);
      DedupIffDistinct(es[..n]);
      DistinctPrefix(es);
      assert es == es[..n] + [es[n]];
      if es[n].id.Some? {
        IndexIsSound(es[..n], es[n].id.value);
      }
    }
  }

  lemma DistinctPrefix(es: seq<Entry>)
    requires es != []
    ensures var n := |es| - 1;
            DistinctIds(es) <==>
            DistinctIds(es[..n]) && (es[n].id.Some? ==> !exists i :: 0 <= i < |es[..n]| && es[..n][i].id == es[n].id)
  {
    var n := |es| - 1;
    assert forall i :: 0 <= i < n ==> es[..n][i] == es[i];
  }

  // Two logs that know the same ids take the same additions.
  lemma {:induction false} SameAdditions(a: seq<Entry>, b: seq<Entry>, es: seq<Entry>)
    requires Index(a).Keys == Index(b).Keys
    ensures Index(Merged(a, es)).Keys == Index(Merged(b, es)).Keys
    ensures |Merged(a, es)| - |a| == |Merged(b, es)| - |b|
    decreases |es|
  {
    if es != [] {
      var n := |es| - 1;
      SameAdditions(a, b, es[..n]);
      var ma, mb := Merged(a, es[..n]), Merged(b, es[..n]);
      assert (ma + [es[n]])[..|ma|] == ma && (mb + [es[n]])[..|mb|] == mb;
    }
  }

  // ---------------------------------------------------------------------------
  // The incremental cache against a rebuild
  // ---------------------------------------------------------------------------

  function Appends(s: State, ps: seq<Payload>): State
    decreases |ps|
  {
    if ps == [] then s else Apply(Appends(s, ps[..|ps| - 1]), ps[|ps| - 1], true)
  }

  function AllEntries(ps: seq<Payload>): seq<Entry>
    decreases |ps|
  {
    if ps == [] then [] else AllEntries(ps[..|ps| - 1]) + EntriesOf(ps[|ps| - 1])
  }

  function LastLeaf(leaf: LeafField, ps: seq<Payload>): LeafField
    decreases |ps|
  {
    if ps == [] then leaf
    else if ps[|ps| - 1].leaf.LeafField? then ps[|ps| - 1].leaf
    else LastLeaf(leaf, ps[..|ps| - 1])
  }

  // One reset on the deduplicated concatenation with the last known leaf.
  function Rebuilt(sessionId: string, first: Payload, ps: seq<Payload>): State {
    Reset(sessionId, Payload(LastLeaf(first.leaf, ps), Some(Dedup(EntriesOf(first) + AllEntries(ps)))))
  }

  lemma {:induction false} AppendsFacts(sessionId: string, first: Payload, ps: seq<Payload>)
    ensures var s := Appends(Reset(sessionId, first), ps);
            && Coherent(s) && s.sessionId == sessionId
            && s.entries == Merged(EntriesOf(first), AllEntries(ps))
            && s.leafKnown == LastLeaf(first.leaf, ps).LeafField?
            && s.leafId == (if s.leafKnown then LastLeaf(first.leaf, ps).leaf else None)
    decreases |ps|
  {
    if ps == [] {
      var start := SetLeaf(State(sessionId, [], map[], None, None, false), first.leaf);
      ApplyKeepsCoherent(start, EntriesOf(first), false);
      AddEntriesAppends(start, EntriesOf(first));
      AddEntriesKeepsTheRest(start, EntriesOf(first), false);
    } else {
      var n := |ps| - 1;
      AppendsFacts(sessionId, first, ps[..n]);
      var s := SetLeaf(Appends(Reset(sessionId, first), ps[..n]), ps[n].leaf);
      ApplyKeepsCoherent(s, EntriesOf(ps[n]), true);
      AddEntriesMerges(s, EntriesOf(ps[n]));
      AddEntriesKeepsTheRest(s, EntriesOf(ps[n]), true);
      MergedAppend(EntriesOf(first), AllEntries(ps[..n]), EntriesOf(ps[n]));
    }
  }

  // The i-th payload that the cache was given: the one of the reset, and then the appended ones.
  function Given(first: Payload, ps: seq<Payload>): seq<Payload> {
    [first] + ps
  }

  lemma {:induction false} LastLeafIs(leaf: LeafField, ps: seq<Payload>, i: nat)
    requires i <= |ps| && forall j :: i <= j < |ps| ==> ps[j].leaf == NoLeafField
    ensures LastLeaf(leaf, ps) == if i == 0 then leaf else LastLeaf(leaf, ps[..i])
    decreases |ps|
  {
    if |ps| > i {
      LastLeafIs(leaf, ps[..|ps| - 1], i);
      assert i > 0 ==> ps[..|ps| - 1][..i] == ps[..i];
    } else {
      assert ps[..i] == ps;
    }
  }

  // After any appends the leaf is that of the last payload which names one.
  lemma {:induction false} LeafIsTheLastNamed(sessionId: string, first: Payload, ps: seq<Payload>, i: nat)
    requires i <= |ps| && Given(first, ps)[i].leaf.LeafField?
    requires forall j :: i < j <= |ps| ==> Given(first, ps)[j].leaf == NoLeafField
    ensures var s := Appends(Reset(sessionId, first), ps);
            s.leafKnown && s.leafId == Given(first, ps)[i].leaf.leaf
  {
    AppendsFacts(sessionId, first, ps);
    forall j | i <= j < |ps|
      ensures ps[j].leaf == NoLeafField
    {
      assert Given(first, ps)[j + 1] == ps[j];
    }
    LastLeafIs(first.leaf, ps, i);
  }

  // As long as no payload names a leaf, none is known.
  lemma {:induction false} NoLeafIsKnown(sessionId: string, first: Payload, ps: seq<Payload>)
    requires forall i :: 0 <= i <= |ps| ==> Given(first, ps)[i].leaf == NoLeafField
    ensures var s := Appends(Reset(sessionId, first), ps);
            !s.leafKnown && s.leafId == None
  {
    AppendsFacts(sessionId, first, ps);
    assert Given(first, ps)[0] == first;
    forall j | 0 <= j < |ps|
      ensures ps[j].leaf == NoLeafField
    {
      assert Given(first, ps)[j + 1] == ps[j];
    }
    LastLeafIs(first.leaf, ps, 0);
  }

  // The payload lists the entry.
  ghost predicate Lists(p: Payload, e: Entry) {
    match p.entries
    case None => false
    case Some(es) => e in es
  }

  ghost predicate ListsSome(ps: seq<Payload>, e: Entry) {
    exists i :: 0 <= i < |ps| && Lists(ps[i], e)
  }

  lemma {:induction false} AllEntriesIff(ps: seq<Payload>, e: Entry)
    ensures e in AllEntries(ps) <==> ListsSome(ps, e)
    decreases |ps|
  {
    if ps != [] {
      var n := |ps| - 1;
      AllEntriesIff(ps[..n], e);
      if ListsSome(ps[..n], e) {
        var i :| 0 <= i < n && Lists(ps[..n][i], e);
        assert Lists(ps[i], e);
      }
      if ListsSome(ps, e) {
        var i :| 0 <= i < |ps| && Lists(ps[i], e);
        assert i < n ==> Lists(ps[..n][i], e);
      }
      assert e in EntriesOf(ps[n]) <==> Lists(ps[n], e);
    }
  }

  lemma {:induction false} MergedMember(log: seq<Entry>, es: seq<Entry>, e: Entry)
    ensures e in Merged(log, es) ==> e in log || e in es
    ensures e in log || (e in es && e.id.None?) ==> e in Merged(log, es)
    ensures e in es && e.id.Some? ==> HasId(Merged(log, es), e.id.value)
    decreases |es|
  {
    if es != [] {
      var front, last := es[..|es| - 1], es[|es| - 1];
      MergedMember(log, front, e);
      assert es == front + [last];
    }
    if e in es && e.id.Some? {
      var i :| 0 <= i < |es| && es[i] == e;
      assert HasId(es, e.id.value);
      MergedIds(log, es, e.id.value);
    }
  }

  // The cache holds only what some payload lists; of that, every entry of the first payload
  // and every one without an id, and of each id at least one.
  lemma {:induction false} EntriesAreThoseGiven(sessionId: string, first: Payload, ps: seq<Payload>, e: Entry)
    ensures var es := Appends(Reset(sessionId, first), ps).entries;
            && (e in es ==> ListsSome(Given(first, ps), e))
            && (Lists(first, e) || (ListsSome(Given(first, ps), e) && e.id.None?) ==> e in es)
            && (ListsSome(Given(first, ps), e) && e.id.Some? ==> HasId(es, e.id.value))
  {
    AppendsFacts(sessionId, first, ps);
    AllEntriesIff(ps, e);
    MergedMember(EntriesOf(first), AllEntries(ps), e);
    assert e in EntriesOf(first) <==> Lists(first, e);
    assert Given(first, ps)[0] == first;
    if ListsSome(ps, e) {
      var i :| 0 <= i < |ps| && Lists(ps[i], e);
      assert Given(first, ps)[i + 1] == ps[i];
    }
    if ListsSome(Given(first, ps), e) {
      var i :| 0 <= i < |Given(first, ps)| && Lists(Given(first, ps)[i], e);
      assert i > 0 ==> Lists(ps[i - 1], e);
    }
    if Lists(first, e) && e.id.Some? {
      var i :| 0 <= i < |EntriesOf(first)| && EntriesOf(first)[i] == e;
      assert HasId(EntriesOf(first), e.id.value);
      MergedIds(EntriesOf(first), AllEntries(ps), e.id.value);
    }
  }

  // However many overlapping payloads were appended, the cache equals the rebuild in every
  // field exactly when the payload it was reset with has distinct ids.
  lemma IncrementalAgreesWithRebuildIff(sessionId: string, first: Payload, ps: seq<Payload>)
    ensures Appends(Reset(sessionId, first), ps) == Rebuilt(sessionId, first, ps) <==>
            DistinctIds(EntriesOf(first))
  {
    var a, rest := EntriesOf(first), AllEntries(ps);
    var clean := Payload(LastLeaf(first.leaf, ps), Some(Dedup(a + rest)));
    AppendsFacts(sessionId, first, ps);
    AppendsFacts(sessionId, clean, []);
    MergedAppend([], a, rest);
    DedupKnows(a);
    DedupIffDistinct(a);
    SameAdditions(a, Dedup(a), rest);
  }

  // Appending again what is already known changes nothing.
  lemma {:induction false} KnownEntriesAreIgnored(s: State, es: seq<Entry>)
    requires forall i :: 0 <= i < |es| ==> es[i].id.Some? && es[i].id.value in s.byId
    ensures AddEntries(s, es, true) == s
    decreases |es|
  {
    if es != [] {
      KnownEntriesAreIgnored(s, es[..|es| - 1]);
    }
  }

  lemma ReappendIsNoOp(s: State, p: Payload)
    requires p.leaf == NoLeafField
    requires forall i :: 0 <= i < |EntriesOf(p)| ==> EntriesOf(p)[i].id.Some? && EntriesOf(p)[i].id.value in s.byId
    ensures Apply(s, p, true) == s
  {
    KnownEntriesAreIgnored(s, EntriesOf(p));
  }

  // In particular a payload that was just appended, if all its entries carry ids.
  lemma {:induction false} AppendedIdsAreKnown(s: State, es: seq<Entry>, i: nat)
    requires i < |es| && es[i].id.Some?
    ensures es[i].id.value in AddEntries(s, es, true).byId
    decreases |es|
  {
    if i < |es| - 1 {
      AppendedIdsAreKnown(s, es[..|es| - 1], i);
    }
  }

  lemma AppendTwiceIsAppendOnce(s: State, p: Payload)
    requires p.leaf == NoLeafField && forall i :: 0 <= i < |EntriesOf(p)| ==> EntriesOf(p)[i].id.Some?
    ensures Apply(Apply(s, p, true), p, true) == Apply(s, p, true)
  {
    forall i | 0 <= i < |EntriesOf(p)| ensures EntriesOf(p)[i].id.value in Apply(s, p, true).byId {
      AppendedIdsAreKnown(s, EntriesOf(p), i);
    }
    ReappendIsNoOp(Apply(s, p, true), p);
  }

  // ---------------------------------------------------------------------------
  // The cache
  // ---------------------------------------------------------------------------

  ghost function LinksOf(s: State): Links
    requires Coherent(s)
  {
    map id | id in s.byId :: (IndexIsSound(s.entries, id); s.entries[s.byId[id]].parent)
  }

  // Root to leaf: each entry names the one before it as parent, the first names none, and
  // no id occurs twice.
  ghost predicate IsActiveBranch(leaf: string, path: seq<Entry>) {
    && path != [] && path[0].parent == None && path[|path| - 1].id == Some(leaf)
    && (forall i :: 0 <= i < |path| - 1 ==> path[i].id.Some? && path[i + 1].parent == path[i].id)
    && (forall i, j :: 0 <= i < j < |path| ==> path[i].id != path[j].id)
  }

  // The indexed entries of exactly these ids.
  ghost predicate HasEntriesOf(s: State, ids: set<string>, path: seq<Entry>) {
    && (forall e :: e in path ==>
          e.id.Some? && e.id.value in ids && e.id.value in s.byId && s.byId[e.id.value] < |s.entries|
          && e == s.entries[s.byId[e.id.value]])
    && (forall id :: id in ids ==> exists e :: e in path && e.id == Some(id))
  }

  // The active entries: all of them while no leaf is known, none for a null leaf, else the
  // indexed entries of exactly the ids on its branch, or none if the branch is broken.
  ghost predicate IsActive(s: State, path: seq<Entry>)
    requires Coherent(s)
  {
    && (!s.leafKnown ==> path == s.entries)
    && (s.leafKnown && s.leafId.None? ==> path == [])
    && (s.leafKnown && s.leafId.Some? ==> IsBranchOf(s, s.leafId.value, path))
  }

  ghost predicate IsBranchOf(s: State, leaf: string, path: seq<Entry>)
    requires Coherent(s)
  {
    var branch, links := Branch(LinksOf(s), leaf), LinksOf(s);
    && (path != [] <==> branch <= links.Keys && ReachesRoot(links, branch))
    && (path != [] ==> IsActiveBranch(leaf, path) && HasEntriesOf(s, branch, path))
  }

  // After any appends the active branch is that of the leaf which the last payload with a
  // leaf names.
  lemma {:induction false} ActiveAfterAppends(sessionId: string, first: Payload, ps: seq<Payload>, i: nat, path: seq<Entry>)
    requires i <= |ps| && Given(first, ps)[i].leaf.LeafField?
    requires forall j :: i < j <= |ps| ==> Given(first, ps)[j].leaf == NoLeafField
    requires Coherent(Appends(Reset(sessionId, first), ps)) && IsActive(Appends(Reset(sessionId, first), ps), path)
    ensures match Given(first, ps)[i].leaf.leaf
            case None => path == []
            case Some(leaf) => IsBranchOf(Appends(Reset(sessionId, first), ps), leaf, path)
  {
    LeafIsTheLastNamed(sessionId, first, ps, i);
  }

  // The path is the ids read from the end, each with its indexed entry.
  ghost predicate ReadsBack(s: State, ids: seq<string>, path: seq<Entry>) {
    && |path| == |ids|
    && forall i :: 0 <= i < |ids| ==>
                     var id := ids[|ids| - 1 - i];
                     && id in s.byId && s.byId[id] < |s.entries| && s.entries[s.byId[id]].id == Some(id)
                     && path[i] == s.entries[s.byId[id]]
  }

  lemma PathEntries(s: State, ids: seq<string>, path: seq<Entry>)
    requires ReadsBack(s, ids, path)
    ensures HasEntriesOf(s, (set id | id in ids), path)
  {
    forall id | id in ids
      ensures exists e :: e in path && e.id == Some(id)
    {
      var j :| 0 <= j < |ids| && ids[j] == id;
      var i := |ids| - 1 - j;
      assert ids[|ids| - 1 - i] == id && path[i] in path;
    }
  }

  lemma PathIsActive(s: State, leaf: string, ids: seq<string>, path: seq<Entry>)
    requires Coherent(s) && ReadsBack(s, ids, path) && IsRootPath(LinksOf(s), leaf, ids)
    ensures IsActiveBranch(leaf, path)
  {
    var n := |ids|;
    assert ids[n - 1 - (n - 1)] == leaf && ids[n - 1 - 0] == ids[n - 1];
    forall i | 0 <= i < n - 1
      ensures path[i].id.Some? && path[i + 1].parent == path[i].id
    {
      assert LinksOf(s)[ids[n - 2 - i]] == Some(ids[n - 2 - i + 1]);
      assert ids[n - 1 - (i + 1)] == ids[n - 2 - i];
    }
  }

  class EntryReplayCache {
    var sessionId: string
    var entries: seq<Entry>
    var byId: map<string, nat>
    var lastEntryId: Option<string>
    var leafId: Option<string>
    var leafKnown: bool

    ghost function View(): State
      reads this
    {
      State(sessionId, entries, byId, lastEntryId, leafId, leafKnown)
    }

    ghost predicate Valid()
      reads this
    {
      Coherent(View())
    }

    constructor ()
      ensures Valid() && View() == State("", [], map[], None, None, false)
    {
      sessionId, entries, byId, lastEntryId, leafId, leafKnown := "", [], map[], None, None, false;
    }

    method ApplyPayload(p: Payload, incremental: bool)
      requires Valid()
      modifies this
      ensures Valid() && View() == Apply(old(View()), p, incremental)
    {
      if p.leaf.LeafField? {
        leafKnown := true;
        leafId := p.leaf.leaf;
      }
      if p.entries.None? {
        return;
      }
      var es := p.entries.value;
      ghost var start := View();
      for k := 0 to |es|
        invariant View() == AddEntries(start, es[..k], incremental)
      {
        assert es[..k + 1][..k] == es[..k];
        var e := es[k];
        if !(incremental && e.id.Some? && e.id.value in byId) {
          var index := |entries|;
          entries := entries + [e];
          if e.id.Some? {
            lastEntryId := e.id;
            byId := byId[e.id.value := index];
          }
        }
      }
      assert es[..|es|] == es;
      ApplyKeepsCoherent(start, es, incremental);
    }

    method ResetTo(session: string, p: Payload)
      modifies this
      ensures Valid() && View() == Reset(session, p)
    {
      sessionId, entries, byId, lastEntryId, leafId, leafKnown := session, [], map[], None, None, false;
      ApplyPayload(p, false);
    }

    method Append(p: Payload)
      requires Valid()
      modifies this
      ensures Valid() && View() == Apply(old(View()), p, true)
    {
      ApplyPayload(p, true);
    }

    method ActiveBranchEntries() returns (path: seq<Entry>)
      requires Valid()
      ensures IsActive(View(), path)
    {
      if !leafKnown {
        return entries;
      }
      if leafId.None? {
        return [];
      }
      path := BranchPath(leafId.value);
    }

    method BranchPath(leaf: string) returns (path: seq<Entry>)
      requires Valid()
      ensures path != [] ==> IsActiveBranch(leaf, path) && HasEntriesOf(View(), Branch(LinksOf(View()), leaf), path)
      ensures path != [] <==> Branch(LinksOf(View()), leaf) <= LinksOf(View()).Keys &&
                              ReachesRoot(LinksOf(View()), Branch(LinksOf(View()), leaf))
    {
      forall id | id in byId
        ensures byId[id] < |entries| && entries[byId[id]].id == Some(id)
      {
        IndexIsSound(entries, id);
      }
      var links: Links := map id | id in byId :: entries[byId[id]].parent;
      assert links == LinksOf(View());
      var ids := ReplayPath(links, leaf);
      path := [];
      for k := 0 to |ids|
        invariant ReadsBack(View(), ids[..k], path)
      {
        path := [entries[byId[ids[k]]]] + path;
      }
      assert ids[..|ids|] == ids;
      if ids != [] {
        PathEntries(View(), ids, path);
        PathIsActive(View(), leaf, ids, path);
      }
    }
  }
}
