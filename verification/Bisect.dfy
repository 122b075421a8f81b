/** Finding the extension that crashes the host by probing subsets of the loaded paths. */
module Bisect {
  import opened Options

  // True means that the host boots with this subset.
  type Probe = seq<string> -> bool

  datatype Kind = Unknown | Crash | Combo

  datatype Report = Report(kind: Kind, path: Option<string>, probes: nat)

  // The number of halvings that take a range of this size down to one.
  function CeilLog2(n: nat): nat {
    if n <= 1 then 0 else 1 + CeilLog2((n + 1) / 2)
  }

  lemma {:induction false} CeilLog2Monotone(m: nat, n: nat)
    requires m <= n
    ensures CeilLog2(m) <= CeilLog2(n)
    decreases n
  {
    if n > 1 && m > 1 {
      CeilLog2Monotone((m + 1) / 2, (n + 1) / 2);
    }
  }

  function Pow2(k: nat): nat {
    if k == 0 then 1 else 2 * Pow2(k - 1)
  }

  // The logarithm is the least exponent whose power of two reaches the size.
  lemma {:induction false} CeilLog2IsLeast(n: nat)
    requires n >= 1
    ensures Pow2(CeilLog2(n)) >= n
    ensures n > 1 ==> Pow2(CeilLog2(n) - 1) < n
  {
    if n > 1 {
      CeilLog2IsLeast((n + 1) / 2);
    }
  }

  predicate FailsAlone(probe: Probe, p: string) {
    !probe([p])
  }

  predicate AnyFailsAlone(probe: Probe, paths: seq<string>) {
    exists p :: p in paths && FailsAlone(probe, p)
  }

  // A subset fails exactly when it holds one of the bad paths.
  predicate MockProbe(bad: set<string>, subset: seq<string>) {
    !exists p :: p in subset && p in bad
  }

  ghost predicate IsMock(probe: Probe, bad: set<string>) {
    forall subset :: probe(subset) <==> MockProbe(bad, subset)
  }

  ghost predicate IsFirstBad(bad: set<string>, paths: seq<string>, p: string) {
    exists k :: 0 <= k < |paths| && paths[k] == p && p in bad && forall j :: 0 <= j < k ==> paths[j] !in bad
  }

  // Between two neighbouring prefixes of which only the longer one fails sits the suspect.
  ghost predicate IsCut(probe: Probe, paths: seq<string>, k: nat) {
    k < |paths| && (k == 0 || probe(paths[..k])) && !probe(paths[..k + 1])
  }

  lemma {:induction false} CutOfMock(probe: Probe, bad: set<string>, paths: seq<string>, k: nat)
    requires IsMock(probe, bad) && IsCut(probe, paths, k)
    ensures FailsAlone(probe, paths[k]) && IsFirstBad(bad, paths, paths[k])
  {
    assert MockProbe(bad, paths[..k]);
    assert forall j :: 0 <= j < k ==> paths[j] in paths[..k];
    var p :| p in paths[..k + 1] && p in bad;
    assert p == paths[k];
    assert p in [paths[k]];
    assert !MockProbe(bad, [paths[k]]);
  }

  method BisectCulprit(paths: seq<string>, probe: Probe) returns (r: Report)
    ensures r.kind == Unknown <==> paths == [] || probe(paths)
    ensures r.kind == Crash <==> paths != [] && !probe(paths) && AnyFailsAlone(probe, paths)
    ensures r.kind == Combo <==> paths != [] && !probe(paths) && !AnyFailsAlone(probe, paths)
    ensures r.path.Some? <==> r.kind == Crash
    ensures r.kind == Crash ==> r.path.value in paths && FailsAlone(probe, r.path.value)
    ensures forall bad :: IsMock(probe, bad) && r.kind == Crash ==> IsFirstBad(bad, paths, r.path.value)
    ensures r.probes <= |paths| + 2 + CeilLog2(|paths|)
    ensures forall bad :: IsMock(probe, bad) ==> r.probes <= 2 + CeilLog2(|paths|)
  {
    var probes := 0;
    if paths == [] {
      return Report(Unknown, None, probes);
    }
    probes := probes + 1;
    if probe(paths) {
      return Report(Unknown, None, probes);
    }
    var lo, hi := 0, |paths|;
    assert paths[..hi] == paths;
    while lo + 1 < hi
      invariant 0 <= lo < hi <= |paths|
      invariant lo == 0 || probe(paths[..lo])
      invariant !probe(paths[..hi])
      invariant probes + CeilLog2(hi - lo) <= 1 + CeilLog2(|paths|)
      decreases hi - lo
    {
      var mid := (lo + hi) / 2;
      CeilLog2Monotone(mid - lo, (hi - lo + 1) / 2);
      CeilLog2Monotone(hi - mid, (hi - lo + 1) / 2);
      probes := probes + 1;
      if probe(paths[..mid]) {
        lo := mid;
      } else {
        hi := mid;
      }
    }
    assert IsCut(probe, paths, lo);
    forall bad | IsMock(probe, bad)
      ensures FailsAlone(probe, paths[lo]) && IsFirstBad(bad, paths, paths[lo])
    {
      CutOfMock(probe, bad, paths, lo);
    }
    var suspect := paths[lo];
    probes := probes + 1;
    if !probe([suspect]) {
      assert suspect in paths && FailsAlone(probe, suspect);
      return Report(Crash, Some(suspect), probes);
    }
    for k := 0 to |paths|
      invariant forall j :: 0 <= j < k ==> !FailsAlone(probe, paths[j])
      invariant probes <= 2 + CeilLog2(|paths|) + k
    {
      probes := probes + 1;
      if !probe([paths[k]]) {
        assert paths[k] in paths && FailsAlone(probe, paths[k]);
        return Report(Crash, Some(paths[k]), probes);
      }
    }
    return Report(Combo, None, probes);
  }

  // With a mock probe every failing set has a culprit: the verdict is never a combination.
  lemma {:induction false} MockNeverCombines(probe: Probe, bad: set<string>, paths: seq<string>)
    requires IsMock(probe, bad) && !probe(paths)
    ensures AnyFailsAlone(probe, paths)
  {
    var p :| p in paths && p in bad;
    assert p in [p];
    assert !MockProbe(bad, [p]);
    assert FailsAlone(probe, p);
  }
}
