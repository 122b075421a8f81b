/** Scaling raw token estimates so that they add up to the reported total. */
module TokenScaling {

  function Sum(s: seq<nat>): nat {
    if s == [] then 0 else Sum(s[..|s| - 1]) + s[|s| - 1]
  }

  // The quotient rounded to the nearest integer, halves up.
  function Rounded(num: nat, den: nat): nat
    requires den > 0
  {
    (2 * num + den) / (2 * den)
  }

  function RoundedShares(parts: seq<nat>, used: nat, raw: nat): (r: seq<nat>)
    requires raw > 0
    ensures |r| == |parts|
  {
    if parts == [] then []
    else RoundedShares(parts[..|parts| - 1], used, raw) + [Rounded(parts[|parts| - 1] * used, raw)]
  }

  // The last of the largest buckets.
  function Largest(s: seq<nat>): (index: nat)
    requires s != []
    ensures index < |s|
    ensures forall j :: 0 <= j < |s| ==> s[j] <= s[index]
    ensures forall j :: index < j < |s| ==> s[j] < s[index]
  {
    var n := |s| - 1;
    if n == 0 then 0
    else
      var i := Largest(s[..n]);
      assert forall j :: 0 <= j < n ==> s[..n][j] == s[j];
      if s[n] >= s[i] then n else i
  }

  // One bucket, the largest, takes the whole drift; it cannot go below zero.
  function Repaired(shares: seq<nat>, used: nat): (r: seq<nat>)
    ensures |r| == |shares|
  {
    var total := Sum(shares);
    if total == used || shares == [] then shares
    else
      var i := Largest(shares);
      if total > used then shares[i := if shares[i] >= total - used then shares[i] - (total - used) else 0]
      else shares[i := shares[i] + (used - total)]
  }

  function Scaled(parts: seq<nat>, used: nat): (r: seq<nat>)
    ensures |r| == |parts|
  {
    if Sum(parts) == 0 || used == 0 then seq(|parts|, i => 0)
    else Repaired(RoundedShares(parts, used, Sum(parts)), used)
  }

  method ScaleTokenParts(parts: seq<nat>, used: nat) returns (scaled: seq<nat>)
    ensures scaled == Scaled(parts, used)
  {
    var rawTotal := Sum(parts);
    if rawTotal == 0 || used == 0 {
      return seq(|parts|, i => 0);
    }
    scaled := RoundedShares(parts, used, rawTotal);
    var scaledSum := Sum(scaled);
    if scaledSum != used && scaled != [] {
      var idx := Largest(scaled);
      if scaledSum > used {
        scaled := scaled[idx := if scaled[idx] >= scaledSum - used then scaled[idx] - (scaledSum - used) else 0];
      } else {
        scaled := scaled[idx := scaled[idx] + (used - scaledSum)];
      }
    }
  }

  // ---------------------------------------------------------------------------
  // Rounding drift
  // ---------------------------------------------------------------------------

  // Rounding moves a share by at most one half.
  lemma RoundingError(num: nat, den: nat)
    requires den > 0
    ensures 2 * num - den <= 2 * den * Rounded(num, den) <= 2 * num + den
  {
    var q, r := Rounded(num, den), (2 * num + den) % (2 * den);
    assert 2 * num + den == 2 * den * q + r;
  }

  lemma {:induction false} ShareIsNearExact(parts: seq<nat>, used: nat, raw: nat, i: nat)
    requires raw > 0 && i < |parts|
    ensures var share := RoundedShares(parts, used, raw)[i];
            2 * (parts[i] * used) - raw <= 2 * raw * share <= 2 * (parts[i] * used) + raw
    decreases |parts|
  {
    var n := |parts| - 1;
    if i == n {
      RoundingError(parts[n] * used, raw);
    } else {
      ShareIsNearExact(parts[..n], used, raw, i);
    }
  }

  lemma {:induction false} DriftOfShares(parts: seq<nat>, used: nat, raw: nat)
    requires raw > 0
    ensures var total := Sum(RoundedShares(parts, used, raw));
            2 * (Sum(parts) * used) - |parts| * raw <= 2 * raw * total <= 2 * (Sum(parts) * used) + |parts| * raw
    decreases |parts|
  {
    if parts != [] {
      var n := |parts| - 1;
      var before, last := RoundedShares(parts[..n], used, raw), Rounded(parts[n] * used, raw);
      DriftOfShares(parts[..n], used, raw);
      RoundingError(parts[n] * used, raw);
      assert (before + [last])[..n] == before && Sum(before + [last]) == Sum(before) + last;
      Distribute(2 * raw, Sum(before), last);
      Distribute(used, Sum(parts[..n]), parts[n]);
      Distribute(raw, n, 1);
    }
  }

  lemma Distribute(k: nat, a: nat, b: nat)
    ensures k * (a + b) == k * a + k * b
    ensures (a + b) * k == a * k + b * k
  {
  }

  lemma ProductPositive(k: int, x: int)
    requires k > 0 && x > 0
    ensures k * x > 0
  {
  }

  lemma Cancel(k: nat, a: int, b: int)
    requires k > 0 && k * a <= k * b
    ensures a <= b
  {
    if a > b {
      ProductPositive(k, a - b);
    }
  }

  lemma CancelBounds(raw: nat, used: nat, n: nat, total: nat)
    requires raw > 0
    requires 2 * (raw * used) - n * raw <= 2 * raw * total <= 2 * (raw * used) + n * raw
    ensures 2 * used - n <= 2 * total <= 2 * used + n
  {
    Cancel(raw, 2 * used - n, 2 * total);
    Cancel(raw, 2 * total, 2 * used + n);
  }

  // Before repair the sum misses the total by at most half the number of buckets.
  lemma DriftIsBounded(parts: seq<nat>, used: nat)
    requires Sum(parts) > 0
    ensures var total := Sum(RoundedShares(parts, used, Sum(parts)));
            2 * used - |parts| <= 2 * total <= 2 * used + |parts|
  {
    DriftOfShares(parts, used, Sum(parts));
    CancelBounds(Sum(parts), used, |parts|, Sum(RoundedShares(parts, used, Sum(parts))));
  }

  // ---------------------------------------------------------------------------
  // The repaired total
  // ---------------------------------------------------------------------------

  lemma {:induction false} SumUpdate(s: seq<nat>, i: nat, v: nat)
    requires i < |s|
    ensures Sum(s[i := v]) == Sum(s) - s[i] + v
    decreases |s|
  {
    var n := |s| - 1;
    if i == n {
      assert s[i := v][..n] == s[..n];
    } else {
      SumUpdate(s[..n], i, v);
      assert s[i := v][..n] == s[..n][i := v];
    }
  }

  lemma {:induction false} SumBelowMax(s: seq<nat>, max: nat)
    requires forall j :: 0 <= j < |s| ==> s[j] <= max
    ensures Sum(s) <= |s| * max
    decreases |s|
  {
    if s != [] {
      SumBelowMax(s[..|s| - 1], max);
      Distribute(max, |s| - 1, 1);
    }
  }

  lemma {:induction false} SumZeros(n: nat)
    ensures Sum(seq(n, i => 0)) == 0
  {
    if n > 0 {
      SumZeros(n - 1);
      assert seq(n, i => 0)[..n - 1] == seq(n - 1, i => 0);
    }
  }

  // The largest rounded share can absorb what rounding added.
  ghost predicate Absorbed(parts: seq<nat>, used: nat)
    requires Sum(parts) > 0
  {
    var shares := RoundedShares(parts, used, Sum(parts));
    shares != [] && Sum(shares) <= used + shares[Largest(shares)]
  }

  // The buckets add up to the total exactly when it is zero, or there is something to scale
  // and the largest rounded share can absorb what rounding added.
  lemma {:induction false} ExactIff(parts: seq<nat>, used: nat)
    ensures Sum(Scaled(parts, used)) == used <==> used == 0 || (Sum(parts) > 0 && Absorbed(parts, used))
  {
    if Sum(parts) == 0 || used == 0 {
      SumZeros(|parts|);
    } else {
      var shares := RoundedShares(parts, used, Sum(parts));
      var i := Largest(shares);
      SumUpdate(shares, i, Scaled(parts, used)[i]);
    }
  }

  // Enough tokens for the number of buckets make the sum exact.
  lemma {:induction false} ExactAboveBound(parts: seq<nat>, used: nat)
    requires Sum(parts) > 0 && 2 * used > |parts| * (|parts| - 3)
    ensures Sum(Scaled(parts, used)) == used
  {
    ExactIff(parts, used);
    if !Absorbed(parts, used) {
      UnabsorbedParts(parts, used, |parts|);
    }
  }

  lemma UnabsorbedParts(parts: seq<nat>, used: nat, n: nat)
    requires Sum(parts) > 0 && n == |parts| && !Absorbed(parts, used)
    ensures 2 * used <= n * (n - 3)
  {
    var shares := RoundedShares(parts, used, Sum(parts));
    var max := shares[Largest(shares)];
    DriftIsBounded(parts, used);
    SumBelowMax(shares, max);
    UnabsorbedIsSmall(n, used, Sum(shares), max);
  }

  // A drift that the largest bucket cannot absorb means few tokens for many buckets.
  lemma UnabsorbedIsSmall(n: nat, used: nat, total: nat, max: nat)
    requires total <= n * max && 2 * total <= 2 * used + n && total > used + max
    ensures 2 * used <= n * (n - 3)
  {
    var d := total - used;
    NonNegativeProduct(n, d - 1 - max);
    NonNegativeProduct(n - 1, n - 2 * d);
    assert n * (d - 1 - max) == n * d - n - n * max;
    assert (n - 1) * (n - 2 * d) == n * n - n - 2 * (n * d) + 2 * d;
    assert n * (n - 3) == n * n - 3 * n;
  }

  function Equal(n: nat, v: nat): (s: seq<nat>)
    ensures |s| == n && forall i :: 0 <= i < n ==> s[i] == v
  {
    seq(n, i => v)
  }

  // The bound is sharp: for every even number of buckets from four on, equal parts miss the
  // total that just fails it.
  lemma BoundIsSharp(m: nat, used: nat)
    requires m >= 2 && used == m * (2 * m - 3)
    ensures 2 * used == 2 * m * (2 * m - 3)
    ensures Sum(Equal(2 * m, 1)) > 0 && Sum(Scaled(Equal(2 * m, 1), used)) != used
  {
    HalfRoundsUp(m, used);
    EqualPartsMiss(2 * m, used, m - 1);
  }

  lemma EqualPartsMiss(n: nat, used: nat, share: nat)
    requires n > 0 && used > 0 && Rounded(used, n) == share && n * share > used + share
    ensures Sum(Equal(n, 1)) > 0 && Sum(Scaled(Equal(n, 1), used)) != used
  {
    SumOfEqual(n, 1);
    EqualShares(n, 1, used, n);
    SumOfEqual(n, share);
    assert Equal(n, share)[Largest(Equal(n, share))] == share;
    ExactIff(Equal(n, 1), used);
  }

  lemma HalfRoundsUp(m: nat, used: nat)
    requires m >= 2 && used == m * (2 * m - 3)
    ensures used > 0 && 2 * used == 2 * m * (2 * m - 3)
    ensures Rounded(used, 2 * m) == m - 1 && 2 * m * (m - 1) == used + m
  {
    ProductPositive(m, 2 * m - 3);
    var num, den := 2 * used + 2 * m, 2 * (2 * m);
    assert num == den * (m - 1);
    Quotient(num, den, m - 1);
  }

  lemma Quotient(num: nat, den: nat, q: nat)
    requires den > 0 && num == den * q
    ensures num / den == q
  {
    var r := num / den;
    assert den * r <= num < den * r + den;
    if r < q {
      NonNegativeProduct(den, q - r - 1);
    } else if r > q {
      ProductPositive(den, r - q);
    }
  }

  lemma {:induction false} SumOfEqual(n: nat, v: nat)
    ensures Sum(Equal(n, v)) == n * v
  {
    if n > 0 {
      SumOfEqual(n - 1, v);
      assert Equal(n, v)[..n - 1] == Equal(n - 1, v);
      Distribute(v, n - 1, 1);
    }
  }

  lemma NonNegativeProduct(k: nat, x: int)
    requires x >= 0
    ensures k * x >= 0
  {
  }

  // Every bucket but the largest stays within one half of its exact share.
  lemma {:induction false} OneBucketTakesTheDrift(parts: seq<nat>, used: nat, i: nat)
    requires Sum(parts) > 0 && used > 0 && i < |parts|
    requires i != Largest(RoundedShares(parts, used, Sum(parts)))
    ensures var raw := Sum(parts);
            2 * (parts[i] * used) - raw <= 2 * raw * Scaled(parts, used)[i] <= 2 * (parts[i] * used) + raw
  {
    ShareIsNearExact(parts, used, Sum(parts), i);
  }

  // Four equal parts of a total of two come out as three.
  lemma SmallTotalsCanMiss(part: nat)
    requires part > 0
    ensures Scaled([part, part, part, part], 2) == [1, 1, 1, 0]
    ensures Sum(Scaled([part, part, part, part], 2)) == 3
  {
    var parts := [part, part, part, part];
    SumOfFour(parts);
    EqualShares(4, part, 2, 4 * part);
    Quotient(2 * (part * 2) + 4 * part, 2 * (4 * part), 1);
    assert Equal(4, part) == parts;
    assert RoundedShares(parts, 2, 4 * part) == [1, 1, 1, 1];
    SumOfFour([1, 1, 1, 1]);
    SumOfFour([1, 1, 1, 0]);
  }

  lemma {:induction false} EqualShares(n: nat, part: nat, used: nat, raw: nat)
    requires raw > 0
    ensures RoundedShares(Equal(n, part), used, raw) == Equal(n, Rounded(part * used, raw))
  {
    if n > 0 {
      EqualShares(n - 1, part, used, raw);
      assert Equal(n, part)[..n - 1] == Equal(n - 1, part);
      assert Equal(n, part)[n - 1] == part;
    }
  }

  // ---------------------------------------------------------------------------
  // The bar of the session view
  // ---------------------------------------------------------------------------

  // System, tool definition and message tokens; the rest of `used` is overhead.
  function Bar(system: nat, tools: nat, messages: nat, payload: nat, used: nat): (nat, nat, nat) {
    var parts := [system, tools, messages, payload];
    if used == 0 then (0, 0, 0)
    else if Sum(parts) == 0 then (0, 0, used)
    else
      var scaled := Scaled(parts, used);
      (scaled[0], scaled[1], scaled[2])
  }

  lemma SumOfFour(s: seq<nat>)
    requires |s| == 4
    ensures Sum(s) == s[0] + s[1] + s[2] + s[3]
  {
    assert Sum(s[..1]) == s[0] by { assert s[..1][..0] == []; }
    assert Sum(s[..2]) == s[0] + s[1] by { assert s[..2][..1] == s[..1]; }
    assert Sum(s[..3]) == s[0] + s[1] + s[2] by { assert s[..3][..2] == s[..2]; }
  }

  // The three visible parts of the bar exceed the total in a single case: a total of two
  // that four equal parts share.
  lemma {:induction false} BarOverflowsIff(system: nat, tools: nat, messages: nat, payload: nat, used: nat)
    ensures var (s, t, m) := Bar(system, tools, messages, payload, used);
            s + t + m > used <==> used == 2 && system == tools == messages == payload > 0
  {
    var parts := [system, tools, messages, payload];
    SumOfFour(parts);
    if used > 0 && Sum(parts) > 0 {
      SumOfFour(Scaled(parts, used));
      ExactIff(parts, used);
      if !Absorbed(parts, used) {
        // Then the total is two and the parts are equal.
        var raw := Sum(parts);
        var shares := RoundedShares(parts, used, raw);
        UnabsorbedFour(parts, used);
        ShareIsNearExact(parts, used, raw, 0);
        ShareIsNearExact(parts, used, raw, 1);
        ShareIsNearExact(parts, used, raw, 2);
        ShareIsNearExact(parts, used, raw, 3);
        FourHalves(system, tools, messages, payload, used, shares[0], shares[1], shares[2], shares[3]);
      }
      if used == 2 && system == tools == messages == payload {
        SmallTotalsCanMiss(system);
      }
    }
  }

  // What exact halves make of four rounded shares.
  lemma FourHalves(p0: nat, p1: nat, p2: nat, p3: nat, used: nat, s0: nat, s1: nat, s2: nat, s3: nat)
    requires var raw := p0 + p1 + p2 + p3;
             && raw > 0 && s0 <= 1 && s1 <= 1 && s2 <= 1 && s3 <= 1 && 1 <= used
             && s0 + s1 + s2 + s3 == used + 2
             && 2 * raw * s0 <= 2 * (p0 * used) + raw && 2 * raw * s1 <= 2 * (p1 * used) + raw
             && 2 * raw * s2 <= 2 * (p2 * used) + raw && 2 * raw * s3 <= 2 * (p3 * used) + raw
    ensures used == 2 && p0 == p1 == p2 == p3 && s0 == s1 == s2 == s3 == 1
  {
    if used >= 2 {
      assert s0 == s1 == s2 == s3 == 1;
    }
  }

  ghost predicate OneTooMany(parts: seq<nat>, used: nat)
    requires |parts| == 4 && Sum(parts) > 0
  {
    var shares := RoundedShares(parts, used, Sum(parts));
    && shares[0] <= 1 && shares[1] <= 1 && shares[2] <= 1 && shares[3] <= 1
    && shares[0] + shares[1] + shares[2] + shares[3] == used + 2
  }

  lemma UnabsorbedFour(parts: seq<nat>, used: nat)
    requires |parts| == 4 && Sum(parts) > 0 && used > 0 && !Absorbed(parts, used)
    ensures OneTooMany(parts, used)
  {
    DriftIsBounded(parts, used);
    SumOfFour(RoundedShares(parts, used, Sum(parts)));
  }

  // Without an estimate all tokens are shown as messages; with one, each of the three shown
  // parts that is not the largest bucket is within one half of its own exact share.
  lemma {:induction false} BarShowsTheShares(system: nat, tools: nat, messages: nat, payload: nat, used: nat)
    ensures var (s, t, m) := Bar(system, tools, messages, payload, used);
            var raw := system + tools + messages + payload;
            && (raw == 0 ==> s == 0 && t == 0 && m == used)
            && (used == 0 ==> s == 0 && t == 0 && m == 0)
            && (raw > 0 && used > 0 ==>
                  var largest := Largest(RoundedShares([system, tools, messages, payload], used, raw));
                  && (largest != 0 ==> 2 * (system * used) - raw <= 2 * raw * s <= 2 * (system * used) + raw)
                  && (largest != 1 ==> 2 * (tools * used) - raw <= 2 * raw * t <= 2 * (tools * used) + raw)
                  && (largest != 2 ==> 2 * (messages * used) - raw <= 2 * raw * m <= 2 * (messages * used) + raw))
  {
    var parts := [system, tools, messages, payload];
    SumOfFour(parts);
    if Sum(parts) > 0 && used > 0 {
      var largest := Largest(RoundedShares(parts, used, Sum(parts)));
      if largest != 0 { OneBucketTakesTheDrift(parts, used, 0); }
      if largest != 1 { OneBucketTakesTheDrift(parts, used, 1); }
      if largest != 2 { OneBucketTakesTheDrift(parts, used, 2); }
    }
  }

  // The largest bucket takes what rounding added or lost, as far as it goes.
  lemma {:induction false} LargestTakesTheRest(parts: seq<nat>, used: nat)
    requires Sum(parts) > 0 && used > 0
    ensures var shares := RoundedShares(parts, used, Sum(parts));
            && shares != []
            && var i := Largest(shares);
            Scaled(parts, used)[i] == if shares[i] + used >= Sum(shares) then shares[i] + used - Sum(shares) else 0
  {
  }
}
