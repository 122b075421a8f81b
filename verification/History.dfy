/** A flag over time: what it shows at the end, told from the moments that set and cleared it. */
module History {

  // Something set it after which nothing cleared it, or it was set all along.
  ghost predicate Latched(n: nat, initially: bool, sets: nat -> bool, clears: nat -> bool) {
    || (initially && forall j: nat :: j < n ==> !clears(j))
    || exists i: nat :: i < n && LastSet(n, i, sets, clears)
  }

  ghost predicate LastSet(n: nat, i: nat, sets: nat -> bool, clears: nat -> bool) {
    sets(i) && forall j: nat :: i < j < n ==> !clears(j)
  }

  // The i-th moment sets the flag, or leaves it as it was unless it clears it.
  ghost predicate MovesAt(i: nat, flag: nat -> bool, sets: nat -> bool, clears: nat -> bool) {
    flag(i + 1) <==> sets(i) || (flag(i) && !clears(i))
  }

  lemma {:induction false} FlagIsLatched(n: nat, flag: nat -> bool, sets: nat -> bool, clears: nat -> bool)
    requires forall i: nat :: i < n ==> MovesAt(i, flag, sets, clears)
    ensures flag(n) <==> Latched(n, flag(0), sets, clears)
  {
    if n > 0 {
      var m := n - 1;
      FlagIsLatched(m, flag, sets, clears);
      assert MovesAt(m, flag, sets, clears);
      if sets(m) {
        assert LastSet(n, m, sets, clears);
      } else if flag(m) && !clears(m) {
        if i: nat :| i < m && LastSet(m, i, sets, clears) {
          assert LastSet(n, i, sets, clears);
        }
      }
      if i: nat :| i < n && LastSet(n, i, sets, clears) {
        assert i < m ==> LastSet(m, i, sets, clears);
      }
    }
  }
}
