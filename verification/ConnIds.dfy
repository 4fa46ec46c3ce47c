/** Choosing an unused SCCP connection id: a wrapping counter probes one id after the other. */
module ConnIds {

  const ID_SPACE: nat := 0x100_0000
  const PROBES: nat := 0xFF_FFFF

  /** The k-th id probed from start in a space of n ids. */
  function At(start: nat, k: nat, n: nat): (id: nat)
    requires start < n && k <= n
    ensures id < n
  {
    if start + k < n then start + k else start + k - n
  }

  /** The outcome of a bounded probe: the first id not in use among the first PROBES ids in cyclic
      order from the counter, or -1 when all of those are in use; the counter moves past the probed ids. */
  ghost predicate IsFirstFree(used: set<nat>, start: nat, id: int, next: nat)
    requires start < ID_SPACE
  {
    if id < 0 then
      && id == -1
      && AllUsed(used, start, PROBES)
      && next == At(start, PROBES, ID_SPACE)
    else
      exists k ::
        && 0 <= k < PROBES
        && id == At(start, k, ID_SPACE) && id !in used
        && AllUsed(used, start, k)
        && next == At(start, k + 1, ID_SPACE)
  }

  ghost predicate AllUsed(used: set<nat>, start: nat, k: nat)
    requires start < ID_SPACE && k <= ID_SPACE
  {
    forall j :: 0 <= j < k ==> At(start, j, ID_SPACE) in used
  }

  lemma {:induction false} AtNext(start: nat, k: nat)
    requires start < ID_SPACE && k < ID_SPACE
    ensures At(At(start, k, ID_SPACE), 1, ID_SPACE) == At(start, k + 1, ID_SPACE)
  {
  }

  lemma {:induction false} FoundFirst(used: set<nat>, start: nat, k: nat)
    requires start < ID_SPACE && k < PROBES && AllUsed(used, start, k) && At(start, k, ID_SPACE) !in used
    ensures IsFirstFree(used, start, At(start, k, ID_SPACE), At(start, k + 1, ID_SPACE))
  {
  }

  ghost function Probed(start: nat, k: nat, n: nat): set<nat>
    requires start < n && k <= n
  {
    set j | 0 <= j < k :: At(start, j, n)
  }

  lemma {:induction false} ProbedAreDistinct(start: nat, k: nat, n: nat)
    requires start < n && k <= n
    ensures |Probed(start, k, n)| == k
  {
    if k == 0 {
    } else {
      var before, last := Probed(start, k - 1, n), At(start, k - 1, n);
      ProbedAreDistinct(start, k - 1, n);
      assert Probed(start, k, n) == before + {last};
      assert last !in before;
    }
  }

  lemma {:induction false} SubsetSize<T>(a: set<T>, b: set<T>)
    requires a <= b
    ensures |a| <= |b|
  {
    assert b == a + (b - a);
  }

  /** Pigeonhole: when all of the first k ids from start are in use, at least k ids are. */
  lemma {:induction false} Pigeonhole(used: set<nat>, start: nat, k: nat, n: nat)
    requires start < n && k <= n
    requires forall j :: 0 <= j < k ==> At(start, j, n) in used
    ensures |used| >= k
  {
    ProbedAreDistinct(start, k, n);
    SubsetSize(Probed(start, k, n), used);
  }

  /** The probe gives up exactly when every id below 2^24 is in use, except possibly the one just before
      the counter, so with at least 2^24 - 1 ids in use; an id that it returns is below 2^24 and free. */
  lemma {:induction false} GivesUpOnlyWhenFull(used: set<nat>, start: nat, id: int, next: nat)
    requires start < 16_777_216
    requires IsFirstFree(used, start, id, next)
    ensures next < 16_777_216
    ensures id >= 0 ==> id < 16_777_216 && id !in used
    ensures id < 0 ==> |used| >= 16_777_215
    ensures id < 0 <==>
      forall free: nat :: free < 16_777_216 && free != (start + 16_777_215) % 16_777_216 ==> free in used
  {
    var last := At(start, PROBES, ID_SPACE);
    if id < 0 {
      Pigeonhole(used, start, PROBES, ID_SPACE);
      forall free: nat | free < ID_SPACE && free != last ensures free in used {
        var j := if free >= start then free - start else free + ID_SPACE - start;
        assert free == At(start, j, ID_SPACE);
      }
    }
  }
}
