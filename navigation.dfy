/**
 * Paging through the filtered product list one product at a time
 * (`setup_product_navigation` and the Previous/Next buttons of
 * `display_product_navigation`). The page position lives in the session
 * state under `current_product_index`; a Streamlit rerun keeps it.
 */
module Navigation {

  /**
   * The index the Next button stores: `(i + 1) % n`. For a positive `n`
   * Dafny's `%` and Python's `%` agree, also for negative operands.
   */
  function NextIndex(i: int, n: nat): (r: nat)
    requires n > 0
    ensures r < n
    ensures 0 <= i < n ==> r == if i == n - 1 then 0 else i + 1
  {
    (i + 1) % n
  }

  /** The index the Previous button stores: `(i - 1) % n`. */
  function PreviousIndex(i: int, n: nat): (r: nat)
    requires n > 0
    ensures r < n
    ensures 0 <= i < n ==> r == if i == 0 then n - 1 else i - 1
  {
    (i - 1) % n
  }

  lemma ProductAtLeast(d: int, n: nat)
    requires d >= 1
    ensures d * n >= n
  {
  }

  /** The remainder is determined by any quotient-remainder decomposition. */
  lemma RemainderUnique(a: int, n: nat, q: int, r: int)
    requires n > 0 && 0 <= r < n && a == q * n + r
    ensures a % n == r
  {
    var q', r' := a / n, a % n;
    var d := q - q';
    assert d * n == r' - r by {
      assert a == q' * n + r';
      assert d * n == q * n - q' * n;
    }
    if d >= 1 {
      ProductAtLeast(d, n);
    } else if d <= -1 {
      ProductAtLeast(-d, n);
    }
  }

  /** Reducing before adding a step does not change the result. */
  lemma RemainderOfStep(a: int, d: int, n: nat)
    requires n > 0
    ensures (a % n + d) % n == (a + d) % n
  {
    var q, r := a / n, a % n;
    var q2, r2 := (r + d) / n, (r + d) % n;
    assert r + d == q2 * n + r2;
    assert a + d == (q + q2) * n + r2 by {
      assert a == q * n + r;
      assert (q + q2) * n == q * n + q2 * n;
    }
    RemainderUnique(a + d, n, q + q2, r2);
  }

  /** Previous undoes Next: from any stored index it returns to that index modulo `n`. */
  lemma PreviousUndoesNext(i: int, n: nat)
    requires n > 0
    ensures PreviousIndex(NextIndex(i, n), n) == i % n
  {
    RemainderOfStep(i + 1, -1, n);
  }

  /** Next undoes Previous. */
  lemma NextUndoesPrevious(i: int, n: nat)
    requires n > 0
    ensures NextIndex(PreviousIndex(i, n), n) == i % n
  {
    RemainderOfStep(i - 1, 1, n);
  }

  /** The index after `k` presses of Next, starting from `i`. */
  function NextPresses(i: nat, n: nat, k: nat): (r: nat)
    requires i < n
    ensures r < n
    decreases k
  {
    if k == 0 then i else NextIndex(NextPresses(i, n, k - 1), n)
  }

  /** `k` presses of Next advance the index by `k` around the list; `n` presses come back to the start. */
  lemma {:induction false} NextPressesWrapAround(i: nat, n: nat, k: nat)
    requires i < n
    ensures NextPresses(i, n, k) == (i + k) % n
    ensures k == n ==> NextPresses(i, n, k) == i
  {
    if k > 0 {
      NextPressesWrapAround(i, n, k - 1);
      RemainderOfStep(i + k - 1, 1, n);
    }
    if k == n {
      RemainderUnique(i + n, n, 1, i);
    }
  }

  /** The session state's `current_product_index` entry. */
  class ProductNavigator {
    /** Whether the session state holds the entry at all. */
    var hasIndex: bool
    var index: nat

    /** A fresh session: the entry does not exist yet. */
    constructor ()
      ensures !hasIndex && index == 0
    {
      hasIndex := false;
      index := 0;
    }

    /** The stored index points into a product list of length `n`. */
    predicate InRange(n: nat)
      reads this
    {
      hasIndex && index < n
    }

    /**
     * `setup_product_navigation`: creates the entry at 0, resets it to 0
     * when it is not below the number of products, and returns it.
     */
    method Setup(n: nat) returns (current: nat)
      modifies this
      ensures hasIndex && current == index
      ensures index == if old(hasIndex) && old(index) < n then old(index) else 0
      ensures n > 0 ==> InRange(n)
    {
      if !hasIndex {
        hasIndex := true;
        index := 0;
      }
      if index >= n {
        index := 0;
      }
      current := index;
    }

    /**
     * The Previous button. With no products the division by the list length
     * raises before anything is stored: `ok` is false and the state is unchanged.
     */
    method Previous(current: int, n: nat) returns (ok: bool)
      modifies this
      ensures ok <==> n > 0
      ensures ok ==> InRange(n) && index == PreviousIndex(current, n)
      ensures !ok ==> hasIndex == old(hasIndex) && index == old(index)
    {
      ok := n > 0;
      if ok {
        hasIndex := true;
        index := (current - 1) % n;
      }
    }

    /** The Next button; fails like Previous when there are no products. */
    method Next(current: int, n: nat) returns (ok: bool)
      modifies this
      ensures ok <==> n > 0
      ensures ok ==> InRange(n) && index == NextIndex(current, n)
      ensures !ok ==> hasIndex == old(hasIndex) && index == old(index)
    {
      ok := n > 0;
      if ok {
        hasIndex := true;
        index := (current + 1) % n;
      }
    }
  }

  /**
   * One page of the app followed by a Next click: the page sets up the index,
   * the click stores the next one, and the rerun's setup keeps it, so the
   * product shown after the rerun is the next product in the list.
   */
  method ClickNext(nav: ProductNavigator, n: nat) returns (before: nat, after: nat)
    modifies nav
    ensures n > 0 ==> before < n && after == NextIndex(before, n) && nav.InRange(n)
    ensures n == 0 ==> before == 0 && after == 0
  {
    before := nav.Setup(n);
    var ok := nav.Next(before, n);
    if ok {
      after := nav.Setup(n);
    } else {
      after := before;
    }
  }
}
