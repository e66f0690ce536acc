/** The Dashboard carousel's circular index arithmetic over a list of `n`
    recommended courses. JavaScript's `%` truncates toward zero, so it is
    written out rather than borrowed from Dafny's Euclidean `%`. */
module Carousel {

  /** JavaScript's `a % n`: the dividend minus as many whole `|n|` as fit in
      it, so the remainder takes the sign of the dividend. */
  function JsRem(a: int, n: int): (r: int)
    requires n != 0
    ensures a >= 0 ==> 0 <= r < if n > 0 then n else -n
    ensures a < 0 ==> -(if n > 0 then n else -n) < r <= 0
    ensures 0 <= a < n ==> r == a
    ensures n > 0 && n <= a < 2 * n ==> r == a - n
    decreases if a >= 0 then 2 * a else 1 - 2 * a
  {
    var m := if n > 0 then n else -n;
    if a < 0 then -JsRem(-a, n)
    else if a < m then a
    else JsRem(a - m, n)
  }

  /** `handleNext`: `(i + 1) % n`. */
  function Next(i: nat, n: nat): (r: nat)
    requires i < n
    ensures r < n
    ensures r == if i == n - 1 then 0 else i + 1
  {
    JsRem(i + 1, n)
  }

  /** `handlePrev`: `(i - 1 + n) % n`. */
  function Prev(i: nat, n: nat): (r: nat)
    requires i < n
    ensures r < n
    ensures r == if i == 0 then n - 1 else i - 1
  {
    JsRem(i - 1 + n, n)
  }

  /** Prev undoes Next. */
  lemma PrevNext(i: nat, n: nat)
    requires i < n
    ensures Prev(Next(i, n), n) == i
  {
  }

  /** Next undoes Prev. */
  lemma NextPrev(i: nat, n: nat)
    requires i < n
    ensures Next(Prev(i, n), n) == i
  {
  }

  /** Press Next `k` times starting at `i`. */
  function Advance(i: nat, n: nat, k: nat): (r: nat)
    requires i < n
    ensures r < n
    decreases k
  {
    if k == 0 then i else Advance(Next(i, n), n, k - 1)
  }

  lemma {:induction false} AdvanceSplit(i: nat, n: nat, a: nat, b: nat)
    requires i < n
    ensures Advance(i, n, a + b) == Advance(Advance(i, n, a), n, b)
    decreases a
  {
    if a > 0 {
      AdvanceSplit(Next(i, n), n, a - 1, b);
    }
  }

  /** Before the end of the list, k presses move k places forward. */
  lemma {:induction false} AdvanceNoWrap(i: nat, n: nat, k: nat)
    requires i + k < n
    ensures Advance(i, n, k) == i + k
    decreases k
  {
    if k > 0 {
      AdvanceNoWrap(i + 1, n, k - 1);
    }
  }

  /** Pressing Next `n` times on a list of `n` courses returns to the start. */
  lemma FullCircle(i: nat, n: nat)
    requires i < n
    ensures Advance(i, n, n) == i
  {
    AdvanceSplit(i, n, n - i, i);
    AdvanceSplit(i, n, n - i - 1, 1);
    AdvanceNoWrap(i, n, n - i - 1);
    assert Advance(i, n, n - i) == 0;
    AdvanceNoWrap(0, n, i);
  }
}
