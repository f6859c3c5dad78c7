/** How libev chooses the next size of an array that has become too small. */
module Growth {

  const MALLOC_ROUND: nat := 4096
  /** The size of a pointer on the usual platforms. */
  const ADDRESS_SIZE: nat := 8

  /** Room the allocator needs for its own book-keeping: four pointers. */
  function Slack(pointer: nat): nat {
    4 * pointer
  }

  /** `n` doubled `k` times. */
  function Doubled(n: nat, k: nat): nat {
    if k == 0 then n else 2 * Doubled(n, k - 1)
  }

  /** `n` doubled once, and again as long as the wanted size is not reached. */
  ghost predicate IsDoubled(n: nat, cnt: nat, size: nat) {
    exists k: nat :: k > 0 && size == Doubled(n, k) && cnt <= size && (k == 1 || size < 2 * cnt)
  }

  /** The size fills whole pages up to the allocator's slack, and no page more than one entry beyond `base` needs. */
  ghost predicate FillsPages(elem: nat, base: nat, size: nat, slack: nat) {
    exists pages: nat :: PageBound(elem, size, slack, pages * MALLOC_ROUND) && pages * MALLOC_ROUND < elem * base + elem + slack + MALLOC_ROUND
  }

  ghost predicate PageBound(elem: nat, size: nat, slack: nat, bound: nat) {
    elem * size + slack <= bound < elem * size + elem + slack
  }

  lemma RoundUp(elem: nat, bytes: nat, slack: nat) returns (pages: nat)
    requires elem > 0
    ensures pages == (bytes + elem + (MALLOC_ROUND - 1) + slack) / MALLOC_ROUND
    ensures bytes + elem + slack <= pages * MALLOC_ROUND < bytes + elem + slack + MALLOC_ROUND
  {
    pages := (bytes + elem + (MALLOC_ROUND - 1) + slack) / MALLOC_ROUND;
  }

  lemma Divide(elem: nat, bytes: nat, atLeast: nat)
    requires elem > 0 && elem * atLeast + elem <= bytes
    ensures elem * (bytes / elem) <= bytes < elem * (bytes / elem) + elem
    ensures bytes / elem > atLeast
  {
    var q := bytes / elem;
    assert bytes == elem * q + bytes % elem;
    assert q <= atLeast ==> elem * q <= elem * atLeast;
  }

  /** The size of a pointer differs between platforms; four of them fit a page. */
  method NextSize(elem: nat, cur: nat, cnt: nat, pointer: nat) returns (ncur: nat, ghost base: nat)
    requires elem > 0 && Slack(pointer) <= MALLOC_ROUND
    ensures cur < ncur && cnt <= ncur && IsDoubled(cur + 1, cnt, base)
    ensures if elem * base <= MALLOC_ROUND - Slack(pointer) then ncur == base else base < ncur && FillsPages(elem, base, ncur, Slack(pointer))
  {
    var slack := Slack(pointer);
    ncur := 2 * (cur + 1);
    ghost var k := 1;
    assert Doubled(cur + 1, 0) == cur + 1;
    while cnt > ncur
      invariant ncur >= 2 * (cur + 1)
      invariant k > 0 && ncur == Doubled(cur + 1, k) && (k == 1 || ncur < 2 * cnt)
      decreases cnt - ncur
    {
      ncur, k := 2 * ncur, k + 1;
    }
    base := ncur;
    assert IsDoubled(cur + 1, cnt, base);
    if elem * ncur > MALLOC_ROUND - slack {
      var bytes := ncur * elem;
      ghost var pages := RoundUp(elem, bytes, slack);
      bytes := (bytes + elem + (MALLOC_ROUND - 1) + slack) / MALLOC_ROUND * MALLOC_ROUND;
      bytes := bytes - slack;
      Divide(elem, bytes, base);
      ncur := bytes / elem;
      assert PageBound(elem, ncur, slack, pages * MALLOC_ROUND);
    }
  }
}
