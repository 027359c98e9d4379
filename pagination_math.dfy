/** Integer arithmetic behind the page count and the page clamp of usePagination.
    JavaScript numbers are modelled as unbounded integers: the hook only ever
    divides a non-negative item count by a positive page size. */
module PaginationMath {

  function Max(a: int, b: int): int { if a < b then b else a }

  function Min(a: int, b: int): int { if a < b then a else b }

  /** `Math.ceil(a / b)`: the least q whose multiple q * b covers a. */
  function CeilDiv(a: nat, b: int): (q: nat)
    requires b >= 1
    ensures (q - 1) * b < a <= q * b
  {
    var q := (a + b - 1) / b;
    var m := (a + b - 1) % b;
    assert a + b - 1 == q * b + m && 0 <= m < b;
    assert (q - 1) * b == q * b - b;
    q
  }

  /** `totalPages`: `Math.max(1, Math.ceil(totalItems / pageSize))`. There is
      always at least one page, the pages cover every item, and the last page
      is not empty unless there is only one page. */
  function TotalPages(totalItems: nat, pageSize: int): (n: int)
    requires pageSize >= 1
    ensures n >= 1
    ensures totalItems <= n * pageSize
    ensures n == 1 || (n - 1) * pageSize < totalItems
  {
    Max(1, CeilDiv(totalItems, pageSize))
  }

  lemma MulMonotone(a: int, b: int, c: int)
    requires a <= b && c >= 0
    ensures a * c <= b * c
  {
    assert b * c - a * c == (b - a) * c;
  }

  /** The page count is the least number of pages, at least one, that holds
      every item. */
  lemma {:induction false} TotalPagesIsLeast(totalItems: nat, pageSize: int, k: int)
    requires pageSize >= 1 && k >= 1
    requires totalItems <= k * pageSize
    ensures TotalPages(totalItems, pageSize) <= k
  {
    var n := TotalPages(totalItems, pageSize);
    if n > k {
      MulMonotone(k, n - 1, pageSize);
      assert false;
    }
  }

  /** `Math.max(1, Math.min(page, last))`: the nearest page of 1..last. */
  function ClampPage(page: int, last: int): (r: int)
    requires last >= 1
    ensures 1 <= r <= last
    ensures 1 <= page <= last ==> r == page
    ensures page < 1 ==> r == 1
    ensures page > last ==> r == last
  {
    Max(1, Min(page, last))
  }

  /** `Math.max(1, size)`: the accepted page size. */
  function SafeSize(size: int): (r: int)
    ensures r >= 1
    ensures size >= 1 ==> r == size
    ensures size < 1 ==> r == 1
  {
    Max(1, size)
  }
}
