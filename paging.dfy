/**
  The pagination arithmetic shared by the question and notification listings:
  `page` and `limit` default to 1 and 10, `skip = (page - 1) * limit`, the
  query returns at most `limit` documents after skipping `skip` (a limit of 0
  means no limit, and a negative one is taken by its absolute value), and
  `pages = Math.ceil(total / limit)`.
 */
module Paging {
  import opened Wrappers

  const DEFAULT_PAGE: int := 1
  const DEFAULT_LIMIT: int := 10

  /** A query-string parameter after coercion to an integer, or its default when absent. */
  function OrDefault(v: Option<int>, default: int): int {
    if v.Some? then v.value else default
  }

  /** `(page - 1) * limit`. */
  function Skip(page: int, limit: int): int {
    (page - 1) * limit
  }

  /** `.skip(skip).limit(limit)` on the sorted result; `skip` must not be negative. */
  function Window<T>(s: seq<T>, skip: nat, limit: int): (r: seq<T>)
    ensures skip <= |s| ==> r <= s[skip..]
    ensures skip > |s| ==> r == []
    ensures limit != 0 ==> |r| <= if limit > 0 then limit else -limit
    ensures limit == 0 && skip <= |s| ==> r == s[skip..]
  {
    if skip > |s| then []
    else
      var rest := s[skip..];
      var n := if limit > 0 then limit else -limit;
      if limit == 0 || n >= |rest| then rest else rest[..n]
  }

  /** `Math.ceil(total / limit)`, or `None` for a zero limit (JavaScript's `Infinity` or `NaN`). */
  function Pages(total: nat, limit: int): Option<int> {
    if limit > 0 then Some((total + limit - 1) / limit)
    else if limit < 0 then Some(-(total / -limit))
    else None
  }

  /** For a positive limit the page count is the least number of full pages covering
      `total` items, and it is zero exactly when there is nothing to list. */
  lemma PagesIsCeiling(total: nat, limit: int)
    requires limit > 0
    ensures Pages(total, limit).Some?
    ensures var p := Pages(total, limit).value;
      p >= 0 && p * limit >= total && (p - 1) * limit < total && (p == 0 <==> total == 0)
  {
    var p := (total + limit - 1) / limit;
    var q := total + limit - 1;
    assert p * limit <= q < p * limit + limit by {
      assert q == p * limit + q % limit;
    }
  }

  /** Every one of the `total` items is on one of pages 1..pages: for each position `i`
      there is a page whose window starts at or before `i` and ends after it. */
  lemma EveryItemOnSomePage(total: nat, limit: int, i: nat)
    requires limit > 0 && i < total
    ensures var page := i / limit + 1;
      1 <= page <= Pages(total, limit).value
      && Skip(page, limit) <= i < Skip(page, limit) + limit
  {
    var page := i / limit + 1;
    assert i == (i / limit) * limit + i % limit;
    assert Skip(page, limit) == (i / limit) * limit;
    PagesIsCeiling(total, limit);
    var p := Pages(total, limit).value;
    if page > p {
      assert (page - 1) * limit >= p * limit by {
        assert page - 1 >= p;
        MulMonotone(p, page - 1, limit);
      }
      assert false;
    }
  }

  lemma MulMonotone(a: int, b: int, k: int)
    requires a <= b && k > 0
    ensures a * k <= b * k
  {
    assert b * k - a * k == (b - a) * k;
  }
}
