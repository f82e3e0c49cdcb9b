/** Pagination of the question and schema listings
    (`internal/database/cursor.go`): the offset is used as given, the limit
    defaults to 10 and is capped at 100. */
module Pagination {

  const DefaultLimit: int := 10
  const MaxLimit: int := 100

  /** `database.Cursor`; Go's `int` is 64 bits wide, far beyond any bound used here. */
  datatype Cursor = Cursor(offset: int, limit: int)

  /** `lo.CoalesceOrEmpty(v, d)` for two integers: the first that is not zero. */
  function CoalesceOrEmpty(v: int, d: int): (r: int)
    ensures v != 0 ==> r == v
    ensures v == 0 ==> r == d
  {
    if v != 0 then v else d
  }

  /** `Cursor.GetOffset`: the offset, unchanged. */
  function GetOffset(c: Cursor): (o: int)
    ensures o == c.offset
  {
    c.offset
  }

  /** `Cursor.GetLimit`: `min(CoalesceOrEmpty(Limit, 10), 100)`. Zero means the
      default, anything above 100 is cut to 100, and a negative limit is not
      rejected but passes through. */
  function GetLimit(c: Cursor): (l: int)
    ensures l <= MaxLimit
    ensures c.limit == 0 ==> l == DefaultLimit
    ensures 0 < c.limit <= MaxLimit ==> l == c.limit
    ensures c.limit > MaxLimit ==> l == MaxLimit
    ensures c.limit < 0 ==> l == c.limit
  {
    var v := CoalesceOrEmpty(c.limit, DefaultLimit);
    if v < MaxLimit then v else MaxLimit
  }

  /** Clamping is idempotent: a limit already returned by `GetLimit` is kept. */
  lemma LimitIdempotent(c: Cursor)
    ensures GetLimit(Cursor(c.offset, GetLimit(c))) == GetLimit(c)
  {
  }

  /** The three cases the package's own cursor test checks. */
  lemma CursorExamples()
    ensures GetLimit(Cursor(0, 0)) == 10 && GetOffset(Cursor(0, 0)) == 0
    ensures GetLimit(Cursor(99, 99)) == 99 && GetOffset(Cursor(99, 99)) == 99
    ensures GetLimit(Cursor(0, 114514)) == 100
  {
  }
}
