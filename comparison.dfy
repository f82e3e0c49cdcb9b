/** `AreQueriesOutputSame` (`internal/services/dbrunner/comparsion.go`):
    two handles name the same output exactly when the input tier maps them
    to the same output hash. */
module Comparison {
  import opened Common
  import opened GoErrors
  import opened RedisStore
  import opened Cacher
  import opened Rpc

  const LeftIdRequired: string := "left_id is required"
  const RightIdRequired: string := "right_id is required"
  const LeftIdExpired: string := "left_id expired \U{2013} re-query again!"
  const RightIdExpired: string := "right_id expired \U{2013} re-query again!"

  /** A failed lookup as the client sees it. */
  function LookupFailure(e: GoError, expired: string): RpcError
  {
    if Is(e, NotFound) then CodeError(CodeNotFound, Plain(expired)) else CodeError(CodeInternal, e)
  }

  /** The answer of `AreQueriesOutputSame(left, right)` and the server after it. */
  function Compare(s: Store, left: string, right: string): Answer<bool>
  {
    if left == "" then Answer(Err(CodeError(CodeInvalidArgument, Plain(LeftIdRequired))), s)
    else if right == "" then Answer(Err(CodeError(CodeInvalidArgument, Plain(RightIdRequired))), s)
    else
      var s1 := AfterGetEx(s, InputKey(left), Hour);
      match LookupOutputHash(s, left)
      case Err(e) => Answer(Err(LookupFailure(e, LeftIdExpired)), s1)
      case Ok(l) =>
        var s2 := AfterGetEx(s1, InputKey(right), Hour);
        match LookupOutputHash(s1, right)
        case Err(e) => Answer(Err(LookupFailure(e, RightIdExpired)), s2)
        case Ok(r) => Answer(Ok(l == r), s2)
  }

  /** `AreQueriesOutputSame`. */
  method AreQueriesOutputSame(cache: CacheModule, left: string, right: string) returns (r: Result<bool, RpcError>)
    modifies cache.redis
    ensures Answer(r, cache.redis.State()) == Compare(old(cache.redis.State()), left, right)
    ensures old(cache.Valid()) ==> cache.Valid()
  {
    if left == "" {
      return Err(CodeError(CodeInvalidArgument, Plain(LeftIdRequired)));
    }
    if right == "" {
      return Err(CodeError(CodeInvalidArgument, Plain(RightIdRequired)));
    }
    var leftOutputHash := cache.GetOutputHash(left);
    if leftOutputHash.Err? && Is(leftOutputHash.error, NotFound) {
      return Err(CodeError(CodeNotFound, Plain(LeftIdExpired)));
    }
    if leftOutputHash.Err? {
      return Err(CodeError(CodeInternal, leftOutputHash.error));
    }
    var rightOutputHash := cache.GetOutputHash(right);
    if rightOutputHash.Err? && Is(rightOutputHash.error, NotFound) {
      return Err(CodeError(CodeNotFound, Plain(RightIdExpired)));
    }
    if rightOutputHash.Err? {
      return Err(CodeError(CodeInternal, rightOutputHash.error));
    }
    return Ok(leftOutputHash.value == rightOutputHash.value);
  }

  // ---------------------------------------------------------------------------
  // Properties
  // ---------------------------------------------------------------------------

  /** The handle names an entry of the input tier. */
  predicate Resolvable(s: Store, id: string)
  {
    id != "" && s.down.None? && InputKey(id) in s.data
  }

  /** With both handles resolvable the verdict is the equality of the output
      hashes they are mapped to; otherwise the call fails. */
  lemma Verdict(s: Store, left: string, right: string)
    ensures Compare(s, left, right).reply.Ok? <==> Resolvable(s, left) && Resolvable(s, right)
    ensures Compare(s, left, right).reply.Ok? ==>
      Compare(s, left, right).reply.value == (s.data[InputKey(left)] == s.data[InputKey(right)])
  {
  }

  /** Reflexive: a resolvable handle compared with itself is the same. */
  lemma Reflexive(s: Store, id: string)
    requires Resolvable(s, id)
    ensures Compare(s, id, id).reply == Ok(true)
  {
  }

  /** Symmetric: swapping the handles does not change the verdict. */
  lemma Symmetric(s: Store, left: string, right: string)
    requires Resolvable(s, left) && Resolvable(s, right)
    ensures Compare(s, left, right).reply == Compare(s, right, left).reply
  {
  }

  /** The left id is checked first: both empty reports the left one, and when
      both have expired the left one is named. */
  lemma LeftFirst(s: Store, left: string, right: string)
    ensures left == "" ==> Compare(s, left, right).reply == Err(CodeError(CodeInvalidArgument, Plain(LeftIdRequired)))
    ensures left != "" && right != "" && s.down.None? && InputKey(left) !in s.data ==>
      Compare(s, left, right).reply == Err(CodeError(CodeNotFound, Plain(LeftIdExpired)))
  {
  }

  /** Only the input tier is read: the verdict does not depend on whether the
      outputs are still stored, so it can be `true` after the shared output
      entry has expired. */
  lemma InputTierOnly(s: Store, t: Store, left: string, right: string)
    requires s.down == t.down
    requires InputKey(left) in s.data <==> InputKey(left) in t.data
    requires InputKey(right) in s.data <==> InputKey(right) in t.data
    requires InputKey(left) in s.data ==> s.data[InputKey(left)] == t.data[InputKey(left)]
    requires InputKey(right) in s.data ==> s.data[InputKey(right)] == t.data[InputKey(right)]
    ensures Compare(s, left, right).reply == Compare(t, left, right).reply
  {
  }

  /** The instance: both handles map to one output hash whose entry is gone,
      and the verdict is still `true`. */
  lemma SameAfterOutputExpired(left: string, right: string, oh: string)
    requires left != "" && right != ""
    ensures var s := Store(map[InputKey(left) := oh, InputKey(right) := oh],
                           map[InputKey(left) := Hour, InputKey(right) := Hour], None);
      && !OutputPresent(s, oh)
      && Compare(s, left, right).reply == Ok(true)
  {
    var s := Store(map[InputKey(left) := oh, InputKey(right) := oh],
                   map[InputKey(left) := Hour, InputKey(right) := Hour], None);
    KeysApart(left, oh);
    KeysApart(right, oh);
  }
}
