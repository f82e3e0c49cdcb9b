/** `RetrieveQuery` (`internal/services/dbrunner/retrieve.go`): resolve a
    handle through both cache tiers and stream the stored rows, one message
    per row. */
module Retrieval {
  import opened Common
  import opened GoErrors
  import opened Structure
  import opened RedisStore
  import opened Cacher
  import opened Rpc

  const IdRequired: string := "id is required"
  const IdExpired: string := "id expired \U{2013} re-query again!"
  const OutputExpired: string := "output expired \U{2013} re-query again!"

  /** A cache failure as the client sees it: `ErrNotFound` becomes `NotFound`
      with the given text, anything else `Internal`. */
  function Expired(e: GoError, text: string): RpcError
  {
    if Is(e, NotFound) then CodeError(CodeNotFound, Plain(text)) else CodeError(CodeInternal, e)
  }

  /** The handle resolution: the output stored for `id`, and the server after
      both reads. */
  function Resolve(p: Primitives, s: Store, id: string): Answer<Output>
  {
    if id == "" then Answer(Err(CodeError(CodeInvalidArgument, Plain(IdRequired))), s)
    else
      var s1 := AfterGetEx(s, InputKey(id), Hour);
      match LookupOutputHash(s, id)
      case Err(e) => Answer(Err(Expired(e, IdExpired)), s1)
      case Ok(oh) =>
        var s2 := AfterGetEx(s1, OutputKey(oh), Hour);
        match LookupOutput(p, s1, oh)
        case Err(e) => Answer(Err(Expired(e, OutputExpired)), s2)
        case Ok(o) => Answer(Ok(o), s2)
  }

  /** The message of one row: each cell as a `(Column, Value)` pair, in
      order, nil values kept. */
  function PairsOf(row: seq<Cell>): (pairs: seq<Pair>)
    ensures |pairs| == |row|
    ensures forall i :: 0 <= i < |row| ==> pairs[i] == Pair(row[i].column, row[i].value)
  {
    seq(|row|, i requires 0 <= i < |row| => Pair(row[i].column, row[i].value))
  }

  /** One message per row, in order. */
  function Messages(rows: seq<seq<Cell>>): (ms: seq<seq<Pair>>)
    ensures |ms| == |rows|
    ensures forall j :: 0 <= j < |rows| ==> ms[j] == PairsOf(rows[j])
  {
    seq(|rows|, j requires 0 <= j < |rows| => PairsOf(rows[j]))
  }

  /** The inner loop building `rpcRow`. */
  method RowPairs(row: seq<Cell>) returns (pairs: seq<Pair>)
    ensures pairs == PairsOf(row)
  {
    pairs := [];
    for i := 0 to |row|
      invariant |pairs| == i
      invariant forall k :: 0 <= k < i ==> pairs[k] == Pair(row[k].column, row[k].value)
    {
      pairs := pairs + [Pair(row[i].column, row[i].value)];
    }
  }

  /** The outer loop: one `Send` per row, stopping at the first failure. The
      stream receives exactly the messages of the rows before the failing
      send, and the failure is returned. */
  method SendRows(stream: Stream<seq<Pair>>, rows: seq<seq<Cell>>) returns (err: Option<GoError>)
    modifies stream
    ensures var n := Delivered(stream.failFrom, old(stream.attempts), |rows|);
      && stream.sent == old(stream.sent) + Messages(rows)[..n]
      && (err.Some? <==> n < |rows|)
      && (err.Some? ==> err.value == stream.failure)
  {
    ghost var start := stream.attempts;
    ghost var before := stream.sent;
    for j := 0 to |rows|
      invariant stream.attempts == start + j
      invariant stream.sent == before + Messages(rows)[..j]
      invariant j <= Delivered(stream.failFrom, start, |rows|)
    {
      var pairs := RowPairs(rows[j]);
      var e := stream.Send(pairs);
      if e.Some? {
        assert Delivered(stream.failFrom, start, |rows|) == j;
        return e;
      }
      assert Messages(rows)[..j + 1] == Messages(rows)[..j] + [pairs];
    }
    assert Messages(rows)[..|rows|] == Messages(rows);
    return None;
  }

  /** `RetrieveQuery`. */
  method RetrieveQuery(cache: CacheModule, id: string, stream: Stream<seq<Pair>>) returns (err: Option<RpcError>)
    modifies cache.redis, stream
    ensures var a := Resolve(cache.prims, old(cache.redis.State()), id);
      && cache.redis.State() == a.after
      && (a.reply.Err? ==> err == Some(a.reply.error) && stream.sent == old(stream.sent))
      && (a.reply.Ok? ==>
            var rows := a.reply.value.result;
            var n := Delivered(stream.failFrom, old(stream.attempts), |rows|);
            && stream.sent == old(stream.sent) + Messages(rows)[..n]
            && (n == |rows| ==> err.None?)
            && (n < |rows| ==> err == Some(Bare(stream.failure))))
    ensures old(cache.Valid()) ==> cache.Valid()
  {
    if id == "" {
      return Some(CodeError(CodeInvalidArgument, Plain(IdRequired)));
    }
    var outputHash := cache.GetOutputHash(id);
    if outputHash.Err? && Is(outputHash.error, NotFound) {
      return Some(CodeError(CodeNotFound, Plain(IdExpired)));
    }
    if outputHash.Err? {
      return Some(CodeError(CodeInternal, outputHash.error));
    }
    var output := cache.GetOutput(outputHash.value);
    if output.Err? && Is(output.error, NotFound) {
      return Some(CodeError(CodeNotFound, Plain(OutputExpired)));
    }
    if output.Err? {
      return Some(CodeError(CodeInternal, output.error));
    }
    var sendErr := SendRows(stream, output.value.result);
    if sendErr.Some? {
      return Some(Bare(sendErr.value));
    }
    return None;
  }

  // ---------------------------------------------------------------------------
  // Properties
  // ---------------------------------------------------------------------------

  /** An empty id is rejected before the server is touched. */
  lemma EmptyIdRejected(p: Primitives, s: Store)
    ensures Resolve(p, s, "") == Answer(Err(CodeError(CodeInvalidArgument, Plain("id is required"))), s)
  {
  }

  /** The handle is not in the input tier: "id expired", and the output tier is
      not read. */
  lemma IdExpiredWhenInputMissing(p: Primitives, s: Store, id: string)
    requires id != "" && s.down.None? && InputKey(id) !in s.data
    ensures Resolve(p, s, id) == Answer(Err(CodeError(CodeNotFound, Plain(IdExpired))), s)
  {
  }

  /** The handle resolves but its output has gone: "output expired". */
  lemma OutputExpiredWhenOutputMissing(p: Primitives, s: Store, id: string)
    requires id != "" && s.down.None? && InputKey(id) in s.data
    requires OutputKey(s.data[InputKey(id)]) !in s.data
    ensures Resolve(p, s, id).reply == Err(CodeError(CodeNotFound, Plain(OutputExpired)))
    ensures Resolve(p, s, id).after.data == s.data
  {
  }

  /** A stored output whose JSON does not decode is an internal error, with
      the decoder's error, and never reported as expired. */
  lemma UndecodableOutputIsInternal(p: Primitives, s: Store, id: string)
    requires id != "" && s.down.None? && InputKey(id) in s.data
    requires OutputKey(s.data[InputKey(id)]) in s.data
    requires UnmarshalErrorsArePlain(p)
    requires p.unmarshal(s.data[OutputKey(s.data[InputKey(id)])]).Err?
    ensures Resolve(p, s, id).reply ==
      Err(CodeError(CodeInternal, p.unmarshal(s.data[OutputKey(s.data[InputKey(id)])]).error))
  {
    var oh := s.data[InputKey(id)];
    var s1 := AfterGetEx(s, InputKey(id), Hour);
    assert s1.data == s.data && s1.down == s.down;
    assert OutputPresent(s1, oh);
  }

  /** An unreachable server is an internal error, never a `NotFound`. */
  lemma OutageIsInternal(p: Primitives, s: Store, id: string)
    requires id != "" && s.down.Some?
    ensures Resolve(p, s, id).reply == Err(CodeError(CodeInternal, Outage(s.down.value)))
  {
  }

  /** Resolution never changes a stored value; it only refreshes expiries. */
  lemma ResolveOnlyRefreshes(p: Primitives, s: Store, id: string)
    ensures Resolve(p, s, id).after.data == s.data && Resolve(p, s, id).after.down == s.down
    ensures Resolve(p, s, id).after.ttl.Keys <= s.ttl.Keys + s.data.Keys
  {
  }

  /** What `WriteToCache` stored is what `RetrieveQuery` serves: resolving the
      returned handle right after the write gives back an output with the same
      hash, the output itself when this write stored it or no other output
      has its hash. */
  lemma RetrieveAfterWrite(p: Primitives, s: Store, i: Input, o: Output)
    requires ContentAddressed(p, s.data) && JsonRoundTrip(p, o)
    requires WriteToCacheStep(p, s, i, o).result.Ok?
    ensures var st := WriteToCacheStep(p, s, i, o);
      var r := Resolve(p, st.after, st.result.value).reply;
      && r.Ok?
      && OutputHash(p, r.value) == OutputHash(p, o)
      && (!OutputPresent(s, OutputHash(p, o).value) || HashDetermines(p, o) ==> r == Ok(o))
  {
    WriteThenRead(p, s, i, o);
    var st := WriteToCacheStep(p, s, i, o);
    var h := st.result.value;
    var oh := OutputHash(p, o).value;
    assert h != "" by {
      WriteInput(p, ReuseOrWriteStep(p, s, o).after, i, oh);
      Structure.HashShape(InputDigest(p, Normalize(p, i).value));
    }
    var s1 := AfterGetEx(st.after, InputKey(h), Hour);
    assert LookupOutput(p, s1, oh) == LookupOutput(p, st.after, oh);
  }
}
