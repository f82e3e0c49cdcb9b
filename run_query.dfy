/** `RunQuery` (`internal/services/dbrunner/run_query.go`): normalize the
    request, answer from the cache when both tiers hold it, otherwise run the
    query, classify a failure, and write the result back.

    On a cache hit the code answers with the OUTPUT hash, while every other
    path, and every reader of a handle, works with INPUT hashes. `Serve` takes
    the handle a hit answers with as a parameter: `AsWritten` is the code,
    `Intended` answers with the input hash that was probed. */
module RunQueryHandler {
  import opened Common
  import opened GoErrors
  import opened Structure
  import opened RedisStore
  import opened Cacher
  import opened Rpc
  import opened Query
  import Retrieval

  /** `RunQueryRequest`: the schema script and the query. */
  datatype Request = Request(schema: string, query: string)

  /** `RunQueryResponse`: a handle, or an error reported to the client in band. */
  datatype Response = Id(id: string) | InBand(error: string)

  /** Which hash a cache hit answers with. */
  datatype HitId = AsWritten | Intended

  const TimeoutText: string := "query timeout (takes more than 1 second)"

  /** A runner failure as the client sees it: a deadline and a SQLite error
      are answered in band, anything else is an internal error. */
  function RunFailure(e: GoError): Result<Response, RpcError>
  {
    if Is(e, DeadlineExceeded) then Ok(InBand(TimeoutText))
    else if AsSqlite(e) then Ok(InBand(Message(e)))
    else Err(CodeError(CodeInternal, e))
  }

  /** The cache probe: the output hash stored for the input hash, when the
      output it names is also stored. */
  function Probe(s: Store, inputHash: string): Option<string>
  {
    var looked := LookupOutputHash(s, inputHash);
    if looked.Ok? && OutputPresent(AfterGetEx(s, InputKey(inputHash), Hour), looked.value)
    then Some(looked.value) else None
  }

  /** The server after the probe's reads. */
  function AfterProbe(s: Store, inputHash: string): Store
  {
    var s1 := AfterGetEx(s, InputKey(inputHash), Hour);
    var looked := LookupOutputHash(s, inputHash);
    if looked.Ok? then AfterGetEx(s1, OutputKey(looked.value), Hour) else s1
  }

  /** The miss path: run, classify, write back. */
  function Miss(p: Primitives, s: Store, engine: Engine, ctx: Context, now: int, n: Input): Answer<Response>
  {
    match Run(engine, ctx, now, n)
    case Err(e) => Answer(RunFailure(e), s)
    case Ok(o) =>
      var w := WriteToCacheStep(p, s, n, o);
      match w.result
      case Err(e) => Answer(Err(CodeError(CodeInternal, e)), w.after)
      case Ok(id) => Answer(Ok(Id(id)), w.after)
  }

  /** The answer of `RunQuery` and the server after it. */
  function Serve(p: Primitives, s: Store, engine: Engine, ctx: Context, now: int, req: Request, hit: HitId): Answer<Response>
  {
    match Normalize(p, Input(req.schema, req.query))
    case Err(e) => Answer(Err(CodeError(CodeInvalidArgument, e)), s)
    case Ok(n) =>
      var ih := InputHash(p, n);
      var s1 := AfterProbe(s, ih);
      match Probe(s, ih)
      case Some(oh) => Answer(Ok(Id(if hit == AsWritten then oh else ih)), s1)
      case None => Miss(p, s1, engine, ctx, now, n)
  }

  // ---------------------------------------------------------------------------
  // The code
  // ---------------------------------------------------------------------------

  /** The `if outputHash, err := GetOutputHash(...); err == nil && HasOutput(...)` test. */
  method ProbeCache(cache: CacheModule, inputHash: string) returns (hit: Option<string>)
    modifies cache.redis
    ensures hit == Probe(old(cache.redis.State()), inputHash)
    ensures cache.redis.State() == AfterProbe(old(cache.redis.State()), inputHash)
    ensures old(cache.Valid()) ==> cache.Valid()
  {
    var outputHash := cache.GetOutputHash(inputHash);
    if outputHash.Err? {
      return None;
    }
    var present := cache.HasOutput(outputHash.value);
    if present {
      return Some(outputHash.value);
    }
    return None;
  }

  /** The part after a miss: `dbrunner.RunQuery`, error classification, `WriteToCache`. */
  method RunAndCache(cache: CacheModule, engine: Engine, ctx: Context, now: int, n: Input)
    returns (r: Result<Response, RpcError>)
    modifies cache.redis
    ensures Answer(r, cache.redis.State()) == Miss(cache.prims, old(cache.redis.State()), engine, ctx, now, n)
    ensures old(cache.Valid()) && (Run(engine, ctx, now, n).Ok? ==> JsonRoundTrip(cache.prims, Run(engine, ctx, now, n).value))
      ==> cache.Valid()
  {
    var output := Query.RunQuery(engine, ctx, now, n);
    if output.Err? {
      if Is(output.error, DeadlineExceeded) {
        return Ok(InBand(TimeoutText));
      }
      if AsSqlite(output.error) {
        return Ok(InBand(Message(output.error)));
      }
      return Err(CodeError(CodeInternal, output.error));
    }
    var id := cache.WriteToCache(n, output.value);
    if id.Err? {
      return Err(CodeError(CodeInternal, id.error));
    }
    return Ok(Id(id.value));
  }

  /** `RunQuery`, as written. */
  method RunQuery(cache: CacheModule, engine: Engine, ctx: Context, now: int, req: Request)
    returns (r: Result<Response, RpcError>)
    modifies cache.redis
    ensures Answer(r, cache.redis.State()) == Serve(cache.prims, old(cache.redis.State()), engine, ctx, now, req, AsWritten)
    ensures old(cache.Valid()) && RunRoundTrips(cache.prims, engine, ctx, now, req) ==> cache.Valid()
  {
    var input := Input(req.schema, req.query);
    var normalized := Normalize(cache.prims, input);
    if normalized.Err? {
      return Err(CodeError(CodeInvalidArgument, normalized.error));
    }
    var inputHash := HashInput(cache.prims, normalized.value);
    var hit := ProbeCache(cache, inputHash);
    if hit.Some? {
      return Ok(Id(hit.value));
    }
    r := RunAndCache(cache, engine, ctx, now, normalized.value);
  }

  /** `RunQuery` answering a hit with the input hash it probed. */
  method RunQueryIntended(cache: CacheModule, engine: Engine, ctx: Context, now: int, req: Request)
    returns (r: Result<Response, RpcError>)
    modifies cache.redis
    ensures Answer(r, cache.redis.State()) == Serve(cache.prims, old(cache.redis.State()), engine, ctx, now, req, Intended)
    ensures old(cache.Valid()) && RunRoundTrips(cache.prims, engine, ctx, now, req) ==> cache.Valid()
  {
    var input := Input(req.schema, req.query);
    var normalized := Normalize(cache.prims, input);
    if normalized.Err? {
      return Err(CodeError(CodeInvalidArgument, normalized.error));
    }
    var inputHash := HashInput(cache.prims, normalized.value);
    var hit := ProbeCache(cache, inputHash);
    if hit.Some? {
      return Ok(Id(inputHash));
    }
    r := RunAndCache(cache, engine, ctx, now, normalized.value);
  }

  /** JSON gives back the output the runner produces for this request
      (assumed; needed to keep the output tier content-addressed). */
  predicate RunRoundTrips(p: Primitives, engine: Engine, ctx: Context, now: int, req: Request)
  {
    var n := Normalize(p, Input(req.schema, req.query));
    n.Ok? && Run(engine, ctx, now, n.value).Ok? ==> JsonRoundTrip(p, Run(engine, ctx, now, n.value).value)
  }

  // ---------------------------------------------------------------------------
  // Properties
  // ---------------------------------------------------------------------------

  /** A query `FormatSQL` rejects is an invalid argument, before any cache read
      or execution. */
  lemma InvalidQueryRejected(p: Primitives, s: Store, engine: Engine, ctx: Context, now: int, req: Request, hit: HitId)
    requires p.formatSQL(req.query).Err?
    ensures Serve(p, s, engine, ctx, now, req, hit) ==
      Answer(Err(CodeError(CodeInvalidArgument, p.formatSQL(req.query).error)), s)
  {
  }

  /** A hit needs both tiers: the probe succeeds exactly when the input key of
      the normalized request is stored and so is the output key it names. */
  lemma ProbeNeedsBothTiers(s: Store, ih: string)
    ensures Probe(s, ih).Some? <==>
      s.down.None? && InputKey(ih) in s.data && OutputKey(s.data[InputKey(ih)]) in s.data
    ensures Probe(s, ih).Some? ==> Probe(s, ih).value == s.data[InputKey(ih)]
    ensures AfterProbe(s, ih).data == s.data
  {
  }

  /** On a hit the runner is not called: any two engines give the same answer,
      and nothing is written. */
  lemma HitIgnoresEngine(p: Primitives, s: Store, e1: Engine, e2: Engine, ctx: Context, now: int, req: Request, hit: HitId)
    requires Normalize(p, Input(req.schema, req.query)).Ok?
    requires Probe(s, InputHash(p, Normalize(p, Input(req.schema, req.query)).value)).Some?
    ensures Serve(p, s, e1, ctx, now, req, hit) == Serve(p, s, e2, ctx, now, req, hit)
    ensures Serve(p, s, e1, ctx, now, req, hit).after.data == s.data
  {
  }

  /** A runner failure on a miss: a deadline anywhere in the chain becomes the
      in-band timeout text, a SQLite error its own text, anything else
      `CodeInternal`; nothing is written. */
  lemma RunFailureAnswers(p: Primitives, s: Store, engine: Engine, ctx: Context, now: int, n: Input)
    requires Run(engine, ctx, now, n).Err?
    ensures var e := Run(engine, ctx, now, n).error; var a := Miss(p, s, engine, ctx, now, n);
      && a.after == s
      && (Is(e, DeadlineExceeded) ==> a.reply == Ok(InBand("query timeout (takes more than 1 second)")))
      && (!Is(e, DeadlineExceeded) && AsSqlite(e) ==> a.reply == Ok(InBand(Message(e))))
      && (!Is(e, DeadlineExceeded) && !AsSqlite(e) ==> a.reply == Err(CodeError(CodeInternal, e)))
  {
  }

  /** A successful run on a miss is written back; the handle is the hash of
      the input normalized once more, and a failed write is internal. */
  lemma MissWritesBack(p: Primitives, s: Store, engine: Engine, ctx: Context, now: int, n: Input)
    requires Run(engine, ctx, now, n).Ok?
    ensures var o := Run(engine, ctx, now, n).value; var a := Miss(p, s, engine, ctx, now, n);
      var w := WriteToCacheStep(p, s, n, o);
      && a.after == w.after
      && (w.result.Ok? ==> a.reply == Ok(Id(w.result.value)) && w.result.value == InputHash(p, Normalize(p, n).value))
      && (w.result.Err? ==> a.reply == Err(CodeError(CodeInternal, w.result.error)))
  {
    var o := Run(engine, ctx, now, n).value;
    ReuseOrWrite(p, s, o);
    var out := ReuseOrWriteStep(p, s, o);
    if out.result.Ok? {
      WriteInput(p, out.after, n, out.result.value);
    }
  }

  // ---------------------------------------------------------------------------
  // The hit-path handle
  // ---------------------------------------------------------------------------

  /** As written, a hit answers with the output hash, and `RetrieveQuery` of
      that handle looks it up in the input tier: unless some input happens to
      have that hash, the client is told the id expired although the result
      is cached. */
  lemma HitHandleDoesNotResolve(p: Primitives, s: Store, engine: Engine, ctx: Context, now: int, req: Request)
    requires ContentAddressed(p, s.data)
    requires Normalize(p, Input(req.schema, req.query)).Ok?
    requires var ih := InputHash(p, Normalize(p, Input(req.schema, req.query)).value);
      Probe(s, ih).Some? && InputKey(Probe(s, ih).value) !in s.data
    ensures var ih := InputHash(p, Normalize(p, Input(req.schema, req.query)).value);
      var a := Serve(p, s, engine, ctx, now, req, AsWritten);
      && a.reply == Ok(Id(Probe(s, ih).value))
      && Retrieval.Resolve(p, a.after, Probe(s, ih).value).reply ==
           Err(CodeError(CodeNotFound, Plain(Retrieval.IdExpired)))
  {
    var ih := InputHash(p, Normalize(p, Input(req.schema, req.query)).value);
    var oh := Probe(s, ih).value;
    var a := Serve(p, s, engine, ctx, now, req, AsWritten);
    assert a.after.data == s.data && a.after.down == s.down;
    assert oh != "" by {
      var k := OutputKey(oh);
      assert k[|OutputHashPrefix|..] == oh;
      var o := p.unmarshal(s.data[k]).value;
      HashShape(p.sha256(p.gob(o.result).value));
    }
  }

  /** A concrete store on which it happens: the request's input key names an
      output hash `oh`, that output is stored, and no input has hash `oh`. */
  lemma HitHandleExample(p: Primitives, engine: Engine, ctx: Context, now: int, req: Request, oh: string)
    requires Normalize(p, Input(req.schema, req.query)).Ok?
    requires oh != "" && oh != InputHash(p, Normalize(p, Input(req.schema, req.query)).value)
    ensures var ih := InputHash(p, Normalize(p, Input(req.schema, req.query)).value);
      var s := Store(map[InputKey(ih) := oh, OutputKey(oh) := "{}"], map[InputKey(ih) := Hour, OutputKey(oh) := Hour], None);
      var a := Serve(p, s, engine, ctx, now, req, AsWritten);
      && a.reply == Ok(Id(oh))
      && Retrieval.Resolve(p, a.after, oh).reply.Err?
  {
    var ih := InputHash(p, Normalize(p, Input(req.schema, req.query)).value);
    var s := Store(map[InputKey(ih) := oh, OutputKey(oh) := "{}"], map[InputKey(ih) := Hour, OutputKey(oh) := Hour], None);
    KeysApart(ih, oh);
    KeysApart(oh, oh);
    KeysInjective(ih, oh);
    assert InputKey(oh) !in s.data;
    var a := Serve(p, s, engine, ctx, now, req, AsWritten);
    assert Probe(s, ih) == Some(oh);
    assert a.after.data == s.data && a.after.down == None;
  }

  /** Intended: whatever path answers, the handle is an input key that
      resolves right afterwards, so `RetrieveQuery` serves the result. */
  lemma IntendedHandleResolves(p: Primitives, s: Store, engine: Engine, ctx: Context, now: int, req: Request)
    requires ContentAddressed(p, s.data) && RunRoundTrips(p, engine, ctx, now, req)
    requires Serve(p, s, engine, ctx, now, req, Intended).reply.Ok?
    requires Serve(p, s, engine, ctx, now, req, Intended).reply.value.Id?
    ensures var a := Serve(p, s, engine, ctx, now, req, Intended);
      Retrieval.Resolve(p, a.after, a.reply.value.id).reply.Ok?
  {
    var n := Normalize(p, Input(req.schema, req.query)).value;
    var ih := InputHash(p, n);
    var a := Serve(p, s, engine, ctx, now, req, Intended);
    HashShape(InputDigest(p, n));
    match Probe(s, ih)
    case Some(oh) =>
      var s1 := AfterProbe(s, ih);
      assert a.after == s1 && a.reply.value.id == ih;
      var k := OutputKey(oh);
      assert k[|OutputHashPrefix|..] == oh;
      assert Addresses(p, oh, s.data[k]);
      var r1 := AfterGetEx(s1, InputKey(ih), Hour);
      assert LookupOutput(p, r1, oh) == p.unmarshal(s.data[k]);
    case None =>
      var s1 := AfterProbe(s, ih);
      var o := Run(engine, ctx, now, n).value;
      ReuseOrWrite(p, s, o);
      assert ContentAddressed(p, s1.data);
      WriteThenRead(p, s1, n, o);
      var st := WriteToCacheStep(p, s1, n, o);
      var h := st.result.value;
      Retrieval.RetrieveAfterWrite(p, s1, n, o);
  }

  /** Intended, and with `FormatSQL` idempotent on the normalized query: both
      paths answer with the hash of the normalized request, so the same
      request always gets the same handle. */
  lemma IntendedHandleIsProbedHash(p: Primitives, s: Store, engine: Engine, ctx: Context, now: int, req: Request)
    requires FormatIdempotentOn(p, req.query)
    requires Serve(p, s, engine, ctx, now, req, Intended).reply.Ok?
    requires Serve(p, s, engine, ctx, now, req, Intended).reply.value.Id?
    ensures Serve(p, s, engine, ctx, now, req, Intended).reply.value.id ==
      InputHash(p, Normalize(p, Input(req.schema, req.query)).value)
  {
    var i := Input(req.schema, req.query);
    var n := Normalize(p, i).value;
    var ih := InputHash(p, n);
    if Probe(s, ih).None? {
      var s1 := AfterProbe(s, ih);
      var o := Run(engine, ctx, now, n).value;
      MissWritesBack(p, s1, engine, ctx, now, n);
      NormalizeTwice(p, i);
    }
  }
}
