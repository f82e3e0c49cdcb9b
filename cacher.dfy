/** The two-tier result cache of the dbrunner service
    (`internal/services/dbrunner/cacher.go`):

      dbrunner:sql-input:<input hash>   holds an output hash
      dbrunner:sql-output:<output hash> holds the output as JSON

    Every access sets the key's expiry to one hour. The functions of the
    first part describe each operation on a snapshot of the server; the
    `CacheModule` methods perform the same Redis commands and are proved to
    leave the server in the state those functions describe. */
module Cacher {
  import opened Common
  import opened GoStrings
  import opened GoErrors
  import opened Structure
  import opened RedisStore

  const InputHashPrefix: string := "dbrunner:sql-input:"
  const OutputHashPrefix: string := "dbrunner:sql-output:"
  /** `time.Hour*1`, in seconds. */
  const Hour: nat := 3600

  function InputKey(h: string): string { InputHashPrefix + h }
  function OutputKey(h: string): string { OutputHashPrefix + h }

  /** The two tiers never share a key: the prefixes already differ at their
      fourteenth character. */
  lemma KeysApart(h1: string, h2: string)
    ensures !HasPrefix(InputKey(h1), OutputHashPrefix)
    ensures InputKey(h1) != OutputKey(h2)
  {
    assert InputKey(h1)[13] == 'i' && OutputHashPrefix[13] == 'o';
    assert OutputKey(h2)[13] == 'o';
  }

  /** Within a tier, distinct hashes have distinct keys. */
  lemma KeysInjective(h1: string, h2: string)
    ensures InputKey(h1) == InputKey(h2) ==> h1 == h2
    ensures OutputKey(h1) == OutputKey(h2) ==> h1 == h2
  {
    if InputKey(h1) == InputKey(h2) {
      assert h1 == InputKey(h1)[|InputHashPrefix|..];
    }
    if OutputKey(h1) == OutputKey(h2) {
      assert h1 == OutputKey(h1)[|OutputHashPrefix|..];
    }
  }

  // ---------------------------------------------------------------------------
  // Assumptions about JSON and the invariant of the output tier
  // ---------------------------------------------------------------------------

  /** `json.Unmarshal` gives back what `json.Marshal` produced (assumed; the
      codec is not part of this model). */
  predicate JsonRoundTrip(p: Primitives, o: Output)
  {
    p.unmarshal(p.marshal(o)) == Ok(o)
  }

  /** The JSON text `json` decodes to an output whose hash is `h`. */
  predicate Addresses(p: Primitives, h: string, json: string)
  {
    p.unmarshal(json).Ok? && OutputHash(p, p.unmarshal(json).value) == Ok(h)
  }

  /** The output tier is content-addressed: whatever is stored under
      `dbrunner:sql-output:<h>` decodes to an output whose hash is `h`. */
  predicate ContentAddressed(p: Primitives, data: map<string, string>)
  {
    forall k :: k in data && HasPrefix(k, OutputHashPrefix) ==>
      Addresses(p, k[|OutputHashPrefix|..], data[k])
  }

  /** `json.Unmarshal` fails only with its own syntax or type errors, which are
      plain error values, never the cache's `ErrNotFound` (assumed, as the
      codec is a parameter). */
  ghost predicate UnmarshalErrorsArePlain(p: Primitives)
  {
    forall json :: p.unmarshal(json).Err? ==> p.unmarshal(json).error.Plain?
  }

  /** No other output has the hash of `o` (assumed where a statement needs to
      recover `o` itself from its hash). */
  ghost predicate HashDetermines(p: Primitives, o: Output)
  {
    forall o2 :: OutputHash(p, o2) == OutputHash(p, o) ==> o2 == o
  }

  // ---------------------------------------------------------------------------
  // The reads
  // ---------------------------------------------------------------------------

  /** `redis.Nil` turns into `ErrNotFound`; every other reply is kept. */
  function NilToNotFound<T>(r: Result<T, GoError>): (q: Result<T, GoError>)
    ensures r == Err(RedisNil) ==> q == Err(NotFound)
    ensures r != Err(RedisNil) ==> q == r
  {
    if r == Err(RedisNil) then Err(NotFound) else r
  }

  /** The result of `GetOutputHash(inputHash)`. */
  function LookupOutputHash(s: Store, inputHash: string): (r: Result<string, GoError>)
    ensures r.Ok? <==> s.down.None? && InputKey(inputHash) in s.data
    ensures r.Ok? ==> r.value == s.data[InputKey(inputHash)]
    ensures r == Err(NotFound) <==> s.down.None? && InputKey(inputHash) !in s.data
    ensures s.down.Some? ==> r == Err(Outage(s.down.value))
  {
    NilToNotFound(Get(s, InputKey(inputHash)))
  }

  /** The result of `HasOutput(outputHash)`: every failed read counts as absent. */
  function OutputPresent(s: Store, outputHash: string): (b: bool)
    ensures b <==> s.down.None? && OutputKey(outputHash) in s.data
  {
    Get(s, OutputKey(outputHash)).Ok?
  }

  /** The result of `GetOutput(outputHash)`. */
  function LookupOutput(p: Primitives, s: Store, outputHash: string): (r: Result<Output, GoError>)
    ensures s.down.Some? ==> r == Err(Outage(s.down.value))
    ensures s.down.None? && OutputKey(outputHash) !in s.data ==> r == Err(NotFound)
    ensures OutputPresent(s, outputHash) ==> r == p.unmarshal(s.data[OutputKey(outputHash)])
  {
    match Get(s, OutputKey(outputHash))
    case Ok(json) => p.unmarshal(json)
    case Err(e) => NilToNotFound(Err(e))
  }

  /** Reading a content-addressed tier yields an output with the hash asked for. */
  lemma ReadIsAddressed(p: Primitives, s: Store, h: string)
    requires ContentAddressed(p, s.data)
    requires LookupOutput(p, s, h).Ok?
    ensures OutputHash(p, LookupOutput(p, s, h).value) == Ok(h)
  {
    var k := OutputKey(h);
    assert HasPrefix(k, OutputHashPrefix) && k[|OutputHashPrefix|..] == h;
  }

  // ---------------------------------------------------------------------------
  // The writes
  // ---------------------------------------------------------------------------

  /** What a write operation returns, and the server after it. */
  datatype Step = Step(result: Result<string, GoError>, after: Store)

  /** `writeOutput`. */
  function WriteOutputStep(p: Primitives, s: Store, o: Output): Step
  {
    match OutputHash(p, o)
    case Err(e) => Step(Err(e), s)
    case Ok(h) =>
      match SetReply(s)
      case Some(e) => Step(Err(e), s)
      case None => Step(Ok(h), AfterSetEx(s, OutputKey(h), p.marshal(o), Hour))
  }

  /** `reuseOrWriteOutput`: the `HasOutput` probe, then a write only when the
      probe fails. */
  function ReuseOrWriteStep(p: Primitives, s: Store, o: Output): Step
  {
    match OutputHash(p, o)
    case Err(e) => Step(Err(e), s)
    case Ok(h) =>
      var probed := AfterGetEx(s, OutputKey(h), Hour);
      if OutputPresent(s, h) then Step(Ok(h), probed) else WriteOutputStep(p, probed, o)
  }

  /** `writeInput`: the input is normalized again before it is hashed. */
  function WriteInputStep(p: Primitives, s: Store, i: Input, outputHash: string): Step
  {
    match Normalize(p, i)
    case Err(e) => Step(Err(e), s)
    case Ok(n) =>
      var h := InputHash(p, n);
      match SetReply(s)
      case Some(e) => Step(Err(e), s)
      case None => Step(Ok(h), AfterSetEx(s, InputKey(h), outputHash, Hour))
  }

  /** `WriteToCache`: the output tier first, the input tier only if that worked. */
  function WriteToCacheStep(p: Primitives, s: Store, i: Input, o: Output): Step
  {
    var out := ReuseOrWriteStep(p, s, o);
    if out.result.Err? then out else WriteInputStep(p, out.after, i, out.result.value)
  }

  /** `reuseOrWriteOutput` returns the output's hash on both paths, writes
      nothing when the output is already present, stores the JSON text when
      it is not, and fails only when hashing fails or the server is down. */
  lemma ReuseOrWrite(p: Primitives, s: Store, o: Output)
    ensures var st := ReuseOrWriteStep(p, s, o);
      && (st.result.Ok? <==> OutputHash(p, o).Ok? && s.down.None?)
      && (st.result.Ok? ==> st.result == OutputHash(p, o))
      && (st.result.Err? ==> st.after == s)
      && st.after.down == s.down
      && (OutputHash(p, o).Ok? && OutputPresent(s, OutputHash(p, o).value) ==> st.after.data == s.data)
      && (OutputHash(p, o).Ok? && s.down.None? && !OutputPresent(s, OutputHash(p, o).value) ==>
            st.after.data == s.data[OutputKey(OutputHash(p, o).value) := p.marshal(o)])
  {
  }

  /** `writeInput` fails exactly when normalization fails or the server is
      down; otherwise it overwrites the input key of the normalized input,
      whatever it held, and returns that input's hash. */
  lemma WriteInput(p: Primitives, s: Store, i: Input, outputHash: string)
    ensures var st := WriteInputStep(p, s, i, outputHash);
      && (st.result.Ok? <==> Normalize(p, i).Ok? && s.down.None?)
      && (st.result.Err? ==> st.after == s)
      && (st.result.Ok? ==>
            st.result.value == InputHash(p, Normalize(p, i).value) &&
            st.after.data == s.data[InputKey(st.result.value) := outputHash])
  {
  }

  /** Write then read: after a successful `WriteToCache(i, o)` returning `h`,
      `GetOutputHash(h)` gives the hash of `o`, and `GetOutput` of that hash
      gives an output with the same hash; it is `o` itself when this call
      stored it, or when no other output shares its hash. */
  lemma WriteThenRead(p: Primitives, s: Store, i: Input, o: Output)
    requires ContentAddressed(p, s.data) && JsonRoundTrip(p, o)
    requires WriteToCacheStep(p, s, i, o).result.Ok?
    ensures OutputHash(p, o).Ok?
    ensures var st := WriteToCacheStep(p, s, i, o); var oh := OutputHash(p, o).value;
      && LookupOutputHash(st.after, st.result.value) == Ok(oh)
      && LookupOutput(p, st.after, oh).Ok?
      && OutputHash(p, LookupOutput(p, st.after, oh).value) == Ok(oh)
      && (!OutputPresent(s, oh) ==> LookupOutput(p, st.after, oh) == Ok(o))
      && (HashDetermines(p, o) ==> LookupOutput(p, st.after, oh) == Ok(o))
  {
    ReuseOrWrite(p, s, o);
    var out := ReuseOrWriteStep(p, s, o);
    var oh := OutputHash(p, o).value;
    WriteInput(p, out.after, i, oh);
    var st := WriteToCacheStep(p, s, i, o);
    var h := st.result.value;
    KeysApart(h, oh);
    assert out.after.data[OutputKey(oh)] == st.after.data[OutputKey(oh)];
    WriteKeepsContentAddressed(p, s, i, o);
    ReadIsAddressed(p, st.after, oh);
  }

  /** `WriteToCache` keeps the output tier content-addressed, given that JSON
      decodes what it encodes. */
  lemma WriteKeepsContentAddressed(p: Primitives, s: Store, i: Input, o: Output)
    requires ContentAddressed(p, s.data) && JsonRoundTrip(p, o)
    ensures ContentAddressed(p, WriteToCacheStep(p, s, i, o).after.data)
  {
    ReuseOrWrite(p, s, o);
    var out := ReuseOrWriteStep(p, s, o);
    if out.result.Ok? {
      var oh := out.result.value;
      if !OutputPresent(s, oh) {
        var k := OutputKey(oh);
        assert k[|OutputHashPrefix|..] == oh;
        assert ContentAddressed(p, out.after.data);
      }
      WriteInput(p, out.after, i, oh);
      var st := WriteInputStep(p, out.after, i, oh);
      if st.result.Ok? {
        KeysApart(st.result.value, oh);
      }
    }
  }

  /** `WriteToCache` removes nothing, and the only keys whose value or expiry
      can change are the output key of `o` and the input key of the normalized
      input. */
  lemma WriteTouchesOnlyTwoKeys(p: Primitives, s: Store, i: Input, o: Output)
    ensures var after := WriteToCacheStep(p, s, i, o).after;
      && s.data.Keys <= after.data.Keys
      && (forall k :: k in after.data && (k !in s.data || after.data[k] != s.data[k]) ==>
            (OutputHash(p, o).Ok? && k == OutputKey(OutputHash(p, o).value))
            || (Normalize(p, i).Ok? && k == InputKey(InputHash(p, Normalize(p, i).value))))
      && s.ttl.Keys <= after.ttl.Keys
      && (forall k :: k in after.ttl && (k !in s.ttl || after.ttl[k] != s.ttl[k]) ==>
            (OutputHash(p, o).Ok? && k == OutputKey(OutputHash(p, o).value))
            || (Normalize(p, i).Ok? && k == InputKey(InputHash(p, Normalize(p, i).value))))
  {
    ReuseOrWrite(p, s, o);
    var out := ReuseOrWriteStep(p, s, o);
    if out.result.Ok? {
      WriteInput(p, out.after, i, out.result.value);
    }
  }

  /** When the output half fails, nothing is written at all, so the input key
      is never written. */
  lemma OutputFailureWritesNothing(p: Primitives, s: Store, i: Input, o: Output)
    requires ReuseOrWriteStep(p, s, o).result.Err?
    ensures WriteToCacheStep(p, s, i, o) == ReuseOrWriteStep(p, s, o)
    ensures WriteToCacheStep(p, s, i, o).after == s
  {
    ReuseOrWrite(p, s, o);
  }

  /** A failed `WriteToCache` leaves the input tier unchanged. */
  lemma FailureKeepsInputTier(p: Primitives, s: Store, i: Input, o: Output)
    requires WriteToCacheStep(p, s, i, o).result.Err?
    ensures forall k :: HasPrefix(k, InputHashPrefix) ==>
      (k in WriteToCacheStep(p, s, i, o).after.data <==> k in s.data) &&
      (k in s.data ==> WriteToCacheStep(p, s, i, o).after.data[k] == s.data[k])
  {
    ReuseOrWrite(p, s, o);
    var out := ReuseOrWriteStep(p, s, o);
    if out.result.Ok? {
      var oh := out.result.value;
      WriteInput(p, out.after, i, oh);
      forall k | HasPrefix(k, InputHashPrefix)
        ensures k != OutputKey(oh)
      {
        assert k[13] == 'i' && OutputKey(oh)[13] == 'o';
      }
    }
  }

  /** Deduplication: two inputs with the same output share one output entry.
      The second `WriteToCache` reuses the entry the first stored, leaves its
      text as it was, and afterwards both input keys name it. */
  lemma Deduplication(p: Primitives, s: Store, i1: Input, i2: Input, o: Output)
    requires WriteToCacheStep(p, s, i1, o).result.Ok? && Normalize(p, i2).Ok?
    ensures var s1 := WriteToCacheStep(p, s, i1, o).after;
      var st2 := WriteToCacheStep(p, s1, i2, o);
      var oh := OutputHash(p, o).value;
      && OutputHash(p, o).Ok?
      && ReuseOrWriteStep(p, s1, o).after.data == s1.data
      && st2.result.Ok?
      && st2.after.data[OutputKey(oh)] == s1.data[OutputKey(oh)]
      && LookupOutputHash(st2.after, st2.result.value) == Ok(oh)
      && (st2.result != WriteToCacheStep(p, s, i1, o).result ==>
            LookupOutputHash(st2.after, WriteToCacheStep(p, s, i1, o).result.value) == Ok(oh))
  {
    var st1 := WriteToCacheStep(p, s, i1, o);
    FirstWrite(p, s, i1, o);
    SecondWrite(p, st1.after, i2, o, st1.result.value);
  }

  /** After a successful `WriteToCache` the server is up, the output is
      present, and the returned input hash names its hash. */
  lemma FirstWrite(p: Primitives, s: Store, i: Input, o: Output)
    requires WriteToCacheStep(p, s, i, o).result.Ok?
    ensures var st := WriteToCacheStep(p, s, i, o);
      && OutputHash(p, o).Ok?
      && st.after.down.None?
      && OutputPresent(st.after, OutputHash(p, o).value)
      && LookupOutputHash(st.after, st.result.value) == Ok(OutputHash(p, o).value)
  {
    ReuseOrWrite(p, s, o);
    var out := ReuseOrWriteStep(p, s, o);
    var oh := OutputHash(p, o).value;
    WriteInput(p, out.after, i, oh);
    KeysApart(WriteToCacheStep(p, s, i, o).result.value, oh);
  }

  /** A `WriteToCache` of an output already present reuses its entry and adds
      an input key naming it, next to the one written before. */
  lemma SecondWrite(p: Primitives, s1: Store, i: Input, o: Output, h1: string)
    requires OutputHash(p, o).Ok? && s1.down.None? && Normalize(p, i).Ok?
    requires OutputPresent(s1, OutputHash(p, o).value)
    requires LookupOutputHash(s1, h1) == Ok(OutputHash(p, o).value)
    ensures var st2 := WriteToCacheStep(p, s1, i, o);
      var oh := OutputHash(p, o).value;
      && ReuseOrWriteStep(p, s1, o).after.data == s1.data
      && st2.result.Ok?
      && st2.after.data[OutputKey(oh)] == s1.data[OutputKey(oh)]
      && LookupOutputHash(st2.after, st2.result.value) == Ok(oh)
      && (st2.result != Ok(h1) ==> LookupOutputHash(st2.after, h1) == Ok(oh))
  {
    var oh := OutputHash(p, o).value;
    ReuseOrWrite(p, s1, o);
    var out2 := ReuseOrWriteStep(p, s1, o);
    WriteInput(p, out2.after, i, oh);
    var st2 := WriteToCacheStep(p, s1, i, o);
    var h2 := st2.result.value;
    KeysApart(h2, oh);
    if h2 != h1 {
      KeysInjective(h1, h2);
    }
  }

  // ---------------------------------------------------------------------------
  // The module itself
  // ---------------------------------------------------------------------------

  class CacheModule {
    const redis: Redis
    const prims: Primitives

    constructor (redis: Redis, prims: Primitives)
      ensures this.redis == redis && this.prims == prims
    {
      this.redis := redis;
      this.prims := prims;
    }

    /** The server pairs values with expiries and the output tier is
        content-addressed. */
    ghost predicate Valid()
      reads this, redis
    {
      redis.Valid() && ContentAddressed(prims, redis.data)
    }

    /** `GetOutputHash`. */
    method GetOutputHash(inputHash: string) returns (r: Result<string, GoError>)
      modifies redis
      ensures r == LookupOutputHash(old(redis.State()), inputHash)
      ensures redis.State() == AfterGetEx(old(redis.State()), InputKey(inputHash), Hour)
      ensures old(Valid()) ==> Valid()
    {
      var key := InputHashPrefix + inputHash;
      var result := redis.GetEx(key, Hour);
      if result == Err(RedisNil) {
        return Err(NotFound);
      }
      if result.Err? {
        return Err(result.error);
      }
      return Ok(result.value);
    }

    /** `HasOutput`. */
    method HasOutput(outputHash: string) returns (b: bool)
      modifies redis
      ensures b == OutputPresent(old(redis.State()), outputHash)
      ensures redis.State() == AfterGetEx(old(redis.State()), OutputKey(outputHash), Hour)
      ensures old(Valid()) ==> Valid()
    {
      var key := OutputHashPrefix + outputHash;
      var result := redis.GetEx(key, Hour);
      return result.Ok?;
    }

    /** `GetOutput`. */
    method GetOutput(outputHash: string) returns (r: Result<Output, GoError>)
      modifies redis
      ensures r == LookupOutput(prims, old(redis.State()), outputHash)
      ensures redis.State() == AfterGetEx(old(redis.State()), OutputKey(outputHash), Hour)
      ensures old(Valid()) ==> Valid()
    {
      var key := OutputHashPrefix + outputHash;
      var result := redis.GetEx(key, Hour);
      if result.Err? {
        if result.error == RedisNil {
          return Err(NotFound);
        }
        return Err(result.error);
      }
      r := prims.unmarshal(result.value);
    }

    /** `writeOutput`. */
    method WriteOutput(output: Output) returns (r: Result<string, GoError>)
      modifies redis
      ensures Step(r, redis.State()) == WriteOutputStep(prims, old(redis.State()), output)
      ensures old(Valid()) && JsonRoundTrip(prims, output) ==> Valid()
    {
      var hash := HashOutput(prims, output);
      if hash.Err? {
        return hash;
      }
      var key := OutputHashPrefix + hash.value;
      var outputMarshaled := prims.marshal(output);
      var err := redis.SetEx(key, outputMarshaled, Hour);
      if err.Some? {
        return Err(err.value);
      }
      assert key[|OutputHashPrefix|..] == hash.value;
      return hash;
    }

    /** `reuseOrWriteOutput`. */
    method ReuseOrWriteOutput(output: Output) returns (r: Result<string, GoError>)
      modifies redis
      ensures Step(r, redis.State()) == ReuseOrWriteStep(prims, old(redis.State()), output)
      ensures old(Valid()) && JsonRoundTrip(prims, output) ==> Valid()
    {
      var hash := HashOutput(prims, output);
      if hash.Err? {
        return hash;
      }
      var present := HasOutput(hash.value);
      if present {
        return hash;
      }
      r := WriteOutput(output);
    }

    /** `writeInput`. */
    method WriteInput(input: Input, outputHash: string) returns (r: Result<string, GoError>)
      modifies redis
      ensures Step(r, redis.State()) == WriteInputStep(prims, old(redis.State()), input, outputHash)
      ensures old(Valid()) ==> Valid()
    {
      var normalized := Normalize(prims, input);
      if normalized.Err? {
        return Err(normalized.error);
      }
      var hash := HashInput(prims, normalized.value);
      var key := InputHashPrefix + hash;
      var err := redis.SetEx(key, outputHash, Hour);
      if err.Some? {
        return Err(err.value);
      }
      KeysApart(hash, "");
      return Ok(hash);
    }

    /** `WriteToCache`. */
    method WriteToCache(input: Input, output: Output) returns (r: Result<string, GoError>)
      modifies redis
      ensures Step(r, redis.State()) == WriteToCacheStep(prims, old(redis.State()), input, output)
      ensures old(Valid()) && JsonRoundTrip(prims, output) ==> Valid()
    {
      var outputHash := ReuseOrWriteOutput(output);
      if outputHash.Err? {
        return outputHash;
      }
      r := WriteInput(input, outputHash.value);
    }

    /** The round trip the cache exists for: write, look the handle up, fetch
        the output. */
    method WriteThenReadBack(input: Input, output: Output)
      returns (id: Result<string, GoError>, outputHash: Result<string, GoError>, read: Result<Output, GoError>)
      requires Valid() && JsonRoundTrip(prims, output)
      modifies redis
      ensures Valid()
      ensures id.Ok? ==> outputHash == OutputHash(prims, output)
      ensures id.Ok? ==> read.Ok? && OutputHash(prims, read.value) == outputHash
      ensures id.Ok? && HashDetermines(prims, output) ==> read == Ok(output)
    {
      ghost var s := redis.State();
      id := WriteToCache(input, output);
      if id.Err? {
        return id, id, Err(id.error);
      }
      WriteThenRead(prims, s, input, output);
      outputHash := GetOutputHash(id.value);
      read := GetOutput(outputHash.value);
    }
  }
}
