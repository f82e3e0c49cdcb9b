/** The two Redis commands the cache issues, `GETEX key EX seconds` and
    `SETEX key seconds value`, on a store held in memory. Expiry clocks are
    not modelled: each present key carries the expiry most recently set on
    it, and `Expire` drops a key whose time has come. */
module RedisStore {
  import opened Common
  import opened GoErrors

  /** A snapshot of the server: the values, the expiries and, when the server
      cannot be reached, the text of the error every command then fails with. */
  datatype Store = Store(data: map<string, string>, ttl: map<string, nat>, down: Option<string>)

  /** Every present key carries an expiry and only present keys do. */
  predicate Consistent(s: Store)
  {
    s.ttl.Keys == s.data.Keys
  }

  /** The error a command returns while the server is unreachable; it is never
      `redis.Nil`. */
  function Outage(text: string): (e: GoError)
    ensures e != RedisNil && !e.Wrapped?
  {
    Plain(text)
  }

  /** The reply to `GETEX key`: the value, `redis.Nil` for an absent key, or the
      outage. */
  function Get(s: Store, key: string): (r: Result<string, GoError>)
    ensures r.Ok? <==> s.down.None? && key in s.data
    ensures r.Ok? ==> r.value == s.data[key]
    ensures r == Err(RedisNil) <==> s.down.None? && key !in s.data
  {
    if s.down.Some? then Err(Outage(s.down.value))
    else if key in s.data then Ok(s.data[key])
    else Err(RedisNil)
  }

  /** The server after `GETEX key EX seconds`: a present key gets the new
      expiry; nothing else changes. */
  function AfterGetEx(s: Store, key: string, seconds: nat): (t: Store)
    ensures t.data == s.data && t.down == s.down
    ensures Get(s, key).Ok? ==> t.ttl == s.ttl[key := seconds]
    ensures Get(s, key).Err? ==> t == s
  {
    if Get(s, key).Ok? then s.(ttl := s.ttl[key := seconds]) else s
  }

  /** The reply to `SETEX`: it fails only during an outage. */
  function SetReply(s: Store): (r: Option<GoError>)
    ensures r.None? <==> s.down.None?
  {
    if s.down.Some? then Some(Outage(s.down.value)) else None
  }

  /** The server after `SETEX key seconds value`: the key holds the value with
      the new expiry, whether it was present or not. */
  function AfterSetEx(s: Store, key: string, value: string, seconds: nat): (t: Store)
    ensures t.down == s.down
    ensures s.down.None? ==> t.data == s.data[key := value] && t.ttl == s.ttl[key := seconds]
    ensures s.down.Some? ==> t == s
  {
    if s.down.Some? then s else Store(s.data[key := value], s.ttl[key := seconds], s.down)
  }

  /** Neither command breaks the pairing of values and expiries, and a read
      after a write returns what was written. */
  lemma CommandsKeepConsistent(s: Store, key: string, value: string, seconds: nat)
    requires Consistent(s)
    ensures Consistent(AfterGetEx(s, key, seconds))
    ensures Consistent(AfterSetEx(s, key, value, seconds))
    ensures s.down.None? ==> Get(AfterSetEx(s, key, value, seconds), key) == Ok(value)
    ensures Get(AfterGetEx(s, key, seconds), key) == Get(s, key)
  {
  }

  class Redis {
    /** The keys present and their values. */
    var data: map<string, string>
    /** For each present key, the expiry in seconds most recently set on it. */
    var ttl: map<string, nat>
    /** When set, the server is unreachable and every command fails with this text. */
    var down: Option<string>

    function State(): Store
      reads this
    {
      Store(data, ttl, down)
    }

    ghost predicate Valid()
      reads this
    {
      Consistent(State())
    }

    constructor ()
      ensures Valid() && State() == Store(map[], map[], None)
    {
      data := map[];
      ttl := map[];
      down := None;
    }

    /** `GETEX key EX seconds`. */
    method GetEx(key: string, seconds: nat) returns (r: Result<string, GoError>)
      modifies this
      ensures r == Get(old(State()), key)
      ensures State() == AfterGetEx(old(State()), key, seconds)
      ensures old(Valid()) ==> Valid()
    {
      if down.Some? {
        return Err(Outage(down.value));
      }
      if key !in data {
        return Err(RedisNil);
      }
      ttl := ttl[key := seconds];
      return Ok(data[key]);
    }

    /** `SETEX key seconds value`. */
    method SetEx(key: string, value: string, seconds: nat) returns (err: Option<GoError>)
      modifies this
      ensures err == SetReply(old(State()))
      ensures State() == AfterSetEx(old(State()), key, value, seconds)
      ensures old(Valid()) ==> Valid()
    {
      if down.Some? {
        return Some(Outage(down.value));
      }
      data := data[key := value];
      ttl := ttl[key := seconds];
      return None;
    }

    /** The expiry of `key` elapses: the server drops the key. */
    method Expire(key: string)
      modifies this
      ensures State() == Store(old(data) - {key}, old(ttl) - {key}, old(down))
      ensures old(Valid()) ==> Valid()
    {
      data := data - {key};
      ttl := ttl - {key};
    }
  }
}
