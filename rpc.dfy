/** The parts of connect-go the dbrunner handlers use: status codes, the
    error a handler returns, the `OptionalStringPair` message of a row, and
    a server stream that records what it delivered. */
module Rpc {
  import opened Common
  import opened GoErrors
  import opened RedisStore

  /** The `connect.Code`s the handlers return. */
  datatype Code = CodeInvalidArgument | CodeNotFound | CodeAborted | CodeInternal | CodeDataLoss

  /** A handler's error: `connect.NewError(code, cause)`, or an error
      returned as it is. */
  datatype RpcError = CodeError(code: Code, cause: GoError) | Bare(cause: GoError)

  /** What a handler replies and the Redis server after the call. */
  datatype Answer<T> = Answer(reply: Result<T, RpcError>, after: Store)

  /** `commonv1.OptionalStringPair`: a column name and a value that may be nil. */
  datatype Pair = Pair(key: string, value: Option<string>)

  /** How many of `m` further sends go through. */
  function Delivered(failFrom: Option<nat>, attempts: nat, m: nat): (n: nat)
    ensures n <= m
  {
    match failFrom
    case None => m
    case Some(f) => if attempts < f then Min(m, f - attempts) else 0
  }

  /** `connect.ServerStream`: the messages delivered so far, in order. The
      transport is a parameter: from the send numbered `failFrom` on (counted
      from zero over every attempt), every `Send` fails with `failure`. */
  class Stream<M> {
    var sent: seq<M>
    var attempts: nat
    const failFrom: Option<nat>
    const failure: GoError

    constructor (failFrom: Option<nat>, failure: GoError)
      ensures sent == [] && attempts == 0
      ensures this.failFrom == failFrom && this.failure == failure
    {
      sent := [];
      attempts := 0;
      this.failFrom := failFrom;
      this.failure := failure;
    }

    /** Whether the next attempt goes through. */
    predicate Accepts()
      reads this
    {
      failFrom.None? || attempts < failFrom.value
    }

    /** `stream.Send(m)`: delivers `m`, or fails and delivers nothing. */
    method Send(m: M) returns (err: Option<GoError>)
      modifies this
      ensures attempts == old(attempts) + 1
      ensures old(Accepts()) ==> err.None? && sent == old(sent) + [m]
      ensures !old(Accepts()) ==> err == Some(failure) && sent == old(sent)
    {
      if Accepts() {
        sent := sent + [m];
        err := None;
      } else {
        err := Some(failure);
      }
      attempts := attempts + 1;
    }
  }
}
