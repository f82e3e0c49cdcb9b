/** The older streaming `RunQuery` of `DBRunnerService`
    (`internal/services/dbrunner/dbrunner.go`): it runs the request as sent,
    without normalization or cache, picks a status code by searching the
    error text, and streams one message per result row. */
module StreamRunner {
  import opened Common
  import opened GoStrings
  import opened GoErrors
  import opened Structure
  import opened Rpc
  import opened Query
  import Retrieval

  /** The status code for a runner error, chosen from its text alone. */
  function LegacyCode(msg: string): Code
  {
    if Contains(msg, "query timeout") then CodeAborted
    else if Contains(msg, "exec init") || Contains(msg, "query") || Contains(msg, "sqlite error") then CodeInvalidArgument
    else CodeInternal
  }

  /** `DBRunnerService.RunQuery`. */
  method RunQueryStream(engine: Engine, ctx: Context, now: int, schema: string, query: string, stream: Stream<seq<Pair>>)
    returns (err: Option<RpcError>)
    modifies stream
    ensures var r := Run(engine, ctx, now, Input(schema, query));
      && (r.Err? ==> err == Some(CodeError(LegacyCode(Message(r.error)), r.error)) && stream.sent == old(stream.sent))
      && (r.Ok? ==>
            var n := Delivered(stream.failFrom, old(stream.attempts), |r.value.result|);
            && stream.sent == old(stream.sent) + Retrieval.Messages(r.value.result)[..n]
            && (n == |r.value.result| ==> err.None?)
            && (n < |r.value.result| ==> err == Some(CodeError(CodeDataLoss, stream.failure))))
  {
    var input := Input(schema, query);
    var output := Query.RunQuery(engine, ctx, now, input);
    if output.Err? {
      return Some(CodeError(LegacyCode(Message(output.error)), output.error));
    }
    var sendErr := Retrieval.SendRows(stream, output.value.result);
    if sendErr.Some? {
      return Some(CodeError(CodeDataLoss, sendErr.value));
    }
    return None;
  }

  // ---------------------------------------------------------------------------
  // Properties
  // ---------------------------------------------------------------------------

  /** A text without the letter 'q' contains no "query…" word. */
  lemma NoQ(s: string, t: string)
    requires |t| > 0 && t[0] == 'q' && 'q' !in s
    ensures !Contains(s, t)
  {
    ContainsAfterPrefix(s, "", t);
    assert s + "" == s;
  }

  /** A deadline met while reading the rows is `CodeAborted`. */
  lemma RowsTimeoutIsAborted(e: GoError)
    requires Is(e, DeadlineExceeded)
    ensures LegacyCode(Message(ClassifyRowsError(e))) == CodeAborted
  {
    assert Message(ClassifyRowsError(e)) == "query timeout" + (": " + Message(e));
    ContainsPrefix(Message(ClassifyRowsError(e)), "query timeout");
  }

  /** Every error of the schema, query and SQLite phases is `CodeInvalidArgument`
      or `CodeAborted`, never `CodeInternal`. */
  lemma PhaseErrorsAreNotInternal(prefix: string, e: GoError)
    requires prefix in ["exec init", "query", "query timeout", "sqlite error"]
    ensures LegacyCode(Message(Wrapped(prefix, e))) in {CodeInvalidArgument, CodeAborted}
  {
    assert Message(Wrapped(prefix, e)) == prefix + (": " + Message(e));
    ContainsPrefix(Message(Wrapped(prefix, e)), prefix);
  }

  /** An error of the schema script whose own text has no 'q' (a deadline,
      for one) holds no "query timeout": it is `CodeInvalidArgument`, not
      `CodeAborted`. */
  lemma InitErrorIsInvalidArgument(e: GoError)
    requires 'q' !in Message(e)
    ensures LegacyCode(Message(Wrapped("exec init", e))) == CodeInvalidArgument
  {
    var head := "exec init: ";
    var msg := Message(Wrapped("exec init", e));
    assert msg == head + Message(e);
    assert 'q' !in head;
    NoQ(msg, "query timeout");
    ContainsPrefix(msg, "exec init");
  }

  /** The same for an error of preparing the query: "query: …" holds
      "query" but not "query timeout". */
  lemma QueryErrorIsInvalidArgument(e: GoError)
    requires 'q' !in Message(e)
    ensures LegacyCode(Message(Wrapped("query", e))) == CodeInvalidArgument
  {
    var msg := Message(Wrapped("query", e));
    assert msg == "query: " + Message(e);
    assert !HasPrefix(msg, "query timeout") by {
      assert msg[5] == ':';
    }
    assert msg[1..] == "uery: " + Message(e);
    assert 'q' !in "uery: ";
    NoQ(msg[1..], "query timeout");
    ContainsPrefix(msg, "query");
  }

  /** So a deadline met while the schema script runs or the query is prepared
      is reported as `CodeInvalidArgument`; only one met while reading rows is
      `CodeAborted`. */
  lemma EarlyTimeoutsAreInvalidArgument()
    ensures LegacyCode(Message(Wrapped("exec init", DeadlineExceeded))) == CodeInvalidArgument
    ensures LegacyCode(Message(Wrapped("query", DeadlineExceeded))) == CodeInvalidArgument
  {
    assert 'q' !in Message(DeadlineExceeded);
    InitErrorIsInvalidArgument(DeadlineExceeded);
    QueryErrorIsInvalidArgument(DeadlineExceeded);
  }
}
