/** The gateway's authorization middleware
    (`internal/services/gateway/auth.go`): a fixed table of the scopes each
    REST operation needs, the decision it makes for every request, and the
    401/404/500 answers it writes itself. Fetching the JSON Web Key Set and
    verifying the token (signature, expiry, issuer, audience) are given as
    parameters. */
module Authorization {
  import opened Common
  import opened GoErrors
  import opened GoStrings
  import opened NetHttp

  /** `scopeMap`: the scopes an operation requires, all of them. */
  const ScopeMap: map<string, seq<string>> := map[
    "PostChallenges" := ["challenge"],
    "GetChallengesId" := ["challenge"],
    "GetQuestions" := ["read:question"],
    "GetQuestionsId" := ["read:question"],
    "GetQuestionsIdSolution" := ["read:question", "read:solution"],
    "GetSchemasId" := ["read:schema"],
    "GetHealthz" := []
  ]

  const BearerPrefix: string := "Bearer "
  const MalformedHeaderText: string := "Malformed or missing authorization header"
  const FetchFailedText: string := "Failed to fetch JWKS"
  const VerifyFailedText: string := "Failed to verify token"
  const ContentType: string := "Content-Type"
  const JsonType: string := "application/json"

  function InsufficientScopeText(scope: string): string
  {
    "Insufficient scope (" + scope + " is required)"
  }

  /** What the middleware does with an operation's handler. */
  datatype Wrapping = DenyAll | Unwrapped | Guarded(required: seq<string>)

  /** The per-operation choice made once, when the handler is wrapped. */
  function Wrap(operationId: string): (w: Wrapping)
    ensures w == DenyAll <==> operationId !in ScopeMap
    ensures w == Unwrapped <==> operationId in ScopeMap && |ScopeMap[operationId]| == 0
    ensures w.Guarded? ==> operationId in ScopeMap && w.required == ScopeMap[operationId] && |w.required| > 0
  {
    if operationId !in ScopeMap then DenyAll
    else if |ScopeMap[operationId]| == 0 then Unwrapped
    else Guarded(ScopeMap[operationId])
  }

  /** The value of the token's private claim `scope`: absent (or JSON null),
      a string, or any other JSON value. */
  datatype Claim = Absent | Text(text: string) | NotText

  /** `parseScope`: nothing for an absent or non-string claim, otherwise the
      claim cut at every single space. */
  function ParseScope(c: Claim): (scopes: seq<string>)
    ensures !c.Text? ==> scopes == []
    ensures c.Text? ==> Join(scopes, ' ') == c.text && |scopes| == Count(c.text, ' ') + 1
    ensures forall i :: 0 <= i < |scopes| ==> ' ' !in scopes[i]
  {
    match c
    case Text(raw) => JoinSplit(raw, ' '); Split(raw, ' ')
    case _ => []
  }

  /** The first required scope, in list order, that the token lacks. */
  function FirstMissing(required: seq<string>, have: seq<string>): (r: Option<string>)
    ensures r.None? <==> forall i :: 0 <= i < |required| ==> required[i] in have
    ensures r.Some? ==> exists k :: 0 <= k < |required| && Missing(required, have, k) && r.value == required[k]
    decreases |required|
  {
    if |required| == 0 then None
    else if required[0] !in have then
      assert Missing(required, have, 0);
      Some(required[0])
    else
      var r := FirstMissing(required[1..], have);
      if r.Some? then
        var k :| 0 <= k < |required[1..]| && Missing(required[1..], have, k) && r.value == required[1..][k];
        assert Missing(required, have, k + 1);
        r
      else
        assert forall i :: 1 <= i < |required| ==> required[i] == required[1..][i - 1];
        r
  }

  /** `required[k]` is missing and every scope before it is held. */
  predicate Missing(required: seq<string>, have: seq<string>, k: int)
    requires 0 <= k < |required|
  {
    required[k] !in have && forall j :: 0 <= j < k ==> required[j] in have
  }

  /** The abstract parts of a verified token: the middleware reads only the
      `scope` claim; `subject` stands for the rest. */
  datatype Token = Token(subject: string, scope: Claim)

  /** The key set the JWKS cache returns. */
  datatype KeySet = KeySet(id: nat)

  /** The outcome of one request. */
  datatype Verdict =
    | Deny404                          // answered 404, the handler not called
    | Pass(token: Option<Token>)       // the handler is called once, with this token in the context
    | Reject(status: int, message: string)   // answered with this status and message

  /** The decision of the middleware for a request to `operationId` with the
      given `Authorization` header (`""` when there is none), the result of
      fetching the key set and the token verifier. */
  function Authorize(operationId: string, authorization: string, jwks: Result<KeySet, GoError>,
                     verify: (string, KeySet) -> Result<Token, GoError>): Verdict
  {
    match Wrap(operationId)
    case DenyAll => Deny404
    case Unwrapped => Pass(None)
    case Guarded(required) =>
      match CutPrefix(authorization, BearerPrefix)
      case None => Reject(StatusUnauthorized, MalformedHeaderText)
      case Some(bearer) =>
        match jwks
        case Err(_) => Reject(StatusInternalServerError, FetchFailedText)
        case Ok(keys) =>
          match verify(bearer, keys)
          case Err(_) => Reject(StatusUnauthorized, VerifyFailedText)
          case Ok(tok) =>
            match FirstMissing(required, ParseScope(tok.scope))
            case Some(s) => Reject(StatusUnauthorized, InsufficientScopeText(s))
            case None => Pass(Some(tok))
  }

  // ---------------------------------------------------------------------------
  // The answers the middleware writes
  // ---------------------------------------------------------------------------

  /** The order in which an answer fixes its status and sets its header:
      `StatusFirst` is the order of `sendUnauthorizedError` and
      `sendServerError`; `HeaderFirst` is the corrected one. */
  datatype AnswerOrder = StatusFirst | HeaderFirst

  /** `sendUnauthorizedError` / `sendServerError` as written: the status is
      fixed before the `Content-Type` header is set. */
  function SentAsWritten(w: Writer, code: int, body: seq<byte>): Writer
  {
    AfterWrite(AfterSet(AfterWriteHeader(w, code), ContentType, JsonType), body)
  }

  /** The same with the header set first, as net/http requires. */
  function SentCorrected(w: Writer, code: int, body: seq<byte>): Writer
  {
    AfterWrite(AfterWriteHeader(AfterSet(w, ContentType, JsonType), code), body)
  }

  /** The writer after an answer given in `order`. */
  function Sent(order: AnswerOrder, w: Writer, code: int, body: seq<byte>): Writer
  {
    if order == StatusFirst then SentAsWritten(w, code, body) else SentCorrected(w, code, body)
  }

  /** As written, the JSON content type never goes out: the header is set
      after the status is fixed, so the handler's header map that is sent has
      no `Content-Type` (the server then sniffs one from the body). */
  lemma ContentTypeLostAsWritten(w: Writer, code: int, body: seq<byte>)
    requires Valid(w) && !w.wroteHeader && ContentType !in w.header
    ensures var t := SentAsWritten(w, code, body);
      t.sent.Some? && ContentType !in t.sent.value && t.status == code
  {
    SetAfterStatusIsLost(w, ContentType, JsonType, code, body);
  }

  /** Corrected, the JSON content type and the status always go out. */
  lemma ContentTypeSentCorrected(w: Writer, code: int, body: seq<byte>)
    requires Valid(w) && !w.wroteHeader
    ensures var t := SentCorrected(w, code, body);
      t.sent.Some? && ContentType in t.sent.value && t.sent.value[ContentType] == JsonType && t.status == code
  {
    SetBeforeStatusIsSent(w, ContentType, JsonType, code, body);
  }

  /** An answer carries the JSON content type exactly when it is given in the
      corrected order; its status is the one asked for either way. */
  lemma AnswerContentType(order: AnswerOrder, w: Writer, code: int, body: seq<byte>)
    requires Valid(w) && !w.wroteHeader && ContentType !in w.header
    ensures var t := Sent(order, w, code, body);
      && t.sent.Some? && t.status == code
      && (ContentType in t.sent.value <==> order == HeaderFirst)
  {
    if order == StatusFirst {
      ContentTypeLostAsWritten(w, code, body);
    } else {
      ContentTypeSentCorrected(w, code, body);
    }
  }

  /** `sendUnauthorizedError` / `sendServerError` as written. `marshal` is
      `json.Marshal` of the response object carrying the message; it cannot
      fail. */
  method SendErrorAsWritten(w: ResponseWriter, code: int, message: string, marshal: string -> seq<byte>)
    returns (err: Option<GoError>)
    modifies w
    ensures w.State() == SentAsWritten(old(w.State()), code, marshal(message))
    ensures err == WriteReply(old(w.State()))
  {
    w.WriteHeader(code);
    w.SetHeader(ContentType, JsonType);
    err := w.Write(marshal(message));
  }

  /** The corrected answer, with the header set before the status. */
  method SendError(w: ResponseWriter, code: int, message: string, marshal: string -> seq<byte>)
    returns (err: Option<GoError>)
    modifies w
    ensures w.State() == SentCorrected(old(w.State()), code, marshal(message))
    ensures err == WriteReply(old(w.State()))
  {
    w.SetHeader(ContentType, JsonType);
    w.WriteHeader(code);
    err := w.Write(marshal(message));
  }

  /** An answer in the given order. */
  method Answer(order: AnswerOrder, w: ResponseWriter, code: int, message: string, marshal: string -> seq<byte>)
    returns (err: Option<GoError>)
    modifies w
    ensures w.State() == Sent(order, old(w.State()), code, marshal(message))
    ensures err == WriteReply(old(w.State()))
  {
    if order == StatusFirst {
      err := SendErrorAsWritten(w, code, message, marshal);
    } else {
      err := SendError(w, code, message, marshal);
    }
  }

  /** The response object a handler returns, left abstract. */
  datatype Response = Response(id: nat)

  /** What a `StrictHTTPHandlerFunc` returns: its response (nil is `None`)
      and its error. */
  datatype Outcome = Outcome(response: Option<Response>, err: Option<GoError>)

  /** The wrapped handler `f`: each call is recorded with the token the
      middleware put in the context under `AuthContextJwtToken`, and returns
      what `reply` gives for that token. */
  class Handler {
    var calls: seq<Option<Token>>
    const reply: Option<Token> -> Outcome

    constructor (reply: Option<Token> -> Outcome)
      ensures calls == [] && this.reply == reply
    {
      calls := [];
      this.reply := reply;
    }

    method Invoke(token: Option<Token>) returns (r: Outcome)
      modifies this
      ensures calls == old(calls) + [token]
      ensures r == reply(token)
    {
      calls := calls + [token];
      r := reply(token);
    }
  }

  /** The closure the middleware returns for `operationId`, serving one
      request. The handler is called exactly when the verdict is `Pass`, once,
      with the verified token, and its outcome is returned as it is; otherwise
      the middleware writes the answer and returns no response.
      `order` picks the answering helpers: `StatusFirst` is the middleware as
      written, `HeaderFirst` the corrected one. */
  method Serve(f: Handler, w: ResponseWriter, operationId: string, authorization: string,
               jwks: Result<KeySet, GoError>, verify: (string, KeySet) -> Result<Token, GoError>,
               marshal: string -> seq<byte>, order: AnswerOrder)
    returns (v: Verdict, r: Outcome)
    modifies f, w
    ensures v == Authorize(operationId, authorization, jwks, verify)
    ensures v.Pass? ==> f.calls == old(f.calls) + [v.token] && w.State() == old(w.State()) && r == f.reply(v.token)
    ensures v.Deny404? ==> f.calls == old(f.calls) && w.State() == AfterWriteHeader(old(w.State()), StatusNotFound) && r == Outcome(None, None)
    ensures v.Reject? ==>
      && f.calls == old(f.calls)
      && w.State() == Sent(order, old(w.State()), v.status, marshal(v.message))
      && r == Outcome(None, WriteReply(old(w.State())))
  {
    if operationId !in ScopeMap {
      w.WriteHeader(StatusNotFound);
      return Deny404, Outcome(None, None);
    }
    var required := ScopeMap[operationId];
    if |required| == 0 {
      r := f.Invoke(None);
      return Pass(None), r;
    }
    if authorization == "" {
      var err := Answer(order, w, StatusUnauthorized, MalformedHeaderText, marshal);
      return Reject(StatusUnauthorized, MalformedHeaderText), Outcome(None, err);
    }
    var bearer := CutPrefix(authorization, BearerPrefix);
    if bearer.None? {
      var err := Answer(order, w, StatusUnauthorized, MalformedHeaderText, marshal);
      return Reject(StatusUnauthorized, MalformedHeaderText), Outcome(None, err);
    }
    if jwks.Err? {
      var err := Answer(order, w, StatusInternalServerError, FetchFailedText, marshal);
      return Reject(StatusInternalServerError, FetchFailedText), Outcome(None, err);
    }
    var tok := verify(bearer.value, jwks.value);
    if tok.Err? {
      var err := Answer(order, w, StatusUnauthorized, VerifyFailedText, marshal);
      return Reject(StatusUnauthorized, VerifyFailedText), Outcome(None, err);
    }
    var userScopes := ParseScope(tok.value.scope);
    for i := 0 to |required|
      invariant forall j :: 0 <= j < i ==> required[j] in userScopes
    {
      if required[i] !in userScopes {
        FirstMissingAt(required, userScopes, i);
        var message := InsufficientScopeText(required[i]);
        var err := Answer(order, w, StatusUnauthorized, message, marshal);
        return Reject(StatusUnauthorized, message), Outcome(None, err);
      }
    }
    r := f.Invoke(Some(tok.value));
    return Pass(Some(tok.value)), r;
  }

  // ---------------------------------------------------------------------------
  // Properties
  // ---------------------------------------------------------------------------

  /** The scope the loop stops at is the one `FirstMissing` names. */
  lemma {:induction false} FirstMissingAt(required: seq<string>, have: seq<string>, k: nat)
    requires k < |required| && required[k] !in have
    requires forall j :: 0 <= j < k ==> required[j] in have
    ensures FirstMissing(required, have) == Some(required[k])
    decreases k
  {
    if k > 0 {
      assert required[0] in have;
      assert forall j :: 0 <= j < k - 1 ==> required[1..][j] == required[j + 1];
      FirstMissingAt(required[1..], have, k - 1);
    }
  }

  /** An operation that is not in the table is answered 404 whatever the
      request carries; one with no scopes is passed through untouched. */
  lemma UnlistedAndOpenOperations(operationId: string, authorization: string, jwks: Result<KeySet, GoError>,
                                  verify: (string, KeySet) -> Result<Token, GoError>)
    ensures Authorize(operationId, authorization, jwks, verify) == Deny404 <==> operationId !in ScopeMap
    ensures operationId in ScopeMap && |ScopeMap[operationId]| == 0 ==>
      Authorize(operationId, authorization, jwks, verify) == Pass(None)
  {
  }

  /** The two operations the gateway serves but the table leaves out are
      denied, and the health check needs no token. */
  lemma TableGaps()
    ensures Wrap("GetQuestionsIdAnswer") == DenyAll
    ensures Wrap("GetSchemasIdInitialSql") == DenyAll
    ensures Wrap("GetHealthz") == Unwrapped
    ensures Wrap("GetQuestionsIdSolution") == Guarded(["read:question", "read:solution"])
  {
  }

  /** A guarded operation lets a request through exactly when the header is
      `Bearer ` and a token, the key set was fetched, the token verifies, and
      the token holds every required scope; the handler then sees that token. */
  lemma PassExactly(operationId: string, authorization: string, jwks: Result<KeySet, GoError>,
                    verify: (string, KeySet) -> Result<Token, GoError>, tok: Token)
    requires Wrap(operationId).Guarded?
    ensures Authorize(operationId, authorization, jwks, verify) == Pass(Some(tok)) <==>
      && HasPrefix(authorization, BearerPrefix)
      && jwks.Ok?
      && verify(authorization[|BearerPrefix|..], jwks.value) == Ok(tok)
      && forall i :: 0 <= i < |ScopeMap[operationId]| ==> ScopeMap[operationId][i] in ParseScope(tok.scope)
  {
    if HasPrefix(authorization, BearerPrefix) {
      var bearer := CutPrefix(authorization, BearerPrefix).value;
      assert BearerPrefix + bearer == authorization;
      assert bearer == authorization[|BearerPrefix|..];
    }
  }

  /** A guarded operation never passes a request without a token. */
  lemma GuardedNeverPassesWithoutToken(operationId: string, authorization: string, jwks: Result<KeySet, GoError>,
                                       verify: (string, KeySet) -> Result<Token, GoError>)
    requires Wrap(operationId).Guarded?
    ensures Authorize(operationId, authorization, jwks, verify) != Pass(None)
    ensures !HasPrefix(authorization, BearerPrefix) ==>
      Authorize(operationId, authorization, jwks, verify) == Reject(StatusUnauthorized, MalformedHeaderText)
  {
  }

  /** A token that holds `read:question` but not `read:solution` is refused
      the solution, and the answer names the scope it lacks. */
  lemma SolutionNeedsBothScopes(authorization: string, keys: KeySet, verify: (string, KeySet) -> Result<Token, GoError>, tok: Token)
    requires HasPrefix(authorization, BearerPrefix)
    requires verify(authorization[|BearerPrefix|..], keys) == Ok(tok)
    requires "read:question" in ParseScope(tok.scope) && "read:solution" !in ParseScope(tok.scope)
    ensures Authorize("GetQuestionsIdSolution", authorization, Ok(keys), verify) ==
      Reject(StatusUnauthorized, InsufficientScopeText("read:solution"))
  {
    var bearer := CutPrefix(authorization, BearerPrefix).value;
    assert bearer == authorization[|BearerPrefix|..];
    var required := ScopeMap["GetQuestionsIdSolution"];
    assert required == ["read:question", "read:solution"];
    FirstMissingAt(required, ParseScope(tok.scope), 1);
  }

  /** `parseScope` of a string: the empty claim gives one empty scope, and a
      doubled space gives an empty scope between its neighbours. */
  lemma ParseScopeEdges(a: string, b: string)
    requires ' ' !in a && ' ' !in b
    ensures ParseScope(Text("")) == [""]
    ensures ParseScope(Text(a + "  " + b)) == [a, "", b]
  {
    SplitDoubled(a, b, ' ');
    assert a + "  " + b == a + [' ', ' '] + b;
  }
}
