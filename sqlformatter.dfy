/** The SQL pretty-printer's driver `fmtsql` (`internal/sqlformatter/sqlformatter.go`):
    for every input text it repeatedly trims whitespace, copies the leading
    `--` comments, cuts off the first statement, parses and pretty-prints it.
    The cockroach parser is a parameter: `SplitFirstStatement`, `Parse` and
    `PrettyCfg.Pretty` are the three fields of a `Parser`. */
module SqlFormatter {
  import opened Common
  import opened GoStrings
  import opened GoErrors

  /** The parser's three entry points; `A` is its statement tree type. */
  datatype Parser<!A> = Parser(split: string -> int, parse: string -> Result<seq<A>, GoError>, pretty: A -> string)

  /** `SplitFirstStatement` returns a position inside its argument. */
  ghost predicate SplitsWithin<A>(p: Parser<A>)
  {
    forall s :: p.split(s) <= |s|
  }

  // ---------------------------------------------------------------------------
  // The comment pattern `^--.*\s*`
  // ---------------------------------------------------------------------------

  /** `.*` from position `i`: the index of the first newline at or after `i`. */
  function LineEnd(s: string, i: nat): (j: nat)
    requires i <= |s|
    ensures i <= j <= |s|
    ensures forall k :: i <= k < j ==> s[k] != '\n'
    ensures j < |s| ==> s[j] == '\n'
    decreases |s| - i
  {
    if i == |s| || s[i] == '\n' then i else LineEnd(s, i + 1)
  }

  /** `\s*` from position `i`: the end of the run of regexp white space. */
  function SpaceEnd(s: string, i: nat): (j: nat)
    requires i <= |s|
    ensures i <= j <= |s|
    ensures forall k :: i <= k < j ==> IsPerlSpace(s[k])
    ensures j < |s| ==> !IsPerlSpace(s[j])
    decreases |s| - i
  {
    if i == |s| || !IsPerlSpace(s[i]) then i else SpaceEnd(s, i + 1)
  }

  /** The length of `ignoreComments.FindString(s)`, 0 when there is no match. */
  function CommentMatch(s: string): (n: nat)
    ensures n == 0 <==> !HasPrefix(s, "--")
    ensures n > 0 ==> 2 <= n <= |s|
  {
    if HasPrefix(s, "--") then SpaceEnd(s, LineEnd(s, 2)) else 0
  }

  /** What the pattern matches: "--", the rest of the line, and all the white
      space after it, newlines and the next lines' indentation included. */
  lemma CommentMatchShape(s: string)
    requires HasPrefix(s, "--")
    ensures var n, j := CommentMatch(s), LineEnd(s, 2);
      && 2 <= j <= n
      && (forall k :: 2 <= k < j ==> s[k] != '\n')
      && (j < |s| ==> s[j] == '\n')
      && (forall k :: j <= k < n ==> IsPerlSpace(s[k]))
      && (n < |s| ==> !IsPerlSpace(s[n]))
  {
  }

  /** What is written for one comment match: the match without its trailing
      white space, then as many of its newlines as it had, but at most two. */
  function CommentText(found: string): string
  {
    TrimRightSpace(found) + Repeat('\n', Min(Count(found, '\n'), 2))
  }

  /** The comments copied from the front of a text, and what follows them. */
  datatype Stripped = Stripped(text: string, rest: string)

  /** The inner loop: strip comment matches from the front while there is one. */
  function StripComments(s: string): (r: Stripped)
    ensures |r.rest| <= |s| && r.rest == s[|s| - |r.rest|..]
    ensures CommentMatch(r.rest) == 0
    ensures CommentMatch(s) == 0 ==> r == Stripped("", s)
    decreases |s|
  {
    var n := CommentMatch(s);
    if n == 0 then Stripped("", s)
    else
      var r := StripComments(s[n..]);
      Stripped(CommentText(s[..n]) + r.text, r.rest)
  }

  // ---------------------------------------------------------------------------
  // Statements
  // ---------------------------------------------------------------------------

  /** Each parsed statement pretty-printed and followed by ";\n", in order. */
  function Pretties<A>(p: Parser<A>, asts: seq<A>): string
    decreases |asts|
  {
    if |asts| == 0 then ""
    else Pretties(p, asts[..|asts| - 1]) + p.pretty(asts[|asts| - 1]) + ";\n"
  }

  /** A text cut after its first statement. */
  datatype Cut = Cut(next: string, rest: string)

  /** `SplitFirstStatement` applied: a positive position cuts the text there,
      anything else takes it all. */
  function SplitFirst<A>(p: Parser<A>, s: string): (c: Cut)
    requires SplitsWithin(p)
    ensures c.rest == "" || |c.rest| < |s|
  {
    var pos := p.split(s);
    if pos > 0 then Cut(s[..pos], s[pos..]) else Cut(s, "")
  }

  /** What a round writes after its comments: the statements, then a newline
      when a comment or a statement was written. */
  function Emitted<A>(p: Parser<A>, comments: string, asts: seq<A>, hadComment: bool): (text: string)
    requires hadComment || comments == ""
    ensures |comments| <= |text| && text[..|comments|] == comments
    ensures text == "" || text[|text| - 1] == '\n'
    ensures hadComment ==> text != ""
  {
    var hasContent := hadComment || |asts| > 0;
    comments + Pretties(p, asts) + (if hasContent then "\n" else "")
  }

  /** What one round of the middle loop writes and what it leaves in `stmt`. */
  datatype Chunk = Chunk(text: string, rest: string)

  /** One round of the middle loop: trim, copy the comments, cut off the first
      statement, parse it and print it. A parse error ends the round with that
      error. Each round consumes at least one character, so the loop
      terminates. */
  function Round<A>(p: Parser<A>, stmt: string): (r: Result<Chunk, GoError>)
    requires SplitsWithin(p)
    ensures r.Ok? && |stmt| > 0 ==> |r.value.rest| < |stmt|
  {
    var t := TrimSpace(stmt);
    var c := StripComments(t);
    var cut := SplitFirst(p, c.rest);
    match p.parse(cut.next)
    case Err(e) => Err(e)
    case Ok(asts) => Ok(Chunk(Emitted(p, c.text, asts, CommentMatch(t) > 0), cut.rest))
  }

  /** `x` written before whatever `r` writes; an error stays that error. */
  function Prepend(x: string, r: Result<string, GoError>): Result<string, GoError>
  {
    match r
    case Ok(v) => Ok(x + v)
    case Err(e) => Err(e)
  }

  /** The middle loop over one input text: rounds until nothing is left. */
  function Chunks<A>(p: Parser<A>, stmt: string): Result<string, GoError>
    requires SplitsWithin(p)
    decreases |stmt|
  {
    if |stmt| == 0 then Ok("")
    else
      match Round(p, stmt)
      case Err(e) => Err(e)
      case Ok(c) => Prepend(c.text, Chunks(p, c.rest))
  }

  /** The results of the texts, in order. */
  function Results<A>(p: Parser<A>, stmts: seq<string>): (rs: seq<Result<string, GoError>>)
    requires SplitsWithin(p)
    ensures |rs| == |stmts|
    ensures forall i {:trigger Chunks(p, stmts[i])} :: 0 <= i < |stmts| ==> rs[i] == Chunks(p, stmts[i])
  {
    seq(|stmts|, i requires 0 <= i < |stmts| => Chunks(p, stmts[i]))
  }

  /** The outer loop over the results: their texts concatenated in order, or
      the first error. */
  function Concat(rs: seq<Result<string, GoError>>): Result<string, GoError>
    decreases |rs|
  {
    if |rs| == 0 then Ok("")
    else
      match Concat(rs[..|rs| - 1])
      case Err(e) => Err(e)
      case Ok(a) => Prepend(a, rs[|rs| - 1])
  }

  /** What the builder holds after all the texts. */
  function Body<A>(p: Parser<A>, stmts: seq<string>): Result<string, GoError>
    requires SplitsWithin(p)
  {
    Concat(Results(p, stmts))
  }

  /** `fmtsql`'s result: the body with trailing white space removed, or the
      first parse error. The text never ends in white space. */
  function Format<A>(p: Parser<A>, stmts: seq<string>): (r: Result<string, GoError>)
    requires SplitsWithin(p)
    ensures r.Ok? ==> r.value == "" || !IsSpace(r.value[|r.value| - 1])
    ensures r.Err? <==> Body(p, stmts).Err?
  {
    match Body(p, stmts)
    case Err(e) => Err(e)
    case Ok(s) => Ok(TrimRightSpace(s))
  }

  // ---------------------------------------------------------------------------
  // The imperative driver
  // ---------------------------------------------------------------------------

  lemma PrependAssoc(a: string, b: string, r: Result<string, GoError>)
    ensures Prepend(a, Prepend(b, r)) == Prepend(a + b, r)
  {
    if r.Ok? {
      assert a + (b + r.value) == (a + b) + r.value;
    }
  }

  /** An error among the first `j` results is the error of all of them. */
  lemma {:induction false} ConcatErrorStays(rs: seq<Result<string, GoError>>, j: nat, e: GoError)
    requires j <= |rs| && Concat(rs[..j]) == Err(e)
    ensures Concat(rs) == Err(e)
    decreases |rs| - j
  {
    if j < |rs| {
      assert rs[..j + 1][..j] == rs[..j];
      ConcatErrorStays(rs, j + 1, e);
    } else {
      assert rs[..j] == rs;
    }
  }

  /** The comment loop of a round: copies every leading comment match to the
      builder and drops it from `stmt`; `found` says whether there was one. */
  method WriteComments(prettied: string, stmt: string) returns (out: string, rest: string, found: bool)
    ensures out == prettied + StripComments(stmt).text
    ensures rest == StripComments(stmt).rest
    ensures found <==> CommentMatch(stmt) > 0
  {
    out := prettied;
    rest := stmt;
    found := false;
    while true
      invariant prettied + StripComments(stmt).text == out + StripComments(rest).text
      invariant StripComments(rest).rest == StripComments(stmt).rest
      invariant !found ==> rest == stmt
      invariant found ==> CommentMatch(stmt) > 0
      decreases |rest|
    {
      var comment := rest[..CommentMatch(rest)];
      if comment == "" {
        break;
      }
      ghost var last := out;
      out := out + TrimRightSpace(comment);
      var newlines := Count(comment, '\n');
      if newlines > 2 {
        newlines := 2;
      }
      out := out + Repeat('\n', newlines);
      Assoc(last, TrimRightSpace(comment), Repeat('\n', newlines));
      assert out == last + CommentText(comment);
      ghost var whole := rest;
      rest := rest[|comment|..];
      found := true;
      assert StripComments(whole).text == CommentText(comment) + StripComments(rest).text;
      Assoc(last, CommentText(comment), StripComments(rest).text);
    }
  }

  /** The statement loop of a round: each statement pretty-printed and
      followed by ";\n"; `wrote` says whether there was one. */
  method WriteStatements<A>(p: Parser<A>, prettied: string, asts: seq<A>) returns (out: string, wrote: bool)
    ensures out == prettied + Pretties(p, asts)
    ensures wrote <==> |asts| > 0
  {
    out := prettied;
    wrote := false;
    for k := 0 to |asts|
      invariant out == prettied + Pretties(p, asts[..k])
      invariant wrote <==> k > 0
    {
      out := out + p.pretty(asts[k]);
      out := out + ";\n";
      wrote := true;
      assert asts[..k + 1][..k] == asts[..k];
    }
    assert asts[..|asts|] == asts;
  }

  /** `Round` once the parser's answer for the cut-off statement is known. */
  lemma RoundParsed<A>(p: Parser<A>, stmt: string, parsed: Result<seq<A>, GoError>)
    requires SplitsWithin(p)
    requires parsed == p.parse(SplitFirst(p, StripComments(TrimSpace(stmt)).rest).next)
    ensures parsed.Err? ==> Round(p, stmt) == Err(parsed.error)
    ensures parsed.Ok? ==>
      var t := TrimSpace(stmt);
      Round(p, stmt) == Ok(Chunk(Emitted(p, StripComments(t).text, parsed.value, CommentMatch(t) > 0),
                                 SplitFirst(p, StripComments(t).rest).rest))
  {
  }

  /** One round of the middle loop on the builder: what `Round` writes is
      appended, or the parse error is returned. */
  method WriteRound<A>(p: Parser<A>, prettied: string, stmt: string) returns (out: string, rest: string, err: Option<GoError>)
    requires SplitsWithin(p)
    ensures err.Some? ==> Round(p, stmt) == Err(err.value)
    ensures err.None? ==> Round(p, stmt).Ok? && out == prettied + Round(p, stmt).value.text && rest == Round(p, stmt).value.rest
  {
    var t := TrimSpace(stmt);
    var hasContent;
    out, rest, hasContent := WriteComments(prettied, t);
    ghost var comments := StripComments(t).text;
    var next := rest;
    var pos := p.split(rest);
    if pos > 0 {
      next := rest[..pos];
      rest := rest[pos..];
    } else {
      rest := "";
    }
    assert Cut(next, rest) == SplitFirst(p, StripComments(t).rest);
    var allParsed := p.parse(next);
    RoundParsed(p, stmt, allParsed);
    if allParsed.Err? {
      return out, rest, Some(allParsed.error);
    }
    ghost var afterComments := out;
    var wrote;
    out, wrote := WriteStatements(p, out, allParsed.value);
    hasContent := hasContent || wrote;
    ghost var printed := Pretties(p, allParsed.value);
    ghost var newline := if hasContent then "\n" else "";
    ghost var beforeNewline := out;
    if hasContent {
      out := out + "\n";
    } else {
      assert out + "" == out;
    }
    assert out == beforeNewline + newline;
    Assoc(prettied, comments, printed);
    Assoc(prettied, comments + printed, newline);
    assert Emitted(p, comments, allParsed.value, CommentMatch(t) > 0) == comments + printed + newline;
    err := None;
  }

  /** `fmtsql`, with `prettied` as the `strings.Builder`. */
  method FmtSql<A>(p: Parser<A>, stmts: seq<string>) returns (out: string, err: Option<GoError>)
    requires SplitsWithin(p)
    ensures err.None? ==> Format(p, stmts) == Ok(out)
    ensures err.Some? ==> out == "" && Format(p, stmts) == Err(err.value)
  {
    ghost var rs := Results(p, stmts);
    var prettied := "";
    for i := 0 to |stmts|
      invariant Concat(rs[..i]) == Ok(prettied)
    {
      var stmt := stmts[i];
      ghost var base := prettied;
      assert rs[i] == Chunks(p, stmts[i]);
      while |stmt| > 0
        invariant Prepend(prettied, Chunks(p, stmt)) == Prepend(base, rs[i])
        decreases |stmt|
      {
        ghost var entry := stmt;
        ghost var before := prettied;
        var roundErr;
        prettied, stmt, roundErr := WriteRound(p, prettied, stmt);
        if roundErr.Some? {
          assert rs[..i + 1][..i] == rs[..i];
          ConcatErrorStays(rs, i + 1, roundErr.value);
          return "", roundErr;
        }
        PrependAssoc(before, Round(p, entry).value.text, Chunks(p, stmt));
      }
      assert prettied + "" == prettied;
      assert rs[..i + 1][..i] == rs[..i];
    }
    assert rs[..|stmts|] == rs;
    out := TrimRightSpace(prettied);
    err := None;
  }

  // ---------------------------------------------------------------------------
  // Properties
  // ---------------------------------------------------------------------------

  /** Result `i` is the first error, and it is `e`. */
  predicate FailsFirstAt(rs: seq<Result<string, GoError>>, e: GoError, i: int)
  {
    && 0 <= i < |rs|
    && rs[i] == Err(e)
    && forall j :: 0 <= j < i ==> rs[j].Ok?
  }

  /** The concatenation fails exactly when some result is an error, and then
      with the first one. */
  lemma {:induction false} FirstError(rs: seq<Result<string, GoError>>, e: GoError)
    ensures Concat(rs) == Err(e) <==> exists i :: FailsFirstAt(rs, e, i)
    decreases |rs|
  {
    if |rs| > 0 {
      var init := rs[..|rs| - 1];
      var last := |rs| - 1;
      FirstError(init, e);
      if Concat(rs) == Err(e) {
        if Concat(init).Ok? {
          AllOk(init);
          assert FailsFirstAt(rs, e, last);
        } else {
          var i :| FailsFirstAt(init, e, i);
          assert FailsFirstAt(rs, e, i);
        }
      } else if exists i :: FailsFirstAt(rs, e, i) {
        var i :| FailsFirstAt(rs, e, i);
        if i < last {
          assert FailsFirstAt(init, e, i);
        } else {
          OkWhenAllOk(init);
        }
      }
    }
  }

  /** A concatenation that succeeds has no error among its results. */
  lemma {:induction false} AllOk(rs: seq<Result<string, GoError>>)
    requires Concat(rs).Ok?
    ensures forall j :: 0 <= j < |rs| ==> rs[j].Ok?
    decreases |rs|
  {
    if |rs| > 0 {
      AllOk(rs[..|rs| - 1]);
    }
  }

  /** A concatenation of results none of which is an error succeeds. */
  lemma {:induction false} OkWhenAllOk(rs: seq<Result<string, GoError>>)
    requires forall j :: 0 <= j < |rs| ==> rs[j].Ok?
    ensures Concat(rs).Ok?
    decreases |rs|
  {
    if |rs| > 0 {
      OkWhenAllOk(rs[..|rs| - 1]);
    }
  }

  /** The formatter fails exactly when one of its texts fails, and then with
      the error of the first text that fails; a parse error gives no text. */
  lemma FirstErrorWins<A>(p: Parser<A>, stmts: seq<string>, e: GoError)
    requires SplitsWithin(p)
    ensures Format(p, stmts) == Err(e) <==> exists i :: FailsFirstAt(Results(p, stmts), e, i)
  {
    FirstError(Results(p, stmts), e);
  }

  /** Concatenating `a + b` gives the text of `a` and then that of `b`. */
  lemma {:induction false} ConcatAppend(a: seq<Result<string, GoError>>, b: seq<Result<string, GoError>>)
    ensures Concat(a + b) == (match Concat(a) case Err(e) => Err(e) case Ok(x) => Prepend(x, Concat(b)))
    decreases |b|
  {
    if |b| == 0 {
      assert a + b == a;
      if Concat(a).Ok? {
        assert Concat(a).value + "" == Concat(a).value;
      }
    } else {
      var b' := b[..|b| - 1];
      assert (a + b)[..|a + b| - 1] == a + b';
      assert (a + b)[|a + b| - 1] == b[|b| - 1];
      ConcatAppend(a, b');
      if Concat(a).Ok? && Concat(b').Ok? {
        PrependAssoc(Concat(a).value, Concat(b').value, b[|b| - 1]);
      }
    }
  }

  /** The output keeps the order of the input texts: formatting `s + t` writes
      the output of `s` and then that of `t`. */
  lemma BodyAppend<A>(p: Parser<A>, s: seq<string>, t: seq<string>)
    requires SplitsWithin(p)
    ensures Body(p, s + t) == (match Body(p, s) case Err(e) => Err(e) case Ok(x) => Prepend(x, Body(p, t)))
  {
    assert Results(p, s + t) == Results(p, s) + Results(p, t);
    ConcatAppend(Results(p, s), Results(p, t));
  }

  /** Within one round the statements are printed in the parser's order. */
  lemma {:induction false} PrettiesAppend<A>(p: Parser<A>, a: seq<A>, b: seq<A>)
    ensures Pretties(p, a + b) == Pretties(p, a) + Pretties(p, b)
    decreases |b|
  {
    if |b| == 0 {
      assert a + b == a;
    } else {
      var b' := b[..|b| - 1];
      assert (a + b)[..|a + b| - 1] == a + b';
      assert (a + b)[|a + b| - 1] == b[|b| - 1];
      PrettiesAppend(p, a, b');
    }
  }

  /** A round that wrote a comment or a statement ended its text with a
      newline; one that wrote neither wrote nothing. */
  lemma RoundEndsWithNewline<A>(p: Parser<A>, stmt: string)
    requires SplitsWithin(p) && Round(p, stmt).Ok?
    ensures var text := Round(p, stmt).value.text;
      && (text == "" || text[|text| - 1] == '\n')
      && (CommentMatch(TrimSpace(stmt)) > 0 ==> text != "")
  {
    var t := TrimSpace(stmt);
    var c := StripComments(t);
    var asts := p.parse(SplitFirst(p, c.rest).next).value;
    assert Round(p, stmt).value.text == Emitted(p, c.text, asts, CommentMatch(t) > 0);
  }

  /** The comments copied from a text start with its first comment match,
      trailing white space removed. */
  lemma StripKeepsFirst(t: string)
    requires CommentMatch(t) > 0
    ensures HasPrefix(StripComments(t).text, TrimRightSpace(t[..CommentMatch(t)]))
  {
    var n := CommentMatch(t);
    var head := TrimRightSpace(t[..n]);
    var newlines := Repeat('\n', Min(Count(t[..n], '\n'), 2));
    var later := StripComments(t[n..]).text;
    assert StripComments(t).text == CommentText(t[..n]) + later;
    Assoc(head, newlines, later);
    assert (head + (newlines + later))[..|head|] == head;
  }

  /** A round writes the comments it copied before anything else. */
  lemma RoundStartsWithComments<A>(p: Parser<A>, stmt: string)
    requires SplitsWithin(p) && Round(p, stmt).Ok?
    ensures HasPrefix(Round(p, stmt).value.text, StripComments(TrimSpace(stmt)).text)
  {
    var t := TrimSpace(stmt);
    var c := StripComments(t);
    var asts := p.parse(SplitFirst(p, c.rest).next).value;
    assert Round(p, stmt).value.text == Emitted(p, c.text, asts, CommentMatch(t) > 0);
  }

  /** A comment at the front of a text is kept: the round writes it first,
      without its trailing white space. */
  lemma CommentKept<A>(p: Parser<A>, stmt: string)
    requires SplitsWithin(p)
    requires Round(p, stmt).Ok? && CommentMatch(TrimSpace(stmt)) > 0
    ensures var t := TrimSpace(stmt);
      HasPrefix(Round(p, stmt).value.text, TrimRightSpace(t[..CommentMatch(t)]))
  {
    var t := TrimSpace(stmt);
    StripKeepsFirst(t);
    RoundStartsWithComments(p, stmt);
    PrefixTransitive(Round(p, stmt).value.text, StripComments(t).text, TrimRightSpace(t[..CommentMatch(t)]));
  }

  lemma PrefixTransitive(a: string, b: string, c: string)
    requires HasPrefix(a, b) && HasPrefix(b, c)
    ensures HasPrefix(a, c)
  {
    assert a[..|c|] == a[..|b|][..|c|];
  }

  /** A parse error in the first text aborts the whole run with that error. */
  lemma ParseErrorAborts<A>(p: Parser<A>, stmts: seq<string>, e: GoError)
    requires SplitsWithin(p)
    requires |stmts| > 0 && |stmts[0]| > 0 && Round(p, stmts[0]) == Err(e)
    ensures Format(p, stmts) == Err(e)
  {
    var rs := Results(p, stmts);
    assert Chunks(p, stmts[0]) == Err(e);
    assert rs[0] == Chunks(p, stmts[0]);
    var first := rs[..1];
    assert first[..0] == [] && first[0] == rs[0];
    assert Concat(first) == Err(e);
    ConcatErrorStays(rs, 1, e);
  }
}
