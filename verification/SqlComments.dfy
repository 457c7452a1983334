/** Removal of SQL line comments (src/persistence/migration_runner.py:28-62) against a lexer. */
module SqlComments {
  import opened Strings

  datatype Token = Plain(c: char) | Literal(text: string) | Comment(text: string)

  // ---------- the lexer ----------

  /** How far a string literal runs from inside it: to its closing quote, a doubled quote being part of
      it, or to the end of the text. */
  function LiteralRest(s: string): (n: nat)
    ensures n <= |s| && (s != "" ==> n >= 1)
  {
    if s == "" then 0
    else if s[0] == '\'' && |s| > 1 && s[1] == '\'' then 2 + LiteralRest(s[2..])
    else if s[0] == '\'' then 1
    else 1 + LiteralRest(s[1..])
  }

  /** How far a comment runs: up to the end of its line. */
  function CommentLength(s: string): (n: nat)
    ensures n <= |s| && (s != "" && s[0] != '\n' ==> n >= 1)
  {
    if s == "" || s[0] == '\n' then 0 else 1 + CommentLength(s[1..])
  }

  predicate StartsComment(s: string) {
    |s| >= 2 && s[0] == '-' && s[1] == '-'
  }

  function TokenLength(s: string): (n: nat)
    requires s != ""
    ensures 1 <= n <= |s|
  {
    if s[0] == '\'' then 1 + LiteralRest(s[1..])
    else if StartsComment(s) then CommentLength(s)
    else 1
  }

  function FirstToken(s: string): Token
    requires s != ""
  {
    var text := s[..TokenLength(s)];
    if s[0] == '\'' then Literal(text) else if StartsComment(s) then Comment(text) else Plain(s[0])
  }

  function Lex(s: string): seq<Token> {
    if s == "" then [] else [FirstToken(s)] + Lex(s[TokenLength(s)..])
  }

  // ---------- what stripping means ----------

  function TextOf(t: Token): string {
    match t
    case Plain(c) => [c]
    case Literal(text) => text
    case Comment(text) => text
  }

  function Text(ts: seq<Token>): string {
    if ts == [] then "" else TextOf(ts[0]) + Text(ts[1..])
  }

  function Kept(ts: seq<Token>): seq<Token> {
    if ts == [] then []
    else if ts[0].Comment? then Kept(ts[1..])
    else [ts[0]] + Kept(ts[1..])
  }

  function Strip(s: string): string {
    Text(Kept(Lex(s)))
  }

  lemma {:induction false} LexLosesNothing(s: string)
    ensures Text(Lex(s)) == s
  {
    if s != "" {
      LexLosesNothing(s[TokenLength(s)..]);
      assert Lex(s)[1..] == Lex(s[TokenLength(s)..]);
    }
  }

  lemma StripStep(s: string)
    requires s != ""
    ensures Strip(s) == (if FirstToken(s).Comment? then "" else s[..TokenLength(s)]) + Strip(s[TokenLength(s)..])
  {
    var rest := Lex(s[TokenLength(s)..]);
    assert Lex(s)[1..] == rest;
    assert ([FirstToken(s)] + Kept(rest))[1..] == Kept(rest);
  }

  // ---------- the loop ----------

  /** What is still to come when the scan stands inside a literal. */
  function Resumed(s: string): string {
    s[..LiteralRest(s)] + Strip(s[LiteralRest(s)..])
  }

  lemma ResumedStep(s: string)
    requires s != ""
    ensures Resumed(s) == if s[0] == '\'' && |s| > 1 && s[1] == '\'' then s[..2] + Resumed(s[2..])
                          else if s[0] == '\'' then s[..1] + Strip(s[1..])
                          else s[..1] + Resumed(s[1..])
  {
    hide Strip;
    if s[0] == '\'' && |s| > 1 && s[1] == '\'' {
      assert s[2..][LiteralRest(s[2..])..] == s[LiteralRest(s)..];
      assert s[..LiteralRest(s)] == s[..2] + s[2..][..LiteralRest(s[2..])];
    } else if s[0] != '\'' {
      assert s[1..][LiteralRest(s[1..])..] == s[LiteralRest(s)..];
      assert s[..LiteralRest(s)] == s[..1] + s[1..][..LiteralRest(s[1..])];
    }
  }

  lemma StripOpens(s: string)
    requires s != "" && s[0] == '\''
    ensures Strip(s) == s[..1] + Resumed(s[1..])
  {
    hide Strip, LiteralRest;
    StripStep(s);
    var n := LiteralRest(s[1..]);
    assert s[..1 + n] == s[..1] + s[1..][..n];
    assert s[1..][n..] == s[1 + n..];
  }

  lemma TailOfTail(sql: string, index: nat, k: nat)
    requires index + k <= |sql|
    ensures sql[index..][k..] == sql[index + k..]
  {
  }

  /** One turn inside a literal. */
  lemma InsideTurn(sql: string, index: nat)
    requires index < |sql|
    ensures Resumed(sql[index..]) ==
            if sql[index] == '\'' && index + 1 < |sql| && sql[index + 1] == '\'' then [sql[index], sql[index + 1]] + Resumed(sql[index + 2..])
            else if sql[index] == '\'' then [sql[index]] + Strip(sql[index + 1..])
            else [sql[index]] + Resumed(sql[index + 1..])
  {
    hide Strip, Resumed;
    var rest := sql[index..];
    ResumedStep(rest);
    TailOfTail(sql, index, 1);
    assert rest[..1] == [sql[index]];
    if |rest| > 1 {
      TailOfTail(sql, index, 2);
      assert rest[..2] == [sql[index], sql[index + 1]];
    }
  }

  /** One turn outside. */
  lemma OutsideTurn(sql: string, index: nat)
    requires index < |sql|
    ensures Strip(sql[index..]) ==
            if sql[index] == '\'' then [sql[index]] + Resumed(sql[index + 1..])
            else if StartsComment(sql[index..]) then Strip(sql[index + CommentLength(sql[index..])..])
            else [sql[index]] + Strip(sql[index + 1..])
  {
    hide Strip, Resumed, CommentLength;
    var rest := sql[index..];
    TailOfTail(sql, index, 1);
    assert rest[..1] == [sql[index]];
    if sql[index] == '\'' {
      StripOpens(rest);
    } else if StartsComment(rest) {
      CommentStep(rest);
      TailOfTail(sql, index, CommentLength(rest));
    } else {
      PlainStep(rest);
    }
  }

  method StripSqlLineComments(sql: string) returns (r: string)
    ensures r == Strip(sql)
  {
    hide Strip, Resumed, CommentLength;
    var out := "";
    var index := 0;
    var inString := false;
    ghost var pending := Strip(sql);
    assert sql[0..] == sql;
    NothingBefore(pending);
    while index < |sql|
      invariant 0 <= index <= |sql|
      invariant pending == if inString then Resumed(sql[index..]) else Strip(sql[index..])
      invariant out + pending == Strip(sql)
    {
      var c := sql[index];
      if inString {
        InsideTurn(sql, index);
        if c == '\'' && index + 1 < |sql| && sql[index + 1] == '\'' {
          pending := Resumed(sql[index + 2..]);
          Emitted(out, [c, sql[index + 1]], pending);
          out := out + [c, sql[index + 1]];
          index := index + 2;
        } else {
          pending := if c == '\'' then Strip(sql[index + 1..]) else Resumed(sql[index + 1..]);
          Emitted(out, [c], pending);
          out := out + [c];
          if c == '\'' {
            inString := false;
          }
          index := index + 1;
        }
      } else {
        OutsideTurn(sql, index);
        if c == '\'' {
          pending := Resumed(sql[index + 1..]);
          Emitted(out, [c], pending);
          inString := true;
          out := out + [c];
          index := index + 1;
        } else if c == '-' && index + 1 < |sql| && sql[index + 1] == '-' {
          index := SkipComment(sql, index);
          pending := Strip(sql[index..]);
        } else {
          pending := Strip(sql[index + 1..]);
          Emitted(out, [c], pending);
          out := out + [c];
          index := index + 1;
        }
      }
    }
    EndOfText();
    assert sql[index..] == "" && out + "" == out;
    return out;
  }

  /** Text moved from what is pending to what is written. */
  lemma Emitted(out: string, text: string, tail: string)
    ensures out + (text + tail) == (out + text) + tail
  {
  }

  lemma NothingBefore(tail: string)
    ensures "" + tail == tail
  {
  }

  method SkipComment(sql: string, start: nat) returns (index: nat)
    requires start <= |sql|
    ensures index == start + CommentLength(sql[start..]) && index <= |sql|
  {
    index := start;
    while index < |sql| && sql[index] != '\n'
      invariant start <= index <= |sql|
      invariant index + CommentLength(sql[index..]) == start + CommentLength(sql[start..])
    {
      assert sql[index..][1..] == sql[index + 1..];
      index := index + 1;
    }
  }

  lemma CommentStep(s: string)
    requires StartsComment(s)
    ensures Strip(s) == Strip(s[CommentLength(s)..])
  {
    StripStep(s);
    hide Strip;
  }

  lemma PlainStep(s: string)
    requires s != "" && s[0] != '\'' && !StartsComment(s)
    ensures Strip(s) == [s[0]] + Strip(s[1..])
  {
    StripStep(s);
    hide Strip;
  }

  lemma EndOfTokens()
    ensures Lex("") == [] && Kept([]) == []
  {
  }

  lemma EndOfText()
    ensures Strip("") == "" && Resumed("") == ""
  {
  }

  // ---------- the stripped text lexes to the same tokens, comments gone ----------

  lemma LiteralStep(s: string)
    ensures s == "" ==> LiteralRest(s) == 0
    ensures s != "" && s[0] != '\'' ==> LiteralRest(s) == 1 + LiteralRest(s[1..])
    ensures s != "" && s[0] == '\'' && (|s| == 1 || s[1] != '\'') ==> LiteralRest(s) == 1
    ensures |s| > 1 && s[0] == '\'' && s[1] == '\'' ==> LiteralRest(s) == 2 + LiteralRest(s[2..])
  {
  }

  /** A literal is read the same whatever follows it, as long as no quote does. */
  lemma {:induction false} LiteralStable(s: string, tail: string)
    requires |s| == LiteralRest(s) ==> tail == ""
    requires tail != "" ==> tail[0] != '\''
    ensures LiteralRest(s[..LiteralRest(s)] + tail) == LiteralRest(s)
  {
    hide LiteralRest;
    LiteralStep(s);
    var n := LiteralRest(s);
    var t := s[..n] + tail;
    LiteralStep(t);
    if s == "" {
    } else if s[0] == '\'' && |s| > 1 && s[1] == '\'' {
      LiteralStable(s[2..], tail);
      assert t[2..] == s[2..][..n - 2] + tail;
    } else if s[0] != '\'' {
      LiteralStable(s[1..], tail);
      assert t[1..] == s[1..][..n - 1] + tail;
    }
  }

  /** A closing quote is never followed by another. */
  lemma {:induction false} NoQuoteAfterLiteral(s: string)
    ensures LiteralRest(s) < |s| ==> s[LiteralRest(s)] != '\''
  {
    if s == "" {
    } else if s[0] == '\'' && |s| > 1 && s[1] == '\'' {
      NoQuoteAfterLiteral(s[2..]);
    } else if s[0] != '\'' {
      NoQuoteAfterLiteral(s[1..]);
    }
  }

  lemma {:induction false} CommentStops(s: string)
    ensures CommentLength(s) < |s| ==> s[CommentLength(s)] == '\n'
    ensures forall k | 0 <= k < CommentLength(s) :: s[k] != '\n'
  {
    if s != "" && s[0] != '\n' {
      CommentStops(s[1..]);
    }
  }

  /** Stripping does not change how a text begins, unless it begins with a comment; then what is left
      begins with the end of that line. */
  lemma StripStarts(s: string)
    requires s != ""
    ensures !StartsComment(s) ==> Strip(s) != "" && Strip(s)[0] == s[0]
    ensures StartsComment(s) && Strip(s) != "" ==> Strip(s)[0] == '\n'
  {
    hide LiteralRest, Strip;
    StripStep(s);
    if StartsComment(s) {
      var rest := s[TokenLength(s)..];
      CommentStops(s);
      if rest == "" {
        EndOfText();
      } else {
        PlainStep(rest);
      }
    }
  }

  lemma {:induction false} StrippedLexes(s: string)
    ensures Lex(Strip(s)) == Kept(Lex(s))
  {
    hide Strip, Lex, Kept, FirstToken, TokenLength;
    if s == "" {
      EndOfText();
      EndOfTokens();
    } else {
      var n := TokenLength(s);
      var rest := s[n..];
      StrippedLexes(rest);
      StripStep(s);
      KeptStep(s);
      if !FirstToken(s).Comment? {
        FirstStays(s);
        assert Strip(s)[n..] == Strip(rest);
        LexStep(Strip(s));
      } else {
        assert "" + Strip(rest) == Strip(rest);
        assert [] + Kept(Lex(rest)) == Kept(Lex(rest));
      }
    }
  }

  lemma LexStep(s: string)
    requires s != ""
    ensures Lex(s) == [FirstToken(s)] + Lex(s[TokenLength(s)..])
  {
  }

  lemma KeptStep(s: string)
    requires s != ""
    ensures Kept(Lex(s)) == (if FirstToken(s).Comment? then [] else [FirstToken(s)]) + Kept(Lex(s[TokenLength(s)..]))
  {
    assert Lex(s)[1..] == Lex(s[TokenLength(s)..]);
  }

  /** The first token of a text is still the first one when everything after it is stripped. */
  lemma FirstStays(s: string)
    requires s != "" && !FirstToken(s).Comment?
    ensures var t := s[..TokenLength(s)] + Strip(s[TokenLength(s)..]);
      t != "" && TokenLength(t) == TokenLength(s) && FirstToken(t) == FirstToken(s)
  {
    hide Strip, LiteralRest;
    var n := TokenLength(s);
    var rest := s[n..];
    var t := s[..n] + Strip(rest);
    if rest == "" {
      EndOfText();
      assert t == s;
    } else {
      StripStarts(rest);
      if s[0] == '\'' {
        NoQuoteAfterLiteral(s[1..]);
        assert s[1..][n - 1..] == rest && rest[0] == s[1..][n - 1];
        LiteralStable(s[1..], Strip(rest));
        assert t[1..] == s[1..][..n - 1] + Strip(rest);
        assert t[..n] == s[..n];
      }
    }
  }

  // ---------- consequences ----------

  predicate CommentFree(ts: seq<Token>) {
    forall t | t in ts :: !t.Comment?
  }

  function Literals(ts: seq<Token>): seq<string> {
    if ts == [] then []
    else if ts[0].Literal? then [ts[0].text] + Literals(ts[1..])
    else Literals(ts[1..])
  }

  lemma {:induction false} KeptFacts(ts: seq<Token>)
    ensures CommentFree(Kept(ts)) && Literals(Kept(ts)) == Literals(ts)
    ensures CommentFree(ts) ==> Kept(ts) == ts
  {
    if ts != [] {
      KeptFacts(ts[1..]);
      var kept := Kept(ts[1..]);
      assert ([ts[0]] + kept)[1..] == kept;
      assert ts == [ts[0]] + ts[1..];
    }
  }

  /** Outside literals two dashes in a row are a comment, so a text without comments has none. */
  lemma {:induction false} DashesAreComments(s: string)
    ensures forall k | 0 <= k < |Lex(s)| - 1 :: !(Lex(s)[k] == Plain('-') && Lex(s)[k + 1] == Plain('-'))
  {
    hide LiteralRest, CommentLength;
    if s != "" {
      var n := TokenLength(s);
      DashesAreComments(s[n..]);
      assert Lex(s)[1..] == Lex(s[n..]);
      forall k | 0 <= k < |Lex(s)| - 1
        ensures !(Lex(s)[k] == Plain('-') && Lex(s)[k + 1] == Plain('-'))
      {
        if k == 0 {
          assert Lex(s)[1] == FirstToken(s[n..]);
        } else {
          assert Lex(s)[k] == Lex(s[n..])[k - 1];
        }
      }
    }
  }

  /** Every string literal comes through in order, no comment is left, no two dashes stand together outside
      a literal, a second pass changes nothing, and neither does a first pass over comment-free text. */
  lemma StrippingIsSafe(s: string)
    ensures var t := Strip(s);
      && Literals(Lex(t)) == Literals(Lex(s)) && CommentFree(Lex(t)) && Strip(t) == t
      && (forall k | 0 <= k < |Lex(t)| - 1 :: !(Lex(t)[k] == Plain('-') && Lex(t)[k + 1] == Plain('-')))
      && (t == s <==> CommentFree(Lex(s)))
  {
    hide Lex, Kept;
    StrippedLexes(s);
    KeptFacts(Lex(s));
    KeptFacts(Kept(Lex(s)));
    DashesAreComments(Strip(s));
    LexLosesNothing(s);
    LexLosesNothing(Strip(s));
  }

  // ---------- lines ----------

  ghost predicate LinePrefixes(stripped: seq<string>, original: seq<string>) {
    |stripped| == |original| && forall k | 0 <= k < |original| :: stripped[k] <= original[k]
  }

  /** Splitting a text by its first character. */
  lemma OneMoreChar(head: string, rest: string)
    requires head != ""
    ensures var tail := Split(head[1..] + rest, '\n');
      Split(head + rest, '\n') == if head[0] == '\n' then [""] + tail else [[head[0]] + tail[0]] + tail[1..]
  {
    assert (head + rest)[1..] == head[1..] + rest;
  }

  lemma {:induction false} SamePrefixLines(head: string, a: string, b: string)
    requires LinePrefixes(Split(a, '\n'), Split(b, '\n'))
    ensures LinePrefixes(Split(head + a, '\n'), Split(head + b, '\n'))
  {
    if head == "" {
      assert head + a == a && head + b == b;
    } else {
      SamePrefixLines(head[1..], a, b);
      OneMoreChar(head, a);
      OneMoreChar(head, b);
      hide Split;
    }
  }

  lemma {:induction false} NoNewlineHead(head: string, rest: string)
    requires '\n' !in head
    ensures Split(head + rest, '\n') == [head + Split(rest, '\n')[0]] + Split(rest, '\n')[1..]
  {
    hide Split;
    var tail := Split(rest, '\n');
    if head == "" {
      assert head + rest == rest && head + tail[0] == tail[0];
      assert [tail[0]] + tail[1..] == tail;
    } else {
      assert '\n' !in head[1..] by { assert forall c | c in head[1..] :: c in head; }
      NoNewlineHead(head[1..], rest);
      OneMoreChar(head, rest);
      var one := [head[1..] + tail[0]] + tail[1..];
      assert one[0] == head[1..] + tail[0] && one[1..] == tail[1..];
      assert [head[0]] + (head[1..] + tail[0]) == head + tail[0];
    }
  }

  /** Line for line, the result is what the original line begins with: no newline is lost or added, inside
      literals or outside, and positions of errors stay on their lines. */
  lemma {:induction false} LinesArePrefixes(s: string)
    ensures LinePrefixes(Split(Strip(s), '\n'), Split(s, '\n'))
  {
    hide Strip, LiteralRest;
    if s == "" {
      EndOfText();
    } else {
      var n := TokenLength(s);
      var head, rest := s[..n], s[n..];
      assert s == head + rest;
      StripStep(s);
      LinesArePrefixes(rest);
      if FirstToken(s).Comment? {
        CommentStops(s);
        NoNewlineHead(head, rest);
        assert Split(rest, '\n')[0] == "";
        assert "" + Strip(rest) == Strip(rest);
      } else {
        SamePrefixLines(head, Strip(rest), rest);
      }
    }
  }
}
