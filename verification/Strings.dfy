/** Splitting and joining text, as str.split and str.join do. */
module Strings {

  function Split(s: string, sep: char): (parts: seq<string>)
    ensures |parts| >= 1
  {
    if s == "" then [""]
    else
      var rest := Split(s[1..], sep);
      if s[0] == sep then [""] + rest else [[s[0]] + rest[0]] + rest[1..]
  }

  function Join(parts: seq<string>, sep: char): string
    requires |parts| >= 1
  {
    if |parts| == 1 then parts[0] else parts[0] + [sep] + Join(parts[1..], sep)
  }

  lemma {:induction false} SplitsBack(s: string, sep: char)
    ensures Join(Split(s, sep), sep) == s
    ensures forall p | p in Split(s, sep) :: sep !in p
  {
    if s != "" {
      SplitsBack(s[1..], sep);
      var rest := Split(s[1..], sep);
      assert rest[0] in rest;
      if s[0] == sep {
        assert ([""] + rest)[1..] == rest;
        assert Join([""] + rest, sep) == "" + [sep] + s[1..];
      } else {
        var parts := [[s[0]] + rest[0]] + rest[1..];
        assert parts == Split(s, sep);
        assert parts[1..] == rest[1..];
        assert Join(parts, sep) == [s[0]] + s[1..];
      }
    }
  }

  lemma {:induction false} SplitHead(head: string, rest: string, sep: char)
    requires sep !in head
    ensures Split(head + [sep] + rest, sep) == [head] + Split(rest, sep)
  {
    var s := head + [sep] + rest;
    if head == "" {
      assert s[1..] == rest;
    } else {
      assert s[1..] == head[1..] + [sep] + rest;
      SplitHead(head[1..], rest, sep);
      var tail := Split(s[1..], sep);
      assert tail == [head[1..]] + Split(rest, sep);
      assert [head[0]] + head[1..] == head;
    }
  }

  lemma {:induction false} SplitWhole(s: string, sep: char)
    requires sep !in s
    ensures Split(s, sep) == [s]
  {
    if s != "" {
      SplitWhole(s[1..], sep);
      assert [s[0]] + s[1..] == s;
    }
  }

  lemma JoinStep(p: seq<string>, sep: char)
    requires |p| > 1
    ensures Join(p, sep) == p[0] + [sep] + Join(p[1..], sep)
  {
  }

  lemma JoinFive(p: seq<string>)
    requires |p| == 5
    ensures Join(p, ':') == p[0] + ":" + (p[1] + ":" + (p[2] + ":" + (p[3] + ":" + p[4])))
  {
    hide Join;
    JoinStep(p, ':');
    JoinStep(p[1..], ':');
    JoinStep(p[2..], ':');
    JoinStep(p[3..], ':');
    assert p[1..][1..] == p[2..] && p[2..][1..] == p[3..] && p[3..][1..] == p[4..];
    JoinLast(p[4..], ':');
  }

  lemma JoinLast(p: seq<string>, sep: char)
    requires |p| == 1
    ensures Join(p, sep) == p[0]
  {
  }
}
