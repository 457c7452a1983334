/** The text of a pagination cursor: base64url, section 5 of RFC 4648, without its padding
    (src/services/generation_read.py:142-164). */
module CursorCodec {
  import opened Wrappers

  newtype Byte = x: int | 0 <= x < 256

  type Sextet = x: int | 0 <= x < 64

  /** The URL-safe alphabet: letters, digits, '-' and '_'. */
  function Symbol(v: Sextet): char {
    if v < 26 then 'A' + v as char
    else if v < 52 then 'a' + (v - 26) as char
    else if v < 62 then '0' + (v - 52) as char
    else if v == 62 then '-'
    else '_'
  }

  /** The alternative characters are translated to the standard ones first, so both spellings are read. */
  function Value(c: char): Option<Sextet> {
    if 'A' <= c <= 'Z' then Some((c - 'A') as int)
    else if 'a' <= c <= 'z' then Some((c - 'a') as int + 26)
    else if '0' <= c <= '9' then Some((c - '0') as int + 52)
    else if c == '-' || c == '+' then Some(62)
    else if c == '_' || c == '/' then Some(63)
    else None
  }

  // ---------- bytes and symbols ----------

  function Symbols(a: Byte, b: Byte, c: Byte): (s: string)
    ensures |s| == 4
  {
    var x, y, z := a as int, b as int, c as int;
    [Symbol(x / 4), Symbol(x % 4 * 16 + y / 16), Symbol(y % 16 * 4 + z / 64), Symbol(z % 64)]
  }

  function EncodePadded(bytes: seq<Byte>): string {
    if bytes == [] then ""
    else if |bytes| == 1 then Symbols(bytes[0], 0, 0)[..2] + "=="
    else if |bytes| == 2 then Symbols(bytes[0], bytes[1], 0)[..3] + "="
    else Symbols(bytes[0], bytes[1], bytes[2]) + EncodePadded(bytes[3..])
  }

  /** One to three bytes out of two to four symbols; bits left over in the last symbol are dropped. */
  function Group(s: string): Option<seq<Byte>>
    requires 2 <= |s| <= 4
  {
    var v0, v1 := Value(s[0]), Value(s[1]);
    if v0.None? || v1.None? then None
    else
      var a := (v0.value * 4 + v1.value / 16) as Byte;
      if |s| == 2 then Some([a])
      else
        var v2 := Value(s[2]);
        if v2.None? then None
        else
          var b := (v1.value % 16 * 16 + v2.value / 4) as Byte;
          if |s| == 3 then Some([a, b])
          else
            var v3 := Value(s[3]);
            if v3.None? then None else Some([a, b, (v2.value % 4 * 64 + v3.value) as Byte])
  }

  /** Strict decoding: whole groups of four, padding only at the end of the last. */
  function DecodePadded(s: string): Option<seq<Byte>> {
    if s == "" then Some([])
    else if |s| < 4 then None
    else if |s| == 4 && s[3] == '=' then Group(if s[2] == '=' then s[..2] else s[..3])
    else
      match Group(s[..4])
      case None => None
      case Some(head) =>
        match DecodePadded(s[4..])
        case None => None
        case Some(tail) => Some(head + tail)
  }

  // ---------- padding ----------

  function Stripped(s: string): string {
    if s != "" && s[|s| - 1] == '=' then Stripped(s[..|s| - 1]) else s
  }

  function Equals(n: nat): string {
    seq(n, _ => '=')
  }

  /** cursor + "=" * (-len(cursor) % 4). */
  function Repadded(s: string): string {
    s + Equals((4 - |s| % 4) % 4)
  }

  const MAX_CURSOR := 2048

  function EncodeCursor(bytes: seq<Byte>): string {
    Stripped(EncodePadded(bytes))
  }

  function DecodeCursor(cursor: string): Option<seq<Byte>> {
    if |cursor| > MAX_CURSOR then None else DecodePadded(Repadded(cursor))
  }

  // ---------- round trips ----------

  lemma SymbolReadsBack(v: Sextet)
    ensures Value(Symbol(v)) == Some(v) && Symbol(v) != '='
  {
  }

  lemma GroupReadsBack(a: Byte, b: Byte, c: Byte)
    ensures Group(Symbols(a, b, c)) == Some([a, b, c])
    ensures Group(Symbols(a, b, 0)[..3]) == Some([a, b])
    ensures Group(Symbols(a, 0, 0)[..2]) == Some([a])
  {
    hide Symbol, Value;
    var x, y, z := a as int, b as int, c as int;
    SymbolReadsBack(x / 4);
    SymbolReadsBack(x % 4 * 16 + y / 16);
    SymbolReadsBack(y % 16 * 4 + z / 64);
    SymbolReadsBack(z % 64);
    SymbolReadsBack(y % 16 * 4);
    SymbolReadsBack(x % 4 * 16);
  }

  predicate NoPadding(s: string) {
    forall i | 0 <= i < |s| :: s[i] != '='
  }

  lemma SymbolsHaveNoPadding(a: Byte, b: Byte, c: Byte)
    ensures NoPadding(Symbols(a, b, c))
  {
    hide Symbol;
    var x, y, z := a as int, b as int, c as int;
    SymbolReadsBack(x / 4);
    SymbolReadsBack(x % 4 * 16 + y / 16);
    SymbolReadsBack(y % 16 * 4 + z / 64);
    SymbolReadsBack(z % 64);
  }

  lemma {:induction false} PaddedReadsBack(bytes: seq<Byte>)
    ensures DecodePadded(EncodePadded(bytes)) == Some(bytes)
  {
    hide Symbols, Group;
    if bytes == [] {
    } else if |bytes| == 1 {
      GroupReadsBack(bytes[0], 0, 0);
      SymbolsHaveNoPadding(bytes[0], 0, 0);
      var s := EncodePadded(bytes);
      assert |s| == 4 && s[2] == '=' && s[3] == '=' && s[..2] == Symbols(bytes[0], 0, 0)[..2];
      assert bytes == [bytes[0]];
    } else if |bytes| == 2 {
      GroupReadsBack(bytes[0], bytes[1], 0);
      SymbolsHaveNoPadding(bytes[0], bytes[1], 0);
      var s := EncodePadded(bytes);
      assert |s| == 4 && s[2] != '=' && s[3] == '=' && s[..3] == Symbols(bytes[0], bytes[1], 0)[..3];
      assert bytes == [bytes[0], bytes[1]];
    } else {
      GroupReadsBack(bytes[0], bytes[1], bytes[2]);
      SymbolsHaveNoPadding(bytes[0], bytes[1], bytes[2]);
      PaddedReadsBack(bytes[3..]);
      var s := EncodePadded(bytes);
      assert s[..4] == Symbols(bytes[0], bytes[1], bytes[2]) && s[4..] == EncodePadded(bytes[3..]);
      assert bytes == [bytes[0], bytes[1], bytes[2]] + bytes[3..];
    }
  }

  lemma {:induction false} StripExact(body: string, pads: nat)
    requires NoPadding(body)
    ensures Stripped(body + Equals(pads)) == body
    decreases pads
  {
    if pads == 0 {
      assert body + Equals(0) == body;
    } else {
      var s := body + Equals(pads);
      assert s[..|s| - 1] == body + Equals(pads - 1);
      StripExact(body, pads - 1);
    }
  }

  lemma RepaddedPrefix(head: string, rest: string)
    requires |head| == 4
    ensures Repadded(head + rest) == head + Repadded(rest)
  {
    assert |head + rest| % 4 == |rest| % 4;
  }

  lemma EncodeStep(bytes: seq<Byte>)
    requires |bytes| >= 3
    ensures EncodePadded(bytes) == Symbols(bytes[0], bytes[1], bytes[2]) + EncodePadded(bytes[3..])
  {
  }

  /** The encodings of less than a whole group. */
  lemma ShortShape(bytes: seq<Byte>) returns (body: string)
    requires |bytes| < 3
    ensures NoPadding(body) && EncodePadded(bytes) == Repadded(body) && |body| == (4 * |bytes| + 2) / 3
  {
    hide Symbols;
    if bytes == [] {
      body := "";
    } else if |bytes| == 1 {
      SymbolsHaveNoPadding(bytes[0], 0, 0);
      body := Symbols(bytes[0], 0, 0)[..2];
      assert Equals(2) == "==";
    } else {
      SymbolsHaveNoPadding(bytes[0], bytes[1], 0);
      body := Symbols(bytes[0], bytes[1], 0)[..3];
      assert Equals(1) == "=";
    }
  }

  /** Every encoding is unpadded symbols, as many as the bytes need, and then the padding to a whole group. */
  lemma {:induction false} EncodingShape(bytes: seq<Byte>) returns (body: string)
    ensures NoPadding(body) && EncodePadded(bytes) == Repadded(body)
    ensures |body| == (4 * |bytes| + 2) / 3
  {
    hide Symbols, EncodePadded, Repadded;
    if |bytes| < 3 {
      body := ShortShape(bytes);
    } else {
      var head := Symbols(bytes[0], bytes[1], bytes[2]);
      SymbolsHaveNoPadding(bytes[0], bytes[1], bytes[2]);
      EncodeStep(bytes);
      var rest := EncodingShape(bytes[3..]);
      RepaddedPrefix(head, rest);
      body := head + rest;
    }
  }

  /** Stripping the padding and recomputing it from the length gives back the padded text. */
  lemma {:induction false} StrippedPaddingIsRecomputed(bytes: seq<Byte>)
    ensures Repadded(Stripped(EncodePadded(bytes))) == EncodePadded(bytes)
    ensures |EncodeCursor(bytes)| == (4 * |bytes| + 2) / 3
  {
    var body := EncodingShape(bytes);
    StripExact(body, (4 - |body| % 4) % 4);
  }

  /** Every payload the decoder has room for comes back, and no other: 1536 bytes is the exact limit. */
  lemma CursorRoundTripExactly(bytes: seq<Byte>)
    ensures DecodeCursor(EncodeCursor(bytes)) == Some(bytes) <==> |bytes| <= 1536
  {
    StrippedPaddingIsRecomputed(bytes);
    PaddedReadsBack(bytes);
  }

  lemma CursorsAreDistinct(a: seq<Byte>, b: seq<Byte>)
    requires EncodeCursor(a) == EncodeCursor(b)
    ensures a == b
  {
    StrippedPaddingIsRecomputed(a);
    StrippedPaddingIsRecomputed(b);
    PaddedReadsBack(a);
    PaddedReadsBack(b);
  }

  // ---------- the encoding is the standard's ----------

  const UPPER := "ABCDEFGHIJKLMNOPQRSTUVWXYZ"
  const LOWER := "abcdefghijklmnopqrstuvwxyz"
  const NUMERALS := "0123456789"

  /** The symbols are those of the URL-safe table, and the two alternative spellings are read alike. */
  lemma AlphabetIsUrlSafe(v: Sextet)
    ensures |UPPER| == |LOWER| == 26 && |NUMERALS| == 10
    ensures Symbol(v) == if v < 26 then UPPER[v] else if v < 52 then LOWER[v - 26] else if v < 62 then NUMERALS[v - 52]
                         else if v == 62 then '-' else '_'
    ensures Value('+') == Value('-') == Some(62) && Value('/') == Value('_') == Some(63)
  {
    if v < 26 {
      UpperCase(v);
    } else if v < 52 {
      LowerCase(v - 26);
    } else if v < 62 {
      Numeral(v - 52);
    }
  }

  lemma UpperCase(k: nat)
    requires k < 26
    ensures UPPER[k] == 'A' + k as char
  {
  }

  lemma LowerCase(k: nat)
    requires k < 26
    ensures LOWER[k] == 'a' + k as char
  {
  }

  lemma Numeral(k: nat)
    requires k < 10
    ensures NUMERALS[k] == '0' + k as char
  {
  }

  /** Four symbols spell the number that three bytes spell, most significant first. */
  lemma GroupIsItsNumber(a: Byte, b: Byte, c: Byte)
    ensures var s := Symbols(a, b, c);
      && Value(s[0]).Some? && Value(s[1]).Some? && Value(s[2]).Some? && Value(s[3]).Some?
      && ((Value(s[0]).value * 64 + Value(s[1]).value) * 64 + Value(s[2]).value) * 64 + Value(s[3]).value
         == (a as int * 256 + b as int) * 256 + c as int
  {
    hide Symbol, Value;
    var x, y, z := a as int, b as int, c as int;
    SymbolReadsBack(x / 4);
    SymbolReadsBack(x % 4 * 16 + y / 16);
    SymbolReadsBack(y % 16 * 4 + z / 64);
    SymbolReadsBack(z % 64);
  }

  // ---------- what the decoder accepts ----------

  predicate InAlphabet(s: string) {
    forall i | 0 <= i < |s| :: Value(s[i]).Some?
  }

  lemma GroupAccepts(s: string)
    requires 2 <= |s| <= 4
    ensures Group(s).Some? <==> InAlphabet(s)
  {
    hide Value;
  }

  lemma LetterIsNoPadding(s: string)
    ensures InAlphabet(s) ==> NoPadding(s)
  {
  }

  /** Without padding of its own a cursor decodes exactly if it is short enough, of a possible length, and
      made of the alphabet's characters in either spelling. */
  lemma CursorsAcceptedExactly(cursor: string)
    requires NoPadding(cursor)
    ensures DecodeCursor(cursor).Some? <==> |cursor| <= MAX_CURSOR && |cursor| % 4 != 1 && InAlphabet(cursor)
  {
    PaddedAccepted(cursor);
  }

  lemma {:induction false} PaddedAccepted(s: string)
    requires NoPadding(s)
    ensures DecodePadded(Repadded(s)).Some? <==> |s| % 4 != 1 && InAlphabet(s)
    decreases |s|
  {
    hide Value, Group, Repadded, NoPadding, InAlphabet;
    if |s| >= 4 {
      WholeGroup(s);
      PaddedAccepted(s[4..]);
    } else {
      LastGroup(s);
    }
  }

  lemma WholeGroup(s: string)
    requires NoPadding(s) && |s| >= 4
    ensures NoPadding(s[4..])
    ensures InAlphabet(s) <==> InAlphabet(s[..4]) && InAlphabet(s[4..])
    ensures DecodePadded(Repadded(s)).Some? <==> InAlphabet(s[..4]) && DecodePadded(Repadded(s[4..])).Some?
  {
    RepaddedPrefix(s[..4], s[4..]);
    assert s[..4] + s[4..] == s;
    var t := Repadded(s);
    assert t[..4] == s[..4] && t[4..] == Repadded(s[4..]) && t[3] == s[3];
    GroupAccepts(s[..4]);
    hide Value, Group, Repadded;
  }

  lemma LastGroup(s: string)
    requires NoPadding(s) && |s| < 4
    ensures DecodePadded(Repadded(s)).Some? <==> |s| % 4 != 1 && InAlphabet(s)
  {
    hide Value, Group;
    if s == "" {
      assert Repadded(s) == "";
    } else if |s| == 1 {
      var t := Repadded(s);
      assert t[..2] == [s[0], '='] && t[3] == '=' && t[2] == '=';
      GroupAccepts(t[..2]);
      PaddingIsNoLetter(t[..2], 1);
    } else if |s| == 2 {
      var t := Repadded(s);
      assert t[..2] == s && t[2] == '=' && t[3] == '=';
      GroupAccepts(s);
    } else {
      var t := Repadded(s);
      assert t[..3] == s && t[3] == '=' && t[2] != '=';
      GroupAccepts(s);
    }
  }

  lemma PaddingIsNoLetter(s: string, i: nat)
    requires i < |s| && s[i] == '='
    ensures !InAlphabet(s)
  {
  }
}
