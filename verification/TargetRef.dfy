/** The printed coordinate of a retired index generation (src/services/index_retirement.py:563-589). */
module TargetRef {
  import opened Wrappers
  import opened Strings

  datatype Target = Target(item: string, namespace: string, generation: nat)

  /** What target_ref accepts instead of raising. */
  predicate Printable(item: string, namespace: string) {
    item != "" && namespace != "" && ':' !in item && ':' !in namespace
  }

  function Digit(d: nat): char
    requires d < 10
  {
    "0123456789"[d]
  }

  function Value(c: char): Option<nat> {
    if '0' <= c <= '9' then Some((c - '0') as nat) else None
  }

  /** str of a non-negative integer. */
  function Decimal(n: nat): (s: string)
    ensures s != ""
  {
    if n < 10 then [Digit(n)] else Decimal(n / 10) + [Digit(n % 10)]
  }

  /** The value of a run of ASCII digits, leading zeros allowed. */
  function Digits(s: string): Option<nat> {
    if s == "" then None
    else
      match Value(s[|s| - 1])
      case None => None
      case Some(low) =>
        if |s| == 1 then Some(low)
        else
          match Digits(s[..|s| - 1])
          case None => None
          case Some(high) => Some(10 * high + low)
  }

  /** int(text), on signed runs of digits; the other spellings int accepts never print back to themselves
      and are rejected by the comparison that follows in ParseTarget. */
  function ReadInt(s: string): Option<int> {
    if s != "" && (s[0] == '-' || s[0] == '+') then
      match Digits(s[1..])
      case None => None
      case Some(n) =>
        var m: int := n;
        Some(if s[0] == '-' then -m else m)
    else
      match Digits(s)
      case None => None
      case Some(n) => Some(n)
  }

  const PREFIX := "index-generation"
  const VERSION := "v1"

  function PrintTarget(t: Target): string {
    PREFIX + ":" + (VERSION + ":" + (t.item + ":" + (t.namespace + ":" + Decimal(t.generation))))
  }

  function ParseTarget(value: string): Option<Target> {
    var parts := Split(value, ':');
    if |parts| != 5 then None
    else if parts[0] != PREFIX || parts[1] != VERSION || parts[2] == "" || parts[3] == "" then None
    else
      match ReadInt(parts[4])
      case None => None
      case Some(n) => if n < 0 || Decimal(n) != parts[4] then None else Some(Target(parts[2], parts[3], n))
  }

  // ---------- decimals ----------

  lemma {:induction false} DecimalReadsBack(n: nat)
    ensures Digits(Decimal(n)) == Some(n)
    ensures forall i | 0 <= i < |Decimal(n)| :: '0' <= Decimal(n)[i] <= '9'
  {
    hide Digits, Value, Digit;
    DigitReadsBack(n % 10);
    if n < 10 {
      OneDigit(Digit(n), n);
    } else {
      DecimalReadsBack(n / 10);
      OneMoreDigit(Decimal(n / 10), n / 10, Digit(n % 10), n % 10);
    }
  }

  lemma OneDigit(c: char, d: nat)
    requires Value(c) == Some(d)
    ensures Digits([c]) == Some(d)
  {
    hide Value;
  }

  lemma OneMoreDigit(s: string, n: nat, c: char, d: nat)
    requires s != "" && Digits(s) == Some(n) && Value(c) == Some(d)
    ensures Digits(s + [c]) == Some(10 * n + d)
  {
    hide Value;
    assert (s + [c])[..|s|] == s;
  }

  lemma DigitReadsBack(d: nat)
    requires d < 10
    ensures Value(Digit(d)) == Some(d) && '0' <= Digit(d) <= '9'
  {
  }

  // ---------- the round trip, both ways ----------

  lemma ParsePrinted(t: Target)
    requires Printable(t.item, t.namespace)
    ensures ParseTarget(PrintTarget(t)) == Some(t)
  {
    hide Split, Decimal, ReadInt;
    PrintedSplits(t);
    DecimalIsAnInt(t.generation);
    var parts := [PREFIX, VERSION, t.item, t.namespace, Decimal(t.generation)];
    assert parts[0] == PREFIX && parts[1] == VERSION;
  }

  lemma DecimalIsAnInt(n: nat)
    ensures ReadInt(Decimal(n)) == Some(n) && ':' !in Decimal(n)
  {
    DecimalReadsBack(n);
    hide Decimal, Digits;
    var d := Decimal(n);
    assert '0' <= d[0] <= '9';
  }

  lemma PrintedSplits(t: Target)
    requires Printable(t.item, t.namespace)
    ensures Split(PrintTarget(t), ':') == [PREFIX, VERSION, t.item, t.namespace, Decimal(t.generation)]
  {
    hide Split, Decimal;
    var d := Decimal(t.generation);
    DecimalIsAnInt(t.generation);
    var s3 := t.namespace + ":" + d;
    var s2 := t.item + ":" + s3;
    var s1 := VERSION + ":" + s2;
    SplitHead(PREFIX, s1, ':');
    SplitHead(VERSION, s2, ':');
    SplitHead(t.item, s3, ':');
    SplitHead(t.namespace, d, ':');
    SplitWhole(d, ':');
  }

  /** The coordinate is canonical: whatever parses is exactly what its parse prints. */
  lemma PrintParsed(value: string)
    requires ParseTarget(value).Some?
    ensures var t := ParseTarget(value).value;
      Printable(t.item, t.namespace) && PrintTarget(t) == value
  {
    hide Split, Join, Decimal, ReadInt;
    var p := Split(value, ':');
    SplitsBack(value, ':');
    JoinFive(p);
    assert p[2] in p && p[3] in p;
  }

  lemma PrintingIsInjective(t: Target, u: Target)
    requires Printable(t.item, t.namespace) && Printable(u.item, u.namespace)
    requires PrintTarget(t) == PrintTarget(u)
    ensures t == u
  {
    ParsePrinted(t);
    ParsePrinted(u);
  }

  /** The coordinate in full, on an example. */
  lemma PrintsInFull()
    ensures PrintTarget(Target("item", "space", 120)) == "index-generation:v1:item:space:120"
  {
    DecimalOf120();
    hide Decimal;
    assert PREFIX + ":" + (VERSION + ":" + ("item" + ":" + ("space" + ":" + "120"))) == "index-generation:v1:item:space:120";
  }

  lemma DecimalOf120()
    ensures Decimal(120) == "120"
  {
    assert Decimal(1) == "1" && Decimal(12) == Decimal(1) + "2" && Decimal(120) == Decimal(12) + "0";
  }
}
