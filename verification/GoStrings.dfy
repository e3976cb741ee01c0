/** The string functions of Go's standard library that the modelled code calls, on code points. */
module GoStrings {
  import opened Wrappers

  /** `unicode.IsSpace` */
  predicate IsSpace(c: char) {
    || c == '\t' || c == '\n' || c == '\U{B}' || c == '\U{C}' || c == '\r' || c == ' '
    || c == '\U{85}' || c == '\U{A0}' || c == '\U{1680}' || ('\U{2000}' <= c <= '\U{200A}')
    || c == '\U{2028}' || c == '\U{2029}' || c == '\U{202F}' || c == '\U{205F}' || c == '\U{3000}'
  }

  function TrimLeft(s: string): (r: string)
    ensures |r| <= |s|
    ensures r != "" ==> !IsSpace(r[0])
  {
    if s != "" && IsSpace(s[0]) then TrimLeft(s[1..]) else s
  }

  function TrimRight(s: string): (r: string)
    ensures r <= s
    ensures r != "" ==> !IsSpace(r[|r| - 1])
  {
    if s != "" && IsSpace(s[|s| - 1]) then TrimRight(s[..|s| - 1]) else s
  }

  /** `strings.TrimSpace` */
  function TrimSpace(s: string): (r: string)
    ensures |r| <= |s|
  {
    TrimRight(TrimLeft(s))
  }

  predicate Trimmed(s: string) {
    s == "" || (!IsSpace(s[0]) && !IsSpace(s[|s| - 1]))
  }

  lemma TrimSpaceTrimmed(s: string)
    requires Trimmed(s)
    ensures TrimSpace(s) == s
    ensures TrimSpace(" " + s) == s
  {
    assert (" " + s)[1..] == s;
  }

  /** `strings.Index` for a one-character needle. */
  function IndexOf(s: string, c: char): (i: Option<nat>)
    ensures i.Some? ==> i.value < |s| && s[i.value] == c && forall j :: 0 <= j < i.value ==> s[j] != c
    ensures i.None? ==> c !in s
  {
    if s == "" then None
    else if s[0] == c then Some(0)
    else match IndexOf(s[1..], c)
      case None => None
      case Some(i) => assert forall j :: 0 < j < i + 1 ==> s[j] == s[1..][j - 1]; Some(i + 1)
  }

  /** The first occurrence is wherever the text before it ends. */
  lemma IndexOfAfter(before: string, c: char, after: string)
    requires c !in before
    ensures IndexOf(before + [c] + after, c) == Some(|before|)
  {
    var s := before + [c] + after;
    assert s[|before|] == c && IndexOf(s, c).Some?;
    assert forall j :: 0 <= j < |before| ==> s[j] == before[j];
  }

  /**
   `unicode.ToLower`, as far as a comparison with a lower-case ASCII word can tell: besides
   the ASCII capitals only U+0130 and U+212A have an ASCII lower case.
   */
  function LowerChar(c: char): char {
    if 'A' <= c <= 'Z' then ((c as int) + 32) as char
    else if c == '\U{130}' then 'i'
    else if c == '\U{212A}' then 'k'
    else c
  }

  /** `strings.ToLower` */
  function ToLower(s: string): string {
    seq(|s|, i requires 0 <= i < |s| => LowerChar(s[i]))
  }

  // ---------- Trimming what follows something ----------

  lemma {:induction false} TrimRightAfter(a: string, t: string)
    requires a != "" && !IsSpace(a[|a| - 1])
    ensures TrimRight(a + t) == a + TrimRight(t)
    decreases |t|
  {
    if t == "" {
      assert a + t == a;
    } else if IsSpace(t[|t| - 1]) {
      assert (a + t)[..|a + t| - 1] == a + t[..|t| - 1];
      TrimRightAfter(a, t[..|t| - 1]);
    }
  }

  lemma {:induction false} TrimRightShrinks(s: string)
    requires s != ""
    ensures |TrimRight(s[1..])| <= |TrimRight(s)|
    decreases |s|
  {
    var n := |s| - 1;
    if IsSpace(s[n]) && n > 0 {
      assert s[1..][..n - 1] == s[..n][1..];
      TrimRightShrinks(s[..n]);
    }
  }

  lemma {:induction false} TrimSpaceNoLonger(s: string)
    ensures |TrimSpace(s)| <= |TrimRight(s)|
  {
    if s != "" && IsSpace(s[0]) {
      TrimSpaceNoLonger(s[1..]);
      TrimRightShrinks(s);
    }
  }

  lemma {:induction false} TrimLeftBlank(w: string, s: string)
    requires forall c :: c in w ==> IsSpace(c)
    ensures TrimLeft(w + s) == TrimLeft(s)
  {
    if w == "" {
      assert w + s == s;
    } else {
      assert w[0] in w && (w + s)[1..] == w[1..] + s;
      TrimLeftBlank(w[1..], s);
    }
  }

  // ---------- Splitting and joining ----------

  /** `strings.Split` for a one-character separator. */
  function Split(s: string, sep: char): (parts: seq<string>)
    ensures |parts| > 0
  {
    match IndexOf(s, sep)
    case None => [s]
    case Some(i) => [s[..i]] + Split(s[i + 1..], sep)
  }

  function Join(parts: seq<string>, sep: char): string {
    if parts == [] then ""
    else if |parts| == 1 then parts[0]
    else parts[0] + [sep] + Join(parts[1..], sep)
  }

  lemma {:induction false} SplitJoin(parts: seq<string>, sep: char)
    requires parts != [] && forall i :: 0 <= i < |parts| ==> sep !in parts[i]
    ensures Split(Join(parts, sep), sep) == parts
  {
    if |parts| > 1 {
      var rest := Join(parts[1..], sep);
      SplitJoin(parts[1..], sep);
      IndexOfAfter(parts[0], sep, rest);
      var s := Join(parts, sep);
      assert s == parts[0] + [sep] + rest;
      assert s[..|parts[0]|] == parts[0] && s[|parts[0]| + 1..] == rest;
    } else {
      assert sep !in parts[0];
      assert IndexOf(parts[0], sep).None?;
    }
  }

  lemma {:induction false} SplitAppend(s: string, last: string, sep: char)
    requires sep !in last
    ensures Split(s + [sep] + last, sep) == Split(s, sep) + [last]
    decreases |s|
  {
    var whole := s + [sep] + last;
    match IndexOf(s, sep) {
      case None =>
        IndexOfAfter(s, sep, last);
        assert whole[..|s|] == s && whole[|s| + 1..] == last && IndexOf(last, sep).None?;
      case Some(i) =>
        assert whole == s[..i] + [sep] + (s[i + 1..] + [sep] + last);
        IndexOfAfter(s[..i], sep, s[i + 1..] + [sep] + last);
        assert whole[..i] == s[..i] && whole[i + 1..] == s[i + 1..] + [sep] + last;
        SplitAppend(s[i + 1..], last, sep);
    }
  }

  lemma {:induction false} SplitPieces(s: string, sep: char)
    ensures forall piece :: piece in Split(s, sep) ==> sep !in piece
    decreases |s|
  {
    match IndexOf(s, sep)
    case None =>
    case Some(i) => SplitPieces(s[i + 1..], sep);
  }

  /** Splitting undoes joining exactly when no part contains the separator. */
  lemma SplitJoinIff(parts: seq<string>, sep: char)
    requires parts != []
    ensures Split(Join(parts, sep), sep) == parts <==> forall i :: 0 <= i < |parts| ==> sep !in parts[i]
  {
    if Split(Join(parts, sep), sep) == parts {
      SplitPieces(Join(parts, sep), sep);
    } else if forall i :: 0 <= i < |parts| ==> sep !in parts[i] {
      SplitJoin(parts, sep);
    }
  }

  lemma {:induction false} JoinAppend(parts: seq<string>, last: string, sep: char)
    requires parts != []
    ensures Join(parts + [last], sep) == Join(parts, sep) + [sep] + last
  {
    if |parts| == 1 {
      assert (parts + [last])[1..] == [last];
    } else {
      assert (parts + [last])[1..] == parts[1..] + [last];
      JoinAppend(parts[1..], last, sep);
    }
  }

  // ---------- Decimal numbers ----------

  predicate IsDigit(c: char) {
    '0' <= c <= '9'
  }

  function Digit(d: nat): (c: char)
    requires d < 10
    ensures IsDigit(c) && c as int == '0' as int + d
  {
    ('0' as int + d) as char
  }

  /** `%d` of a number that is not negative. */
  function Decimal(n: nat): (s: string)
    ensures s != "" && forall i :: 0 <= i < |s| ==> IsDigit(s[i])
  {
    if n < 10 then [Digit(n)] else Decimal(n / 10) + [Digit(n % 10)]
  }

  /** The number that digits spell. */
  function DigitsValue(s: string): nat
    requires forall i :: 0 <= i < |s| ==> IsDigit(s[i])
  {
    if s == "" then 0 else
      assert IsDigit(s[|s| - 1]);
      DigitsValue(s[..|s| - 1]) * 10 + (s[|s| - 1] as int - '0' as int)
  }

  lemma {:induction false} DecimalValue(n: nat)
    ensures DigitsValue(Decimal(n)) == n
  {
    var s := Decimal(n);
    if n >= 10 {
      assert s[..|s| - 1] == Decimal(n / 10);
      DecimalValue(n / 10);
    } else {
      assert s[..|s| - 1] == "";
    }
  }

  lemma DecimalInjective(m: nat, n: nat)
    requires Decimal(m) == Decimal(n)
    ensures m == n
  {
    DecimalValue(m);
    DecimalValue(n);
  }
}
