/**
 What becomes of an answer to the sizing call that has the requested form, as far as the form
 leaves it open: the words may be indented, the announced count need not be the number of
 items, and nothing is assumed of the items.
 */
module SizingAnswers {
  import opened Wrappers
  import opened GoStrings
  import opened ListExtraction
  import opened CombinedResponse

  predicate Blank(w: string) {
    forall c :: c in w ==> IsSpace(c) && c != '\n'
  }

  function CountLine(n: nat): string {
    "COUNT:" + (" " + Decimal(n))
  }

  /** The list under its word, then the announced count; both words indented. */
  function Answer(v: string, items: seq<string>, w: string, n: nat): seq<string> {
    Listing(v, items) + [w + CountLine(n)]
  }

  function Listing(v: string, items: seq<string>): seq<string> {
    [v + "LIST:"] + NumberedLines(items)
  }

  function Response(v: string, items: seq<string>, w: string, n: nat): string {
    Join(Answer(v, items, w, n), '\n')
  }

  /** The list that is kept of the answer. */
  function KeptLines(v: string, items: seq<string>, w: string, n: nat): seq<string> {
    ReadAll(Lines(Response(v, items, w, n))).listLines
  }

  function Extracted(v: string, items: seq<string>, w: string, n: nat, index: nat): string {
    FirstMatch(LinesFrom("", Join(KeptLines(v, items, w, n), '\n')), index + 1)
  }

  // ---------- Escapes ----------

  ghost predicate HasEscape(s: string) {
    exists i :: 0 <= i < |s| - 1 && s[i] == '\\' && s[i + 1] == 'n'
  }

  ghost predicate EscapesIn(items: seq<string>) {
    exists j :: 0 <= j < |items| && HasEscape(items[j])
  }

  lemma {:induction false} UnescapeNothing(s: string)
    requires !HasEscape(s)
    ensures Unescape(s) == s
  {
    if s != "" {
      NoEscapeIn(s, 1, |s|);
      UnescapeNothing(s[1..]);
    }
  }

  lemma NoEscapeIn(s: string, lo: nat, hi: nat)
    requires lo <= hi <= |s| && !HasEscape(s)
    ensures !HasEscape(s[lo..hi])
  {
    var t := s[lo..hi];
    forall i | 0 <= i < |t| - 1 ensures !(t[i] == '\\' && t[i + 1] == 'n') {
      assert t[i] == s[lo + i] && t[i + 1] == s[lo + i + 1];
    }
  }

  /** No escape is left, and none arises where something was replaced. */
  lemma {:induction false} NoEscapeLeft(s: string)
    ensures !HasEscape(Unescape(s))
    ensures Unescape(s) != "" && Unescape(s)[0] == 'n' ==> s != "" && s[0] == 'n'
    decreases |s|
  {
    if s != "" {
      var k, c := if |s| >= 2 && s[0] == '\\' && s[1] == 'n' then 2 else 1, Unescape(s)[0];
      NoEscapeLeft(s[k..]);
      NoEscapePrepend(c, Unescape(s[k..]));
    }
  }

  lemma NoEscapePrepend(c: char, s: string)
    requires !HasEscape(s) && (c == '\\' && s != "" ==> s[0] != 'n')
    ensures !HasEscape([c] + s)
  {
    var t := [c] + s;
    forall i | 0 <= i < |t| - 1 ensures !(t[i] == '\\' && t[i + 1] == 'n') {
      assert t[i + 1] == s[i] && (i > 0 ==> t[i] == s[i - 1]);
    }
  }

  /** Text around a newline is replaced on either side of it. */
  lemma {:induction false} UnescapeAround(a: string, b: string)
    ensures Unescape(a + ['\n'] + b) == Unescape(a) + ['\n'] + Unescape(b)
    decreases |a|
  {
    var whole := a + ['\n'] + b;
    if a == "" {
      assert whole == ['\n'] + b && whole[1..] == b;
    } else {
      var k := StepOf(a);
      assert whole[k..] == a[k..] + ['\n'] + b;
      assert StepOf(whole) == k by { assert |a| == 1 ==> whole[1] == '\n'; }
      UnescapeStep(a);
      UnescapeStep(whole);
      UnescapeAround(a[k..], b);
    }
  }

  function StepOf(s: string): (k: nat)
    requires s != ""
    ensures 1 <= k <= |s|
  {
    if |s| >= 2 && s[0] == '\\' && s[1] == 'n' then 2 else 1
  }

  lemma UnescapeStep(s: string)
    requires s != ""
    ensures Unescape(s) == [if StepOf(s) == 2 then '\n' else s[0]] + Unescape(s[StepOf(s)..])
  {
  }

  lemma NoEscapeAround(a: string, b: string)
    requires !HasEscape(a) && !HasEscape(b)
    ensures !HasEscape(a + ['\n'] + b)
  {
    var t := a + ['\n'] + b;
    forall i | 0 <= i < |t| - 1 ensures !(t[i] == '\\' && t[i + 1] == 'n') {
      assert i < |a| ==> t[i] == a[i];
      assert i + 1 < |a| ==> t[i + 1] == a[i + 1];
      assert i > |a| ==> t[i] == b[i - |a| - 1] && t[i + 1] == b[i - |a|];
    }
  }

  ghost predicate NoneEscaped(lines: seq<string>) {
    forall k :: 0 <= k < |lines| ==> !HasEscape(lines[k])
  }

  lemma {:induction false} JoinedNotEscaped(lines: seq<string>)
    requires NoneEscaped(lines)
    ensures !HasEscape(Join(lines, '\n'))
  {
    if |lines| > 1 {
      assert NoneEscaped(lines[1..]);
      JoinedNotEscaped(lines[1..]);
      NoEscapeAround(lines[0], Join(lines[1..], '\n'));
    }
  }

  lemma {:induction false} PiecesNotEscaped(s: string)
    requires !HasEscape(s)
    ensures NoneEscaped(Split(s, '\n'))
    decreases |s|
  {
    match IndexOf(s, '\n')
    case None =>
    case Some(i) =>
      NoEscapeIn(s, 0, i);
      NoEscapeIn(s, i + 1, |s|);
      PiecesNotEscaped(s[i + 1..]);
  }

  /** A numbered line has an escape exactly when its item has one. */
  lemma LineEscaped(i: nat, item: string)
    ensures HasEscape(NumberedLine(i, item)) <==> HasEscape(item)
  {
    var head := Decimal(i + 1) + ". ";
    var line := head + item;
    assert line == NumberedLine(i, item);
    if HasEscape(item) {
      var k :| 0 <= k < |item| - 1 && item[k] == '\\' && item[k + 1] == 'n';
      assert line[|head| + k] == '\\' && line[|head| + k + 1] == 'n';
    } else {
      assert '\\' !in head;
      forall k | 0 <= k < |line| - 1 ensures !(line[k] == '\\' && line[k + 1] == 'n') {
        assert k < |head| ==> line[k] == head[k];
        assert k >= |head| ==> line[k] == item[k - |head|] && line[k + 1] == item[k - |head| + 1];
      }
    }
  }

  lemma NoBackslash(s: string)
    requires '\\' !in s
    ensures !HasEscape(s)
  {
  }

  lemma BlankLine(w: string, rest: string)
    requires Blank(w) && '\\' !in rest && '\n' !in rest
    ensures !HasEscape(w + rest) && '\n' !in w + rest
  {
    NoBackslash(w + rest);
  }

  // ---------- Indented words ----------

  /** An indented word, read from the wrong offset: what is left before the rest of the line is not empty. */
  lemma Leftover(w: string, word: string, rest: string) returns (left: string)
    requires Blank(w) && w != "" && word != "" && forall i :: 0 <= i < |word| ==> !IsSpace(word[i])
    ensures TrimSpace((w + word + rest)[|word|..]) == left + TrimRight(rest)
    ensures left != "" && left[0] in word && (forall c :: c in left ==> c in word) && !IsSpace(left[|left| - 1])
  {
    var line, k := w + word + rest, |word|;
    if |w| >= k {
      left := word;
      assert line[k..] == w[k..] + (word + rest);
      TrimLeftBlank(w[k..], word + rest);
    } else {
      left := word[k - |w|..];
      assert line[k..] == left + rest;
    }
    assert TrimLeft(left + rest) == left + rest;
    TrimRightAfter(left, rest);
  }

  lemma IndentedStarts(w: string, word: string, rest: string, other: string)
    requires Blank(w) && word != "" && !IsSpace(word[0]) && !IsSpace(word[|word| - 1]) && ToUpper(word) == word
    ensures StartsWith(w + word + rest, word)
    ensures other != "" && other[0] != word[0] ==> !StartsWith(w + word + rest, other)
  {
    assert w + word + rest == w + (word + rest);
    TrimLeftBlank(w, word + rest);
    assert TrimLeft(word + rest) == word + rest;
    TrimRightAfter(word, rest);
    UpperKeeps(word, TrimRight(rest));
    if other != "" && other[0] != word[0] { HeadsDiffer(other, ToUpper(word + TrimRight(rest))); }
  }

  lemma UpperKeeps(word: string, rest: string)
    requires word != "" && ToUpper(word) == word
    ensures word <= ToUpper(word + rest) && ToUpper(word + rest)[0] == word[0]
  {
    var upper := ToUpper(word + rest);
    assert forall i :: 0 <= i < |word| ==> upper[i] == ToUpper(word)[i];
    assert upper[..|word|] == word;
  }

  lemma HeadsDiffer(a: string, b: string)
    requires a != "" && b != "" && a[0] != b[0]
    ensures !(a <= b)
  {
  }

  lemma Words()
    ensures ToUpper("LIST:") == "LIST:" && ToUpper("COUNT:") == "COUNT:"
    ensures forall i :: 0 <= i < |"LIST:"| ==> !IsSpace("LIST:"[i])
    ensures forall i :: 0 <= i < |"COUNT:"| ==> !IsSpace("COUNT:"[i])
  {
    assert forall i :: 0 <= i < 5 ==> UpperChar("LIST:"[i]) == "LIST:"[i];
    assert forall i :: 0 <= i < 6 ==> UpperChar("COUNT:"[i]) == "COUNT:"[i];
  }

  /** What an indented count line does to what has been found. */
  lemma CountLineRead(f: Found, w: string, n: nat)
    requires Blank(w)
    ensures Reads(f, w + CountLine(n)) == Found(false, f.listLines, if w == "" && n <= MAX_INT then n else -1)
  {
    var line, rest := w + CountLine(n), " " + Decimal(n);
    assert line == w + "COUNT:" + rest;
    Words();
    IndentedStarts(w, "COUNT:", rest, "LIST:");
    if w == "" {
      assert line[6..] == rest;
      TrimSpaceTrimmed(Decimal(n));
      ScanDecimal(n);
    } else {
      var left := Leftover(w, "COUNT:", rest);
      NoNumber(left, TrimRight(rest));
    }
  }

  lemma NoNumber(left: string, rest: string)
    requires left != "" && left[0] in "COUNT:"
    ensures ScanInt(left + rest) == None
  {
    assert (left + rest)[0] == left[0];
  }

  lemma ScanDecimal(n: nat)
    ensures ScanInt(Decimal(n)) == if n <= MAX_INT then Some(n) else None
  {
    var s := Decimal(n);
    assert IsDigit(s[0]);
    AllDigits(s);
    assert s[..|s|] == s;
    DecimalValue(n);
  }

  lemma {:induction false} AllDigits(s: string)
    requires forall i :: 0 <= i < |s| ==> IsDigit(s[i])
    ensures Digits(s) == |s|
  {
    if s != "" { AllDigits(s[1..]); }
  }

  /** A count is read if and only if its line is not indented. */
  lemma CountReadIff(f: Found, w: string, n: nat)
    requires Blank(w) && n <= MAX_INT
    ensures Reads(f, w + CountLine(n)).numItems == n <==> w == ""
  {
    CountLineRead(f, w, n);
  }

  /** The text beside `LIST:` is kept as it stands if and only if the line is not indented. */
  lemma ListReadIff(f: Found, w: string, text: string)
    requires Blank(w)
    ensures Reads(f, w + "LIST:" + text) == Found(true, f.listLines + Kept(TrimSpace(text)), f.numItems) <==> w == ""
  {
    var line := w + "LIST:" + text;
    Words();
    IndentedStarts(w, "LIST:", text, "COUNT:");
    if w == "" {
      assert line[5..] == text;
      KeptLast(f.listLines, TrimSpace(text));
    } else {
      var left := Leftover(w, "LIST:", text);
      TrimSpaceNoLonger(text);
      LongerDiffers(f.listLines, left + TrimRight(text), TrimSpace(text));
    }
  }

  lemma KeptLast(lines: seq<string>, content: string)
    ensures lines + Kept(content) == if content == "" then lines else lines + [content]
  {
    assert lines + [] == lines;
  }

  lemma LongerDiffers(lines: seq<string>, a: string, b: string)
    requires |a| > |b|
    ensures lines + [a] != lines + Kept(b)
  {
    assert (lines + [a])[|lines|] == a;
    if b != "" { assert (lines + [b])[|lines|] == b; }
  }

  /** The line an indented `LIST:` leaves at the head of the list. */
  function Leading(v: string): seq<string> {
    if v == "" then [] else [TrimSpace((v + "LIST:")[5..])]
  }

  lemma HeadRead(v: string)
    requires Blank(v)
    ensures ReadAll([v + "LIST:"]) == Found(true, Leading(v), -1)
    ensures forall i :: 0 <= i < |Leading(v)| ==> Plain(Leading(v)[i])
  {
    var line := v + "LIST:" + "";
    var lines: seq<string> := [line];
    assert line == v + "LIST:" && lines[..0] == [];
    Words();
    IndentedStarts(v, "LIST:", "", "COUNT:");
    if v == "" {
      assert line[5..] == "" && TrimSpace("") == "";
    } else {
      var left := Leftover(v, "LIST:", "");
      assert left + "" == left;
      WordIsPlain(left);
    }
  }

  lemma WordIsPlain(left: string)
    requires left != "" && forall c :: c in left ==> c in "LIST:"
    ensures Plain(left)
  {
    assert left[0] in left;
    assert TrimFront(left) == left;
    assert left[|left| - 1] in left;
    assert TrimBack(left) == left;
    assert Digits(left) == 0;
  }

  // ---------- The size ----------

  /** What the numbered lines and whatever they are split into leave. */
  lemma ReadOneMore(lines: seq<string>, line: string)
    ensures ReadAll(lines + [line]) == Reads(ReadAll(lines), line)
    ensures ManualCount(lines + [line]) == ManualCount(lines) + if StartsWithDigit(line) then 1 else 0
  {
    assert (lines + [line])[..|lines|] == lines;
  }

  lemma ResponseLines(v: string, items: seq<string>, w: string, n: nat)
    requires Blank(w)
    ensures Lines(Response(v, items, w, n)) == Lines(Join(Listing(v, items), '\n')) + [w + CountLine(n)]
  {
    var body, last := Join(Listing(v, items), '\n'), w + CountLine(n);
    JoinAppend(Listing(v, items), last, '\n');
    UnescapeAround(body, last);
    CountLinePlain(w, n);
    UnescapeNothing(last);
    SplitAppend(Unescape(body), last, '\n');
  }

  lemma CountLinePlain(w: string, n: nat)
    requires Blank(w)
    ensures !HasEscape(w + CountLine(n)) && '\n' !in w + CountLine(n)
  {
    assert '\\' !in CountLine(n) && '\n' !in CountLine(n);
    BlankLine(w, CountLine(n));
  }

  lemma HeaderPlain(v: string)
    requires Blank(v)
    ensures !HasEscape(v + "LIST:") && '\n' !in v + "LIST:"
  {
    BlankLine(v, "LIST:");
  }

  /** A line that starts with a digit belongs to the list it stands in. */
  lemma DigitLineKept(f: Found, line: string)
    requires f.inList && line != "" && IsDigit(line[0])
    ensures Reads(f, line) == f.(listLines := f.listLines + [line]) && StartsWithDigit(line)
  {
    assert !IsSpace(line[0]);
    TrimRightKeeps(line);
    assert TrimLeft(line) == line;
    NotAWord(line, "LIST:");
    NotAWord(line, "COUNT:");
  }

  lemma {:induction false} TrimRightKeeps(s: string)
    requires s != "" && !IsSpace(s[0])
    ensures TrimRight(s) != "" && TrimRight(s)[0] == s[0]
  {
    if IsSpace(s[|s| - 1]) { TrimRightKeeps(s[..|s| - 1]); }
  }

  lemma NotAWord(line: string, word: string)
    requires TrimSpace(line) != "" && IsDigit(TrimSpace(line)[0]) && word != "" && !IsDigit(word[0])
    ensures !StartsWith(line, word)
  {
    var upper := ToUpper(TrimSpace(line));
    assert upper[0] == UpperChar(TrimSpace(line)[0]);
    HeadsDiffer(word, upper);
  }

  /** Lines are only added to the list. */
  lemma {:induction false} ListOnlyGrows(lines: seq<string>, k: nat)
    requires k <= |lines|
    ensures |ReadAll(lines[..k]).listLines| <= |ReadAll(lines).listLines|
    decreases |lines|
  {
    var m := |lines| - 1;
    if k <= m {
      assert lines[..m][..k] == lines[..k];
      ListOnlyGrows(lines[..m], k);
    } else {
      assert lines[..k] == lines;
    }
  }

  lemma {:induction false} KeptNotEmpty(lines: seq<string>)
    ensures forall line :: line in ReadAll(lines).listLines ==> line != ""
    decreases |lines|
  {
    if lines != [] {
      KeptNotEmpty(lines[..|lines| - 1]);
      ReadNotEmpty(ReadAll(lines[..|lines| - 1]), lines[|lines| - 1]);
    }
  }

  lemma ReadNotEmpty(f: Found, line: string)
    requires forall kept :: kept in f.listLines ==> kept != ""
    ensures forall kept :: kept in Reads(f, line).listLines ==> kept != ""
  {
    assert TrimSpace("") == "";
  }

  lemma {:induction false} JoinedNotEmpty(lines: seq<string>)
    requires forall line :: line in lines ==> line != ""
    ensures Join(lines, '\n') == "" <==> lines == []
  {
    if |lines| == 1 { assert lines[0] in lines; }
  }

  /** The listing of some items keeps at least one line, whatever the items are. */
  lemma ListingKept(v: string, items: seq<string>)
    requires Blank(v) && items != []
    ensures ReadAll(Lines(Join(Listing(v, items), '\n'))).listLines != []
  {
    var head, rest := v + "LIST:", Join(NumberedLines(items), '\n');
    assert Listing(v, items)[1..] == NumberedLines(items);
    HeaderPlain(v);
    UnescapeAround(head, rest);
    UnescapeNothing(head);
    SplitHead(head, Unescape(rest));
    StartsNumbered(items);
    var lines := [head] + Split(Unescape(rest), '\n');
    FirstPiece(Unescape(rest));
    HeadRead(v);
    assert lines[..2] == [head] + [lines[1]];
    ReadOneMore([head], lines[1]);
    DigitLineKept(Found(true, Leading(v), -1), lines[1]);
    ListOnlyGrows(lines, 2);
  }

  lemma SplitHead(head: string, rest: string)
    requires '\n' !in head
    ensures Split(head + ['\n'] + rest, '\n') == [head] + Split(rest, '\n')
  {
    var whole := head + ['\n'] + rest;
    IndexOfAfter(head, '\n', rest);
    assert whole[..|head|] == head && whole[|head| + 1..] == rest;
  }

  lemma StartsNumbered(items: seq<string>)
    requires items != []
    ensures var rest := Unescape(Join(NumberedLines(items), '\n')); rest != "" && IsDigit(rest[0])
  {
    var text := Join(NumberedLines(items), '\n');
    assert text[0] == NumberedLine(0, items[0])[0] == Decimal(1)[0];
  }

  lemma FirstPiece(s: string)
    requires s != "" && IsDigit(s[0])
    ensures Split(s, '\n')[0] != "" && IsDigit(Split(s, '\n')[0][0])
  {
    if IndexOf(s, '\n').None? {
      assert Split(s, '\n')[0] == s;
    } else {
      assert Split(s, '\n')[0] == s[..IndexOf(s, '\n').value];
    }
  }

  lemma HeaderNotCounted(v: string)
    requires Blank(v)
    ensures !StartsWithDigit(v + "LIST:")
  {
    TrimLeftBlank(v, "LIST:");
    TrimRightKeeps("LIST:");
  }

  lemma CountNotCounted(w: string, n: nat)
    requires Blank(w)
    ensures !StartsWithDigit(w + CountLine(n))
  {
    TrimLeftBlank(w, CountLine(n));
    assert TrimLeft(CountLine(n)) == CountLine(n);
    TrimRightKeeps(CountLine(n));
  }

  function Clamped(n: nat): nat {
    if n <= 100 then n else 100
  }

  /** With a count that can be read, the array gets that many items, at most a hundred, whatever the list holds. */
  lemma SizeByCount(v: string, items: seq<string>, n: nat)
    requires Blank(v) && n <= MAX_INT
    ensures Engine.ArraySize(SizingOf(Response(v, items, "", n))) == Clamped(n)
  {
    var lines, line := Lines(Join(Listing(v, items), '\n')), "" + CountLine(n);
    ResponseLines(v, items, "", n);
    CountLineRead(ReadAll(lines), "", n);
    ReadOneMore(lines, line);
    CountNotCounted("", n);
    if items != [] {
      ListingKept(v, items);
      KeptNotEmpty(lines);
      JoinedNotEmpty(ReadAll(lines).listLines);
    } else {
      EmptyListing(v);
    }
    CountedSize(n, Join(ReadAll(lines).listLines, '\n') == "", ManualCount(lines));
  }

  lemma CountedSize(n: nat, listIsEmpty: bool, numbered: nat)
    requires listIsEmpty ==> numbered == 0
    ensures Engine.ArraySize(Engine.Listed(Some(n), listIsEmpty, numbered)) == Clamped(n)
  {
  }

  lemma EmptyListing(v: string)
    requires Blank(v)
    ensures Lines(Join(Listing(v, []), '\n')) == [v + "LIST:"] && ManualCount([v + "LIST:"]) == 0
  {
    var head := v + "LIST:";
    assert Listing(v, []) == [head];
    HeaderPlain(v);
    UnescapeNothing(head);
    assert IndexOf(head, '\n').None?;
    HeaderNotCounted(v);
    assert [head][..0] == [];
  }

  ghost predicate OneLine(items: seq<string>) {
    forall j :: 0 <= j < |items| ==> '\n' !in items[j]
  }

  /** Without escapes the lines are the ones that were written. */
  lemma LinesAsWritten(v: string, items: seq<string>, w: string, n: nat)
    requires Blank(v) && Blank(w) && OneLine(items) && !EscapesIn(items)
    ensures Lines(Response(v, items, w, n)) == Answer(v, items, w, n)
  {
    var answer := Answer(v, items, w, n);
    forall k | 0 <= k < |answer| ensures '\n' !in answer[k] && !HasEscape(answer[k]) {
      AnswerLine(v, items, w, n, k);
    }
    JoinedNotEscaped(answer);
    UnescapeNothing(Join(answer, '\n'));
    SplitJoin(answer, '\n');
  }

  lemma AnswerLine(v: string, items: seq<string>, w: string, n: nat, k: nat)
    requires Blank(v) && Blank(w) && OneLine(items) && !EscapesIn(items) && k < |Answer(v, items, w, n)|
    ensures var line := Answer(v, items, w, n)[k]; '\n' !in line && !HasEscape(line)
  {
    if k == 0 {
      HeaderPlain(v);
    } else if k <= |items| {
      NumberedLineIsLine(k - 1, items[k - 1]);
      LineEscaped(k - 1, items[k - 1]);
    } else {
      CountLinePlain(w, n);
    }
  }

  /** Reading the listing as written. */
  lemma {:induction false} ListingRead(v: string, items: seq<string>)
    requires Blank(v)
    ensures ReadAll(Listing(v, items)) == Found(true, Leading(v) + NumberedLines(items), -1)
    ensures ManualCount(Listing(v, items)) == |items|
    decreases |items|
  {
    if items == [] {
      HeadRead(v);
      EmptyListing(v);
      assert Listing(v, items) == [v + "LIST:"] && Leading(v) + [] == Leading(v);
    } else {
      ListingRead(v, items[..|items| - 1]);
      ListingOneMore(v, items);
    }
  }

  lemma ListingOneMore(v: string, items: seq<string>)
    requires items != [] && var init := items[..|items| - 1];
             && ReadAll(Listing(v, init)) == Found(true, Leading(v) + NumberedLines(init), -1)
             && ManualCount(Listing(v, init)) == |init|
    ensures ReadAll(Listing(v, items)) == Found(true, Leading(v) + NumberedLines(items), -1)
    ensures ManualCount(Listing(v, items)) == |items|
  {
    var m := |items| - 1;
    var init, line := items[..m], NumberedLine(m, items[m]);
    NumberedOneMore(items);
    OneMoreAppended(v, NumberedLines(init), line);
    NumberedHead(m, items[m]);
    LineAppended(Listing(v, init), Leading(v) + NumberedLines(init), m, line);
  }

  lemma OneMoreAppended(v: string, lines: seq<string>, line: string)
    ensures [v + "LIST:"] + (lines + [line]) == [v + "LIST:"] + lines + [line]
    ensures Leading(v) + (lines + [line]) == Leading(v) + lines + [line]
  {
  }

  lemma NumberedHead(m: nat, item: string)
    ensures NumberedLine(m, item) != "" && IsDigit(NumberedLine(m, item)[0])
  {
    assert NumberedLine(m, item)[0] == Decimal(m + 1)[0];
  }

  lemma LineAppended(lines: seq<string>, kept: seq<string>, m: nat, line: string)
    requires ReadAll(lines) == Found(true, kept, -1) && ManualCount(lines) == m && line != "" && IsDigit(line[0])
    ensures ReadAll(lines + [line]) == Found(true, kept + [line], -1) && ManualCount(lines + [line]) == m + 1
  {
    ReadOneMore(lines, line);
    DigitLineKept(Found(true, kept, -1), line);
  }

  lemma NumberedOneMore(items: seq<string>)
    requires items != []
    ensures NumberedLines(items) == NumberedLines(items[..|items| - 1]) +
            [NumberedLine(|items| - 1, items[|items| - 1])]
  {
  }

  lemma AnswerRead(v: string, items: seq<string>, w: string, n: nat)
    requires Blank(v) && Blank(w)
    ensures ReadAll(Answer(v, items, w, n)) ==
            Found(false, Leading(v) + NumberedLines(items), if w == "" && n <= MAX_INT then n else -1)
    ensures ManualCount(Answer(v, items, w, n)) == |items|
  {
    ListingRead(v, items);
    ReadOneMore(Listing(v, items), w + CountLine(n));
    CountLineRead(ReadAll(Listing(v, items)), w, n);
    CountNotCounted(w, n);
  }

  /** With an indented count the numbered lines are counted instead, and an empty list gets three items. */
  lemma SizeWithoutCount(v: string, items: seq<string>, w: string, n: nat)
    requires Blank(v) && Blank(w) && w != "" && OneLine(items) && !EscapesIn(items)
    ensures Engine.ArraySize(SizingOf(Response(v, items, w, n))) == if items == [] then 3 else Clamped(|items|)
  {
    LinesAsWritten(v, items, w, n);
    AnswerRead(v, items, w, n);
  }

  // ---------- The list ----------

  lemma TrimmedNotEscaped(s: string)
    requires !HasEscape(s)
    ensures !HasEscape(TrimSpace(s))
  {
    LeftNotEscaped(s);
    var t, r := TrimLeft(s), TrimSpace(s);
    NoEscapeIn(t, 0, |r|);
    assert t[0..|r|] == r;
  }

  lemma {:induction false} LeftNotEscaped(s: string)
    requires !HasEscape(s)
    ensures !HasEscape(TrimLeft(s))
  {
    if s != "" && IsSpace(s[0]) {
      NoEscapeIn(s, 1, |s|);
      LeftNotEscaped(s[1..]);
    }
  }

  lemma {:induction false} KeptNotEscaped(lines: seq<string>)
    requires NoneEscaped(lines)
    ensures NoneEscaped(ReadAll(lines).listLines)
    decreases |lines|
  {
    if lines != [] {
      var m := |lines| - 1;
      KeptNotEscaped(lines[..m]);
      ReadNotEscaped(ReadAll(lines[..m]), lines[m]);
    }
  }

  lemma ReadNotEscaped(f: Found, line: string)
    requires NoneEscaped(f.listLines) && !HasEscape(line)
    ensures NoneEscaped(Reads(f, line).listLines)
  {
    if |line| >= 5 {
      NoEscapeIn(line, 5, |line|);
      TrimmedNotEscaped(line[5..]);
    } else {
      assert TrimSpace("") == "";
    }
  }

  lemma KeptLinesNotEscaped(v: string, items: seq<string>, w: string, n: nat)
    ensures NoneEscaped(KeptLines(v, items, w, n))
  {
    var response := Response(v, items, w, n);
    NoEscapeLeft(response);
    PiecesNotEscaped(Unescape(response));
    KeptNotEscaped(Lines(response));
  }

  /**
   The list that is kept is the numbered list, after the leading line of an indented `LIST:`,
   if and only if no item has an escape.
   */
  lemma ListKeptIff(v: string, items: seq<string>, w: string, n: nat)
    requires Blank(v) && Blank(w) && OneLine(items)
    ensures KeptLines(v, items, w, n) == Leading(v) + NumberedLines(items) <==> !EscapesIn(items)
  {
    if EscapesIn(items) {
      var j :| 0 <= j < |items| && HasEscape(items[j]);
      LineEscaped(j, items[j]);
      KeptLinesNotEscaped(v, items, w, n);
      assert (Leading(v) + NumberedLines(items))[|Leading(v)| + j] == NumberedLine(j, items[j]);
    } else {
      LinesAsWritten(v, items, w, n);
      AnswerRead(v, items, w, n);
    }
  }

  // ---------- The items ----------

  /** Item `index` is what is extracted at that index, and nothing beyond the end. */
  ghost predicate AllExtracted(v: string, items: seq<string>, w: string, n: nat) {
    forall i: nat :: Extracted(v, items, w, n, i) == if i < |items| then items[i] else ""
  }

  ghost predicate GoodItems(items: seq<string>) {
    |items| <= MAX_INT && forall j :: 0 <= j < |items| ==> GoodItem(items[j])
  }

  lemma {:induction false} FoundLinesNotEscaped(current: string, rest: string)
    requires !HasEscape(current + rest)
    ensures NoneEscaped(LinesFrom(current, rest))
    decreases |rest|
  {
    var whole := current + rest;
    NoEscapeIn(whole, 0, |current|);
    assert whole[0..|current|] == current;
    if rest != "" && rest[0] == '\n' {
      NoEscapeIn(whole, |current| + 1, |whole|);
      assert whole[|current| + 1..|whole|] == "" + rest[1..];
      FoundLinesNotEscaped("", rest[1..]);
    } else if rest != "" {
      assert current + [rest[0]] + rest[1..] == whole;
      FoundLinesNotEscaped(current + [rest[0]], rest[1..]);
    }
  }

  lemma {:induction false} FrontNotEscaped(s: string)
    requires !HasEscape(s)
    ensures !HasEscape(TrimFront(s))
  {
    if s != "" && IsBlank(s[0]) {
      NoEscapeIn(s, 1, |s|);
      FrontNotEscaped(s[1..]);
    }
  }

  lemma ContentNotEscaped(line: string, number: int)
    requires !HasEscape(line)
    ensures !HasEscape(ContentAt(line, number))
  {
    FrontNotEscaped(line);
    var f := TrimFront(line);
    var t := TrimBack(f);
    NoEscapeIn(f, 0, |t|);
    assert f[0..|t|] == t;
    var d := Digits(t);
    if d < |t| {
      NoEscapeIn(t, d + 1, |t|);
      FrontNotEscaped(t[d + 1..]);
    }
  }

  lemma {:induction false} MatchNotEscaped(lines: seq<string>, number: int)
    requires NoneEscaped(lines)
    ensures !HasEscape(FirstMatch(lines, number))
  {
    if lines != [] {
      ContentNotEscaped(lines[0], number);
      assert NoneEscaped(lines[1..]);
      MatchNotEscaped(lines[1..], number);
    }
  }

  /** Nothing that is extracted has an escape. */
  lemma ExtractedNotEscaped(v: string, items: seq<string>, w: string, n: nat, i: nat)
    ensures !HasEscape(Extracted(v, items, w, n, i))
  {
    KeptLinesNotEscaped(v, items, w, n);
    var text := Join(KeptLines(v, items, w, n), '\n');
    JoinedNotEscaped(KeptLines(v, items, w, n));
    assert "" + text == text;
    FoundLinesNotEscaped("", text);
    MatchNotEscaped(LinesFrom("", text), i + 1);
  }

  /** Every item is extracted as it was written if and only if no item has an escape. */
  lemma AllExtractedIff(v: string, items: seq<string>, w: string, n: nat)
    requires Blank(v) && Blank(w) && GoodItems(items)
    ensures AllExtracted(v, items, w, n) <==> !EscapesIn(items)
  {
    if EscapesIn(items) {
      var j: nat :| j < |items| && HasEscape(items[j]);
      ExtractedNotEscaped(v, items, w, n, j);
      assert Extracted(v, items, w, n, j) != items[j];
    } else {
      ListKeptIff(v, items, w, n);
      HeadRead(v);
      forall i: nat ensures Extracted(v, items, w, n, i) == if i < |items| then items[i] else "" {
        ListReadsBack(Leading(v), items, i);
      }
    }
  }

  /** A path is a good item that is never extracted as it was written. */
  lemma PathIsSplit(v: string, w: string, n: nat)
    ensures GoodItem("C:\\new") && Extracted(v, ["C:\\new"], w, n, 0) != "C:\\new"
  {
    var path := "C:\\new";
    assert path[2] == '\\' && path[3] == 'n';
    assert '\n' !in path && !IsBlank(path[0]) && !IsBlank(path[|path| - 1]);
    ExtractedNotEscaped(v, [path], w, n, 0);
  }
}
