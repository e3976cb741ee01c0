/**
 Finding one item of a numbered list in generated text. The loops work on indices as the
 source's do; the lemmas relate them to printing: what is printed as a numbered list, after
 any lines that are not numbered, is read back item by item.
 */
module ListExtraction {
  import opened Wrappers
  import opened GoStrings

  // ---------- Lines ----------

  /** The lines that are not empty, once `current` of a line has been read and `rest` is to come. */
  function LinesFrom(current: string, rest: string): seq<string>
    decreases |rest|
  {
    if rest == "" then Kept(current)
    else if rest[0] == '\n' then Kept(current) + LinesFrom("", rest[1..])
    else LinesFrom(current + [rest[0]], rest[1..])
  }

  function Kept(line: string): seq<string> {
    if line == "" then [] else [line]
  }

  method SplitLines(s: string) returns (lines: seq<string>)
    ensures lines == LinesFrom("", s)
  {
    lines := [];
    var currentLine := "";
    for i := 0 to |s|
      invariant LinesFrom("", s) == lines + LinesFrom(currentLine, s[i..])
    {
      if s[i] == '\n' {
        if currentLine != "" {
          lines := lines + [currentLine];
        }
        currentLine := "";
      } else {
        currentLine := currentLine + [s[i]];
      }
    }
    if currentLine != "" {
      lines := lines + [currentLine];
    }
  }

  lemma {:induction false} ReadThrough(current: string, a: string, rest: string)
    requires '\n' !in a
    ensures LinesFrom(current, a + rest) == LinesFrom(current + a, rest)
    decreases |a|
  {
    if a == "" {
      assert a + rest == rest && current + a == current;
    } else {
      assert (a + rest)[0] == a[0] && (a + rest)[1..] == a[1..] + rest;
      ReadThrough(current + [a[0]], a[1..], rest);
      assert current + [a[0]] + a[1..] == current + a;
    }
  }

  /** Lines joined by newlines are read back. */
  lemma {:induction false} JoinedLinesReadBack(lines: seq<string>)
    requires forall i :: 0 <= i < |lines| ==> lines[i] != "" && '\n' !in lines[i]
    ensures LinesFrom("", Join(lines, '\n')) == lines
    decreases |lines|
  {
    if |lines| == 1 {
      ReadThrough("", lines[0], "");
      assert lines[0] + "" == lines[0] && "" + lines[0] == lines[0];
      assert lines == [lines[0]];
    } else if |lines| > 1 {
      var tail := Join(lines[1..], '\n');
      JoinedLinesReadBack(lines[1..]);
      NextLine(lines[0], tail);
      assert Join(lines, '\n') == lines[0] + (['\n'] + tail);
      assert lines == [lines[0]] + lines[1..];
    }
  }

  lemma NextLine(line: string, tail: string)
    requires line != "" && '\n' !in line
    ensures LinesFrom("", line + (['\n'] + tail)) == [line] + LinesFrom("", tail)
  {
    ReadThrough("", line, ['\n'] + tail);
    assert "" + line == line;
    assert (['\n'] + tail)[1..] == tail;
  }

  // ---------- Reading one line ----------

  predicate IsBlank(c: char) {
    c == ' ' || c == '\t'
  }

  function TrimFront(s: string): (r: string)
    ensures r != "" ==> !IsBlank(r[0])
  {
    if s != "" && IsBlank(s[0]) then TrimFront(s[1..]) else s
  }

  function TrimBack(s: string): (r: string)
    ensures r <= s
  {
    if s != "" && (IsBlank(s[|s| - 1]) || s[|s| - 1] == '\r') then TrimBack(s[..|s| - 1]) else s
  }

  /** How many digits a line starts with. */
  function Digits(s: string): (n: nat)
    ensures n <= |s| && (forall i :: 0 <= i < n ==> IsDigit(s[i])) && (n < |s| ==> !IsDigit(s[n]))
  {
    if s != "" && IsDigit(s[0]) then
      assert forall i :: 0 < i < 1 + Digits(s[1..]) ==> s[i] == s[1..][i - 1];
      1 + Digits(s[1..])
    else 0
  }

  const MAX_INT := 0x7FFF_FFFF_FFFF_FFFF

  /** `Sscanf` with `%d`: a number that does not fit leaves the variable at zero. */
  function Scanned(digits: string): nat
    requires forall i :: 0 <= i < |digits| ==> IsDigit(digits[i])
  {
    if DigitsValue(digits) <= MAX_INT then DigitsValue(digits) else 0
  }

  datatype Numbered = Numbered(number: nat, content: string)

  /** The number and the content of a line like `12. content`. */
  function ReadLine(line: string): Option<Numbered> {
    var t := TrimBack(TrimFront(line));
    var d := Digits(t);
    if d == 0 || d == |t| || t[d] != '.' then None
    else Some(Numbered(Scanned(t[..d]), TrimFront(t[d + 1..])))
  }

  /** The content of a line if it carries the number, and nothing otherwise. */
  function ContentAt(line: string, number: int): string {
    match ReadLine(line)
    case Some(Numbered(n, content)) => if n == number then content else ""
    case None => ""
  }

  /** The content of the first line with the number that has any. */
  function FirstMatch(lines: seq<string>, number: int): string {
    if lines == [] then ""
    else if ContentAt(lines[0], number) != "" then ContentAt(lines[0], number)
    else FirstMatch(lines[1..], number)
  }

  /** The item comes from the first line with the number that has any content, if there is one. */
  lemma {:induction false} FirstMatchIff(lines: seq<string>, number: int, item: string)
    requires item != ""
    ensures FirstMatch(lines, number) == item <==>
            exists i :: 0 <= i < |lines| && ContentAt(lines[i], number) == item &&
                        forall j :: 0 <= j < i ==> ContentAt(lines[j], number) == ""
  {
    if lines != [] {
      FirstMatchIff(lines[1..], number, item);
      if ContentAt(lines[0], number) == "" {
        LaterMatch(lines, number, item);
      } else if i :| 0 <= i < |lines| && ContentAt(lines[i], number) == item &&
                     forall j :: 0 <= j < i ==> ContentAt(lines[j], number) == "" {
        assert i == 0;
      }
    }
  }

  lemma {:induction false} LaterMatch(lines: seq<string>, number: int, item: string)
    requires lines != [] && ContentAt(lines[0], number) == "" && item != ""
    ensures (exists i :: 0 <= i < |lines| && ContentAt(lines[i], number) == item &&
                         forall j :: 0 <= j < i ==> ContentAt(lines[j], number) == "") <==>
            (exists i :: 0 <= i < |lines[1..]| && ContentAt(lines[1..][i], number) == item &&
                         forall j :: 0 <= j < i ==> ContentAt(lines[1..][j], number) == "")
  {
    if i :| 0 <= i < |lines| && ContentAt(lines[i], number) == item &&
            forall j :: 0 <= j < i ==> ContentAt(lines[j], number) == "" {
      assert lines[1..][i - 1] == lines[i];
      assert forall j :: 0 <= j < i - 1 ==> lines[1..][j] == lines[j + 1];
    }
    if i :| 0 <= i < |lines[1..]| && ContentAt(lines[1..][i], number) == item &&
            forall j :: 0 <= j < i ==> ContentAt(lines[1..][j], number) == "" {
      assert lines[i + 1] == lines[1..][i];
      assert forall j :: 0 < j < i + 1 ==> lines[j] == lines[1..][j - 1];
    }
  }

  method SkipBlanks(s: string) returns (start: nat)
    ensures start <= |s| && TrimFront(s) == s[start..]
  {
    start := 0;
    while start < |s| && IsBlank(s[start])
      invariant start <= |s| && TrimFront(s) == TrimFront(s[start..])
    {
      assert s[start..][1..] == s[start + 1..];
      start := start + 1;
    }
  }

  method TrimmedLine(line: string) returns (trimmed: string)
    ensures trimmed == TrimBack(TrimFront(line))
  {
    var startIdx := SkipBlanks(line);
    ghost var s := line[startIdx..];
    var endIdx := |line|;
    assert s == line[startIdx..endIdx];
    while endIdx > startIdx && (IsBlank(line[endIdx - 1]) || line[endIdx - 1] == '\r')
      invariant startIdx <= endIdx <= |line| && TrimBack(s) == TrimBack(line[startIdx..endIdx])
    {
      assert line[startIdx..endIdx][..endIdx - startIdx - 1] == line[startIdx..endIdx - 1];
      endIdx := endIdx - 1;
    }
    trimmed := line[startIdx..endIdx];
  }

  /** Where the dot after the leading digits of a line is. */
  method FindDot(line: string) returns (numStr: string, dotIdx: int)
    ensures var d := Digits(line);
            if d == 0 || d == |line| || line[d] != '.' then dotIdx == -1 else dotIdx == d && numStr == line[..d]
  {
    numStr, dotIdx := "", -1;
    DigitsUnique(line);
    for i := 0 to |line|
      invariant i <= Digits(line) && numStr == line[..i] && dotIdx == -1
    {
      if IsDigit(line[i]) {
        numStr := numStr + [line[i]];
      } else {
        if line[i] == '.' && |numStr| > 0 {
          dotIdx := i;
        }
        break;
      }
    }
  }

  lemma DigitsUnique(line: string)
    ensures forall i :: 0 <= i < |line| && i <= Digits(line) ==> (i < Digits(line) <==> IsDigit(line[i]))
  {
  }

  method ReadContent(line: string, targetNumber: int) returns (content: string)
    ensures content == ContentAt(line, targetNumber)
  {
    var trimmedLine := TrimmedLine(line);
    if |trimmedLine| < 2 { return ""; }
    var numStr, dotIdx := FindDot(trimmedLine);
    if dotIdx == -1 || numStr == "" { return ""; }
    var parsedNum := Scanned(numStr);
    if parsedNum != targetNumber { return ""; }
    content := trimmedLine[dotIdx + 1..];
    var contentStart := SkipBlanks(content);
    content := content[contentStart..];
  }

  method ExtractItemFromList(listString: string, index: int) returns (item: string)
    ensures item == FirstMatch(LinesFrom("", listString), index + 1)
  {
    if listString == "" { return ""; }
    var lines := SplitLines(listString);
    var targetNumber := index + 1;
    for l := 0 to |lines|
      invariant FirstMatch(lines, targetNumber) == FirstMatch(lines[l..], targetNumber)
    {
      assert lines[l..][1..] == lines[l + 1..];
      item := ReadContent(lines[l], targetNumber);
      if item != "" { return; }
    }
    item := "";
  }

  // ---------- Printing a list ----------

  function NumberedLine(i: nat, item: string): string {
    Decimal(i + 1) + ". " + item
  }

  function NumberedLines(items: seq<string>): (lines: seq<string>)
    ensures |lines| == |items|
  {
    seq(|items|, i requires 0 <= i < |items| => NumberedLine(i, items[i]))
  }

  /** Some preamble, then the items as numbered lines. */
  function PrintList(preamble: seq<string>, items: seq<string>): string {
    Join(preamble + NumberedLines(items), '\n')
  }

  predicate GoodItem(item: string) {
    && item != "" && '\n' !in item && !IsBlank(item[0])
    && !IsBlank(item[|item| - 1]) && item[|item| - 1] != '\r'
  }

  /** A line of preamble: not empty, and not numbered. */
  predicate Plain(line: string) {
    line != "" && '\n' !in line && ReadLine(line).None?
  }

  lemma {:induction false} DigitsThenDot(number: string, rest: string)
    requires forall i :: 0 <= i < |number| ==> IsDigit(number[i])
    ensures Digits(number + "." + rest) == |number|
  {
    var s := number + "." + rest;
    if number == "" {
      assert s[0] == '.';
    } else {
      assert s[1..] == number[1..] + "." + rest;
      DigitsThenDot(number[1..], rest);
    }
  }

  lemma LineParts(number: string, rest: string)
    requires number != "" && forall i :: 0 <= i < |number| ==> IsDigit(number[i])
    requires TrimBack(TrimFront(number + "." + rest)) == number + "." + rest
    ensures ReadLine(number + "." + rest) == Some(Numbered(Scanned(number), TrimFront(rest)))
  {
    var line := number + "." + rest;
    DigitsThenDot(number, rest);
    assert line[..|number|] == number && line[|number| + 1..] == rest;
  }

  lemma NumberedLineReads(i: nat, item: string)
    requires GoodItem(item) && i + 1 <= MAX_INT
    ensures ReadLine(NumberedLine(i, item)) == Some(Numbered(i + 1, item))
  {
    var number, rest := Decimal(i + 1), " " + item;
    assert number + "." + rest == NumberedLine(i, item);
    NothingToTrim(number, item);
    LineParts(number, rest);
    DecimalValue(i + 1);
  }

  lemma NothingToTrim(number: string, item: string)
    requires GoodItem(item) && number != "" && IsDigit(number[0])
    ensures TrimBack(TrimFront(number + ". " + item)) == number + ". " + item
    ensures TrimFront(" " + item) == item
  {
    var line := number + ". " + item;
    assert line[0] == number[0] && line[|line| - 1] == item[|item| - 1];
    assert (" " + item)[1..] == item;
  }

  lemma NumberedLineIsLine(i: nat, item: string)
    requires '\n' !in item
    ensures NumberedLine(i, item) != "" && '\n' !in NumberedLine(i, item)
  {
    assert '\n' !in Decimal(i + 1);
  }

  lemma {:induction false} SkipUnmatched(before: seq<string>, after: seq<string>, number: int)
    requires forall i :: 0 <= i < |before| ==> ContentAt(before[i], number) == ""
    ensures FirstMatch(before + after, number) == FirstMatch(after, number)
  {
    if before == [] {
      assert before + after == after;
    } else {
      assert (before + after)[0] == before[0] && (before + after)[1..] == before[1..] + after;
      SkipUnmatched(before[1..], after, number);
    }
  }

  lemma PrintedLines(preamble: seq<string>, items: seq<string>)
    requires forall i :: 0 <= i < |preamble| ==> Plain(preamble[i])
    requires forall i :: 0 <= i < |items| ==> GoodItem(items[i])
    ensures LinesFrom("", PrintList(preamble, items)) == preamble + NumberedLines(items)
  {
    var lines := preamble + NumberedLines(items);
    forall i | 0 <= i < |lines| ensures lines[i] != "" && '\n' !in lines[i] {
      if i >= |preamble| { NumberedLineIsLine(i - |preamble|, items[i - |preamble|]); }
    }
    JoinedLinesReadBack(lines);
  }

  lemma NumberedContent(items: seq<string>, j: nat, number: nat)
    requires j < |items| <= MAX_INT && GoodItem(items[j])
    ensures ContentAt(NumberedLines(items)[j], number) == if number == j + 1 then items[j] else ""
  {
    NumberedLineReads(j, items[j]);
  }

  lemma MatchHere(lines: seq<string>, k: nat, number: int)
    requires k < |lines| && ContentAt(lines[k], number) != ""
    requires forall i :: 0 <= i < k ==> ContentAt(lines[i], number) == ""
    ensures FirstMatch(lines, number) == ContentAt(lines[k], number)
  {
    assert lines == lines[..k] + lines[k..];
    SkipUnmatched(lines[..k], lines[k..], number);
    MatchFirst(lines[k..], number);
  }

  lemma MatchFirst(lines: seq<string>, number: int)
    requires lines != [] && ContentAt(lines[0], number) != ""
    ensures FirstMatch(lines, number) == ContentAt(lines[0], number)
  {
  }

  lemma NumberedFound(items: seq<string>, i: nat)
    requires |items| <= MAX_INT && forall j :: 0 <= j < |items| ==> GoodItem(items[j])
    ensures FirstMatch(NumberedLines(items), i + 1) == if i < |items| then items[i] else ""
  {
    forall j | 0 <= j < |items|
      ensures ContentAt(NumberedLines(items)[j], i + 1) == if i + 1 == j + 1 then items[j] else ""
    {
      NumberedContent(items, j, i + 1);
    }
    if i < |items| {
      MatchHere(NumberedLines(items), i, i + 1);
    } else {
      SkipUnmatched(NumberedLines(items), [], i + 1);
      assert NumberedLines(items) + [] == NumberedLines(items);
    }
  }

  /** A printed list gives back item `i` at index `i`, and nothing beyond its end. */
  lemma ListReadsBack(preamble: seq<string>, items: seq<string>, i: nat)
    requires |items| <= MAX_INT
    requires forall j :: 0 <= j < |preamble| ==> Plain(preamble[j])
    requires forall j :: 0 <= j < |items| ==> GoodItem(items[j])
    ensures FirstMatch(LinesFrom("", PrintList(preamble, items)), i + 1) == if i < |items| then items[i] else ""
  {
    PrintedLines(preamble, items);
    SkipUnmatched(preamble, NumberedLines(items), i + 1);
    NumberedFound(items, i);
  }
}
