/**
 Reading the answer to the sizing call of an array: a `LIST:` section with numbered lines and
 a `COUNT:` line. `SizingAnswers` says what becomes of an answer in the requested form.

 Offsets into a line count characters; the source counts bytes, the same for ASCII prefixes.
 */
module CombinedResponse {
  import opened Wrappers
  import opened GoStrings
  import opened ListExtraction
  import Engine

  /** `unicode.ToUpper`, as far as a comparison with an upper-case ASCII word can tell. */
  function UpperChar(c: char): char {
    if 'a' <= c <= 'z' then ((c as int) - 32) as char
    else if c == '\U{131}' then 'I'
    else if c == '\U{17F}' then 'S'
    else c
  }

  function ToUpper(s: string): string {
    seq(|s|, i requires 0 <= i < |s| => UpperChar(s[i]))
  }

  /** `Sscanf` with `%d`: an optional sign, digits, and anything after them. */
  function ScanInt(s: string): Option<int> {
    var signed := s != "" && (s[0] == '-' || s[0] == '+');
    var t := if signed then s[1..] else s;
    var v: int := DigitsValue(t[..Digits(t)]);
    if Digits(t) == 0 then None
    else if signed && s[0] == '-' then if v <= MAX_INT + 1 then Some(0 - v) else None
    else if v <= MAX_INT then Some(v) else None
  }

  /** `strings.ReplaceAll` of a backslash and an `n` by a newline. */
  function Unescape(s: string): string {
    if s == "" then ""
    else if |s| >= 2 && s[0] == '\\' && s[1] == 'n' then ['\n'] + Unescape(s[2..])
    else [s[0]] + Unescape(s[1..])
  }

  // ---------- The sections ----------

  datatype Found = Found(inList: bool, listLines: seq<string>, numItems: int)

  predicate StartsWith(line: string, word: string) {
    word <= ToUpper(TrimSpace(line))
  }

  /** What one line adds. */
  function Reads(f: Found, line: string): Found {
    if StartsWith(line, "LIST:") then
      var content := TrimSpace(if |line| >= 5 then line[5..] else "");
      Found(true, if content == "" then f.listLines else f.listLines + [content], f.numItems)
    else if StartsWith(line, "COUNT:") then
      var count := ScanInt(TrimSpace(if |line| >= 6 then line[6..] else ""));
      Found(false, f.listLines, if count.Some? then count.value else -1)
    else if f.inList && TrimSpace(line) != "" then f.(listLines := f.listLines + [line])
    else f
  }

  function ReadAll(lines: seq<string>): Found {
    if lines == [] then Found(false, [], -1) else Reads(ReadAll(lines[..|lines| - 1]), lines[|lines| - 1])
  }

  predicate StartsWithDigit(line: string) {
    var trimmed := TrimSpace(line);
    trimmed != "" && IsDigit(trimmed[0])
  }

  function ManualCount(lines: seq<string>): nat {
    if lines == [] then 0 else ManualCount(lines[..|lines| - 1]) + if StartsWithDigit(lines[|lines| - 1]) then 1 else 0
  }

  function Lines(response: string): seq<string> {
    Split(Unescape(response), '\n')
  }

  function SizingOf(response: string): Engine.Sizing {
    var lines := Lines(response);
    var found := ReadAll(lines);
    Engine.Listed(if found.numItems == -1 then None else Some(found.numItems), Join(found.listLines, '\n') == "",
                  ManualCount(lines))
  }

  method ParseCombined(response: string) returns (numItems: int, listString: string)
    ensures numItems == Engine.ArraySize(SizingOf(response))
    ensures var found := ReadAll(Lines(response));
            var list := Join(found.listLines, '\n');
            listString == if list == "" && found.numItems != 0 && found.numItems >= -1 then Unescape(response) else list
  {
    var responseStr := Unescape(response);
    var lines := Split(responseStr, '\n');
    var listLines: seq<string>;
    listLines, numItems := ReadSections(lines);
    listString := Join(listLines, '\n');
    if numItems == -1 || (numItems > 0 && listString == "") {
      var manualCount := CountNumbered(lines);
      if manualCount > 0 {
        numItems := manualCount;
      } else if numItems == -1 {
        numItems := 3;
      }
      if listString == "" { listString := responseStr; }
    }
    if numItems < 0 { numItems := 0; }
    if numItems > 100 { numItems := 100; }
  }

  method ReadSections(lines: seq<string>) returns (listLines: seq<string>, numItems: int)
    ensures var found := ReadAll(lines); listLines == found.listLines && numItems == found.numItems
  {
    var inList := false;
    listLines, numItems := [], -1;
    for i := 0 to |lines|
      invariant Found(inList, listLines, numItems) == ReadAll(lines[..i])
    {
      assert lines[..i + 1][..i] == lines[..i];
      var line := lines[i];
      var trimmed := TrimSpace(line);
      if "LIST:" <= ToUpper(trimmed) {
        inList := true;
        assert |line| >= |trimmed| >= 5;
        var content := TrimSpace(line[5..]);
        if content != "" { listLines := listLines + [content]; }
        continue;
      }
      if "COUNT:" <= ToUpper(trimmed) {
        inList := false;
        assert |line| >= |trimmed| >= 6;
        var countStr := TrimSpace(line[6..]);
        var count := ScanInt(countStr);
        numItems := if count.Some? then count.value else -1;
        continue;
      }
      if inList && trimmed != "" { listLines := listLines + [line]; }
    }
    assert lines[..|lines|] == lines;
  }

  method CountNumbered(lines: seq<string>) returns (manualCount: nat)
    ensures manualCount == ManualCount(lines)
  {
    manualCount := 0;
    for i := 0 to |lines|
      invariant manualCount == ManualCount(lines[..i])
    {
      assert lines[..i + 1][..i] == lines[..i];
      var trimmed := TrimSpace(lines[i]);
      if |trimmed| > 0 && IsDigit(trimmed[0]) { manualCount := manualCount + 1; }
    }
    assert lines[..|lines|] == lines;
  }
}
