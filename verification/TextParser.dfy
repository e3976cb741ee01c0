/**
 The parser for structural descriptions such as
   title(string), modules(array: title, lessons(array: title, content)), instructor(object: name, bio)

 `PrintFields` writes a tree of fields in this notation; the main lemma is that parsing
 the printed form gives the definitions of the tree back.
 */
module TextParser {
  import opened Wrappers
  import opened JsonSchema
  import opened GoStrings

  // ---------- Splitting at top-level delimiters ----------

  /** What splitting makes of `s` when `current` has been read since the last cut. */
  function SplitFrom(s: string, delim: char, depth: int, current: string): seq<string> {
    if s == "" then (if current != "" then [current] else [])
    else if s[0] == '(' then SplitFrom(s[1..], delim, depth + 1, current + [s[0]])
    else if s[0] == ')' then SplitFrom(s[1..], delim, depth - 1, current + [s[0]])
    else if s[0] == delim && depth == 0 then [current] + SplitFrom(s[1..], delim, depth, "")
    else SplitFrom(s[1..], delim, depth, current + [s[0]])
  }

  method SplitTopLevel(s: string, delim: char) returns (result: seq<string>)
    ensures result == SplitFrom(s, delim, 0, "")
  {
    result := [];
    var current := "";
    var depth := 0;
    assert s[0..] == s;
    for n := 0 to |s|
      invariant result + SplitFrom(s[n..], delim, depth, current) == SplitFrom(s, delim, 0, "")
    {
      var r := s[n];
      if r == '(' {
        depth := depth + 1;
        current := current + [r];
      } else if r == ')' {
        depth := depth - 1;
        current := current + [r];
      } else if r == delim && depth == 0 {
        result := result + [current];
        current := "";
      } else {
        current := current + [r];
      }
    }
    if |current| > 0 {
      result := result + [current];
    }
  }

  /** How many parentheses are open after `s`. */
  function Depth(s: string): int {
    if s == "" then 0
    else Depth(s[..|s| - 1]) + (if s[|s| - 1] == '(' then 1 else if s[|s| - 1] == ')' then -1 else 0)
  }

  ghost predicate TopLevelAt(s: string, i: int, delim: char) {
    0 <= i < |s| && s[i] == delim && Depth(s[..i]) == 0
  }

  /**
   The pieces are cut exactly at the top-level delimiters: no piece has one inside, every
   piece that is followed by a cut is balanced, and with the delimiters put back they are
   the input, except that a delimiter the input ends with is dropped. Only an input that
   ends so can have an empty last piece.
   */
  ghost predicate CutAtTopLevel(pieces: seq<string>, s: string, delim: char) {
    && (forall p :: p in pieces ==> Uncut(p, delim))
    && (forall n :: 0 <= n < |pieces| - 1 ==> Depth(pieces[n]) == 0)
    && Rejoins(pieces, s, delim)
    && (TopLevelAt(s, |s| - 1, delim) ==> pieces != [])
    && (!TopLevelAt(s, |s| - 1, delim) && pieces != [] ==> pieces[|pieces| - 1] != "")
  }

  ghost predicate Rejoins(pieces: seq<string>, s: string, delim: char) {
    s == Join(pieces, delim) + if TopLevelAt(s, |s| - 1, delim) then [delim] else ""
  }

  lemma {:induction false} DepthConcat(a: string, b: string)
    ensures Depth(a + b) == Depth(a) + Depth(b)
  {
    if b == "" {
      assert a + b == a;
    } else {
      assert (a + b)[..|a + b| - 1] == a + b[..|b| - 1];
      DepthConcat(a, b[..|b| - 1]);
    }
  }

  lemma SplitsAtTopLevel(s: string, delim: char)
    requires delim != '(' && delim != ')'
    ensures CutAtTopLevel(SplitFrom(s, delim, 0, ""), s, delim)
  {
    SplitFromCuts(s, delim, 0, "", s);
  }

  lemma {:induction false} SplitFromCuts(s: string, delim: char, depth: int, current: string, whole: string)
    requires delim != '(' && delim != ')' && Uncut(current, delim)
    requires depth == Depth(current) && whole == current + s
    ensures CutAtTopLevel(SplitFrom(s, delim, depth, current), whole, delim)
    decreases |s|
  {
    if s == "" {
      assert whole == current;
      CutNone(current, delim);
    } else if s[0] == delim && depth == 0 {
      SplitFromCuts(s[1..], delim, 0, "", s[1..]);
      CutHere(s, delim, current, whole, SplitFrom(s[1..], delim, 0, ""));
    } else {
      ReadOne(current, s[0], delim);
      SplitFromCuts(s[1..], delim, Depth(current + [s[0]]), current + [s[0]], whole);
      assert SplitFrom(s, delim, depth, current) == SplitFrom(s[1..], delim, Depth(current + [s[0]]), current + [s[0]]);
    }
  }

  lemma CutHere(s: string, delim: char, current: string, whole: string, pieces: seq<string>)
    requires delim != '(' && delim != ')' && Uncut(current, delim) && Depth(current) == 0
    requires s != "" && s[0] == delim && whole == current + s && pieces == SplitFrom(s[1..], delim, 0, "")
    requires CutAtTopLevel(pieces, s[1..], delim)
    ensures CutAtTopLevel(SplitFrom(s, delim, 0, current), whole, delim)
  {
    CutOne(current, delim, s[1..], pieces, whole);
  }

  /** No delimiter of `s` is at top level. */
  ghost predicate Uncut(s: string, delim: char) {
    forall i :: !TopLevelAt(s, i, delim)
  }

  lemma CutNone(current: string, delim: char)
    requires Uncut(current, delim)
    ensures CutAtTopLevel(if current != "" then [current] else [], current, delim)
  {
  }

  lemma ReadOne(current: string, c: char, delim: char)
    requires Uncut(current, delim) && (c != delim || Depth(current) != 0)
    ensures Uncut(current + [c], delim)
    ensures Depth(current + [c]) == Depth(current) + (if c == '(' then 1 else if c == ')' then -1 else 0)
  {
    var next := current + [c];
    assert next[..|current|] == current;
    forall i ensures !TopLevelAt(next, i, delim) {
      if 0 <= i < |current| {
        assert next[..i] == current[..i] && next[i] == current[i];
        assert !TopLevelAt(current, i, delim);
      }
    }
  }

  lemma LastOfCut(current: string, delim: char, rest: string)
    requires delim != '(' && delim != ')' && Depth(current) == 0
    ensures var s := current + [delim] + rest;
            TopLevelAt(s, |s| - 1, delim) <==> rest == "" || TopLevelAt(rest, |rest| - 1, delim)
  {
    var s := current + [delim] + rest;
    assert (current + [delim])[..|current|] == current;
    if rest == "" {
      assert s == current + [delim];
    } else {
      assert s[..|s| - 1] == current + [delim] + rest[..|rest| - 1];
      DepthConcat(current + [delim], rest[..|rest| - 1]);
    }
  }

  /** One more piece in front. */
  lemma CutOne(current: string, delim: char, rest: string, pieces: seq<string>, whole: string)
    requires delim != '(' && delim != ')' && Depth(current) == 0 && Uncut(current, delim)
    requires CutAtTopLevel(pieces, rest, delim) && whole == current + [delim] + rest
    ensures CutAtTopLevel([current] + pieces, whole, delim)
  {
    LastOfCut(current, delim, rest);
    RejoinOne(current, delim, rest, pieces);
    assert forall n :: 0 < n <= |pieces| ==> ([current] + pieces)[n] == pieces[n - 1];
  }

  lemma RejoinOne(current: string, delim: char, rest: string, pieces: seq<string>)
    requires Rejoins(pieces, rest, delim) && (pieces == [] ==> rest == "")
    requires var s := current + [delim] + rest;
             TopLevelAt(s, |s| - 1, delim) <==> rest == "" || TopLevelAt(rest, |rest| - 1, delim)
    requires rest == "" ==> pieces == []
    ensures Rejoins([current] + pieces, current + [delim] + rest, delim)
  {
    if pieces == [] {
      assert current + [delim] + rest == current + [delim];
    } else {
      assert ([current] + pieces)[1..] == pieces;
      var tail := if TopLevelAt(rest, |rest| - 1, delim) then [delim] else "";
      assert current + [delim] + rest == current + [delim] + Join(pieces, delim) + tail;
    }
  }

  // ---------- Field specifications ----------

  function SanitizeType(t: string): DataType {
    var t := ToLower(TrimSpace(t));
    if t == "string" then String
    else if t == "number" then Number
    else if t == "integer" then Integer
    else if t == "boolean" then Boolean
    else if t == "array" then Array
    else if t == "object" then Object
    else if '{' in t then Object
    else String
  }

  function Instruction(action: string, subject: string, context: string): string {
    if context != "" then action + " " + subject + " for " + context else action + " " + subject
  }

  function Leaf(t: DataType, name: string, context: string): Definition {
    ZeroDefinition.(dataType := t, instruction := Instruction("Generate", name, context))
  }

  function ArrayOfObjects(name: string, properties: map<string, Definition>, context: string): Definition {
    var item := ZeroDefinition.(
      dataType := Object,
      instruction := Instruction("Generate a", name + " entry", context),
      properties := Properties(properties));
    ZeroDefinition.(
      dataType := Array,
      instruction := Instruction("Generate a comprehensive list of", name, context),
      items := Some(item))
  }

  function ObjectOfFields(name: string, properties: map<string, Definition>, context: string): Definition {
    ZeroDefinition.(
      dataType := Object,
      instruction := Instruction("Generate", name + " details", context),
      properties := Properties(properties))
  }

  /** The text between the first parenthesis and a closing one at the very end. */
  function TypeSpec(spec: string, paren: nat): (t: string)
    requires paren < |spec|
    ensures |t| < |spec|
  {
    var t := spec[paren + 1..];
    if t != "" && t[|t| - 1] == ')' then t[..|t| - 1] else t
  }

  /** The name and definition that one field specification stands for. */
  function FieldSpec(rawSpec: string, context: string): (string, Definition)
    decreases |rawSpec|, 0
  {
    var spec := TrimSpace(rawSpec);
    match IndexOf(spec, '(')
    case None => (spec, Leaf(String, spec, context))
    case Some(paren) =>
      var name := TrimSpace(spec[..paren]);
      var typeSpec := TypeSpec(spec, paren);
      match IndexOf(typeSpec, ':')
      case None => (name, Leaf(SanitizeType(typeSpec), name, context))
      case Some(colon) =>
        var baseType := ToLower(TrimSpace(typeSpec[..colon]));
        var nestedSpec := TrimSpace(typeSpec[colon + 1..]);
        if baseType == "array" then (name, ArrayOfObjects(name, Fields(nestedSpec, context), context))
        else if baseType == "object" then (name, ObjectOfFields(name, Fields(nestedSpec, context), context))
        else (name, Leaf(SanitizeType(typeSpec), name, context))
  }

  /** The properties that a comma-separated list of field specifications stands for. */
  function Fields(specs: string, context: string): map<string, Definition>
    decreases |specs|, 2
  {
    PiecesNoLonger(specs, ',', 0, "");
    FieldsOf(SplitFrom(specs, ',', 0, ""), |specs|, context)
  }

  /** Later pieces overwrite earlier ones of the same name; blank pieces and blank names are skipped. */
  function FieldsOf(pieces: seq<string>, ghost bound: nat, context: string): map<string, Definition>
    requires forall p :: p in pieces ==> |p| <= bound
    decreases bound, 1, |pieces|
  {
    if pieces == [] then map[] else
      var before := FieldsOf(pieces[..|pieces| - 1], bound, context);
      var piece := TrimSpace(pieces[|pieces| - 1]);
      if piece == "" then before else
        var (name, def) := FieldSpec(piece, context);
        if name != "" then before[name := def] else before
  }

  /** Nested specifications are never longer than what they are split from, so the parser ends. */
  lemma {:induction false} PiecesNoLonger(s: string, delim: char, depth: int, current: string)
    ensures forall p :: p in SplitFrom(s, delim, depth, current) ==> |p| <= |current| + |s|
    decreases |s|
  {
    if s != "" {
      if s[0] == '(' {
        PiecesNoLonger(s[1..], delim, depth + 1, current + [s[0]]);
      } else if s[0] == ')' {
        PiecesNoLonger(s[1..], delim, depth - 1, current + [s[0]]);
      } else if s[0] == delim && depth == 0 {
        PiecesNoLonger(s[1..], delim, depth, "");
      } else {
        PiecesNoLonger(s[1..], delim, depth, current + [s[0]]);
      }
    }
  }

  method ParseFieldSpec(rawSpec: string, context: string) returns (name: string, def: Definition)
    ensures (name, def) == FieldSpec(rawSpec, context)
    decreases |rawSpec|, 0
  {
    var spec := TrimSpace(rawSpec);
    var parenIdx := IndexOf(spec, '(');
    if parenIdx.None? {
      return spec, Leaf(String, spec, context);
    }
    name := TrimSpace(spec[..parenIdx.value]);
    var typeSpec := TypeSpec(spec, parenIdx.value);
    var colonIdx := IndexOf(typeSpec, ':');
    if colonIdx.Some? {
      var baseType := TrimSpace(typeSpec[..colonIdx.value]);
      var nestedSpec := TrimSpace(typeSpec[colonIdx.value + 1..]);
      if ToLower(baseType) == "array" {
        var itemProperties := ParseStructuralAnalysis(nestedSpec, context);
        return name, ArrayOfObjects(name, itemProperties, context);
      } else if ToLower(baseType) == "object" {
        var properties := ParseStructuralAnalysis(nestedSpec, context);
        return name, ObjectOfFields(name, properties, context);
      }
    }
    def := Leaf(SanitizeType(typeSpec), name, context);
  }

  /** The loop over the pieces; the source repeats it for the top level, for arrays and for objects. */
  method ParseStructuralAnalysis(analysis: string, context: string) returns (properties: map<string, Definition>)
    ensures properties == Fields(analysis, context)
    decreases |analysis|, 1
  {
    properties := map[];
    var fields := SplitTopLevel(analysis, ',');
    PiecesNoLonger(analysis, ',', 0, "");
    for n := 0 to |fields|
      invariant properties == FieldsOf(fields[..n], |analysis|, context)
    {
      assert fields[..n + 1][..n] == fields[..n];
      assert fields[n] in fields;
      var field := TrimSpace(fields[n]);
      if field != "" {
        var name, def := ParseFieldSpec(field, context);
        if name != "" {
          properties := properties[name := def];
        }
      }
    }
    assert fields[..|fields|] == fields;
  }

  // ---------- Printing, and reading back ----------

  datatype Field = Field(name: string, shape: Shape)

  datatype Shape =
    | Untyped                      // name
    | Typed(t: DataType)           // name(type)
    | ListOf(fields: seq<Field>)   // name(array: ...)
    | Group(fields: seq<Field>)    // name(object: ...)

  function TypeName(t: DataType): string {
    match t
    case Object => "object"
    case Number => "number"
    case Integer => "integer"
    case Boolean => "boolean"
    case Array => "array"
    case _ => "string"
  }

  function Print(f: Field): string {
    match f.shape
    case Untyped => f.name
    case Typed(t) => f.name + "(" + TypeName(t) + ")"
    case ListOf(fields) => f.name + "(" + ("array" + ": " + PrintFields(fields)) + ")"
    case Group(fields) => f.name + "(" + ("object" + ": " + PrintFields(fields)) + ")"
  }

  function PrintFields(fields: seq<Field>): string {
    if fields == [] then ""
    else if |fields| == 1 then Print(fields[0])
    else Print(fields[0]) + ", " + PrintFields(fields[1..])
  }

  /** The definition a field describes. */
  function Describe(f: Field, context: string): Definition {
    match f.shape
    case Untyped => Leaf(String, f.name, context)
    case Typed(t) => Leaf(t, f.name, context)
    case ListOf(fields) => ArrayOfObjects(f.name, DescribeAll(fields, context), context)
    case Group(fields) => ObjectOfFields(f.name, DescribeAll(fields, context), context)
  }

  function DescribeAll(fields: seq<Field>, context: string): map<string, Definition> {
    if fields == [] then map[] else
      var last := fields[|fields| - 1];
      DescribeAll(fields[..|fields| - 1], context)[last.name := Describe(last, context)]
  }

  predicate Plain(s: string) {
    forall c :: c in s ==> c != '(' && c != ')' && c != ','
  }

  predicate GoodName(name: string) {
    name != "" && Trimmed(name) && Plain(name)
  }

  /** Names are nonempty, trimmed and free of delimiters; types are the six the notation knows. */
  predicate Printable(f: Field) {
    && GoodName(f.name)
    && match f.shape
       case Untyped => true
       case Typed(t) => t.String? || t.Number? || t.Integer? || t.Boolean? || t.Array? || t.Object?
       case ListOf(fields) => AllPrintable(fields)
       case Group(fields) => AllPrintable(fields)
  }

  predicate AllPrintable(fields: seq<Field>) {
    forall f :: f in fields ==> Printable(f)
  }

  // Reading past text without a cut.

  lemma {:induction false} SkipPlain(a: string, s: string, depth: int, current: string)
    requires Plain(a)
    ensures SplitFrom(a + s, ',', depth, current) == SplitFrom(s, ',', depth, current + a)
    decreases |a|
  {
    if a == "" {
      assert a + s == s && current + a == current;
    } else {
      assert a[0] in a && (a + s)[1..] == a[1..] + s;
      assert forall c :: c in a[1..] ==> c in a;
      assert current + [a[0]] + a[1..] == current + a;
      SkipPlain(a[1..], s, depth, current + [a[0]]);
    }
  }

  /** The same for `(a)` when reading past `a` inside the parentheses makes no cut. */
  lemma SkipGroup(head: string, a: string, s: string, depth: int, current: string)
    requires Plain(head)
    requires forall rest, read :: SplitFrom(a + rest, ',', depth + 1, read) == SplitFrom(rest, ',', depth + 1, read + a)
    ensures SplitFrom(head + "(" + a + ")" + s, ',', depth, current) ==
            SplitFrom(s, ',', depth, current + (head + "(" + a + ")"))
  {
    var t0 := "(" + a + ")" + s;
    assert head + "(" + a + ")" + s == head + t0;
    SkipPlain(head, t0, depth, current);
    assert t0[0] == '(' && t0[1..] == a + (")" + s);
    var read := current + head + "(";
    assert SplitFrom(t0, ',', depth, current + head) == SplitFrom(a + (")" + s), ',', depth + 1, read);
    var t1 := ")" + s;
    assert t1[0] == ')' && t1[1..] == s;
    assert SplitFrom(t1, ',', depth + 1, read + a) == SplitFrom(s, ',', depth, read + a + ")");
    assert read + a + ")" == current + (head + "(" + a + ")");
  }

  lemma {:induction false} SkipField(f: Field, s: string, depth: int, current: string)
    requires Printable(f) && depth >= 0
    ensures SplitFrom(Print(f) + s, ',', depth, current) == SplitFrom(s, ',', depth, current + Print(f))
    decreases f, 0
  {
    match f.shape
    case Untyped => SkipPlain(f.name, s, depth, current);
    case Typed(t) =>
      forall rest, read
        ensures SplitFrom(TypeName(t) + rest, ',', depth + 1, read) ==
                SplitFrom(rest, ',', depth + 1, read + TypeName(t))
      {
        SkipPlain(TypeName(t), rest, depth + 1, read);
      }
      SkipGroup(f.name, TypeName(t), s, depth, current);
    case ListOf(fields) =>
      SkipNested("array" + ": ", fields, depth);
      SkipGroup(f.name, "array" + ": " + PrintFields(fields), s, depth, current);
    case Group(fields) =>
      SkipNested("object" + ": ", fields, depth);
      SkipGroup(f.name, "object" + ": " + PrintFields(fields), s, depth, current);
  }

  lemma SkipNested(head: string, fields: seq<Field>, depth: int)
    requires Plain(head) && AllPrintable(fields) && depth >= 0
    ensures forall rest, read ::
              SplitFrom(head + PrintFields(fields) + rest, ',', depth + 1, read) ==
              SplitFrom(rest, ',', depth + 1, read + (head + PrintFields(fields)))
    decreases fields, |fields| + 1
  {
    forall rest, read
      ensures SplitFrom(head + PrintFields(fields) + rest, ',', depth + 1, read) ==
              SplitFrom(rest, ',', depth + 1, read + (head + PrintFields(fields)))
    {
      assert head + PrintFields(fields) + rest == head + (PrintFields(fields) + rest);
      SkipPlain(head, PrintFields(fields) + rest, depth + 1, read);
      SkipFields(fields, rest, depth + 1, read + head);
      assert read + head + PrintFields(fields) == read + (head + PrintFields(fields));
    }
  }

  /** Inside parentheses a comma makes no cut. */
  lemma SkipComma(t: string, depth: int, current: string)
    requires depth > 0
    ensures SplitFrom(", " + t, ',', depth, current) == SplitFrom(t, ',', depth, current + ", ")
  {
    var s, u := ", " + t, " " + t;
    assert s[0] == ',' && s[1..] == u && u[0] == ' ' && u[1..] == t;
    assert current + [','] + [' '] == current + ", ";
  }

  lemma {:induction false} SkipFields(fields: seq<Field>, s: string, depth: int, current: string)
    requires AllPrintable(fields) && depth > 0
    ensures SplitFrom(PrintFields(fields) + s, ',', depth, current) ==
            SplitFrom(s, ',', depth, current + PrintFields(fields))
    decreases fields, |fields|
  {
    if fields == [] {
      assert "" + s == s && current + "" == current;
    } else {
      assert fields[0] in fields;
      var first := Print(fields[0]);
      if |fields| == 1 {
        SkipField(fields[0], s, depth, current);
      } else {
        var rest := PrintFields(fields[1..]);
        assert PrintFields(fields) + s == first + (", " + (rest + s));
        SkipField(fields[0], ", " + (rest + s), depth, current);
        SkipComma(rest + s, depth, current + first);
        SkipFields(fields[1..], s, depth, current + first + ", ");
        assert current + first + ", " + rest == current + PrintFields(fields);
      }
    }
  }

  /** The pieces a printed list is cut into: every printed field, all but the first after a blank. */
  function PrintedPieces(fields: seq<Field>, lead: string): seq<string> {
    if fields == [] then [] else [lead + Print(fields[0])] + PrintedPieces(fields[1..], " ")
  }

  lemma {:induction false} PrintedListSplits(fields: seq<Field>, lead: string)
    requires AllPrintable(fields) && fields != [] && Plain(lead)
    ensures SplitFrom(lead + PrintFields(fields), ',', 0, "") == PrintedPieces(fields, lead)
    decreases |fields|
  {
    assert fields[0] in fields;
    var first := Print(fields[0]);
    PrintNonempty(fields[0]);
    var t := if |fields| == 1 then "" else ", " + PrintFields(fields[1..]);
    assert lead + PrintFields(fields) == lead + (first + t);
    SkipPlain(lead, first + t, 0, "");
    assert "" + lead == lead;
    SkipField(fields[0], t, 0, lead);
    if |fields| > 1 {
      assert t[0] == ',' && t[1..] == " " + PrintFields(fields[1..]);
      PrintedListSplits(fields[1..], " ");
    } else {
      assert fields[1..] == [];
    }
  }

  lemma PrintNonempty(f: Field)
    requires Printable(f)
    ensures Print(f) != "" && Trimmed(Print(f))
  {
    var p := Print(f);
    assert p[0] == f.name[0];
    if !f.shape.Untyped? { assert p[|p| - 1] == ')'; }
  }

  lemma {:induction false} TrimPrintFields(fields: seq<Field>)
    requires AllPrintable(fields)
    ensures Trimmed(PrintFields(fields))
    ensures fields != [] ==> PrintFields(fields) != ""
  {
    if fields != [] {
      assert fields[0] in fields;
      PrintNonempty(fields[0]);
      if |fields| > 1 {
        TrimPrintFields(fields[1..]);
        var p, rest := PrintFields(fields), PrintFields(fields[1..]);
        assert p[0] == Print(fields[0])[0] && p[|p| - 1] == rest[|rest| - 1];
      }
    }
  }

  /** A printed field with parentheses is taken apart into its name and what is inside them. */
  lemma TakeApart(name: string, inside: string)
    requires GoodName(name)
    ensures var spec := name + "(" + inside + ")";
            && TrimSpace(spec) == spec && IndexOf(spec, '(') == Some(|name|)
            && TrimSpace(spec[..|name|]) == name && TypeSpec(spec, |name|) == inside
  {
    var spec := name + "(" + inside + ")";
    assert spec[0] == name[0] && spec[|spec| - 1] == ')';
    TrimSpaceTrimmed(spec);
    assert '(' !in name;
    assert spec == name + ['('] + (inside + ")");
    IndexOfAfter(name, '(', inside + ")");
    assert spec[..|name|] == name;
    TrimSpaceTrimmed(name);
    assert spec[|name| + 1..] == inside + ")";
    assert (inside + ")")[..|inside|] == inside;
  }

  lemma LowerCaseWord(w: string)
    requires w != "" && forall c :: c in w ==> 'a' <= c <= 'z'
    ensures ToLower(w) == w && TrimSpace(w) == w && IndexOf(w, ':').None?
  {
    assert w[0] in w && w[|w| - 1] in w;
    TrimSpaceTrimmed(w);
    assert forall i :: 0 <= i < |w| ==> w[i] in w;
  }

  lemma StringReads()
    ensures IndexOf("string", ':').None? && SanitizeType("string") == String
  {
    LowerCaseWord("string");
    assert "string"[0] == 's';
  }

  lemma NumberReads()
    ensures IndexOf("number", ':').None? && SanitizeType("number") == Number
  {
    LowerCaseWord("number");
    assert "number"[0] == 'n';
  }

  lemma IntegerReads()
    ensures IndexOf("integer", ':').None? && SanitizeType("integer") == Integer
  {
    LowerCaseWord("integer");
    assert "integer"[0] == 'i';
  }

  lemma BooleanReads()
    ensures IndexOf("boolean", ':').None? && SanitizeType("boolean") == Boolean
  {
    LowerCaseWord("boolean");
    assert "boolean"[0] == 'b';
  }

  lemma ArrayReads()
    ensures IndexOf("array", ':').None? && SanitizeType("array") == Array
  {
    LowerCaseWord("array");
    assert "array"[0] == 'a';
  }

  lemma ObjectReads()
    ensures IndexOf("object", ':').None? && SanitizeType("object") == Object
  {
    LowerCaseWord("object");
    assert "object"[0] == 'o';
  }

  lemma TypeNameReads(t: DataType)
    requires t.String? || t.Number? || t.Integer? || t.Boolean? || t.Array? || t.Object?
    ensures IndexOf(TypeName(t), ':').None? && SanitizeType(TypeName(t)) == t
  {
    match t
    case String => StringReads();
    case Number => NumberReads();
    case Integer => IntegerReads();
    case Boolean => BooleanReads();
    case Array => ArrayReads();
    case _ => ObjectReads();
  }

  lemma SplitsAtColon(word: string, body: string)
    requires word != "" && forall c :: c in word ==> 'a' <= c <= 'z'
    requires Trimmed(body)
    ensures var inside := word + ": " + body;
            && IndexOf(inside, ':') == Some(|word|)
            && ToLower(TrimSpace(inside[..|word|])) == word && TrimSpace(inside[|word| + 1..]) == body
  {
    var inside := word + ": " + body;
    LowerCaseWord(word);
    assert inside == word + [':'] + (" " + body);
    IndexOfAfter(word, ':', " " + body);
    assert inside[..|word|] == word && inside[|word| + 1..] == " " + body;
    TrimSpaceTrimmed(body);
  }

  lemma NestedReads(name: string, word: string, body: string, context: string)
    requires GoodName(name) && Trimmed(body) && (word == "array" || word == "object")
    ensures FieldSpec(name + "(" + (word + ": " + body) + ")", context) ==
            (name, if word == "array" then ArrayOfObjects(name, Fields(body, context), context)
                   else ObjectOfFields(name, Fields(body, context), context))
  {
    NestedParts(name, word, body);
    UnfoldNested(name + "(" + (word + ": " + body) + ")", |name|, |word|, name, word, body, context);
  }

  lemma NestedParts(name: string, word: string, body: string)
    requires GoodName(name) && Trimmed(body) && (word == "array" || word == "object")
    ensures var spec, inside := name + "(" + (word + ": " + body) + ")", word + ": " + body;
            && TrimSpace(spec) == spec && IndexOf(spec, '(') == Some(|name|)
            && TrimSpace(spec[..|name|]) == name && TypeSpec(spec, |name|) == inside
            && IndexOf(inside, ':') == Some(|word|)
            && ToLower(TrimSpace(inside[..|word|])) == word && TrimSpace(inside[|word| + 1..]) == body
  {
    TakeApart(name, word + ": " + body);
    assert forall c :: c in word ==> 'a' <= c <= 'z';
    SplitsAtColon(word, body);
  }

  lemma UnfoldNested(spec: string, paren: nat, colon: nat, name: string, word: string, body: string, context: string)
    requires TrimSpace(spec) == spec && IndexOf(spec, '(') == Some(paren) && TrimSpace(spec[..paren]) == name
    requires IndexOf(TypeSpec(spec, paren), ':') == Some(colon)
    requires ToLower(TrimSpace(TypeSpec(spec, paren)[..colon])) == word && (word == "array" || word == "object")
    requires TrimSpace(TypeSpec(spec, paren)[colon + 1..]) == body
    ensures FieldSpec(spec, context) ==
            (name, if word == "array" then ArrayOfObjects(name, Fields(body, context), context)
                   else ObjectOfFields(name, Fields(body, context), context))
  {
  }

  lemma UntypedReads(name: string, context: string)
    requires GoodName(name)
    ensures FieldSpec(name, context) == (name, Leaf(String, name, context))
  {
    TrimSpaceTrimmed(name);
    assert '(' !in name;
  }

  lemma TypedReads(name: string, t: DataType, context: string)
    requires GoodName(name)
    requires t.String? || t.Number? || t.Integer? || t.Boolean? || t.Array? || t.Object?
    ensures FieldSpec(name + "(" + TypeName(t) + ")", context) == (name, Leaf(t, name, context))
  {
    TakeApart(name, TypeName(t));
    TypeNameReads(t);
  }

  lemma {:induction false} FieldReadsBack(f: Field, context: string)
    requires Printable(f)
    ensures FieldSpec(Print(f), context) == (f.name, Describe(f, context))
    decreases f, 0
  {
    match f.shape
    case Untyped => UntypedReads(f.name, context);
    case Typed(t) => TypedReads(f.name, t, context);
    case ListOf(fields) => NestedReadsBack(f.name, "array", fields, context);
    case Group(fields) => NestedReadsBack(f.name, "object", fields, context);
  }

  lemma NestedReadsBack(name: string, word: string, fields: seq<Field>, context: string)
    requires GoodName(name) && AllPrintable(fields) && (word == "array" || word == "object")
    ensures FieldSpec(name + "(" + (word + ": " + PrintFields(fields)) + ")", context) ==
            (name, if word == "array" then ArrayOfObjects(name, DescribeAll(fields, context), context)
                   else ObjectOfFields(name, DescribeAll(fields, context), context))
    decreases fields, |fields| + 2
  {
    TrimPrintFields(fields);
    NestedReads(name, word, PrintFields(fields), context);
    ListReadsBack(fields, context);
  }

  /** Parsing a printed list of fields gives their definitions. */
  lemma ListReadsBack(fields: seq<Field>, context: string)
    requires AllPrintable(fields)
    ensures Fields(PrintFields(fields), context) == DescribeAll(fields, context)
    decreases fields, |fields| + 1
  {
    var printed := PrintFields(fields);
    PiecesNoLonger(printed, ',', 0, "");
    if fields != [] {
      PrintedListSplits(fields, "");
      assert "" + printed == printed;
    }
    PiecesReadBack(fields, "", |printed|, context);
  }

  lemma {:induction false} PiecesAt(fields: seq<Field>, lead: string)
    ensures |PrintedPieces(fields, lead)| == |fields|
    ensures forall n :: 0 <= n < |fields| ==>
              PrintedPieces(fields, lead)[n] == (if n == 0 then lead else " ") + Print(fields[n])
    ensures fields != [] ==> PrintedPieces(fields, lead)[..|fields| - 1] == PrintedPieces(fields[..|fields| - 1], lead)
  {
    if fields != [] {
      PiecesAt(fields[1..], " ");
      if |fields| > 1 {
        assert fields[..|fields| - 1][1..] == fields[1..][..|fields| - 2];
      }
    }
  }

  lemma PieceTrims(f: Field, lead: string)
    requires Printable(f) && (lead == "" || lead == " ")
    ensures TrimSpace(lead + Print(f)) == Print(f) && Print(f) != ""
  {
    PrintNonempty(f);
    TrimSpaceTrimmed(Print(f));
    assert "" + Print(f) == Print(f);
  }

  lemma ReadLast(pieces: seq<string>, bound: nat, context: string, name: string, def: Definition)
    requires pieces != [] && forall p :: p in pieces ==> |p| <= bound
    requires name != "" && TrimSpace(pieces[|pieces| - 1]) != ""
    requires FieldSpec(TrimSpace(pieces[|pieces| - 1]), context) == (name, def)
    ensures FieldsOf(pieces, bound, context) == FieldsOf(pieces[..|pieces| - 1], bound, context)[name := def]
  {
  }

  lemma {:induction false} PiecesReadBack(fields: seq<Field>, lead: string, bound: nat, context: string)
    requires AllPrintable(fields) && (lead == "" || lead == " ")
    requires forall p :: p in PrintedPieces(fields, lead) ==> |p| <= bound
    ensures FieldsOf(PrintedPieces(fields, lead), bound, context) == DescribeAll(fields, context)
    decreases fields, |fields|
  {
    PiecesAt(fields, lead);
    if fields != [] {
      var n := |fields| - 1;
      assert fields[n] in fields;
      PiecesReadBack(fields[..n], lead, bound, context);
      PieceTrims(fields[n], if n == 0 then lead else " ");
      FieldReadsBack(fields[n], context);
      ReadLast(PrintedPieces(fields, lead), bound, context, fields[n].name, Describe(fields[n], context));
    }
  }

  /** With distinct names nothing is lost: the properties are exactly the fields, under their names. */
  lemma {:induction false} DescribeAllExact(fields: seq<Field>, context: string)
    requires forall i, j :: 0 <= i < j < |fields| ==> fields[i].name != fields[j].name
    ensures DescribeAll(fields, context).Keys == set f | f in fields :: f.name
    ensures forall f :: f in fields ==> f.name in DescribeAll(fields, context) &&
                                        DescribeAll(fields, context)[f.name] == Describe(f, context)
  {
    if fields != [] {
      var n := |fields| - 1;
      DescribeAllExact(fields[..n], context);
      assert fields == fields[..n] + [fields[n]];
    }
  }

  // ---------- What a parsed definition looks like ----------

  /** A definition that says nothing but its type, its instruction, its properties and its items. */
  predicate NothingElse(d: Definition) {
    d == ZeroDefinition.(dataType := d.dataType, instruction := d.instruction, properties := d.properties,
        items := d.items)
  }

  /** The instruction: what to generate, and for what, if there is a context. */
  predicate Says(d: Definition, text: string, context: string) {
    d.instruction == if context == "" then text else text + " for " + context
  }

  /** The definition is what the field stands for, at every depth. */
  ghost predicate Depicts(d: Definition, f: Field, context: string)
    decreases f, 0
  {
    && NothingElse(d)
    && match f.shape
       case Untyped =>
         d.dataType == String && d.properties == NilProperties && d.items == None &&
             Says(d, "Generate " + f.name, context)
       case Typed(t) =>
         d.dataType == t && d.properties == NilProperties && d.items == None && Says(d, "Generate " + f.name, context)
       case Group(fields) =>
         && d.dataType == Object && d.items == None && Says(d, "Generate " + f.name + " details", context)
         && d.properties.Properties? && DepictsAll(d.properties.entries, fields, context)
       case ListOf(fields) =>
         && d.dataType == Array && d.properties == NilProperties && d.items.Some?
         && Says(d, "Generate a comprehensive list of " + f.name, context)
         && var item := d.items.value;
            && NothingElse(item) && item.dataType == Object && item.items == None
            && Says(item, "Generate a " + f.name + " entry", context)
            && item.properties.Properties? && DepictsAll(item.properties.entries, fields, context)
  }

  /** Exactly the names of the fields, each with a definition of the last field of that name. */
  ghost predicate DepictsAll(entries: map<string, Definition>, fields: seq<Field>, context: string)
    decreases fields, 1
  {
    && (forall i :: 0 <= i < |fields| ==> fields[i].name in entries)
    && forall k :: k in entries ==> exists i :: DepictedBy(entries[k], fields, i, k, context)
  }

  ghost predicate DepictedBy(d: Definition, fields: seq<Field>, i: int, k: string, context: string)
    decreases fields, 0
  {
    && 0 <= i < |fields| && fields[i].name == k && (forall j :: i < j < |fields| ==> fields[j].name != k)
    && Depicts(d, fields[i], context)
  }

  lemma {:induction false} DescribeDepicts(f: Field, context: string)
    ensures Depicts(Describe(f, context), f, context)
    decreases f, 0
  {
    match f.shape
    case ListOf(fields) =>
      DescribeAllDepicts(fields, context);
      Entry(f.name);
    case Group(fields) =>
      DescribeAllDepicts(fields, context);
      Details(f.name);
    case _ =>
  }

  lemma Entry(name: string)
    ensures "Generate a" + " " + (name + " entry") == "Generate a " + name + " entry"
    ensures "Generate a comprehensive list of" + " " + name == "Generate a comprehensive list of " + name
  {
  }

  lemma Details(name: string)
    ensures "Generate" + " " + (name + " details") == "Generate " + name + " details"
  {
  }

  lemma {:induction false} DescribeAllDepicts(fields: seq<Field>, context: string)
    ensures DepictsAll(DescribeAll(fields, context), fields, context)
    decreases fields, |fields| + 1
  {
    if fields != [] {
      var n := |fields| - 1;
      DescribeAllDepicts(fields[..n], context);
      assert fields[n] in fields;
      DescribeDepicts(fields[n], context);
      LastDepicted(fields, DescribeAll(fields[..n], context), Describe(fields[n], context), context);
    }
  }

  lemma {:induction false} WhichDepicted(
      entries: map<string, Definition>, fields: seq<Field>, k: string, context: string)
    returns (i: int)
    requires DepictsAll(entries, fields, context) && k in entries
    ensures DepictedBy(entries[k], fields, i, k, context)
  {
    assert exists i :: DepictedBy(entries[k], fields, i, k, context);
    i :| DepictedBy(entries[k], fields, i, k, context);
  }

  lemma {:induction false} LastDepicted(
      fields: seq<Field>, before: map<string, Definition>, d: Definition, context: string)
    requires fields != [] && DepictsAll(before, fields[..|fields| - 1], context)
    requires Depicts(d, fields[|fields| - 1], context)
    ensures DepictsAll(before[fields[|fields| - 1].name := d], fields, context)
  {
    var n := |fields| - 1;
    var after := before[fields[n].name := d];
    forall k | k in after ensures exists i :: DepictedBy(after[k], fields, i, k, context) {
      if k == fields[n].name {
        assert DepictedBy(d, fields, n, k, context);
      } else {
        var i := WhichDepicted(before, fields[..n], k, context);
        assert DepictedBy(after[k], fields, i, k, context);
      }
    }
  }

  /** A printed field is parsed to its name and to a definition that depicts it. */
  lemma ParsedDepicts(f: Field, context: string)
    requires Printable(f)
    ensures var (name, d) := FieldSpec(Print(f), context); name == f.name && Depicts(d, f, context)
  {
    FieldReadsBack(f, context);
    DescribeDepicts(f, context);
  }

  /** A printed list is parsed to exactly its names, with definitions that depict their fields. */
  lemma ParsedListDepicts(fields: seq<Field>, context: string)
    requires AllPrintable(fields)
    ensures DepictsAll(Fields(PrintFields(fields), context), fields, context)
  {
    ListReadsBack(fields, context);
    DescribeAllDepicts(fields, context);
  }
}
