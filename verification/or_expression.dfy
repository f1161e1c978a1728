/** The textual form of an OR group: splitting at top-level commas and reading `column.operator.value`. */
module OrExpression {
  import opened Outcomes
  import opened SplicedText
  import opened SqlText
  import opened WhereClause
  import opened Words

  // ------------------------------------------------------------------------------------ splitting

  function Step(c: char): int { if c == '(' then 1 else if c == ')' then -1 else 0 }

  /** Opening parentheses minus closing ones. */
  function Depth(s: string): int {
    if s == "" then 0 else Depth(s[..|s| - 1]) + Step(s[|s| - 1])
  }

  /** No comma stands where the parentheses before it balance. */
  predicate NoTopComma(s: string) { forall i | 0 <= i < |s| && s[i] == ',' :: Depth(s[..i]) != 0 }

  /** The text cut at its top-level commas, given the depth and the piece under construction. */
  function Segments(s: string, depth: int, current: string): (r: seq<string>)
    ensures |r| > 0
  {
    if s == "" then [current]
    else if s[0] == ',' && depth == 0 then [current] + Segments(s[1..], 0, "")
    else Segments(s[1..], depth + Step(s[0]), current + [s[0]])
  }

  /** Pieces trimmed, empty ones dropped. */
  function Clean(parts: seq<string>): seq<string> {
    if parts == [] then []
    else (if Trim(parts[0]) == "" then [] else [Trim(parts[0])]) + Clean(parts[1..])
  }

  function Split(s: string): seq<string> { Clean(Segments(s, 0, "")) }

  lemma {:induction false} CleanConcat(a: seq<string>, b: seq<string>)
    ensures Clean(a + b) == Clean(a) + Clean(b)
  {
    if a == [] {
      assert a + b == b;
    } else {
      assert (a + b)[1..] == a[1..] + b;
      CleanConcat(a[1..], b);
    }
  }

  method SplitTopLevel(value: string) returns (parts: seq<string>)
    ensures parts == Split(value)
  {
    parts := [];
    var depth := 0;
    var current := "";
    for i := 0 to |value|
      invariant parts + Segments(value[i..], depth, current) == Segments(value, 0, "")
    {
      var character := value[i];
      assert value[i..][1..] == value[i + 1..];
      if character == '(' { depth := depth + 1; }
      if character == ')' { depth := depth - 1; }
      if character == ',' && depth == 0 {
        parts := parts + [current];
        current := "";
        continue;
      }
      current := current + [character];
    }
    assert Segments(value[|value|..], depth, current) == [current];
    CleanConcat(parts, [current]);
    if Trim(current) != "" { parts := parts + [current]; }
    parts := Clean(parts);
  }

  function Join(parts: seq<string>): string {
    if parts == [] then ""
    else if |parts| == 1 then parts[0]
    else parts[0] + "," + Join(parts[1..])
  }

  /** Every part is trimmed, non-empty, has no top-level comma and, except the last, balances. */
  predicate Splittable(parts: seq<string>) {
    && (forall i | 0 <= i < |parts| :: parts[i] != "" && Trimmed(parts[i]) && NoTopComma(parts[i]))
    && (forall i | 0 <= i < |parts| - 1 :: Depth(parts[i]) == 0)
  }

  lemma DepthSnoc(s: string, c: char)
    ensures Depth(s + [c]) == Depth(s) + Step(c)
    ensures NoTopComma(s) && (c == ',' ==> Depth(s) != 0) <==> NoTopComma(s + [c])
  {
    var t := s + [c];
    assert t[..|s|] == s;
    assert forall i | 0 <= i < |s| :: t[i] == s[i] && t[..i] == s[..i];
  }

  lemma {:induction false} SegmentsConsume(p: string, rest: string, current: string)
    requires NoTopComma(current + p)
    ensures Segments(p + rest, Depth(current), current) == Segments(rest, Depth(current + p), current + p)
  {
    if p == "" {
      assert p + rest == rest && current + p == current;
    } else {
      var next := current + [p[0]];
      assert (p + rest)[1..] == p[1..] + rest;
      assert next + p[1..] == current + p;
      DepthSnoc(current, p[0]);
      assert (current + p)[|current|] == p[0] && (current + p)[..|current|] == current;
      SegmentsConsume(p[1..], rest, next);
    }
  }

  lemma {:induction false} SegmentsOfJoin(parts: seq<string>)
    requires Splittable(parts) && parts != []
    ensures Segments(Join(parts), 0, "") == parts
  {
    var first := parts[0];
    assert "" + first == first;
    if |parts| == 1 {
      assert first + "" == first;
      SegmentsConsume(first, "", "");
    } else {
      var later := parts[1..];
      var rest := "," + Join(later);
      assert parts == [first] + later && Splittable(later);
      assert Join(parts) == first + rest;
      SegmentsConsume(first, rest, "");
      hide Splittable, NoTopComma;
      SegmentsOfJoin(later);
      assert rest[1..] == Join(later);
    }
  }

  lemma {:induction false} CleanKeeps(parts: seq<string>)
    requires forall i | 0 <= i < |parts| :: parts[i] != "" && Trimmed(parts[i])
    ensures Clean(parts) == parts
  {
    if parts != [] {
      TrimTrims(parts[0]);
      CleanKeeps(parts[1..]);
    }
  }

  // What splitting any text produces.

  predicate Cut(parts: seq<string>) {
    && (forall i | 0 <= i < |parts| :: NoTopComma(parts[i]))
    && (forall i | 0 <= i < |parts| - 1 :: Depth(parts[i]) == 0)
  }

  lemma EmptyText()
    ensures Depth("") == 0 && NoTopComma("")
  {
  }

  lemma {:induction false} SegmentsAreCut(s: string, current: string)
    requires NoTopComma(current)
    ensures Cut(Segments(s, Depth(current), current))
  {
    hide Depth, NoTopComma;
    EmptyText();
    if s != "" {
      DepthSnoc(current, s[0]);
      if s[0] == ',' && Depth(current) == 0 {
        SegmentsAreCut(s[1..], "");
      } else {
        SegmentsAreCut(s[1..], current + [s[0]]);
      }
    }
  }

  lemma {:induction false} DepthTail(s: string)
    requires s != ""
    ensures Depth(s) == Step(s[0]) + Depth(s[1..])
  {
    if |s| > 1 {
      var front := s[..|s| - 1];
      DepthTail(front);
      assert front[1..] == s[1..][..|s| - 2];
    }
  }

  lemma {:induction false} TrimStartKeeps(s: string)
    ensures Depth(TrimStart(s)) == Depth(s)
    ensures NoTopComma(TrimStart(s)) <==> NoTopComma(s)
  {
    if s != "" && IsSpace(s[0]) {
      TrimStartKeeps(s[1..]);
      PlainFirst(s[0], s[1..]);
      assert [s[0]] + s[1..] == s;
    }
  }

  lemma {:induction false} TrimEndKeeps(s: string)
    ensures Depth(TrimEnd(s)) == Depth(s)
    ensures NoTopComma(s) ==> NoTopComma(TrimEnd(s))
  {
    if s != "" && IsSpace(s[|s| - 1]) {
      var front := s[..|s| - 1];
      TrimEndKeeps(front);
      DepthSnoc(front, s[|s| - 1]);
      assert front + [s[|s| - 1]] == s;
    }
  }

  lemma {:induction false} CleanIsSplittable(parts: seq<string>)
    requires Cut(parts)
    ensures Splittable(Clean(parts))
  {
    hide Trim, Trimmed, NoTopComma, Depth;
    if parts != [] {
      var first := parts[0];
      assert Cut(parts[1..]) by {
        assert forall i | 0 <= i < |parts[1..]| :: parts[1..][i] == parts[i + 1];
      }
      CleanIsSplittable(parts[1..]);
      TrimTrims(first);
      TrimKeeps(first);
    }
  }

  lemma TrimKeeps(s: string)
    ensures Depth(Trim(s)) == Depth(s)
    ensures NoTopComma(s) ==> NoTopComma(Trim(s))
  {
    TrimStartKeeps(s);
    TrimEndKeeps(TrimStart(s));
  }

  /** Splitting the comma-joined parts gives them back exactly when every part is trimmed, not
      empty, keeps its commas inside parentheses and, except for the last one, balances. */
  lemma SplitInvertsJoin(parts: seq<string>)
    ensures Split(Join(parts)) == parts <==> Splittable(parts)
  {
    if Splittable(parts) {
      if parts == [] {
        assert Segments("", 0, "") == [""];
      } else {
        SegmentsOfJoin(parts);
        CleanKeeps(parts);
      }
    }
    SegmentsAreCut(Join(parts), "");
    CleanIsSplittable(Segments(Join(parts), 0, ""));
  }

  // ------------------------------------------------------------------------------ reading one part

  predicate AllLetters(s: string) { |s| > 0 && forall i | 0 <= i < |s| :: IsLetter(s[i]) }

  predicate OneLine(s: string) { forall i | 0 <= i < |s| :: !IsLineBreak(s[i]) }

  /** The pattern ^([A-Za-z_][A-Za-z0-9_]*)\.([A-Za-z]+)\.(.*)$ with its three groups. */
  predicate Matches(s: string, column: string, operator: string, raw: string) {
    s == column + "." + operator + "." + raw && IsIdentifier(column) && AllLetters(operator) && OneLine(raw)
  }

  function FirstDot(s: string): (n: nat)
    ensures n <= |s| && '.' !in s[..n] && (n < |s| ==> s[n] == '.')
  {
    if s == "" || s[0] == '.' then 0
    else
      var n := 1 + FirstDot(s[1..]);
      assert s[..n] == [s[0]] + s[1..][..n - 1];
      n
  }

  function Literal(raw: string): Value {
    if raw == "null" then Null
    else if raw == "true" then Bool(true)
    else if raw == "false" then Bool(false)
    else Text(raw)
  }

  /** The operator of a part is one or more ASCII letters, and its literal any characters but the four line ends. */
  lemma PatternExactly(operator: string, raw: string)
    ensures AllLetters(operator)
       <==> operator != "" && forall c | c in operator :: 65 <= c as int <= 90 || 97 <= c as int <= 122
    ensures OneLine(raw) <==> forall c | c in raw :: c as int !in {10, 13, 0x2028, 0x2029}
  {
    assert forall i | 0 <= i < |operator| :: operator[i] in operator;
    assert forall i | 0 <= i < |raw| :: raw[i] in raw;
    assert forall c :: IsLineBreak(c) <==> c as int in {10, 13, 0x2028, 0x2029};
    if OneLine(raw) {
      forall c | c in raw ensures !IsLineBreak(c) {
        var i :| 0 <= i < |raw| && raw[i] == c;
      }
    }
  }

  /** A literal is null or a Boolean exactly when it is that word, and is its own text otherwise. */
  lemma LiteralExactly(raw: string, v: Value)
    ensures Literal(raw) == v
       <==> match v
            case Null => raw == "null"
            case Bool(flag) => raw == if flag then "true" else "false"
            case Text(text) => text == raw && raw != "null" && raw != "true" && raw != "false"
            case _ => false
  {
  }

  /** None when the part is refused. */
  function ParseOrFilter(s: string): Option<Filter> {
    var i := FirstDot(s);
    if i == |s| then None else
    var column, tail := s[..i], s[i + 1..];
    var j := FirstDot(tail);
    if j == |tail| then None else
    var operator, raw := tail[..j], tail[j + 1..];
    if IsIdentifier(column) && AllLetters(operator) && OneLine(raw)
    then Some(Filter(column, operator, Literal(raw))) else None
  }

  lemma FirstDotOf(a: string, b: string)
    requires '.' !in a
    ensures FirstDot(a + "." + b) == |a|
  {
    var s := a + "." + b;
    var n := FirstDot(s);
    assert s[|a|] == '.';
    assert forall i | 0 <= i < |a| :: s[i] == a[i] && a[i] in a;
    assert forall i | 0 <= i < n :: s[i] in s[..n];
  }

  /** A part is read as a filter exactly when it matches the pattern, which it can do in one way. */
  lemma ParseOrFilterMatches(s: string, column: string, operator: string, raw: string)
    requires Matches(s, column, operator, raw)
    ensures ParseOrFilter(s) == Some(Filter(column, operator, Literal(raw)))
  {
    hide FirstDot, Literal;
    var tail := operator + "." + raw;
    assert s == column + "." + tail;
    FirstDotOf(column, tail) by { assert forall i | 0 <= i < |column| :: IsIdentifierPart(column[i]); }
    assert s[..|column|] == column && s[|column| + 1..] == tail;
    FirstDotOf(operator, raw);
    assert tail[..|operator|] == operator && tail[|operator| + 1..] == raw;
  }

  lemma AtDot(s: string, i: nat)
    requires i < |s| && s[i] == '.'
    ensures s == s[..i] + "." + s[i + 1..]
  {
  }

  lemma ParsedMatches(s: string)
    requires ParseOrFilter(s).Some?
    ensures exists raw :: Matches(s, ParseOrFilter(s).value.column, ParseOrFilter(s).value.operator, raw)
                          && ParseOrFilter(s).value.value == Literal(raw)
  {
    hide IsIdentifier, AllLetters, OneLine, FirstDot;
    var i := FirstDot(s);
    var column, tail := s[..i], s[i + 1..];
    var j := FirstDot(tail);
    var operator, raw := tail[..j], tail[j + 1..];
    AtDot(s, i);
    AtDot(tail, j);
    assert column + "." + (operator + "." + raw) == column + "." + operator + "." + raw;
    assert Matches(s, column, operator, raw);
  }

  // ------------------------------------------------------------------------------------- OR groups

  function ParseParts(parts: seq<string>): (r: Option<seq<Filter>>)
    ensures r.Some? ==> |r.value| == |parts|
    ensures r.Some? ==> forall i | 0 <= i < |parts| :: ParseOrFilter(parts[i]) == Some(r.value[i])
    ensures (forall i | 0 <= i < |parts| :: ParseOrFilter(parts[i]).Some?) ==> r.Some?
  {
    hide ParseOrFilter;
    if parts == [] then Some([]) else
    assert parts == [parts[0]] + parts[1..];
    match (ParseOrFilter(parts[0]), ParseParts(parts[1..]))
    case (Some(f), Some(fs)) => Some([f] + fs)
    case _ => None
  }

  /** The group an expression stands for; None when a part is refused. */
  function OrGroup(expression: string): Option<seq<Filter>> { ParseParts(Split(expression)) }

  function Printed(f: Filter): string
    requires f.value.Text?
  {
    f.column + "." + f.operator + "." + f.value.text
  }

  function PrintedAll(fs: seq<Filter>): (r: seq<string>)
    requires forall f | f in fs :: f.value.Text?
    ensures |r| == |fs| && forall i | 0 <= i < |fs| :: r[i] == Printed(fs[i])
  {
    if fs == [] then [] else [Printed(fs[0])] + PrintedAll(fs[1..])
  }

  /** What a text filter must look like to survive printing, checkable on the filter alone. */
  predicate Printable(f: Filter)
    requires f.value.Text?
  {
    var t := f.value.text;
    && IsIdentifier(f.column) && AllLetters(f.operator)
    && OneLine(t) && t !in {"null", "true", "false"}
    && (t != "" ==> !IsSpace(t[|t| - 1])) && NoTopComma(t)
  }

  predicate Plain(s: string) { forall i | 0 <= i < |s| :: s[i] !in {'(', ')', ','} }

  lemma PlainFirst(c: char, s: string)
    requires c != ',' && Step(c) == 0
    ensures Depth([c] + s) == Depth(s)
    ensures NoTopComma([c] + s) <==> NoTopComma(s)
  {
    var t := [c] + s;
    DepthTail(t);
    assert t[1..] == s;
    forall i | 0 <= i <= |s| ensures Depth(t[..i + 1]) == Depth(s[..i]) {
      DepthTail(t[..i + 1]);
      assert t[..i + 1][1..] == s[..i];
    }
    assert forall i | 1 <= i < |t| :: t[i] == s[i - 1] && Depth(t[..i]) == Depth(s[..i - 1]);
    assert forall i | 0 <= i < |s| :: s[i] == t[i + 1];
  }

  lemma {:induction false} PlainPrefix(a: string, b: string)
    requires Plain(a)
    ensures Depth(a + b) == Depth(b)
    ensures NoTopComma(a + b) <==> NoTopComma(b)
  {
    hide Depth, NoTopComma;
    if a == "" {
      assert a + b == b;
    } else {
      PlainPrefix(a[1..], b);
      PlainFirst(a[0], a[1..] + b);
      assert [a[0]] + (a[1..] + b) == a + b;
    }
  }

  lemma PrintedPart(f: Filter)
    requires f.value.Text? && IsIdentifier(f.column) && AllLetters(f.operator)
    ensures var p := Printed(f); var t := f.value.text;
            && p != "" && Depth(p) == Depth(t) && (NoTopComma(p) <==> NoTopComma(t))
            && (Trimmed(p) <==> (t != "" ==> !IsSpace(t[|t| - 1])))
  {
    var prefix := f.column + "." + f.operator + ".";
    assert Printed(f) == prefix + f.value.text;
    assert forall i | 0 <= i < |f.column| :: IsIdentifierPart(f.column[i]);
    PlainPrefix(prefix, f.value.text);
    assert Printed(f)[0] == f.column[0];
  }

  /** Every filter printable, every text but the last balanced. */
  predicate Recoverable(fs: seq<Filter>)
    requires forall f | f in fs :: f.value.Text?
  {
    && (forall i | 0 <= i < |fs| :: Printable(fs[i]))
    && (forall i | 0 <= i < |fs| - 1 :: Depth(fs[i].value.text) == 0)
  }

  lemma RecoverableParts(fs: seq<Filter>)
    requires forall f | f in fs :: f.value.Text?
    requires Recoverable(fs)
    ensures Splittable(PrintedAll(fs)) && ParseParts(PrintedAll(fs)) == Some(fs)
  {
    var parts := PrintedAll(fs);
    forall i | 0 <= i < |fs|
      ensures parts[i] != "" && Trimmed(parts[i]) && NoTopComma(parts[i])
      ensures Depth(parts[i]) == Depth(fs[i].value.text)
      ensures ParseOrFilter(parts[i]) == Some(fs[i])
    {
      PrintedPart(fs[i]);
      ParseOrFilterMatches(parts[i], fs[i].column, fs[i].operator, fs[i].value.text);
    }
    assert ParseParts(parts).value == fs;
  }

  lemma ParsedBack(part: string, f: Filter)
    requires f.value.Text? && ParseOrFilter(part) == Some(f)
    ensures part == Printed(f) && IsIdentifier(f.column) && AllLetters(f.operator)
    ensures OneLine(f.value.text) && f.value.text !in {"null", "true", "false"}
  {
    ParsedMatches(part);
  }

  lemma RecoveredParts(fs: seq<Filter>, found: seq<string>)
    requires forall f | f in fs :: f.value.Text?
    requires ParseParts(found) == Some(fs) && Splittable(found)
    ensures found == PrintedAll(fs) && Recoverable(fs)
  {
    forall i | 0 <= i < |fs| ensures found[i] == Printed(fs[i]) && Printable(fs[i]) && Depth(found[i]) == Depth(fs[i].value.text) {
      ParsedBack(found[i], fs[i]);
      PrintedPart(fs[i]);
    }
  }

  /** An OR group printed as comma-separated `column.operator.text` parts is recovered exactly when
      every filter is printable and every text but the last balances its parentheses. */
  lemma OrRecoversExactly(fs: seq<Filter>)
    requires forall f | f in fs :: f.value.Text?
    ensures OrGroup(Join(PrintedAll(fs))) == Some(fs) <==> Recoverable(fs)
  {
    var text := Join(PrintedAll(fs));
    SplitInvertsJoin(PrintedAll(fs));
    if Recoverable(fs) { RecoverableParts(fs); }
    if OrGroup(text) == Some(fs) {
      SegmentsAreCut(text, "");
      CleanIsSplittable(Segments(text, 0, ""));
      RecoveredParts(fs, Split(text));
    }
  }

  lemma GroupPart(expression: string, f: Filter) returns (part: string, raw: string)
    requires OrGroup(expression).Some? && f in OrGroup(expression).value
    ensures Matches(part, f.column, f.operator, raw) && f.value == Literal(raw)
  {
    var parts := Split(expression);
    var i :| 0 <= i < |parts| && OrGroup(expression).value[i] == f;
    part := parts[i];
    ParsedMatches(part);
    raw :| Matches(part, f.column, f.operator, raw) && f.value == Literal(raw);
  }

  /** In an OR group `in` matches no row at all, whatever list it spells, because the value of a
      part is never a list. */
  lemma OrInMatchesNothing(expression: string, f: Filter, row: Row, rule: Rule)
    requires OrGroup(expression).Some? && f in OrGroup(expression).value && f.operator == "in"
    ensures Resolve(f).Some? && !Meets(Resolve(f).value, row, rule)
  {
    hide OrGroup, Matches, IsReading, IsTokens;
    var part, raw := GroupPart(expression, f);
    assert !f.value.List?;
    assert BaseOperator("in") == "in" && TestOf("in") == Some(InTest);
  }

  /** An OR group holds no negated filter. */
  lemma OrHasNoNegation(expression: string, f: Filter)
    requires OrGroup(expression).Some? && f in OrGroup(expression).value
    ensures !IsNegated(f.operator)
  {
    var part, raw := GroupPart(expression, f);
    if |f.operator| > 3 { assert IsLetter(f.operator[3]); }
  }

  /** A negated part such as `column.not.eq.value` is read with the operator `not`, which the
      builder does not support. */
  lemma OrRefusesNot(column: string, operator: string, raw: string)
    requires IsIdentifier(column) && OneLine(operator + "." + raw)
    ensures var f := Filter(column, "not", Literal(operator + "." + raw));
            ParseOrFilter(column + ".not." + operator + "." + raw) == Some(f) && Resolve(f).None?
  {
    var s := column + ".not." + operator + "." + raw;
    DotsAround(column, "not", operator + "." + raw);
    assert "." + "not" + "." == ".not." && s == column + ".not." + (operator + "." + raw);
    ParseOrFilterMatches(s, column, "not", operator + "." + raw);
  }

  /** A part of an OR expression can splice text after IS; that text may also close the group's parenthesis and
      open another, because the part is then still a part of its expression. */
  lemma OrSplicesText(column: string)
    requires IsIdentifier(column)
    ensures var f := Filter(column, "is", Text("null or true"));
            ParseOrFilter(column + ".is." + "null or true") == Some(f) && Resolve(f) == Some(OrTrue(column))
  {
    DotsAround(column, "is", "null or true");
    assert "." + "is" + "." == ".is.";
    ParseOrFilterMatches(column + ".is." + "null or true", column, "is", "null or true");
  }

  lemma OrSplicesParentheses(column: string)
    requires IsIdentifier(column)
    ensures var f := Filter(column, "is", Text("null) or (true"));
            ParseOrFilter(column + ".is." + "null) or (true") == Some(f) && Resolve(f) == Some(BreakOut(column))
  {
    hide ParseOrFilter;
    DotsAround(column, "is", "null) or (true");
    assert "." + "is" + "." == ".is.";
    ParseOrFilterMatches(column + ".is." + "null) or (true", column, "is", "null) or (true");
  }

  /** Such a part has no comma, is trimmed and balances, so it keeps its place among other parts. */
  lemma ParenthesesKeepTheirPlace(column: string)
    requires IsIdentifier(column)
    ensures var part := Printed(Filter(column, "is", Text("null) or (true")));
            part == column + ".is." + "null) or (true" && Trimmed(part) && NoTopComma(part) && Depth(part) == 0
  {
    hide Depth, NoTopComma;
    DotsAround(column, "is", "null) or (true");
    assert "." + "is" + "." == ".is.";
    PrintedPart(Filter(column, "is", Text("null) or (true")));
    BreakOutDepth();
    NoCommas("null) or (true");
  }

  lemma NoCommas(s: string)
    requires forall i | 0 <= i < |s| :: s[i] != ','
    ensures NoTopComma(s)
  {
  }

  /** A text that opens a parenthesis and closes none. */
  lemma OpeningDepth()
    ensures Depth("(true") == 1
  {
    assert "(true"[1..] == "true" && "true" + "" == "true";
    hide Depth;
    DepthTail("(true");
    PlainPrefix("true", "");
    EmptyDepth();
  }

  lemma ClosingDepth()
    ensures Depth(") or (true") == 0
  {
    assert ") or (true"[1..] == " or (true" == " or " + "(true";
    hide Depth;
    OpeningDepth();
    PlainPrefix(" or ", "(true");
    DepthTail(") or (true");
  }

  lemma BreakOutDepth()
    ensures Depth("null) or (true") == 0
  {
    hide Depth;
    ClosingDepth();
    PlainPrefix("null", ") or (true");
    assert "null" + ") or (true" == "null) or (true";
  }

  lemma EmptyDepth()
    ensures Depth("") == 0
  {
  }

  lemma DotsAround(column: string, operator: string, raw: string)
    ensures column + "." + operator + "." + raw == column + ("." + operator + ".") + raw
  {
  }
}
