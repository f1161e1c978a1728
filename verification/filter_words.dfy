/** What the words of the query builder mean: which rows a filter is for, said of the column's value and the
    filter's own, by the word its caller gives. */
module FilterWords {
  import opened Outcomes
  import opened SqlText
  import opened SqlGrammar
  import opened SqlLexer
  import opened WhereClause
  import opened Words

  /** What the database makes of two known values: whether they are the same, whether the first is below the second,
      whether the first is like the second as a pattern, in its letter case or any, and whether it contains it. */
  datatype Sense = Sense(
    same: (Value, Value) -> bool, below: (Value, Value) -> bool,
    like: (Value, Value) -> bool, likeInAnyCase: (Value, Value) -> bool, contains: (Value, Value) -> bool)

  /** The rule reads = and <> as sameness and its opposite, and <, <=, > and >= as below, or the same, in one
      direction or the other. */
  ghost predicate ReadsAs(rule: Rule, sense: Sense) {
    forall a, b | a != Null && b != Null ::
      && rule(Equal, a, b) == sense.same(a, b) && rule(NotEqual, a, b) == !sense.same(a, b)
      && rule(Less, a, b) == sense.below(a, b) && rule(LessEqual, a, b) == (sense.below(a, b) || sense.same(a, b))
      && rule(Greater, a, b) == sense.below(b, a) && rule(GreaterEqual, a, b) == (sense.below(b, a) || sense.same(a, b))
      && rule(Like, a, b) == sense.like(a, b) && rule(ILike, a, b) == sense.likeInAnyCase(a, b)
      && rule(Contains, a, b) == sense.contains(a, b)
  }

  const COMPARING := {"eq", "neq", "gt", "gte", "lt", "lte", "like", "ilike", "contains"}

  /** The word with `not.` in front. */
  predicate IsNot(operator: string, words: set<string>) {
    |operator| >= 4 && operator[..4] == "not." && operator[4..] in words
  }

  const FOR_NULL := {Null, Text("null"), Text("NULL"), Text("unknown")}
  const FOR_SOME := {Text("not null"), Text("NOT NULL"), Text("not unknown")}
  const FOR_TRUE := {Bool(true), Text("true"), Text("TRUE")}
  const FOR_FALSE := {Bool(false), Text("false"), Text("FALSE")}
  const FOR_NOT_TRUE := {Text("not true"), Text("NOT TRUE")}
  const FOR_NOT_FALSE := {Text("not false"), Text("NOT FALSE")}

  /** The values that IS is meant for. */
  const TESTABLE := FOR_NULL + FOR_SOME + FOR_TRUE + FOR_FALSE + FOR_NOT_TRUE + FOR_NOT_FALSE

  predicate TestWanted(test: Value, v: Value) {
    || (test in FOR_NULL && v == Null) || (test in FOR_SOME && v != Null)
    || (test in FOR_TRUE && v == Bool(true)) || (test in FOR_FALSE && v == Bool(false))
    || (test in FOR_NOT_TRUE && v != Bool(true)) || (test in FOR_NOT_FALSE && v != Bool(false))
  }

  /** A filter on a proper column, with one of the builder's words, and a value that the word is meant for. */
  predicate Proper(f: Filter) {
    && IsIdentifier(f.column)
    && (f.operator in COMPARING || IsNot(f.operator, COMPARING) || f.operator == "in" || f.operator == "not.in"
        || ((f.operator == "is" || f.operator == "not.is") && f.value in TESTABLE))
  }

  predicate ComparisonWanted(word: string, v: Value, x: Value, sense: Sense) {
    match word
    case "eq" => sense.same(v, x)
    case "neq" => !sense.same(v, x)
    case "gt" => sense.below(x, v)
    case "gte" => sense.below(x, v) || sense.same(v, x)
    case "lt" => sense.below(v, x)
    case "lte" => sense.below(v, x) || sense.same(v, x)
    case "like" => sense.like(v, x)
    case "ilike" => sense.likeInAnyCase(v, x)
    case "contains" => sense.contains(v, x)
    case _ => false
  }

  /** A list that is looked for, or looked out for. */
  predicate ListWanted(negated: bool, v: Value, items: seq<Value>, sense: Sense) {
    if negated then items == [] || (v != Null && forall x | x in items :: x != Null && !sense.same(v, x))
    else v != Null && exists x | x in items :: x != Null && sense.same(v, x)
  }

  /** The row is one that the filter is for. A comparison, negated or not, is for rows whose column is known; a list
      that is no array is an empty one. */
  predicate Wanted(f: Filter, row: Row, sense: Sense) {
    var v, items := row(f.column), if f.value.List? then f.value.items else [];
    if f.operator == "is" then TestWanted(f.value, v)
    else if f.operator == "not.is" then !TestWanted(f.value, v)
    else if f.operator == "in" || f.operator == "not.in" then ListWanted(f.operator == "not.in", v, items, sense)
    else
      && v != Null && f.value != Null
      && if IsNot(f.operator, COMPARING) then !ComparisonWanted(f.operator[4..], v, f.value, sense)
         else ComparisonWanted(f.operator, v, f.value, sense)
  }

  /** Every filter, and some filter of each group. */
  predicate AllWanted(filters: seq<Filter>, groups: seq<seq<Filter>>, row: Row, sense: Sense) {
    && (forall f | f in filters :: Wanted(f, row, sense))
    && (forall g | g in groups :: exists f | f in g :: Wanted(f, row, sense))
  }

  predicate AllProper(filters: seq<Filter>, groups: seq<seq<Filter>>) {
    && (forall f | f in filters :: Proper(f))
    && (forall g | g in groups :: g != [] && forall f | f in g :: Proper(f))
  }

  /** Under every rule that reads SQL's operators, the text is true of exactly the rows the filters are for. */
  ghost predicate SelectsWanted(text: seq<Token>, values: seq<Value>, filters: seq<Filter>, groups: seq<seq<Filter>>) {
    forall row, rule, sense | ReadsAs(rule, sense) ::
      Holds(Parse(text), row, values, rule) <==> AllWanted(filters, groups, row, sense)
  }

  // --------------------------------------------------------------------------------------- the words of IS

  lemma OneWord(word: string)
    requires word in {"NULL", "TRUE", "FALSE", "UNKNOWN"}
    ensures IsReading(Lex(word)) == Some(word)
  {
    hide Lex, Cut;
    LexPlain(word);
    CutWord(word, "");
    CutNothing();
    assert word + "" == word;
    TokenName(word);
    hide WordToken;
  }

  lemma TwoWords(word: string)
    requires word in {"NULL", "TRUE", "FALSE", "UNKNOWN"}
    ensures IsReading(Lex("NOT " + word)) == Some("NOT " + word)
  {
    hide Lex, Cut, WordToken;
    LexPlain("NOT " + word);
    assert "NOT " + word == "NOT" + (" " + (word + ""));
    CutWord("NOT", " " + (word + ""));
    CutBlank(word + "");
    CutWord(word, "");
    CutNothing();
    TokenName(word);
  }

  lemma TestTexts(test: Value)
    ensures test in FOR_NULL ==> IsText(test) == "NULL" || IsText(test) == "UNKNOWN"
    ensures test in FOR_TRUE ==> IsText(test) == "TRUE"
    ensures test in FOR_FALSE ==> IsText(test) == "FALSE"
  {
    UpperWords();
    hide Upper;
  }

  lemma UpperWords()
    ensures Upper("null") == Upper("NULL") == "NULL" && Upper("unknown") == "UNKNOWN"
    ensures Upper("true") == Upper("TRUE") == "TRUE" && Upper("false") == Upper("FALSE") == "FALSE"
  {
  }

  lemma NegatedTexts(test: Value)
    ensures test in FOR_SOME ==> IsText(test) == "NOT " + "NULL" || IsText(test) == "NOT " + "UNKNOWN"
    ensures test in FOR_NOT_TRUE ==> IsText(test) == "NOT " + "TRUE"
    ensures test in FOR_NOT_FALSE ==> IsText(test) == "NOT " + "FALSE"
  {
    UpperNotNull();
    UpperNotFlags();
    hide Upper;
  }

  lemma UpperNotNull()
    ensures Upper("not null") == Upper("NOT NULL") == "NOT " + "NULL" && Upper("not unknown") == "NOT " + "UNKNOWN"
  {
  }

  lemma UpperNotFlags()
    ensures Upper("not true") == Upper("NOT TRUE") == "NOT " + "TRUE" && Upper("not false") == Upper("NOT FALSE") == "NOT " + "FALSE"
  {
  }

  lemma OneWords()
    ensures IsReading(Lex("NULL")) == Some("NULL") && IsReading(Lex("UNKNOWN")) == Some("UNKNOWN")
    ensures IsReading(Lex("TRUE")) == Some("TRUE") && IsReading(Lex("FALSE")) == Some("FALSE")
  {
    hide Lex, IsReading;
    OneWord("NULL");
    OneWord("UNKNOWN");
    OneWord("TRUE");
    OneWord("FALSE");
  }

  lemma NotWords()
    ensures IsReading(Lex("NOT " + "NULL")) == Some("NOT NULL") && IsReading(Lex("NOT " + "UNKNOWN")) == Some("NOT UNKNOWN")
    ensures IsReading(Lex("NOT " + "TRUE")) == Some("NOT TRUE") && IsReading(Lex("NOT " + "FALSE")) == Some("NOT FALSE")
  {
    hide Lex, IsReading;
    TwoWords("NULL");
    TwoWords("UNKNOWN");
    TwoWords("TRUE");
    TwoWords("FALSE");
    assert "NOT " + "NULL" == "NOT NULL" && "NOT " + "UNKNOWN" == "NOT UNKNOWN";
    assert "NOT " + "TRUE" == "NOT TRUE" && "NOT " + "FALSE" == "NOT FALSE";
  }

  lemma TestWord(test: Value) returns (word: string)
    requires test in TESTABLE
    ensures IsReading(IsTokens(test)) == Some(word)
    ensures if test in FOR_NULL then word == "NULL" || word == "UNKNOWN"
            else if test in FOR_SOME then word == "NOT NULL" || word == "NOT UNKNOWN"
            else if test in FOR_TRUE then word == "TRUE"
            else if test in FOR_FALSE then word == "FALSE"
            else if test in FOR_NOT_TRUE then word == "NOT TRUE" else word == "NOT FALSE"
  {
    hide Lex, IsText, IsReading;
    TestTexts(test);
    NegatedTexts(test);
    OneWords();
    NotWords();
    word := IsReading(IsTokens(test)).value;
  }

  lemma TestMeans(test: Value, v: Value)
    requires test in TESTABLE
    ensures IsReading(IsTokens(test)).Some? && IsHolds(IsReading(IsTokens(test)).value, v) == TestWanted(test, v)
  {
    hide IsReading, IsTokens;
    var word := TestWord(test);
  }

  // -------------------------------------------------------------------------------------- filters and groups

  /** The comparison that a word is compiled to. */
  lemma ComparingWord(word: string, v: Value, x: Value, rule: Rule, sense: Sense)
    requires word in COMPARING && ReadsAs(rule, sense) && v != Null && x != Null
    ensures TestOf(word).Some? && TestOf(word).value.CompareTest?
    ensures rule(TestOf(word).value.op, v, x) == ComparisonWanted(word, v, x, sense)
  {
  }

  lemma WordTests(word: string)
    ensures word in COMPARING ==> TestOf(word).Some? && TestOf(word).value.CompareTest? && !IsNegated(word)
    ensures word in COMPARING ==> word !in {"is", "in", "not.is", "not.in"}
    ensures TestOf("in") == Some(InTest) && TestOf("is") == Some(IsTest) && !IsNegated("in") && !IsNegated("is")
  {
    assert IsNegated(word) ==> |word| >= 2 && word[0] == "not."[0] && word[1] == "not."[1];
    assert word in COMPARING ==> |word| >= 2 && (word[0] != 'n' || word[1] != 'o');
  }

  /** A filter and its word: negated or not, the word is taken for what it is. */
  lemma WordResolves(f: Filter, word: string)
    requires IsIdentifier(f.column) && (f.operator == word || f.operator == "not." + word)
    requires word in COMPARING || word == "in" || word == "is"
    ensures BaseOperator(f.operator) == word && IsNegated(f.operator) == (f.operator != word) && TestOf(word).Some?
    ensures Resolve(f) == Some(Condition(f.column, f.operator != word, TestOf(word).value, f.value))
  {
    WordTests(word);
    hide TestOf;
    assert ("not." + word)[4..] == word && ("not." + word)[..4] == "not.";
  }

  lemma ComparisonIsWanted(f: Filter, word: string, row: Row, rule: Rule, sense: Sense)
    requires Proper(f) && ReadsAs(rule, sense) && word in COMPARING && (f.operator == word || f.operator == "not." + word)
    ensures Resolve(f).Some? && Readable(Resolve(f).value)
    ensures Meets(Resolve(f).value, row, rule) <==> Wanted(f, row, sense)
  {
    var v := row(f.column);
    WordResolves(f, word);
    WordTests(word);
    WordTests("not." + word);
    assert f.operator == "not." + word ==> f.operator[..4] == "not." && f.operator[4..] == word;
    assert f.operator !in {"is", "in", "not.is", "not.in"} by { NotIsOrIn(word); }
    if v != Null && f.value != Null { ComparingWord(word, v, f.value, rule, sense); }
    hide Lex, IsHolds, TestOf, TestWanted, ComparisonWanted, IsReading, ReadsAs, Resolve;
    assert IsNot(f.operator, COMPARING) <==> f.operator != word;
  }

  lemma NotIsOrIn(word: string)
    requires word in COMPARING
    ensures "not." + word != "not.in" && "not." + word != "not.is"
  {
    assert ("not." + word)[4..] == word && "not.in"[4..] == "in" && "not.is"[4..] == "is";
  }

  lemma ListMeans(c: Condition, row: Row, rule: Rule, sense: Sense)
    requires c.test == InTest && ReadsAs(rule, sense)
    ensures Meets(c, row, rule) <==> ListWanted(c.negated, row(c.column), if c.value.List? then c.value.items else [], sense)
  {
    var v := row(c.column);
    assert v != Null ==> forall x | x in Items(c.value) && x != Null :: rule(Equal, v, x) == sense.same(v, x);
    hide ReadsAs;
  }

  lemma ListIsWanted(f: Filter, row: Row, rule: Rule, sense: Sense)
    requires Proper(f) && ReadsAs(rule, sense) && (f.operator == "in" || f.operator == "not.in")
    ensures Resolve(f).Some? && Readable(Resolve(f).value)
    ensures Meets(Resolve(f).value, row, rule) <==> Wanted(f, row, sense)
  {
    assert "not." + "in" == "not.in";
    WordResolves(f, "in");
    WordTests("in");
    ListMeans(Resolve(f).value, row, rule, sense);
    hide Lex, IsHolds, TestOf, TestWanted, ComparisonWanted, IsReading, Resolve, ReadsAs, Meets, ListWanted;
  }

  lemma TestIsWanted(f: Filter, row: Row, rule: Rule, sense: Sense)
    requires Proper(f) && (f.operator == "is" || f.operator == "not.is")
    ensures Resolve(f).Some? && Readable(Resolve(f).value)
    ensures Meets(Resolve(f).value, row, rule) <==> Wanted(f, row, sense)
  {
    assert "not." + "is" == "not.is";
    WordResolves(f, "is");
    WordTests("is");
    assert f.operator !in COMPARING && !IsNot(f.operator, COMPARING);
    TestMeans(f.value, row(f.column));
    hide IsHolds, TestOf, TestWanted, ComparisonWanted, IsReading, IsTokens, Resolve;
  }

  /** What a filter is compiled to is met by exactly the rows the filter is for. */
  lemma FilterIsWanted(f: Filter, row: Row, rule: Rule, sense: Sense)
    requires Proper(f) && ReadsAs(rule, sense)
    ensures Resolve(f).Some? && Readable(Resolve(f).value)
    ensures Meets(Resolve(f).value, row, rule) <==> Wanted(f, row, sense)
  {
    if f.operator == "in" || f.operator == "not.in" {
      ListIsWanted(f, row, rule, sense);
    } else if f.operator == "is" || f.operator == "not.is" {
      TestIsWanted(f, row, rule, sense);
    } else if f.operator in COMPARING {
      ComparisonIsWanted(f, f.operator, row, rule, sense);
    } else {
      assert f.operator == "not." + f.operator[4..];
      ComparisonIsWanted(f, f.operator[4..], row, rule, sense);
    }
    hide Meets, Wanted, Resolve, ReadsAs;
  }

  /** The builder accepts such a filter, and its text can be read. */
  lemma ProperResolves(f: Filter)
    requires Proper(f)
    ensures Resolve(f).Some? && Readable(Resolve(f).value)
  {
    if f.operator == "in" || f.operator == "not.in" {
      assert "not." + "in" == "not.in";
      WordResolves(f, "in");
    } else if f.operator == "is" || f.operator == "not.is" {
      assert "not." + "is" == "not.is";
      WordResolves(f, "is");
      TestMeans(f.value, Null);
    } else {
      var word := if f.operator in COMPARING then f.operator else f.operator[4..];
      assert f.operator == word || f.operator == "not." + word;
      WordResolves(f, word);
    }
    WordTests(BaseOperator(f.operator));
    hide TestOf, IsTokens, IsReading, Resolve;
  }
}
