/** The compilation of filters and OR groups to the text after WHERE, and its exact meaning. */
module WhereClause {
  import opened Outcomes
  import opened SqlText
  import opened SqlGrammar
  import opened SqlLexer
  import opened Words

  datatype Filter = Filter(column: string, operator: string, value: Value)

  // ------------------------------------------------------------------------------ source helpers

  predicate IsLetter(c: char) { 'a' <= c <= 'z' || 'A' <= c <= 'Z' }

  predicate IsIdentifierStart(c: char) { IsLetter(c) || c == '_' }

  predicate IsIdentifierPart(c: char) { IsIdentifierStart(c) || '0' <= c <= '9' }

  predicate IsIdentifier(s: string) {
    |s| > 0 && IsIdentifierStart(s[0]) && forall i | 0 <= i < |s| :: IsIdentifierPart(s[i])
  }

  function Decimal(n: nat): string {
    (if n < 10 then "" else Decimal(n / 10)) + [('0' as int + n % 10) as char]
  }

  /** An identifier is one or more characters with the codes of ASCII letters, digits and the underscore (95), of which
      the first is no digit. */
  lemma IdentifierExactly(s: string)
    ensures IsIdentifier(s)
       <==> && |s| > 0 && !(48 <= s[0] as int <= 57)
            && forall i | 0 <= i < |s| ::
                 var code := s[i] as int; 65 <= code <= 90 || 97 <= code <= 122 || 48 <= code <= 57 || code == 95
  {
    assert forall c :: IsIdentifierPart(c) <==>
      65 <= c as int <= 90 || 97 <= c as int <= 122 || 48 <= c as int <= 57 || c as int == 95;
    if |s| > 0 { assert IsIdentifierStart(s[0]) <==> IsIdentifierPart(s[0]) && !(48 <= s[0] as int <= 57); }
    hide IsLetter, IsIdentifierStart, IsIdentifierPart;
  }

  function FromDecimal(s: string): int {
    if s == "" then 0 else 10 * FromDecimal(s[..|s| - 1]) + (s[|s| - 1] as int - '0' as int)
  }

  /** A number is printed as its digits, without needless zeros before them. */
  lemma {:induction false} DecimalReads(n: nat)
    ensures FromDecimal(Decimal(n)) == n && Decimal(n) != "" && (Decimal(n)[0] == '0' <==> n == 0)
  {
    var s, last := Decimal(n), ('0' as int + n % 10) as char;
    if n < 10 {
      assert s == [last] && s[..0] == "";
    } else {
      DecimalReads(n / 10);
      assert s == Decimal(n / 10) + [last] && s[..|s| - 1] == Decimal(n / 10);
    }
  }

  /** JavaScript's String(value); inside an array null prints as nothing. */
  function StringOf(v: Value): string {
    match v
    case Null => "null"
    case Bool(b) => if b then "true" else "false"
    case Number(n) => if n < 0 then "-" + Decimal(-n) else Decimal(n)
    case Text(s) => s
    case List(items) => StringOfItems(items)
  }

  function StringOfItems(items: seq<Value>): string {
    if items == [] then ""
    else (if items[0] == Null then "" else StringOf(items[0]))
         + (if |items| == 1 then "" else "," + StringOfItems(items[1..]))
  }

  /** A text is printed as it is, and a number below zero with its sign. */
  lemma SignPrinted(n: int, s: string)
    ensures StringOf(Text(s)) == s
    ensures n > 0 ==> StringOf(Number(0 - n)) == "-" + StringOf(Number(n))
  {
    hide Decimal;
  }

  /** A list is printed as its items, one after another, a comma between two of them and nothing for a null. */
  lemma {:induction false} ItemsPrinted(items: seq<Value>, last: Value)
    ensures StringOfItems([]) == ""
    ensures StringOfItems(items + [last])
         == (if items == [] then "" else StringOfItems(items) + ",") + (if last == Null then "" else StringOf(last))
  {
    hide StringOf;
    var all := items + [last];
    var cell := if last == Null then "" else StringOf(last);
    if items == [] {
      assert all == [last];
      assert cell + "" == cell && "" + cell == cell;
    } else {
      ItemsPrinted(items[1..], last);
      assert all[1..] == items[1..] + [last] && all[0] == items[0];
      var first := if items[0] == Null then "" else StringOf(items[0]);
      if |items| == 1 {
        assert items[1..] == [] && first + "" == first;
        assert first + ("," + ("" + cell)) == (first + ",") + cell;
      } else {
        var rest := StringOfItems(items[1..]);
        assert first + ("," + ((rest + ",") + cell)) == ((first + ("," + rest)) + ",") + cell;
      }
    }
  }

  /** The text that is spliced in after IS. */
  function IsText(v: Value): string {
    if v == Null || v == Text("null") then "NULL" else Upper(StringOf(v))
  }

  function IsTokens(v: Value): seq<Token> { Lex(IsText(v)) }

  function Items(v: Value): seq<Value> { if v.List? then v.items else [] }

  // ------------------------------------------------------------------------------------ operators

  /** The names that looking up an operator finds on every object. */
  const INHERITED := {"constructor", "hasOwnProperty", "isPrototypeOf", "propertyIsEnumerable", "toLocaleString", "toString",
                      "valueOf", "__proto__", "__defineGetter__", "__defineSetter__", "__lookupGetter__", "__lookupSetter__"}

  type Inherited = name: string | name in INHERITED witness "toString"

  datatype Test = IsTest | InTest | CompareTest(op: Comparison) | InheritedTest(name: Inherited)

  /** What such a name stands for, as it is printed. */
  function InheritedText(name: string): string {
    if name == "__proto__" then "[object Object]" else "function " + Signature(name)
  }

  function Signature(name: string): string { (if name == "constructor" then "Object" else name) + "() { [native code] }" }

  /** A function is printed under its own name, the constructor under that of objects. */
  lemma InheritedPrinted(name: string)
    requires name != "__proto__" && name != "constructor"
    ensures InheritedText(name) == "function " + (name + "() { [native code] }")
    ensures Signature("constructor") == "Object" + "() { [native code] }"
  {
  }

  function InheritedTokens(name: string): seq<Token> { Lex(Upper(InheritedText(name))) }

  /** A filter whose column is a safe identifier and whose operator is known. */
  datatype Condition = Condition(column: string, negated: bool, test: Test, value: Value)

  function TestOf(operator: string): Option<Test> {
    match operator
    case "is" => Some(IsTest)
    case "in" => Some(InTest)
    case "eq" => Some(CompareTest(Equal))
    case "neq" => Some(CompareTest(NotEqual))
    case "gt" => Some(CompareTest(Greater))
    case "gte" => Some(CompareTest(GreaterEqual))
    case "lt" => Some(CompareTest(Less))
    case "lte" => Some(CompareTest(LessEqual))
    case "like" => Some(CompareTest(Like))
    case "ilike" => Some(CompareTest(ILike))
    case "contains" => Some(CompareTest(Contains))
    case _ => if operator in INHERITED then Some(InheritedTest(operator)) else None
  }

  predicate IsNegated(operator: string) { "not." <= operator }

  function BaseOperator(operator: string): string {
    if IsNegated(operator) then operator[4..] else operator
  }

  /** None when the builder throws: an unsafe column or an unsupported operator. */
  function Resolve(f: Filter): Option<Condition> {
    match TestOf(BaseOperator(f.operator))
    case None => None
    case Some(test) =>
      if IsIdentifier(f.column) then Some(Condition(f.column, IsNegated(f.operator), test, f.value)) else None
  }

  function ResolveAll(fs: seq<Filter>): (r: Option<seq<Condition>>)
    ensures r.Some? <==> forall i | 0 <= i < |fs| :: Resolve(fs[i]).Some?
    ensures r.Some? ==> |r.value| == |fs| && forall i | 0 <= i < |fs| :: r.value[i] == Resolve(fs[i]).value
  {
    hide Resolve;
    if fs == [] then Some([]) else
    assert fs == [fs[0]] + fs[1..];
    match (Resolve(fs[0]), ResolveAll(fs[1..]))
    case (Some(c), Some(cs)) => Some([c] + cs)
    case _ => None
  }

  // ------------------------------------------------------------------------------------- compiler

  /** The placeholder numbers after `base`: base + 1, ..., base + n. */
  function Numbers(base: nat, n: nat): (r: seq<nat>)
    ensures |r| == n
  {
    seq(n, i requires 0 <= i < n => base + 1 + i)
  }

  lemma NumbersConcat(base: nat, m: nat, n: nat)
    ensures Numbers(base, m) + Numbers(base + m, n) == Numbers(base, m + n)
  {
  }

  /** The parameters a condition adds. */
  function Bound(c: Condition): seq<Value> {
    match c.test
    case IsTest => []
    case InTest => Items(c.value)
    case CompareTest(_) => [c.value]
    case InheritedTest(_) => [c.value]
  }

  function Wrap(negated: bool, ts: seq<Token>): seq<Token> {
    if negated then [Not, LParen] + ts + [RParen] else ts
  }

  /** The text of a condition whose first parameter is number base + 1. */
  function Piece(c: Condition, base: nat): seq<Token> {
    match c.test
    case IsTest => Wrap(c.negated, [Column(c.column), Is] + IsTokens(c.value))
    case InTest =>
      var n := |Items(c.value)|;
      if n == 0 then [if c.negated then TrueWord else FalseWord]
      else [Column(c.column)] + (InOpening(c.negated) + CommaJoin(Numbers(base, n)) + [RParen])
    case CompareTest(op) =>
      Wrap(c.negated, [Column(c.column), Compare(op), Param(base + 1)]
                      + (if op == Contains then [JsonCast] else []))
    case InheritedTest(name) => Wrap(c.negated, [Column(c.column)] + (InheritedTokens(name) + [Param(base + 1)]))
  }

  /** One conjunct: a filter, or an OR group in parentheses. */
  datatype Clause = Single(condition: Condition) | Group(conditions: seq<Condition>)

  function BoundAll(cs: seq<Condition>): seq<Value> {
    if cs == [] then [] else Bound(cs[0]) + BoundAll(cs[1..])
  }

  function ClauseBound(c: Clause): seq<Value> {
    match c case Single(f) => Bound(f) case Group(fs) => BoundAll(fs)
  }

  function ClausesBound(cs: seq<Clause>): seq<Value> {
    if cs == [] then [] else ClauseBound(cs[0]) + ClausesBound(cs[1..])
  }

  function Pieces(cs: seq<Condition>, base: nat): (r: seq<seq<Token>>)
    ensures |r| == |cs|
  {
    if cs == [] then [] else [Piece(cs[0], base)] + Pieces(cs[1..], base + |Bound(cs[0])|)
  }

  function ClausePiece(c: Clause, base: nat): seq<Token> {
    match c
    case Single(f) => Piece(f, base)
    case Group(fs) => [LParen] + Joined(Pieces(fs, base), Or) + [RParen]
  }

  function ClausePieces(cs: seq<Clause>, base: nat): (r: seq<seq<Token>>)
    ensures |r| == |cs|
  {
    if cs == [] then []
    else [ClausePiece(cs[0], base)] + ClausePieces(cs[1..], base + |ClauseBound(cs[0])|)
  }

  /** The text after WHERE; no clauses, no WHERE. */
  function ConditionText(cs: seq<Clause>, base: nat): seq<Token> {
    Joined(ClausePieces(cs, base), And)
  }

  function ClausesOf(filters: seq<Condition>, groups: seq<seq<Condition>>): seq<Clause> {
    seq(|filters|, i requires 0 <= i < |filters| => Single(filters[i]))
    + seq(|groups|, i requires 0 <= i < |groups| => Group(groups[i]))
  }

  // -------------------------------------------------------------------------------- plain meaning

  /** The operator is one of the database's, and the text after IS is one test and nothing else. */
  predicate Readable(c: Condition) { Known(c) && SingleTest(c) }

  predicate Known(c: Condition) { !c.test.InheritedTest? }

  predicate SingleTest(c: Condition) { c.test == IsTest ==> IsReading(IsTokens(c.value)).Some? }

  /** When a row satisfies a condition, said without three-valued logic. A comparison needs both sides to be
      known, negated or not. A row meets no IS condition that is not one test, and none with an inherited
      operator. IN needs a known, equal item; NOT IN over a non-empty list needs a known column and only known,
      different items; empty lists ignore the row. */
  predicate Meets(c: Condition, row: Row, rule: Rule) {
    var v := row(c.column);
    match c.test
    case IsTest => Readable(c) && IsHolds(IsReading(IsTokens(c.value)).value, v) != c.negated
    case InTest =>
      if c.negated then
        Items(c.value) == [] || (v != Null && forall x | x in Items(c.value) :: x != Null && !rule(Equal, v, x))
      else
        v != Null && exists x | x in Items(c.value) :: x != Null && rule(Equal, v, x)
    case CompareTest(op) => v != Null && c.value != Null && rule(op, v, c.value) != c.negated
    case InheritedTest(_) => false
  }

  predicate AnyMeets(cs: seq<Condition>, row: Row, rule: Rule) { exists c | c in cs :: Meets(c, row, rule) }

  predicate ClauseMeets(c: Clause, row: Row, rule: Rule) {
    match c
    case Single(f) => Meets(f, row, rule)
    case Group(fs) => AnyMeets(fs, row, rule)
  }

  /** All filters, and at least one filter of each group. */
  predicate Selected(filters: seq<Condition>, groups: seq<seq<Condition>>, row: Row, rule: Rule) {
    && (forall f | f in filters :: Meets(f, row, rule))
    && (forall g | g in groups :: AnyMeets(g, row, rule))
  }

  predicate GroupReadable(g: seq<Condition>) { g != [] && forall f | f in g :: Readable(f) }

  predicate ClauseReadable(c: Clause) {
    match c case Single(f) => Readable(f) case Group(fs) => GroupReadable(fs)
  }

  /** Every IS text in the clause is one test. */
  predicate TestsReadable(c: Clause) {
    match c case Single(f) => SingleTest(f) case Group(fs) => forall f | f in fs :: SingleTest(f)
  }

  // ------------------------------------------------------------------------ reading the text back

  function Negated(negated: bool, e: Expr): Expr { if negated then Negation(e) else e }

  function ExprOf(c: Condition, base: nat): Option<Expr> {
    match c.test
    case IsTest =>
      if Readable(c) then Some(Negated(c.negated, Tested(c.column, IsReading(IsTokens(c.value)).value))) else None
    case InTest =>
      var n := |Items(c.value)|;
      Some(if n == 0 then Constant(c.negated) else Listed(c.column, c.negated, Numbers(base, n)))
    case CompareTest(op) => Some(Negated(c.negated, Compared(c.column, op, base + 1)))
    case InheritedTest(_) => None
  }

  function Exprs(cs: seq<Condition>, base: nat): (r: seq<Option<Expr>>)
    ensures |r| == |cs|
  {
    if cs == [] then [] else [ExprOf(cs[0], base)] + Exprs(cs[1..], base + |Bound(cs[0])|)
  }

  function ClauseExpr(c: Clause, base: nat): Option<Expr> {
    match c case Single(f) => ExprOf(f, base) case Group(fs) => FoldAll(true, Exprs(fs, base))
  }

  function ClauseExprs(cs: seq<Clause>, base: nat): (r: seq<Option<Expr>>)
    ensures |r| == |cs|
  {
    if cs == [] then []
    else [ClauseExpr(cs[0], base)] + ClauseExprs(cs[1..], base + |ClauseBound(cs[0])|)
  }

  lemma PieceReads(c: Condition, base: nat)
    requires SingleTest(c)
    ensures Reads(Piece(c, base), ExprOf(c, base))
  {
    hide Lex;
    match c.test
    case IsTest =>
      ReadsIs(c.column, IsTokens(c.value));
      if c.negated {
        ReadsNegated([Column(c.column), Is] + IsTokens(c.value), Some(Tested(c.column, IsReading(IsTokens(c.value)).value)));
      }
    case InTest =>
      var ns := Numbers(base, |Items(c.value)|);
      if ns == [] { ReadsConstant(c.negated); } else { ReadsIn(c.column, c.negated, ns); }
    case CompareTest(op) =>
      ReadsComparison(c.column, op, base + 1, op == Contains);
      if c.negated {
        ReadsNegated([Column(c.column), Compare(op), Param(base + 1)] + (if op == Contains then [JsonCast] else []),
                     Some(Compared(c.column, op, base + 1)));
      }
    case InheritedTest(_) => InheritedIsUnreadable(c, base);
  }

  lemma {:induction false} PiecesRead(cs: seq<Condition>, base: nat)
    requires forall c | c in cs :: SingleTest(c)
    ensures forall i | 0 <= i < |cs| :: Reads(Pieces(cs, base)[i], Exprs(cs, base)[i])
  {
    hide Reads, Piece, ExprOf, SingleTest;
    if cs != [] {
      PieceReads(cs[0], base);
      PiecesRead(cs[1..], base + |Bound(cs[0])|);
    }
  }

  lemma {:induction false} ClausePiecesRead(cs: seq<Clause>, base: nat)
    requires forall c | c in cs :: TestsReadable(c)
    ensures forall i | 0 <= i < |cs| :: Reads(ClausePieces(cs, base)[i], ClauseExprs(cs, base)[i])
  {
    hide Reads, Piece, ExprOf, Joined, FoldAll, SingleTest, Pieces, Exprs;
    if cs != [] {
      assert cs[0] in cs;
      match cs[0] {
        case Single(f) => PieceReads(f, base);
        case Group(fs) =>
          PiecesRead(fs, base);
          ReadsParenthesised(Pieces(fs, base), Exprs(fs, base));
      }
      ClausePiecesRead(cs[1..], base + |ClauseBound(cs[0])|);
    }
  }

  // ------------------------------------------------------------------------------ meaning by parts

  /** The placeholders from base + 1 on refer to the bound values. */
  predicate Supplied(values: seq<Value>, base: nat, bound: seq<Value>) {
    base + |bound| <= |values| && values[base..base + |bound|] == bound
  }

  lemma SuppliedParts(values: seq<Value>, base: nat, first: seq<Value>, later: seq<Value>)
    requires Supplied(values, base, first + later)
    ensures Supplied(values, base, first) && Supplied(values, base + |first|, later)
  {
    var all := values[base..base + |first + later|];
    assert values[base..base + |first|] == all[..|first|] == first;
    assert values[base + |first|..base + |first| + |later|] == all[|first|..] == later;
  }

  lemma SuppliedAt(values: seq<Value>, base: nat, bound: seq<Value>)
    requires Supplied(values, base, bound) && bound != []
    ensures ValueAt(values, base + 1) == bound[0]
  {
    assert values[base..base + |bound|][0] == values[base];
  }

  /** e is readable when it should be, and then true of the row when it should be. */
  predicate Means(e: Option<Expr>, readable: bool, meets: bool, row: Row, values: seq<Value>, rule: Rule) {
    (e.Some? <==> readable) && (readable ==> (Holds(e, row, values, rule) <==> meets))
  }

  predicate Found(v: Value, items: seq<Value>, rule: Rule) {
    v != Null && exists x | x in items :: x != Null && rule(Equal, v, x)
  }

  predicate Excluded(v: Value, items: seq<Value>, rule: Rule) {
    items == [] || (v != Null && forall x | x in items :: x != Null && !rule(Equal, v, x))
  }

  lemma FoundParts(v: Value, first: Value, later: seq<Value>, rule: Rule)
    ensures Found(v, [first] + later, rule)
            <==> CompareValues(Equal, v, first, rule) == Yes || Found(v, later, rule)
    ensures Excluded(v, [first] + later, rule)
            <==> CompareValues(Equal, v, first, rule) == No && Excluded(v, later, rule)
  {
    var items := [first] + later;
    assert forall x :: x in items <==> x == first || x in later;
    assert first in items;
    if Excluded(v, items, rule) {
      assert forall x | x in later :: x in items && x != Null && !rule(Equal, v, x);
    }
  }

  lemma {:induction false} MemberMeans(v: Value, items: seq<Value>, base: nat, values: seq<Value>, rule: Rule)
    requires Supplied(values, base, items)
    ensures MemberOf(v, Numbers(base, |items|), values, rule) == Yes <==> Found(v, items, rule)
    ensures MemberOf(v, Numbers(base, |items|), values, rule) == No <==> Excluded(v, items, rule)
  {
    if items != [] {
      var ns := Numbers(base, |items|);
      var first, later := items[0], items[1..];
      assert ns[1..] == Numbers(base + 1, |later|);
      assert items == [first] + later;
      SuppliedParts(values, base, [first], later);
      SuppliedAt(values, base, items);
      MemberMeans(v, later, base + 1, values, rule);
      FoundParts(v, first, later, rule);
    }
  }

  lemma NegatedMeans(negated: bool, e: Expr, row: Row, values: seq<Value>, rule: Rule)
    ensures Holds(Some(Negated(negated, e)), row, values, rule)
       <==> Eval(e, row, values, rule) == if negated then No else Yes
  {
    assert Eval(Negation(e), row, values, rule) == TruthNot(Eval(e, row, values, rule));
  }

  lemma IsMeans(c: Condition, base: nat, values: seq<Value>, row: Row, rule: Rule)
    requires c.test == IsTest
    ensures Means(ExprOf(c, base), Readable(c), Meets(c, row, rule), row, values, rule)
  {
    hide IsTokens, IsReading, Holds, IsHolds;
    if Readable(c) {
      var e := Tested(c.column, IsReading(IsTokens(c.value)).value);
      NegatedMeans(c.negated, e, row, values, rule);
      assert Eval(e, row, values, rule) == OfBool(IsHolds(e.word, row(c.column)));
    }
  }

  lemma InMeans(c: Condition, base: nat, values: seq<Value>, row: Row, rule: Rule)
    requires c.test == InTest && Supplied(values, base, Bound(c))
    ensures Means(ExprOf(c, base), Readable(c), Meets(c, row, rule), row, values, rule)
  {
    hide Supplied, Numbers;
    MemberMeans(row(c.column), Items(c.value), base, values, rule);
    assert Meets(c, row, rule) <==> if c.negated then Excluded(row(c.column), Items(c.value), rule)
                                    else Found(row(c.column), Items(c.value), rule);
    hide Meets, MemberOf;
  }

  lemma ComparisonMeans(c: Condition, base: nat, values: seq<Value>, row: Row, rule: Rule)
    requires c.test.CompareTest? && Supplied(values, base, Bound(c))
    ensures Means(ExprOf(c, base), Readable(c), Meets(c, row, rule), row, values, rule)
  {
    hide Holds;
    SuppliedAt(values, base, [c.value]);
    var e := Compared(c.column, c.test.op, base + 1);
    NegatedMeans(c.negated, e, row, values, rule);
    assert Eval(e, row, values, rule) == CompareValues(c.test.op, row(c.column), c.value, rule);
  }

  lemma UnreadableMeans(c: Condition, base: nat, values: seq<Value>, row: Row, rule: Rule)
    requires c.test.InheritedTest?
    ensures Means(ExprOf(c, base), Readable(c), Meets(c, row, rule), row, values, rule)
  {
  }

  lemma PieceMeans(c: Condition, base: nat, values: seq<Value>, row: Row, rule: Rule)
    requires Supplied(values, base, Bound(c))
    ensures SingleTest(c) ==> Reads(Piece(c, base), ExprOf(c, base))
    ensures Means(ExprOf(c, base), Readable(c), Meets(c, row, rule), row, values, rule)
  {
    hide Reads, Piece, Supplied, Means, ExprOf, Meets, SingleTest;
    if SingleTest(c) { PieceReads(c, base); }
    match c.test
    case IsTest => IsMeans(c, base, values, row, rule);
    case InTest => InMeans(c, base, values, row, rule);
    case CompareTest(_) => ComparisonMeans(c, base, values, row, rule);
    case InheritedTest(_) => UnreadableMeans(c, base, values, row, rule);
  }

  lemma {:induction false} PieceMeansAt(cs: seq<Condition>, i: nat, base: nat, values: seq<Value>, row: Row, rule: Rule)
    requires Supplied(values, base, BoundAll(cs)) && i < |cs|
    ensures Means(Exprs(cs, base)[i], Readable(cs[i]), Meets(cs[i], row, rule), row, values, rule)
  {
    hide Means, ExprOf, Meets, Readable, Bound, Supplied;
    SuppliedParts(values, base, Bound(cs[0]), BoundAll(cs[1..]));
    if i == 0 {
      PieceMeans(cs[0], base, values, row, rule);
    } else {
      PieceMeansAt(cs[1..], i - 1, base + |Bound(cs[0])|, values, row, rule);
    }
  }

  lemma PiecesMean(cs: seq<Condition>, base: nat, values: seq<Value>, row: Row, rule: Rule)
    requires Supplied(values, base, BoundAll(cs))
    ensures forall i | 0 <= i < |cs| ::
              Means(Exprs(cs, base)[i], Readable(cs[i]), Meets(cs[i], row, rule), row, values, rule)
  {
    hide Means, ExprOf, Meets, Readable, Bound, Supplied, Exprs;
    forall i | 0 <= i < |cs|
      ensures Means(Exprs(cs, base)[i], Readable(cs[i]), Meets(cs[i], row, rule), row, values, rule)
    {
      PieceMeansAt(cs, i, base, values, row, rule);
    }
  }

  lemma GroupMeans(fs: seq<Condition>, base: nat, values: seq<Value>, row: Row, rule: Rule)
    requires Supplied(values, base, BoundAll(fs))
    ensures Means(ClauseExpr(Group(fs), base), ClauseReadable(Group(fs)), ClauseMeets(Group(fs), row, rule), row, values, rule)
  {
    var es := Exprs(fs, base);
    PiecesMean(fs, base, values, row, rule);
    FoldAllReadable(true, es);
    assert ClauseReadable(Group(fs)) <==> es != [] && forall i | 0 <= i < |es| :: es[i].Some?;
    if ClauseReadable(Group(fs)) {
      FoldAllHolds(true, es, row, values, rule);
      assert (exists i | 0 <= i < |es| :: Holds(es[i], row, values, rule))
        <==> (exists i | 0 <= i < |fs| :: Meets(fs[i], row, rule));
    }
  }

  lemma {:induction false} ClauseMeansAt(cs: seq<Clause>, i: nat, base: nat, values: seq<Value>, row: Row, rule: Rule)
    requires Supplied(values, base, ClausesBound(cs)) && i < |cs|
    ensures Means(ClauseExprs(cs, base)[i], ClauseReadable(cs[i]), ClauseMeets(cs[i], row, rule), row, values, rule)
  {
    hide Means, ExprOf, Meets, Readable, Bound, Supplied;
    SuppliedParts(values, base, ClauseBound(cs[0]), ClausesBound(cs[1..]));
    if i == 0 {
      match cs[0] {
        case Single(f) => PieceMeans(f, base, values, row, rule);
        case Group(fs) => GroupMeans(fs, base, values, row, rule);
      }
    } else {
      ClauseMeansAt(cs[1..], i - 1, base + |ClauseBound(cs[0])|, values, row, rule);
    }
  }

  lemma ClausesMean(cs: seq<Clause>, base: nat, values: seq<Value>, row: Row, rule: Rule)
    requires Supplied(values, base, ClausesBound(cs))
    ensures forall i | 0 <= i < |cs| ::
              Means(ClauseExprs(cs, base)[i], ClauseReadable(cs[i]), ClauseMeets(cs[i], row, rule), row, values, rule)
  {
    hide Means, ClauseReadable, ClauseMeets, Supplied, ClauseExprs;
    forall i | 0 <= i < |cs|
      ensures Means(ClauseExprs(cs, base)[i], ClauseReadable(cs[i]), ClauseMeets(cs[i], row, rule), row, values, rule)
    {
      ClauseMeansAt(cs, i, base, values, row, rule);
    }
  }

  // ----------------------------------------------------------------------------------- main results

  predicate AllReadable(cs: seq<Clause>) { forall i | 0 <= i < |cs| :: ClauseReadable(cs[i]) }

  predicate AllMeet(cs: seq<Clause>, row: Row, rule: Rule) {
    forall i | 0 <= i < |cs| :: ClauseMeets(cs[i], row, rule)
  }

  /** The text of a non-empty list of clauses whose IS texts are single tests, read back: readable exactly when
      every clause is, and then true of a row exactly when the row meets every clause. */
  lemma TextMeans(before: seq<Value>, after: seq<Value>, cs: seq<Clause>, row: Row, rule: Rule)
    requires cs != [] && forall c | c in cs :: TestsReadable(c)
    ensures Means(Parse(ConditionText(cs, |before|)), AllReadable(cs), AllMeet(cs, row, rule),
                  row, before + ClausesBound(cs) + after, rule)
  {
    var base := |before|;
    var es := ClauseExprs(cs, base);
    var values := before + ClausesBound(cs) + after;
    assert values[base..base + |ClausesBound(cs)|] == ClausesBound(cs);
    ClausePiecesRead(cs, base);
    ParsesAndJoin(ClausePieces(cs, base), es);
    ClausesMean(cs, base, values, row, rule);
    FoldAllReadable(false, es);
    if AllReadable(cs) { FoldAllHolds(false, es, row, values, rule); }
  }

  lemma ClausesSplit(filters: seq<Condition>, groups: seq<seq<Condition>>, row: Row, rule: Rule)
    ensures AllReadable(ClausesOf(filters, groups))
            <==> (forall f | f in filters :: Readable(f)) && (forall g | g in groups :: GroupReadable(g))
    ensures AllMeet(ClausesOf(filters, groups), row, rule) <==> Selected(filters, groups, row, rule)
  {
    var cs := ClausesOf(filters, groups);
    assert forall i | 0 <= i < |filters| :: cs[i] == Single(filters[i]);
    assert forall i | 0 <= i < |groups| :: cs[|filters| + i] == Group(groups[i]);
    assert forall i | |filters| <= i < |cs| :: cs[i] == Group(groups[i - |filters|]);
  }

  predicate AllTestsReadable(filters: seq<Condition>, groups: seq<seq<Condition>>) {
    (forall f | f in filters :: SingleTest(f)) && (forall g, f | g in groups && f in g :: SingleTest(f))
  }

  lemma TestsSplit(filters: seq<Condition>, groups: seq<seq<Condition>>)
    requires AllTestsReadable(filters, groups)
    ensures forall c | c in ClausesOf(filters, groups) :: TestsReadable(c)
  {
  }

  /** Where every IS text is one test, the database can read the text after WHERE exactly when no OR group is
      empty and no operator is an inherited name. */
  lemma ReadableExactly(filters: seq<Condition>, groups: seq<seq<Condition>>, base: nat)
    requires (filters != [] || groups != []) && AllTestsReadable(filters, groups)
    ensures Parse(ConditionText(ClausesOf(filters, groups), base)).Some?
       <==> (forall f | f in filters :: Known(f)) && (forall g | g in groups :: g != [] && forall f | f in g :: Known(f))
  {
    TestsSplit(filters, groups);
    TextMeans(seq(base, _ => Null), [], ClausesOf(filters, groups), _ => Null, (_, _, _) => false);
    ClausesSplit(filters, groups, _ => Null, (_, _, _) => false);
  }

  /** Whatever parameters stand before and after them, the text is true of a row, read with SQL's
      precedence and three-valued logic over the bound parameters, exactly when the row meets every
      filter and at least one filter of each group. */
  lemma WhereSelectsExactly(before: seq<Value>, after: seq<Value>, filters: seq<Condition>, groups: seq<seq<Condition>>,
                            row: Row, rule: Rule)
    requires filters != [] || groups != []
    requires (forall f | f in filters :: Readable(f)) && (forall g | g in groups :: GroupReadable(g))
    ensures var cs := ClausesOf(filters, groups);
            Holds(Parse(ConditionText(cs, |before|)), row, before + ClausesBound(cs) + after, rule)
            <==> Selected(filters, groups, row, rule)
  {
    TestsSplit(filters, groups);
    TextMeans(before, after, ClausesOf(filters, groups), row, rule);
    ClausesSplit(filters, groups, row, rule);
  }

  // ----------------------------------------------------------------------------- inherited operators

  /** The printed text begins with a name or a bracket, and has no placeholder. */
  lemma InheritedStarts(name: Inherited)
    ensures var ts := InheritedTokens(name); ts != [] && (ts[0].Column? || ts[0].Other?) && NoParams(ts)
  {
    hide Lex, Cut, Upper, InheritedText, INHERITED;
    InheritedPlain(name);
    LexPlain(Upper(InheritedText(name)));
    if name == "__proto__" { ProtoText(); } else { FunctionText(name); }
    CutNoParams(Upper(InheritedText(name)));
  }

  lemma ProtoText()
    ensures var ts := Cut(Upper(InheritedText("__proto__"))); ts != [] && ts[0].Other?
  {
    hide Cut;
    CutMark(Upper("[object Object]"));
  }

  lemma FunctionText(name: string)
    requires name != "__proto__"
    ensures var ts := Cut(Upper(InheritedText(name))); ts != [] && ts[0].Column?
  {
    hide Cut, Upper, Signature;
    var tail := Signature(name);
    UpperConcat("function ", tail);
    UpperFunction();
    assert "FUNCTION " + Upper(tail) == "FUNCTION" + (" " + Upper(tail));
    CutWord("FUNCTION", " " + Upper(tail));
  }

  lemma UpperConcat(a: string, b: string)
    ensures Upper(a + b) == Upper(a) + Upper(b)
  {
  }

  lemma UpperFunction()
    ensures Upper("function ") == "FUNCTION "
  {
  }

  /** Without anything that opens a comment, a quote or a placeholder. */
  predicate IsBland(s: string) { IsPlain(s) && NoDollar(s) }

  lemma InheritedPlain(name: Inherited)
    ensures IsBland(Upper(InheritedText(name)))
  {
    NamesBland(name);
    hide INHERITED;
    assert IsBland("function ") && IsBland("() { [native code] }") && IsBland("Object") && IsBland("[object Object]");
    var text := InheritedText(name);
    assert IsBland(text);
    assert forall i | 0 <= i < |text| :: Upper(text)[i] == UpperChar(text[i]);
  }

  lemma WordsBland()
    ensures IsBland("constructor") && IsBland("hasOwnProperty") && IsBland("isPrototypeOf") && IsBland("propertyIsEnumerable")
    ensures IsBland("toLocaleString") && IsBland("toString") && IsBland("valueOf")
  {
  }

  lemma UnderscoredBland()
    ensures IsBland("__proto__") && IsBland("__defineGetter__") && IsBland("__defineSetter__")
    ensures IsBland("__lookupGetter__") && IsBland("__lookupSetter__")
  {
  }

  lemma NamesBland(name: Inherited)
    ensures IsBland(name)
  {
    WordsBland();
    UnderscoredBland();
    hide IsBland;
  }

  /** A filter with an inherited operator is never read: its text goes to the database, which refuses it. */
  lemma InheritedIsUnreadable(c: Condition, base: nat)
    requires c.test.InheritedTest?
    ensures Reads(Piece(c, base), None)
  {
    hide InheritedTokens, Lex;
    var tail := InheritedTokens(c.test.name) + [Param(base + 1)];
    InheritedStarts(c.test.name);
    forall rest | Closed(rest) ensures ParsePredicate(c.column, tail + rest) == With(None, rest) {
      assert (tail + rest)[0] == InheritedTokens(c.test.name)[0];
    }
    ReadsColumn(c.column, tail, None);
    if c.negated { ReadsNegated([Column(c.column)] + tail, None); }
  }

  // ------------------------------------------------------------------------------- spliced IS texts

  /** An IS filter, negated or not, is read as its single test wherever it stands exactly when the text it
      splices is one of the four words, or NOT and one of them, up to blanks. */
  lemma IsFilterReadsExactly(c: Condition, base: nat)
    requires c.test == IsTest
    ensures (exists word :: Reads(Piece(c, base), Some(Negated(c.negated, Tested(c.column, word))))) <==> Readable(c)
    ensures Readable(c) <==> IsOneTest(IsText(c.value))
  {
    hide Lex, Fields;
    OneTestExactly(IsText(c.value));
    var ts := IsTokens(c.value);
    if Readable(c) {
      PieceReads(c, base);
      assert Reads(Piece(c, base), Some(Negated(c.negated, Tested(c.column, IsReading(ts).value))));
    }
    if word :| Reads(Piece(c, base), Some(Negated(c.negated, Tested(c.column, word)))) {
      assert Piece(c, base) + [] == Piece(c, base);
      assert ParseUnary(Piece(c, base)) == Some((Negated(c.negated, Tested(c.column, word)), []));
      if c.negated { NegatedTestOnly(c.column, ts, word); } else { PlainTestOnly(c.column, ts, [], word); }
    }
  }

  lemma PlainTestOnly(column: string, ts: seq<Token>, rest: seq<Token>, word: string)
    requires ParseUnary([Column(column), Is] + ts + rest) == Some((Tested(column, word), rest))
    ensures IsReading(ts) == Some(word)
  {
    var all := [Column(column), Is] + ts + rest;
    assert all[1..] == [Is] + ts + rest;
    IsReadOnly(column, ts, rest, word);
  }

  lemma InsideParentheses(inner: seq<Token>, e: Expr)
    requires ParseUnary([LParen] + inner) == Some((e, []))
    ensures ParseOr(inner) == Some((e, [RParen]))
  {
    var all := [LParen] + inner;
    assert all[1..] == inner;
    assert ParsePrimary(all) == Some((e, []));
    match ParseOr(inner)
    case Some((x, rest)) => assert x == e && rest[0] == RParen && |rest[1..]| == 0 && rest == [RParen];
  }

  lemma NegatedTestOnly(column: string, ts: seq<Token>, word: string)
    requires ParseUnary([Not, LParen] + ([Column(column), Is] + ts) + [RParen]) == Some((Negation(Tested(column, word)), []))
    ensures IsReading(ts) == Some(word)
  {
    var inner := [Column(column), Is] + ts + [RParen];
    var all := [Not, LParen] + ([Column(column), Is] + ts) + [RParen];
    assert all[1..] == [LParen] + inner;
    InsideParentheses(inner, Tested(column, word));
    assert ParseAnd(inner) == ParseUnary(inner) == Some((Tested(column, word), [RParen]));
    PlainTestOnly(column, ts, [RParen], word);
  }

  /** The text `null or true` after IS. */
  function OrTrue(column: string): Condition { Condition(column, false, IsTest, Text("null or true")) }

  lemma OrTrueTokens()
    ensures IsTokens(Text("null or true")) == [Word("NULL"), Or, TrueWord]
  {
    hide Lex, Cut;
    assert Upper("null or true") == "NULL OR TRUE";
    LexPlain("NULL OR TRUE");
    OrTrueCut();
  }

  lemma OrTrueCut()
    ensures Cut("NULL OR TRUE") == [Word("NULL"), Or, TrueWord]
  {
    hide Cut;
    var rest := " " + ("OR" + (" " + ("TRUE" + "")));
    assert "NULL OR TRUE" == "NULL" + rest;
    CutWord("NULL", rest);
    CutOrTrue();
  }

  lemma CutOrTrue()
    ensures Cut(" " + ("OR" + (" " + ("TRUE" + "")))) == [Or, TrueWord]
  {
    hide Cut;
    CutWord("TRUE", "");
    CutBlank("TRUE" + "");
    CutWord("OR", " " + ("TRUE" + ""));
    CutBlank("OR" + (" " + ("TRUE" + "")));
    CutNothing();
  }

  lemma CutNothing()
    ensures Cut("") == []
  {
  }

  lemma TrueIsRead()
    ensures ParseOr([TrueWord]) == Some((Constant(true), []))
  {
    assert [TrueWord][1..] == [];
  }

  /** A text of readable pieces with OR TRUE behind them. */
  lemma OrTrueHolds(pieces: seq<seq<Token>>, es: seq<Option<Expr>>, row: Row, values: seq<Value>, rule: Rule)
    requires |pieces| == |es| > 0 && forall i | 0 <= i < |es| :: Reads(pieces[i], es[i]) && es[i].Some?
    ensures Holds(Parse(Joined(pieces, And) + [Or, TrueWord]), row, values, rule)
  {
    var tail := [Or, TrueWord];
    ReadsAndJoin(pieces, es, tail);
    FoldAllReadable(false, es);
    TrueIsRead();
    assert tail[1..] == [TrueWord];
    hide Joined, FoldAll, Reads, ParseAnd, ParseUnary;
    var left := FoldAll(false, es).value;
    assert Parse(Joined(pieces, And) + tail) == Some(Either(left, Constant(true)));
    assert Eval(Constant(true), row, values, rule) == Yes;
    assert Eval(Either(left, Constant(true)), row, values, rule) == Yes;
  }

  lemma JoinedTail(pieces: seq<seq<Token>>, piece: seq<Token>, tail: seq<Token>)
    ensures Joined(pieces + [piece + tail], And) == Joined(pieces + [piece], And) + tail
  {
    JoinedSnoc(pieces, piece, And);
    JoinedSnoc(pieces, piece + tail, And);
    hide Joined;
    if pieces != [] {
      var front := Joined(pieces, And) + [And];
      assert front + (piece + tail) == front + piece + tail;
    }
  }

  lemma OrTrueText(cs: seq<Clause>, column: string, base: nat)
    ensures ConditionText(cs + [Single(OrTrue(column))], base)
         == Joined(ClausePieces(cs, base) + [[Column(column), Is, Word("NULL")]], And) + [Or, TrueWord]
  {
    hide Lex, Piece, Joined, ClausePieces, ClausesBound, OrTrue;
    var last, at := Single(OrTrue(column)), base + |ClausesBound(cs)|;
    ClausePiecesSnoc(cs, last, base);
    OrTruePiece(column, at);
    JoinedTail(ClausePieces(cs, base), [Column(column), Is, Word("NULL")], [Or, TrueWord]);
  }

  /** After any filters, `null or true` in an IS filter makes the whole text true of every row, whether or
      not the row meets any filter: the spliced OR binds looser than the joining AND. */
  lemma SplicedOrSelectsEveryRow(filters: seq<Condition>, column: string, values: seq<Value>, base: nat, row: Row, rule: Rule)
    requires forall f | f in filters :: Readable(f)
    ensures !Readable(OrTrue(column)) && !Meets(OrTrue(column), row, rule)
    ensures Holds(Parse(ConditionText(ClausesOf(filters + [OrTrue(column)], []), base)), row, values, rule)
  {
    OrTrueUnreadable(column, row, rule);
    assert AllTestsReadable(filters, []);
    TestsSplit(filters, []);
    hide Lex, Reads, Holds, Parse, Piece, ConditionText, Joined, Meets, TestsReadable;
    var cs, test := ClausesOf(filters, []), [Column(column), Is, Word("NULL")];
    assert ClausesOf(filters + [OrTrue(column)], []) == cs + [Single(OrTrue(column))];
    OrTrueText(cs, column, base);
    ClausePiecesRead(cs, base);
    ReadsIs(column, [Word("NULL")]);
    assert [Column(column), Is] + [Word("NULL")] == test;
    forall i | 0 <= i < |cs| ensures ClauseExprs(cs, base)[i].Some? { FilterExprs(filters, base, i); }
    hide ClauseExprs, ClausePieces, ClausesOf;
    OrTrueHolds(ClausePieces(cs, base) + [test], ClauseExprs(cs, base) + [Some(Tested(column, "NULL"))], row, values, rule);
  }

  lemma OrTrueUnreadable(column: string, row: Row, rule: Rule)
    ensures !Readable(OrTrue(column)) && !Meets(OrTrue(column), row, rule)
  {
    hide Lex;
    OrTrueTokens();
  }

  lemma OrTruePiece(column: string, base: nat)
    ensures Piece(OrTrue(column), base) == [Column(column), Is, Word("NULL")] + [Or, TrueWord]
  {
    hide Lex;
    OrTrueTokens();
  }

  lemma {:induction false} FilterExprs(filters: seq<Condition>, base: nat, i: nat)
    requires i < |filters| && forall f | f in filters :: Readable(f)
    ensures ClauseExprs(ClausesOf(filters, []), base)[i].Some?
  {
    hide Readable, Lex;
    var cs := ClausesOf(filters, []);
    assert filters[0] in filters && cs[1..] == ClausesOf(filters[1..], []);
    ReadableExpr(filters[0], base);
    if i > 0 { FilterExprs(filters[1..], base + |ClauseBound(cs[0])|, i - 1); }
  }

  lemma ReadableExpr(c: Condition, base: nat)
    requires Readable(c)
    ensures ExprOf(c, base).Some?
  {
  }

  lemma {:induction false} ClausesBoundSnoc(cs: seq<Clause>, c: Clause)
    ensures ClausesBound(cs + [c]) == ClausesBound(cs) + ClauseBound(c)
  {
    hide ClauseBound;
    var all := cs + [c];
    if cs == [] {
      assert all[1..] == [] && all[0] == c;
    } else {
      assert all[1..] == cs[1..] + [c] && all[0] == cs[0];
      ClausesBoundSnoc(cs[1..], c);
    }
  }

  lemma {:induction false} ClausePiecesSnoc(cs: seq<Clause>, c: Clause, base: nat)
    ensures ClausePieces(cs + [c], base) == ClausePieces(cs, base) + [ClausePiece(c, base + |ClausesBound(cs)|)]
  {
    hide ClausePiece, ClauseBound;
    var all := cs + [c];
    if cs == [] {
      assert all[1..] == [] && all[0] == c;
    } else {
      var next := base + |ClauseBound(cs[0])|;
      assert all[1..] == cs[1..] + [c] && all[0] == cs[0];
      ClausePiecesSnoc(cs[1..], c, next);
      assert next + |ClausesBound(cs[1..])| == base + |ClausesBound(cs)|;
    }
  }

  // ------------------------------------------------------------------------------------- numbering

  lemma OneParam(n: nat, ts: seq<Token>)
    requires ts == [Param(n)] || ts == [Param(n), Comma]
    ensures ParamsOf(ts) == [n]
  {
    if |ts| == 1 {
      assert ts[1..] == [];
    } else {
      assert ts[1..] == [Comma] && [Comma][1..] == [];
      assert ParamsOf([Comma]) == [];
    }
  }

  lemma {:induction false} ParamsOfCommaJoin(ns: seq<nat>)
    ensures ParamsOf(CommaJoin(ns)) == ns
  {
    hide ParamsOf;
    if ns == [] {
      ParamsOfNone([]);
    } else if |ns| == 1 {
      OneParam(ns[0], CommaJoin(ns));
      assert ns == [ns[0]];
    } else {
      OneParam(ns[0], [Param(ns[0]), Comma]);
      ParamsOfCommaJoin(ns[1..]);
      ParamsOfConcat([Param(ns[0]), Comma], CommaJoin(ns[1..]));
      assert [ns[0]] + ns[1..] == ns;
    }
  }

  predicate NoParams(ts: seq<Token>) { forall t | t in ts :: !t.Param? }

  lemma {:induction false} ParamsOfNone(ts: seq<Token>)
    requires NoParams(ts)
    ensures ParamsOf(ts) == []
  {
    if ts != [] { ParamsOfNone(ts[1..]); }
  }

  /** Text without placeholders around a text changes none of its placeholders. */
  lemma ParamsOfAround(prefix: seq<Token>, ts: seq<Token>, suffix: seq<Token>)
    requires NoParams(prefix) && NoParams(suffix)
    ensures ParamsOf(prefix + ts + suffix) == ParamsOf(ts)
  {
    ParamsOfNone(prefix);
    ParamsOfNone(suffix);
    ParamsOfConcat(prefix + ts, suffix);
    ParamsOfConcat(prefix, ts);
  }

  lemma InNumbers(column: string, negated: bool, ns: seq<nat>)
    ensures ParamsOf([Column(column)] + (InOpening(negated) + CommaJoin(ns) + [RParen])) == ns
  {
    hide ParamsOf, CommaJoin;
    ParamsOfCommaJoin(ns);
    ParamsOfAround([Column(column)] + InOpening(negated), CommaJoin(ns), [RParen]);
    assert [Column(column)] + (InOpening(negated) + CommaJoin(ns) + [RParen])
        == [Column(column)] + InOpening(negated) + CommaJoin(ns) + [RParen];
  }

  lemma WrapParams(negated: bool, ts: seq<Token>)
    ensures ParamsOf(Wrap(negated, ts)) == ParamsOf(ts)
  {
    hide ParamsOf;
    if negated { ParamsOfAround([Not, LParen], ts, [RParen]); }
  }

  lemma ParamsBehind(prefix: seq<Token>, ts: seq<Token>)
    requires NoParams(prefix)
    ensures ParamsOf(prefix + ts) == ParamsOf(ts)
  {
    hide ParamsOf;
    ParamsOfConcat(prefix, ts);
    ParamsOfNone(prefix);
    assert [] + ParamsOf(ts) == ParamsOf(ts);
  }

  lemma ComparisonNumbers(column: string, op: Comparison, n: nat, cast: seq<Token>)
    requires NoParams(cast)
    ensures ParamsOf([Column(column), Compare(op), Param(n)] + cast) == [n]
  {
    hide ParamsOf;
    ParamsOfCommaJoin([n]);
    ParamsOfAround([Column(column), Compare(op)], [Param(n)], cast);
    assert [Column(column), Compare(op)] + [Param(n)] == [Column(column), Compare(op), Param(n)];
  }

  /** The placeholders that a condition splices in with its text; nothing is bound for them. */
  function Spliced(c: Condition): seq<nat> { if c.test == IsTest then ParamsOf(IsTokens(c.value)) else [] }

  predicate Unspliced(c: Condition) { Spliced(c) == [] }

  lemma InheritedParams(c: Condition, base: nat)
    requires c.test.InheritedTest?
    ensures ParamsOf(Piece(c, base)) == Numbers(base, |Bound(c)|)
  {
    hide ParamsOf, InheritedTokens, Wrap;
    var text := InheritedTokens(c.test.name);
    InheritedStarts(c.test.name);
    WrapParams(c.negated, [Column(c.column)] + (text + [Param(base + 1)]));
    ParamsBehind([Column(c.column)], text + [Param(base + 1)]);
    ParamsBehind(text, [Param(base + 1)]);
    ParamsOfCommaJoin([base + 1]);
    assert Numbers(base, 1) == [base + 1];
  }

  predicate ClauseUnspliced(c: Clause) {
    match c case Single(f) => Unspliced(f) case Group(fs) => forall f | f in fs :: Unspliced(f)
  }

  lemma SingleUnspliced(c: Condition)
    requires SingleTest(c)
    ensures Unspliced(c)
  {
    hide Lex;
    if c.test == IsTest { ParamsOfNone(IsTokens(c.value)); }
  }

  lemma IsParams(c: Condition, base: nat)
    requires c.test == IsTest
    ensures ParamsOf(Piece(c, base)) == Spliced(c)
  {
    hide IsTokens, ParamsOf, Wrap;
    WrapParams(c.negated, [Column(c.column), Is] + IsTokens(c.value));
    ParamsBehind([Column(c.column), Is], IsTokens(c.value));
  }

  lemma InParams(c: Condition, base: nat)
    requires c.test == InTest
    ensures ParamsOf(Piece(c, base)) == Numbers(base, |Bound(c)|)
  {
    hide ParamsOf, CommaJoin;
    var ns := Numbers(base, |Items(c.value)|);
    if Items(c.value) == [] { ParamsOfNone(Piece(c, base)); } else { InNumbers(c.column, c.negated, ns); }
  }

  lemma ComparisonParams(c: Condition, base: nat)
    requires c.test.CompareTest?
    ensures ParamsOf(Piece(c, base)) == Numbers(base, |Bound(c)|)
  {
    hide ParamsOf, Wrap;
    var cast := if c.test.op == Contains then [JsonCast] else [];
    ComparisonNumbers(c.column, c.test.op, base + 1, cast);
    WrapParams(c.negated, [Column(c.column), Compare(c.test.op), Param(base + 1)] + cast);
    assert Numbers(base, 1) == [base + 1];
  }

  /** The piece has the bound values' numbers and whatever it splices in: no more exactly when it splices in
      no placeholder. */
  lemma PieceNumbers(c: Condition, base: nat)
    ensures ParamsOf(Piece(c, base)) == Numbers(base, |Bound(c)|) + Spliced(c)
    ensures ParamsOf(Piece(c, base)) == Numbers(base, |Bound(c)|) <==> Unspliced(c)
  {
    hide Lex, ParamsOf, Piece;
    match c.test
    case IsTest => IsParams(c, base);
    case InTest => InParams(c, base);
    case CompareTest(op) => ComparisonParams(c, base);
    case InheritedTest(_) => InheritedParams(c, base);
  }

  lemma {:induction false} ParamsOfJoined(pieces: seq<seq<Token>>, separator: Token)
    requires !separator.Param?
    ensures ParamsOf(Joined(pieces, separator))
         == if pieces == [] then [] else ParamsOf(pieces[0]) + ParamsOf(Joined(pieces[1..], separator))
  {
    if |pieces| == 1 {
      assert ParamsOf(pieces[0]) + [] == ParamsOf(pieces[0]);
    } else if |pieces| > 1 {
      ParamsOfConcat(pieces[0] + [separator], Joined(pieces[1..], separator));
      ParamsOfConcat(pieces[0], [separator]);
      ParamsOfNone([separator]);
    }
  }

  /** The placeholders of a text against the numbers it should have: never fewer, and exactly those where
      nothing is spliced in, and only there. */
  ghost predicate Numbered(found: seq<nat>, base: nat, count: nat, unspliced: bool) {
    && |found| >= count && (unspliced ==> found == Numbers(base, count)) && (|found| == count ==> unspliced)
  }

  lemma NumberedParts(first: seq<nat>, later: seq<nat>, base: nat, m: nat, n: nat, here: bool, there: bool)
    requires Numbered(first, base, m, here) && Numbered(later, base + m, n, there)
    ensures Numbered(first + later, base, m + n, here && there)
  {
    NumbersConcat(base, m, n);
  }

  lemma PieceNumbered(c: Condition, base: nat)
    ensures Numbered(ParamsOf(Piece(c, base)), base, |Bound(c)|, Unspliced(c))
  {
    hide ParamsOf, Piece, Bound, Spliced;
    PieceNumbers(c, base);
  }

  lemma UnsplicedFirst(cs: seq<Condition>)
    requires cs != []
    ensures (forall c | c in cs :: Unspliced(c)) <==> Unspliced(cs[0]) && forall c | c in cs[1..] :: Unspliced(c)
  {
    hide Unspliced;
    assert cs == [cs[0]] + cs[1..];
  }

  lemma {:induction false} PiecesNumbers(cs: seq<Condition>, base: nat)
    ensures Numbered(ParamsOf(Joined(Pieces(cs, base), Or)), base, |BoundAll(cs)|, forall c | c in cs :: Unspliced(c))
  {
    hide Piece, Bound, ParamsOf, Joined, Unspliced, Numbered;
    var pieces := Pieces(cs, base);
    ParamsOfJoined(pieces, Or);
    if cs == [] {
      NumberedNone(base);
    } else {
      var next := base + |Bound(cs[0])|;
      assert pieces[1..] == Pieces(cs[1..], next);
      PieceNumbered(cs[0], base);
      PiecesNumbers(cs[1..], next);
      UnsplicedFirst(cs);
      hide Pieces;
      NumberedParts(ParamsOf(pieces[0]), ParamsOf(Joined(pieces[1..], Or)), base, |Bound(cs[0])|, |BoundAll(cs[1..])|,
                    Unspliced(cs[0]), forall c | c in cs[1..] :: Unspliced(c));
    }
  }

  lemma NumberedNone(base: nat)
    ensures Numbered([], base, 0, true)
  {
  }

  lemma ClauseNumbers(c: Clause, base: nat)
    ensures Numbered(ParamsOf(ClausePiece(c, base)), base, |ClauseBound(c)|, ClauseUnspliced(c))
  {
    hide Numbered, Piece, ParamsOf, Unspliced;
    match c
    case Single(f) => PieceNumbered(f, base);
    case Group(fs) =>
      PiecesNumbers(fs, base);
      ParamsOfAround([LParen], Joined(Pieces(fs, base), Or), [RParen]);
  }

  lemma {:induction false} ClausesNumbers(cs: seq<Clause>, base: nat)
    ensures Numbered(ParamsOf(ConditionText(cs, base)), base, |ClausesBound(cs)|, forall c | c in cs :: ClauseUnspliced(c))
  {
    hide ClausePiece, ClauseBound, ParamsOf, Joined, ClauseUnspliced, Numbered;
    var pieces := ClausePieces(cs, base);
    ParamsOfJoined(pieces, And);
    if cs == [] {
      NumberedNone(base);
    } else {
      var next := base + |ClauseBound(cs[0])|;
      assert pieces[1..] == ClausePieces(cs[1..], next);
      ClauseNumbers(cs[0], base);
      ClausesNumbers(cs[1..], next);
      assert cs == [cs[0]] + cs[1..];
      NumberedParts(ParamsOf(pieces[0]), ParamsOf(Joined(pieces[1..], And)), base, |ClauseBound(cs[0])|,
                    |ClausesBound(cs[1..])|, ClauseUnspliced(cs[0]), forall c | c in cs[1..] :: ClauseUnspliced(c));
    }
  }

  /** The placeholders of the text after WHERE are base + 1, base + 2, ..., in order, one for each bound
      value, exactly when no IS text splices in a placeholder of its own. */
  lemma WhereNumbers(cs: seq<Clause>, base: nat)
    ensures ParamsOf(ConditionText(cs, base)) == Numbers(base, |ClausesBound(cs)|) <==> forall c | c in cs :: ClauseUnspliced(c)
  {
    hide ConditionText, ClausesBound, ParamsOf, ClauseUnspliced;
    ClausesNumbers(cs, base);
  }

  lemma ReadableClausesUnspliced(cs: seq<Clause>)
    requires forall c | c in cs :: TestsReadable(c)
    ensures forall c | c in cs :: ClauseUnspliced(c)
  {
    hide SingleTest, Unspliced;
    forall c | c in cs ensures ClauseUnspliced(c) {
      match c
      case Single(f) => SingleUnspliced(f);
      case Group(fs) => forall f | f in fs ensures Unspliced(f) { SingleUnspliced(f); }
    }
  }

  /** An IS text with a placeholder that nothing is bound to. */
  lemma SplicedPlaceholder(column: string, base: nat)
    ensures var c := Condition(column, false, IsTest, Text("null or $1"));
            Bound(c) == [] && ParamsOf(Piece(c, base)) == [1]
  {
    hide Lex, Cut, ParamsOf;
    var c, s := Condition(column, false, IsTest, Text("null or $1")), "NULL" + (" " + ("OR" + (" " + "$1")));
    assert Upper("null or $1") == "NULL OR $1" == s;
    LexPlain("NULL OR $1");
    CutPlaceholder();
    CutBlank("$1");
    CutWord("OR", " " + "$1");
    CutBlank("OR" + (" " + "$1"));
    CutWord("NULL", " " + ("OR" + (" " + "$1")));
    assert IsTokens(c.value) == [Word("NULL"), Or, Param(1)];
    IsParams(c, base);
    OnePlaceholder();
  }

  lemma OnePlaceholder()
    ensures ParamsOf([Word("NULL"), Or, Param(1)]) == [1]
  {
    var ts := [Word("NULL"), Or, Param(1)];
    assert ts[1..] == [Or, Param(1)] && ts[1..][1..] == [Param(1)] && ts[1..][1..][1..] == [];
  }

  lemma CutPlaceholder()
    ensures Cut("$1") == [Param(1)]
  {
    assert "$1"[1..] == "1" && "1"[1..] == "" && "$1"[1..2] == "1" && "$1"[2..] == "" && "1"[..0] == "";
    assert DigitsLength("1") == 1 && NumberOf("1") == 1;
  }
}
