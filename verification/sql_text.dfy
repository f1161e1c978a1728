/** The conditions that the query builder writes after WHERE: their tokens, the SQL grammar that
    reads them back (NOT binds tighter than AND, AND tighter than OR), and their three-valued
    meaning on a row. */
module SqlText {
  import opened Outcomes

  datatype Value =
    | Null
    | Bool(flag: bool)
    | Number(amount: int)
    | Text(text: string)
    | List(items: seq<Value>)

  datatype Comparison =
    | Equal | NotEqual | Greater | GreaterEqual | Less | LessEqual | Like | ILike | Contains

  datatype Token =
    | Column(name: string)
    | Compare(op: Comparison)
    | Param(index: nat)
    | JsonCast
    | Is
    | Word(text: string)
    | In
    | Not
    | And
    | Or
    | LParen
    | RParen
    | Comma
    | TrueWord
    | FalseWord
    | Other(c: char)

  datatype Expr =
    | Compared(column: string, op: Comparison, param: nat)
    | Listed(column: string, negated: bool, params: seq<nat>)
    | Tested(column: string, word: string)
    | Constant(flag: bool)
    | Negation(arg: Expr)
    | Both(left: Expr, right: Expr)
    | Either(left: Expr, right: Expr)

  /** The words that may follow IS or IS NOT. */
  function IsName(t: Token): Option<string> {
    match t
    case Word(text) => if text == "NULL" || text == "UNKNOWN" then Some(text) else None
    case TrueWord => Some("TRUE")
    case FalseWord => Some("FALSE")
    case _ => None
  }

  /** The one test that the text after IS stands for, if it is nothing else. */
  function IsReading(ts: seq<Token>): Option<string> {
    if |ts| == 1 then IsName(ts[0])
    else if |ts| == 2 && ts[0] == Not && IsName(ts[1]).Some? then Some("NOT " + IsName(ts[1]).value)
    else None
  }

  // ---------------------------------------------------------------------------------- grammar

  type Parsed = Option<(Expr, seq<Token>)>

  function ParseOr(ts: seq<Token>): (r: Parsed)
    ensures r.Some? ==> |r.value.1| < |ts|
    decreases |ts|, 3
  {
    match ParseAnd(ts)
    case None => None
    case Some((left, rest)) =>
      if |rest| == 0 || rest[0] != Or then Some((left, rest)) else
      match ParseOr(rest[1..])
      case None => None
      case Some((right, tail)) => Some((Either(left, right), tail))
  }

  function ParseAnd(ts: seq<Token>): (r: Parsed)
    ensures r.Some? ==> |r.value.1| < |ts|
    decreases |ts|, 2
  {
    match ParseUnary(ts)
    case None => None
    case Some((left, rest)) =>
      if |rest| == 0 || rest[0] != And then Some((left, rest)) else
      match ParseAnd(rest[1..])
      case None => None
      case Some((right, tail)) => Some((Both(left, right), tail))
  }

  function ParseUnary(ts: seq<Token>): (r: Parsed)
    ensures r.Some? ==> |r.value.1| < |ts|
    decreases |ts|, 1
  {
    if |ts| > 0 && ts[0] == Not then
      match ParseUnary(ts[1..])
      case None => None
      case Some((arg, rest)) => Some((Negation(arg), rest))
    else
      ParsePrimary(ts)
  }

  function ParsePrimary(ts: seq<Token>): (r: Parsed)
    ensures r.Some? ==> |r.value.1| < |ts|
    decreases |ts|, 0
  {
    if |ts| == 0 then None else
    match ts[0]
    case TrueWord => Some((Constant(true), ts[1..]))
    case FalseWord => Some((Constant(false), ts[1..]))
    case Column(name) => ParsePredicate(name, ts[1..])
    case LParen =>
      (match ParseOr(ts[1..])
       case None => None
       case Some((inner, rest)) =>
         if |rest| > 0 && rest[0] == RParen then Some((inner, rest[1..])) else None)
    case _ => None
  }

  function ParsePredicate(column: string, ts: seq<Token>): (r: Parsed)
    ensures r.Some? ==> |r.value.1| <= |ts|
  {
    if |ts| >= 2 && ts[0].Compare? && ts[1].Param? then
      var after := if |ts| >= 3 && ts[2] == JsonCast then ts[3..] else ts[2..];
      Some((Compared(column, ts[0].op, ts[1].index), after))
    else if |ts| >= 2 && ts[0] == Is && IsName(ts[1]).Some? then
      Some((Tested(column, IsName(ts[1]).value), ts[2..]))
    else if |ts| >= 3 && ts[0] == Is && ts[1] == Not && IsName(ts[2]).Some? then
      Some((Tested(column, "NOT " + IsName(ts[2]).value), ts[3..]))
    else if |ts| >= 2 && ts[0] == In && ts[1] == LParen then
      ParseListed(column, false, ts[2..])
    else if |ts| >= 3 && ts[0] == Not && ts[1] == In && ts[2] == LParen then
      ParseListed(column, true, ts[3..])
    else
      None
  }

  function ParseListed(column: string, negated: bool, ts: seq<Token>): (r: Parsed)
    ensures r.Some? ==> |r.value.1| <= |ts|
  {
    match ParseParams(ts)
    case None => None
    case Some((params, rest)) => Some((Listed(column, negated, params), rest))
  }

  /** A comma-separated list of placeholders up to and including the closing parenthesis. */
  function ParseParams(ts: seq<Token>): (r: Option<(seq<nat>, seq<Token>)>)
    ensures r.Some? ==> |r.value.1| <= |ts|
  {
    if |ts| < 2 || !ts[0].Param? then None
    else if ts[1] == RParen then Some(([ts[0].index], ts[2..]))
    else if ts[1] == Comma then
      match ParseParams(ts[2..])
      case None => None
      case Some((params, rest)) => Some(([ts[0].index] + params, rest))
    else None
  }

  /** The whole text as one condition. */
  function Parse(ts: seq<Token>): Option<Expr> {
    match ParseOr(ts)
    case None => None
    case Some((e, rest)) => if rest == [] then Some(e) else None
  }

  // ------------------------------------------------------------------------ three-valued meaning

  datatype Truth = Yes | No | Unknown

  function OfBool(b: bool): Truth { if b then Yes else No }

  function TruthNot(a: Truth): Truth {
    match a case Yes => No case No => Yes case Unknown => Unknown
  }

  function TruthAnd(a: Truth, b: Truth): Truth {
    if a == No || b == No then No else if a == Yes && b == Yes then Yes else Unknown
  }

  function TruthOr(a: Truth, b: Truth): Truth {
    if a == Yes || b == Yes then Yes else if a == No && b == No then No else Unknown
  }

  /** A row gives every column a value; a comparison rule decides operators on non-null values. */
  type Row = string -> Value
  type Rule = (Comparison, Value, Value) -> bool

  function ValueAt(values: seq<Value>, index: nat): Value {
    if 1 <= index <= |values| then values[index - 1] else Null
  }

  function CompareValues(op: Comparison, a: Value, b: Value, rule: Rule): Truth {
    if a == Null || b == Null then Unknown else OfBool(rule(op, a, b))
  }

  predicate IsHolds(word: string, v: Value) {
    if word == "NULL" || word == "UNKNOWN" then v == Null
    else if word == "NOT NULL" || word == "NOT UNKNOWN" then v != Null
    else if word == "TRUE" then v == Bool(true)
    else if word == "NOT TRUE" then v != Bool(true)
    else if word == "FALSE" then v == Bool(false)
    else v != Bool(false)
  }

  /** x IN (y1, ..., yn) is x = y1 OR ... OR x = yn. */
  function MemberOf(v: Value, params: seq<nat>, values: seq<Value>, rule: Rule): Truth {
    if params == [] then No
    else TruthOr(CompareValues(Equal, v, ValueAt(values, params[0]), rule),
                 MemberOf(v, params[1..], values, rule))
  }

  function Eval(e: Expr, row: Row, values: seq<Value>, rule: Rule): Truth {
    match e
    case Compared(c, op, p) => CompareValues(op, row(c), ValueAt(values, p), rule)
    case Listed(c, negated, ps) =>
      var m := MemberOf(row(c), ps, values, rule);
      if negated then TruthNot(m) else m
    case Tested(c, word) => OfBool(IsHolds(word, row(c)))
    case Constant(b) => OfBool(b)
    case Negation(a) => TruthNot(Eval(a, row, values, rule))
    case Both(l, r) => TruthAnd(Eval(l, row, values, rule), Eval(r, row, values, rule))
    case Either(l, r) => TruthOr(Eval(l, row, values, rule), Eval(r, row, values, rule))
  }

  /** The placeholders of a text, in order of appearance. */
  function ParamsOf(ts: seq<Token>): seq<nat> {
    if ts == [] then []
    else (if ts[0].Param? then [ts[0].index] else []) + ParamsOf(ts[1..])
  }

  lemma {:induction false} ParamsOfConcat(a: seq<Token>, b: seq<Token>)
    ensures ParamsOf(a + b) == ParamsOf(a) + ParamsOf(b)
  {
    if a == [] {
      assert a + b == b;
    } else {
      assert (a + b)[0] == a[0] && (a + b)[1..] == a[1..] + b;
      ParamsOfConcat(a[1..], b);
    }
  }
}
