/** How the SQL grammar reads texts assembled by joining pieces: which condition comes out, and
    that nothing comes out when one piece cannot be read. */
module SqlGrammar {
  import opened Outcomes
  import opened SqlText

  /** The text may be followed by something that ends a comparison. */
  predicate Closed(rest: seq<Token>) { |rest| > 0 ==> rest[0] in {And, Or, RParen} }

  function With(e: Option<Expr>, rest: seq<Token>): Parsed {
    match e case None => None case Some(x) => Some((x, rest))
  }

  /** The piece is read as the condition e wherever it stands, or is never read if e is None. */
  ghost predicate Reads(piece: seq<Token>, e: Option<Expr>) {
    forall rest | Closed(rest) :: ParseUnary(piece + rest) == With(e, rest)
  }

  function Joined(pieces: seq<seq<Token>>, separator: Token): seq<Token> {
    if pieces == [] then []
    else if |pieces| == 1 then pieces[0]
    else pieces[0] + [separator] + Joined(pieces[1..], separator)
  }

  lemma {:induction false} JoinedSnoc(pieces: seq<seq<Token>>, piece: seq<Token>, separator: Token)
    ensures Joined(pieces + [piece], separator)
         == if pieces == [] then piece else Joined(pieces, separator) + [separator] + piece
  {
    var all := pieces + [piece];
    if |pieces| == 1 {
      assert all[1..] == [piece];
    } else if |pieces| > 1 {
      assert all[1..] == pieces[1..] + [piece];
      JoinedSnoc(pieces[1..], piece, separator);
    }
  }

  function Combine(either: bool, a: Option<Expr>, b: Option<Expr>): Option<Expr> {
    if a.None? || b.None? then None
    else Some(if either then Either(a.value, b.value) else Both(a.value, b.value))
  }

  /** The disjunction (or conjunction) of at least one readable condition. */
  function FoldAll(either: bool, es: seq<Option<Expr>>): Option<Expr> {
    if es == [] then None
    else if |es| == 1 then es[0]
    else Combine(either, es[0], FoldAll(either, es[1..]))
  }

  lemma {:induction false} FoldAllReadable(either: bool, es: seq<Option<Expr>>)
    ensures FoldAll(either, es).Some? <==> es != [] && forall i | 0 <= i < |es| :: es[i].Some?
  {
    if |es| > 1 {
      FoldAllReadable(either, es[1..]);
      assert forall i | 1 <= i < |es| :: es[i] == es[1..][i - 1];
    }
  }

  lemma AndStop(ts: seq<Token>, e: Option<Expr>, rest: seq<Token>)
    requires ParseUnary(ts) == With(e, rest) && (rest == [] || rest[0] != And)
    ensures ParseAnd(ts) == With(e, rest)
  {
  }

  lemma OrStop(ts: seq<Token>, e: Option<Expr>, rest: seq<Token>)
    requires ParseUnary(ts) == With(e, rest) && (rest == [] || rest[0] !in {And, Or})
    ensures ParseOr(ts) == With(e, rest)
  {
    AndStop(ts, e, rest);
  }

  lemma AndStep(ts: seq<Token>, e: Option<Expr>, later: seq<Token>, es: Option<Expr>, rest: seq<Token>)
    requires ParseUnary(ts) == With(e, [And] + later)
    requires ParseAnd(later) == With(es, rest)
    ensures ParseAnd(ts) == With(Combine(false, e, es), rest)
  {
    assert ([And] + later)[1..] == later;
  }

  lemma OrStep(ts: seq<Token>, e: Option<Expr>, later: seq<Token>, es: Option<Expr>, rest: seq<Token>)
    requires ParseUnary(ts) == With(e, [Or] + later)
    requires ParseOr(later) == With(es, rest)
    ensures ParseOr(ts) == With(Combine(true, e, es), rest)
  {
    AndStop(ts, e, [Or] + later);
    assert ([Or] + later)[1..] == later;
  }

  /** Joining with OR reads as the disjunction; an empty join reads as nothing. */
  lemma {:induction false} ReadsOrJoin(pieces: seq<seq<Token>>, es: seq<Option<Expr>>, rest: seq<Token>)
    requires |pieces| == |es| && forall i | 0 <= i < |es| :: Reads(pieces[i], es[i])
    requires |rest| > 0 && rest[0] == RParen
    ensures ParseOr(Joined(pieces, Or) + rest) == With(FoldAll(true, es), rest)
  {
    var ts := Joined(pieces, Or) + rest;
    if pieces == [] {
      assert ts == rest;
      assert ParseUnary(rest) == With(None, rest);
      OrStop(rest, None, rest);
    } else if |pieces| == 1 {
      assert Reads(pieces[0], es[0]);
      OrStop(ts, es[0], rest);
    } else {
      var later := Joined(pieces[1..], Or) + rest;
      assert ts == pieces[0] + ([Or] + later);
      assert Reads(pieces[0], es[0]);
      ReadsOrJoin(pieces[1..], es[1..], rest);
      OrStep(ts, es[0], later, FoldAll(true, es[1..]), rest);
    }
  }

  lemma ParsesParenthesised(body: seq<Token>, e: Option<Expr>, rest: seq<Token>)
    requires ParseOr(body + ([RParen] + rest)) == With(e, [RParen] + rest)
    ensures ParseUnary([LParen] + body + [RParen] + rest) == With(e, rest)
  {
    var inner := body + ([RParen] + rest);
    var ts := [LParen] + body + [RParen] + rest;
    assert ts == [LParen] + inner;
    assert ts[1..] == inner;
    assert ([RParen] + rest)[1..] == rest;
    assert ParseUnary(ts) == ParsePrimary(ts);
  }

  lemma ReadsParenthesised(pieces: seq<seq<Token>>, es: seq<Option<Expr>>)
    requires |pieces| == |es| && forall i | 0 <= i < |es| :: Reads(pieces[i], es[i])
    ensures Reads([LParen] + Joined(pieces, Or) + [RParen], FoldAll(true, es))
  {
    forall rest | Closed(rest)
      ensures ParseUnary([LParen] + Joined(pieces, Or) + [RParen] + rest) == With(FoldAll(true, es), rest)
    {
      ReadsOrJoin(pieces, es, [RParen] + rest);
      ParsesParenthesised(Joined(pieces, Or), FoldAll(true, es), rest);
    }
  }

  lemma {:induction false} ReadsAndJoin(pieces: seq<seq<Token>>, es: seq<Option<Expr>>, rest: seq<Token>)
    requires |pieces| == |es| && |es| > 0 && forall i | 0 <= i < |es| :: Reads(pieces[i], es[i])
    requires Closed(rest) && (rest == [] || rest[0] != And)
    ensures ParseAnd(Joined(pieces, And) + rest) == With(FoldAll(false, es), rest)
  {
    var ts := Joined(pieces, And) + rest;
    assert Reads(pieces[0], es[0]);
    if |pieces| == 1 {
      AndStop(ts, es[0], rest);
    } else {
      var later := Joined(pieces[1..], And) + rest;
      assert ts == pieces[0] + ([And] + later);
      ReadsAndJoin(pieces[1..], es[1..], rest);
      AndStep(ts, es[0], later, FoldAll(false, es[1..]), rest);
    }
  }

  /** A text joined with AND is read as a whole, as the conjunction of its pieces, exactly when
      every piece is readable. */
  lemma ParsesAndJoin(pieces: seq<seq<Token>>, es: seq<Option<Expr>>)
    requires |pieces| == |es| && |es| > 0 && forall i | 0 <= i < |es| :: Reads(pieces[i], es[i])
    ensures Parse(Joined(pieces, And)) == FoldAll(false, es)
  {
    ReadsAndJoin(pieces, es, []);
    assert Joined(pieces, And) + [] == Joined(pieces, And);
  }

  lemma ReadsNegated(piece: seq<Token>, e: Option<Expr>)
    requires Reads(piece, e)
    ensures Reads([Not, LParen] + piece + [RParen],
                  match e case None => None case Some(x) => Some(Negation(x)))
  {
    ReadsParenthesised([piece], [e]);
    var grouped := [LParen] + piece + [RParen];
    assert Joined([piece], Or) == piece;
    forall rest | Closed(rest)
      ensures ParseUnary([Not, LParen] + piece + [RParen] + rest)
           == With(match e case None => None case Some(x) => Some(Negation(x)), rest)
    {
      var ts := [Not, LParen] + piece + [RParen] + rest;
      assert ts == [Not] + (grouped + rest);
      assert ts[1..] == grouped + rest;
    }
  }

  // ----------------------------------------------------------------------------------- predicates

  function CommaJoin(ns: seq<nat>): seq<Token> {
    if ns == [] then []
    else if |ns| == 1 then [Param(ns[0])]
    else [Param(ns[0]), Comma] + CommaJoin(ns[1..])
  }

  lemma {:induction false} ParsesParams(ns: seq<nat>, rest: seq<Token>)
    requires |ns| > 0
    ensures ParseParams(CommaJoin(ns) + ([RParen] + rest)) == Some((ns, rest))
  {
    var ts := CommaJoin(ns) + ([RParen] + rest);
    if |ns| == 1 {
      assert ts == [Param(ns[0]), RParen] + rest;
      assert ts[2..] == rest;
      assert ns == [ns[0]];
    } else {
      var later := CommaJoin(ns[1..]) + ([RParen] + rest);
      ParsesParams(ns[1..], rest);
      assert ts == [Param(ns[0]), Comma] + later;
      assert ts[2..] == later;
      assert [ns[0]] + ns[1..] == ns;
    }
  }

  lemma ReadsColumn(column: string, tail: seq<Token>, e: Option<Expr>)
    requires forall rest | Closed(rest) :: ParsePredicate(column, tail + rest) == With(e, rest)
    ensures Reads([Column(column)] + tail, e)
  {
    forall rest | Closed(rest)
      ensures ParseUnary([Column(column)] + tail + rest) == With(e, rest)
    {
      var ts := [Column(column)] + tail + rest;
      assert ts == [Column(column)] + (tail + rest);
      assert ts[1..] == tail + rest;
    }
  }

  lemma ReadsIs(column: string, ts: seq<Token>)
    requires IsReading(ts).Some?
    ensures Reads([Column(column), Is] + ts, Some(Tested(column, IsReading(ts).value)))
  {
    var tail := [Is] + ts;
    forall rest | Closed(rest)
      ensures ParsePredicate(column, tail + rest) == With(Some(Tested(column, IsReading(ts).value)), rest)
    {
      assert (tail + rest)[|tail|..] == rest;
    }
    ReadsColumn(column, tail, Some(Tested(column, IsReading(ts).value)));
    assert [Column(column)] + tail == [Column(column), Is] + ts;
  }

  /** A test that is read from the text after IS, up to a given rest, uses nothing but its own words. */
  lemma IsReadOnly(column: string, ts: seq<Token>, rest: seq<Token>, word: string)
    requires ParsePredicate(column, [Is] + ts + rest) == Some((Tested(column, word), rest))
    ensures IsReading(ts) == Some(word)
  {
    var all := [Is] + ts + rest;
    assert |all| == 1 + |ts| + |rest|;
    assert forall i | 0 <= i < |ts| :: all[i + 1] == ts[i];
  }

  lemma ReadsComparison(column: string, op: Comparison, n: nat, cast: bool)
    ensures Reads([Column(column), Compare(op), Param(n)] + (if cast then [JsonCast] else []),
                  Some(Compared(column, op, n)))
  {
    var tail := [Compare(op), Param(n)] + (if cast then [JsonCast] else []);
    forall rest | Closed(rest)
      ensures ParsePredicate(column, tail + rest) == Some((Compared(column, op, n), rest))
    {
      assert (tail + rest)[|tail|..] == rest;
    }
    ReadsColumn(column, tail, Some(Compared(column, op, n)));
    assert [Column(column)] + tail
        == [Column(column), Compare(op), Param(n)] + (if cast then [JsonCast] else []);
  }

  function InOpening(negated: bool): seq<Token> {
    if negated then [Not, In, LParen] else [In, LParen]
  }

  lemma OpensIn(column: string, negated: bool, ts: seq<Token>)
    ensures ParsePredicate(column, InOpening(negated) + ts) == ParseListed(column, negated, ts)
  {
    hide ParseListed;
    if negated {
      assert (InOpening(true) + ts)[3..] == ts;
    } else {
      assert (InOpening(false) + ts)[2..] == ts;
    }
  }

  lemma ParsesIn(column: string, negated: bool, ns: seq<nat>, rest: seq<Token>)
    requires |ns| > 0
    ensures ParsePredicate(column, InOpening(negated) + (CommaJoin(ns) + ([RParen] + rest)))
         == Some((Listed(column, negated, ns), rest))
  {
    hide ParsePredicate, CommaJoin, ParseParams;
    ParsesParams(ns, rest);
    OpensIn(column, negated, CommaJoin(ns) + ([RParen] + rest));
  }

  lemma ReadsIn(column: string, negated: bool, ns: seq<nat>)
    requires |ns| > 0
    ensures Reads([Column(column)] + (InOpening(negated) + CommaJoin(ns) + [RParen]),
                  Some(Listed(column, negated, ns)))
  {
    hide ParsePredicate, CommaJoin;
    var tail := InOpening(negated) + CommaJoin(ns) + [RParen];
    forall rest | Closed(rest)
      ensures ParsePredicate(column, tail + rest) == With(Some(Listed(column, negated, ns)), rest)
    {
      ParsesIn(column, negated, ns, rest);
      assert tail + rest == InOpening(negated) + (CommaJoin(ns) + ([RParen] + rest));
    }
    ReadsColumn(column, tail, Some(Listed(column, negated, ns)));
  }

  lemma ReadsConstant(flag: bool)
    ensures Reads([if flag then TrueWord else FalseWord], Some(Constant(flag)))
  {
    var ts := [if flag then TrueWord else FalseWord];
    forall rest | Closed(rest)
      ensures ParseUnary(ts + rest) == Some((Constant(flag), rest))
    {
      assert (ts + rest)[1..] == rest;
      assert ParseUnary(ts + rest) == ParsePrimary(ts + rest);
    }
  }

  // -------------------------------------------------------------------------------------- meaning

  predicate Holds(e: Option<Expr>, row: Row, values: seq<Value>, rule: Rule) {
    e.Some? && Eval(e.value, row, values, rule) == Yes
  }

  lemma {:induction false} FoldAllHolds(either: bool, es: seq<Option<Expr>>, row: Row, values: seq<Value>, rule: Rule)
    requires es != [] && forall i | 0 <= i < |es| :: es[i].Some?
    ensures FoldAll(either, es).Some?
    ensures either ==> (Holds(FoldAll(either, es), row, values, rule)
                        <==> exists i | 0 <= i < |es| :: Holds(es[i], row, values, rule))
    ensures !either ==> (Holds(FoldAll(either, es), row, values, rule)
                         <==> forall i | 0 <= i < |es| :: Holds(es[i], row, values, rule))
  {
    if |es| > 1 {
      var later := es[1..];
      FoldAllHolds(either, later, row, values, rule);
      assert forall i | 1 <= i < |es| :: es[i] == later[i - 1];
      assert forall i | 0 <= i < |later| :: later[i] == es[i + 1];
    }
  }
}
