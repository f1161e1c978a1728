/** What a text spliced in after IS can do to the whole condition when it stands in an OR group: it stays
    inside the group's parentheses, unless it closes them itself. */
module SplicedText {
  import opened Outcomes
  import opened SqlText
  import opened SqlGrammar
  import opened SqlLexer
  import opened WhereClause
  import opened Words

  /** Conditions with the texts `"column" IS NULL` and `TRUE`. */
  function IsNull(column: string): Condition { Condition(column, false, IsTest, Null) }

  function Always(column: string): Condition { Condition(column, true, InTest, List([])) }

  /** The text `null) or (true` after IS. */
  function BreakOut(column: string): Condition { Condition(column, false, IsTest, Text("null) or (true")) }

  // ------------------------------------------------------------------------------------ joined texts

  lemma {:induction false} JoinedParts(a: seq<seq<Token>>, x: seq<Token>, b: seq<seq<Token>>, separator: Token)
    ensures Joined(a + [x] + b, separator)
         == Joined(a + [x], separator) + (if b == [] then [] else [separator] + Joined(b, separator))
  {
    var all := a + [x] + b;
    if a == [] {
      assert all == [x] + b && (b != [] ==> all[1..] == b);
    } else {
      assert all[1..] == a[1..] + [x] + b && (a + [x])[1..] == a[1..] + [x];
      JoinedParts(a[1..], x, b, separator);
    }
  }

  lemma JoinedFirst(x: seq<Token>, b: seq<seq<Token>>, separator: Token)
    ensures Joined([x] + b, separator) == x + if b == [] then [] else [separator] + Joined(b, separator)
  {
    assert b != [] ==> ([x] + b)[1..] == b;
  }

  /** A piece that holds a separator of its own, or anything else, in its middle. */
  lemma JoinedSplit(a: seq<seq<Token>>, x: seq<Token>, m: seq<Token>, y: seq<Token>, b: seq<seq<Token>>, separator: Token)
    ensures Joined(a + [x + m + y] + b, separator) == Joined(a + [x], separator) + m + Joined([y] + b, separator)
  {
    JoinedParts(a, x + m + y, b, separator);
    JoinedSnoc(a, x + m + y, separator);
    JoinedSnoc(a, x, separator);
    JoinedFirst(y, b, separator);
    hide Joined;
    var front := if a == [] then [] else Joined(a, separator) + [separator];
    var tail := if b == [] then [] else [separator] + Joined(b, separator);
    assert Joined(a + [x + m + y], separator) == front + (x + m + y);
    assert front + (x + m + y) + tail == (front + x) + m + (y + tail);
  }

  // ------------------------------------------------------------------------------- pieces side by side

  lemma {:induction false} BoundAllConcat(a: seq<Condition>, b: seq<Condition>)
    ensures BoundAll(a + b) == BoundAll(a) + BoundAll(b)
  {
    hide Bound;
    if a == [] {
      assert a + b == b;
    } else {
      assert (a + b)[1..] == a[1..] + b;
      BoundAllConcat(a[1..], b);
    }
  }

  lemma {:induction false} PiecesConcat(a: seq<Condition>, b: seq<Condition>, base: nat)
    ensures Pieces(a + b, base) == Pieces(a, base) + Pieces(b, base + |BoundAll(a)|)
  {
    hide Piece, Bound;
    if a == [] {
      assert a + b == b;
    } else {
      assert (a + b)[1..] == a[1..] + b;
      PiecesConcat(a[1..], b, base + |Bound(a[0])|);
    }
  }

  lemma {:induction false} ClausesBoundConcat(a: seq<Clause>, b: seq<Clause>)
    ensures ClausesBound(a + b) == ClausesBound(a) + ClausesBound(b)
  {
    if a == [] {
      assert a + b == b;
    } else {
      assert (a + b)[1..] == a[1..] + b;
      ClausesBoundConcat(a[1..], b);
    }
  }

  lemma {:induction false} ClausePiecesConcat(a: seq<Clause>, b: seq<Clause>, base: nat)
    ensures ClausePieces(a + b, base) == ClausePieces(a, base) + ClausePieces(b, base + |ClausesBound(a)|)
  {
    hide ClausePiece, ClauseBound;
    if a == [] {
      assert a + b == b;
    } else {
      assert (a + b)[1..] == a[1..] + b;
      ClausePiecesConcat(a[1..], b, base + |ClauseBound(a[0])|);
    }
  }

  lemma OnePiece(c: Condition, base: nat)
    ensures Pieces([c], base) == [Piece(c, base)] && BoundAll([c]) == Bound(c)
  {
    assert [c][1..] == [];
  }

  lemma OneClause(c: Clause, base: nat)
    ensures ClausePieces([c], base) == [ClausePiece(c, base)] && ClausesBound([c]) == ClauseBound(c)
  {
    assert [c][1..] == [];
  }

  /** A group around one condition. */
  lemma GroupPieces(ps: seq<Condition>, c: Condition, qs: seq<Condition>, base: nat)
    requires Bound(c) == []
    ensures Pieces(ps + [c] + qs, base) == Pieces(ps, base) + [Piece(c, base + |BoundAll(ps)|)] + Pieces(qs, base + |BoundAll(ps)|)
    ensures BoundAll(ps + [c] + qs) == BoundAll(ps) + BoundAll(qs)
  {
    hide Piece, Bound, Pieces, BoundAll;
    PiecesConcat(ps + [c], qs, base);
    PiecesConcat(ps, [c], base);
    OnePiece(c, base + |BoundAll(ps)|);
    BoundAllConcat(ps + [c], qs);
    BoundAllConcat(ps, [c]);
    assert BoundAll(ps) + [] == BoundAll(ps);
  }

  // ------------------------------------------------------------------------------- OR TRUE in a group

  /** The same text and the same parameters wherever they stand. */
  ghost predicate SameText(c: Clause, d: Clause) {
    ClauseBound(c) == ClauseBound(d) && forall base: nat :: ClausePiece(c, base) == ClausePiece(d, base)
  }

  lemma NullPieces(column: string, base: nat)
    ensures Piece(IsNull(column), base) == [Column(column), Is, Word("NULL")] && Readable(IsNull(column))
    ensures Piece(Always(column), base) == [TrueWord]
  {
    hide Lex, Cut;
    LexPlain("NULL");
    assert "NULL" + "" == "NULL";
    CutWord("NULL", "");
    CutNothing();
  }

  lemma LastPiece(ps: seq<Condition>, c: Condition, base: nat)
    requires Bound(c) == []
    ensures Pieces(ps + [c], base) == Pieces(ps, base) + [Piece(c, base + |BoundAll(ps)|)]
    ensures BoundAll(ps + [c]) == BoundAll(ps)
  {
    hide Piece, Bound, Pieces, BoundAll;
    PiecesConcat(ps, [c], base);
    BoundAllConcat(ps, [c]);
    OnePiece(c, base + |BoundAll(ps)|);
  }

  lemma FirstPiece(c: Condition, qs: seq<Condition>, base: nat)
    requires Bound(c) == []
    ensures Pieces([c] + qs, base) == [Piece(c, base)] + Pieces(qs, base) && BoundAll([c] + qs) == BoundAll(qs)
  {
    hide Piece, Bound;
    assert ([c] + qs)[1..] == qs;
  }

  lemma OrTrueSplits(column: string, base: nat)
    ensures Piece(OrTrue(column), base) == Piece(IsNull(column), base) + [Or] + Piece(Always(column), base)
  {
    hide Piece;
    OrTruePiece(column, base);
    NullPieces(column, base);
    var x := [Column(column), Is, Word("NULL")];
    assert x + [Or, TrueWord] == x + [Or] + [TrueWord];
  }

  lemma OrTrueInGroupAt(ps: seq<Condition>, column: string, qs: seq<Condition>, base: nat)
    ensures var bad, good := Group(ps + [OrTrue(column)] + qs), Group(ps + [IsNull(column)] + ([Always(column)] + qs));
            ClausePiece(bad, base) == ClausePiece(good, base) && ClauseBound(bad) == ClauseBound(good)
  {
    hide Piece, Joined, Pieces, BoundAll, OrTrue, IsNull, Always, Bound, ClausePiece, Lex;
    BindNothing(column);
    OrTrueSplits(column, base + |BoundAll(ps)|);
    OrTrueAround(ps, OrTrue(column), IsNull(column), Always(column), qs, base);
  }

  lemma OrTrueAround(ps: seq<Condition>, c: Condition, n: Condition, t: Condition, qs: seq<Condition>, base: nat)
    requires Bound(c) == [] && Bound(n) == [] && Bound(t) == []
    requires var next := base + |BoundAll(ps)|; Piece(c, next) == Piece(n, next) + [Or] + Piece(t, next)
    ensures var bad, good := Group(ps + [c] + qs), Group(ps + [n] + ([t] + qs));
            ClausePiece(bad, base) == ClausePiece(good, base) && ClauseBound(bad) == ClauseBound(good)
  {
    hide Piece, Joined, Pieces, BoundAll, Bound;
    var next := base + |BoundAll(ps)|;
    GroupPieces(ps, c, qs, base);
    GroupPieces(ps, n, [t] + qs, base);
    FirstPiece(t, qs, next);
    OrTrueJoined(Pieces(ps, base), Piece(n, next), Piece(t, next), Pieces(qs, next));
  }

  lemma OrTrueJoined(a: seq<seq<Token>>, x: seq<Token>, y: seq<Token>, b: seq<seq<Token>>)
    ensures Joined(a + [x + [Or] + y] + b, Or) == Joined(a + [x] + ([y] + b), Or)
  {
    hide Joined;
    JoinedSplit(a, x, [Or], y, b, Or);
    JoinedParts(a, x, [y] + b, Or);
    JoinedAgain(Joined(a + [x], Or), Joined([y] + b, Or));
  }

  lemma JoinedAgain(x: seq<Token>, y: seq<Token>)
    ensures x + [Or] + y == x + ([Or] + y)
  {
  }

  lemma OrTrueInGroup(ps: seq<Condition>, column: string, qs: seq<Condition>)
    ensures SameText(Group(ps + [OrTrue(column)] + qs), Group(ps + [IsNull(column)] + ([Always(column)] + qs)))
  {
    hide ClausePiece, ClauseBound, OrTrue, IsNull, Always;
    var bad, good := Group(ps + [OrTrue(column)] + qs), Group(ps + [IsNull(column)] + ([Always(column)] + qs));
    OrTrueInGroupAt(ps, column, qs, 0);
    forall base: nat ensures ClausePiece(bad, base) == ClausePiece(good, base) { OrTrueInGroupAt(ps, column, qs, base); }
  }

  /** A clause in the middle of a condition, given by its text alone. */
  lemma SameCondition(before: seq<Clause>, c: Clause, d: Clause, after: seq<Clause>, base: nat)
    requires SameText(c, d)
    ensures ConditionText(before + [c] + after, base) == ConditionText(before + [d] + after, base)
    ensures ClausesBound(before + [c] + after) == ClausesBound(before + [d] + after)
  {
    hide Joined, ClausePiece, ClauseBound, ClausePieces, ClausesBound;
    ClauseInMiddle(before, c, after, base);
    ClauseInMiddle(before, d, after, base);
  }

  lemma ClauseInMiddle(before: seq<Clause>, x: Clause, after: seq<Clause>, base: nat)
    ensures ClausePieces(before + [x] + after, base)
         == ClausePieces(before, base) + [ClausePiece(x, base + |ClausesBound(before)|)]
          + ClausePieces(after, base + |ClausesBound(before) + ClauseBound(x)|)
    ensures ClausesBound(before + [x] + after) == ClausesBound(before) + ClauseBound(x) + ClausesBound(after)
  {
    hide ClausePiece, ClauseBound, ClausePieces, ClausesBound;
    ClausePiecesConcat(before + [x], after, base);
    ClausePiecesConcat(before, [x], base);
    OneClause(x, base + |ClausesBound(before)|);
    ClausesBoundConcat(before + [x], after);
    ClausesBoundConcat(before, [x]);
  }

  lemma ClausesOfParts(filters: seq<Condition>, before: seq<seq<Condition>>, g: seq<Condition>, after: seq<seq<Condition>>)
    ensures ClausesOf(filters, before + [g] + after) == ClausesOf(filters, before) + [Group(g)] + ClausesOf([], after)
    ensures ClausesOf(filters, before + [g]) == ClausesOf(filters, before) + [Group(g)]
  {
  }

  /** All conditions of the group have one of the database's operators and single tests. */
  predicate AllRead(cs: seq<Condition>) { forall c | c in cs :: Readable(c) }

  predicate AllGroupsRead(groups: seq<seq<Condition>>) { forall g | g in groups :: GroupReadable(g) }

  /** `null or true` in a part of an OR group makes that group true of every row, and leaves the other filters
      and groups as they are. */
  lemma OrTrueOpensItsGroup(pre: seq<Value>, post: seq<Value>, filters: seq<Condition>, before: seq<seq<Condition>>,
                            ps: seq<Condition>, column: string, qs: seq<Condition>, after: seq<seq<Condition>>,
                            row: Row, rule: Rule)
    requires AllRead(filters) && AllGroupsRead(before) && AllRead(ps) && AllRead(qs) && AllGroupsRead(after)
    ensures var cs := ClausesOf(filters, before + [ps + [OrTrue(column)] + qs] + after);
            Holds(Parse(ConditionText(cs, |pre|)), row, pre + ClausesBound(cs) + post, rule)
            <==> Selected(filters, before + after, row, rule)
  {
    var good := ps + [IsNull(column)] + ([Always(column)] + qs);
    OpenedText(filters, before, ps, column, qs, after, |pre|);
    OpenedGroup(ps, column, qs, row, rule);
    AnyGroup(filters, before, good, after, row, rule);
    hide ConditionText, ClausesOf, ClausesBound, Parse, Holds, AnyMeets, Readable, Meets, Selected;
    WhereSelectsExactly(pre, post, filters, before + [good] + after, row, rule);
  }

  lemma OpenedText(filters: seq<Condition>, before: seq<seq<Condition>>, ps: seq<Condition>, column: string, qs: seq<Condition>,
                   after: seq<seq<Condition>>, base: nat)
    ensures var cs := ClausesOf(filters, before + [ps + [OrTrue(column)] + qs] + after);
            var ds := ClausesOf(filters, before + [ps + [IsNull(column)] + ([Always(column)] + qs)] + after);
            ConditionText(cs, base) == ConditionText(ds, base) && ClausesBound(cs) == ClausesBound(ds)
  {
    var bad, good := ps + [OrTrue(column)] + qs, ps + [IsNull(column)] + ([Always(column)] + qs);
    OrTrueInGroup(ps, column, qs);
    ClausesOfParts(filters, before, bad, after);
    ClausesOfParts(filters, before, good, after);
    hide ConditionText, ClausesOf, ClausesBound, SameText;
    SameCondition(ClausesOf(filters, before), Group(bad), Group(good), ClausesOf([], after), base);
  }

  lemma OpenedGroup(ps: seq<Condition>, column: string, qs: seq<Condition>, row: Row, rule: Rule)
    requires AllRead(ps) && AllRead(qs)
    ensures var good := ps + [IsNull(column)] + ([Always(column)] + qs); GroupReadable(good) && AnyMeets(good, row, rule)
  {
    NullPieces(column, 0);
    var n, t := IsNull(column), Always(column);
    assert Readable(t) && Meets(t, row, rule);
    hide Readable, Meets, IsNull, Always;
    OpenedAround(ps, n, t, qs, row, rule);
  }

  lemma OpenedAround(ps: seq<Condition>, n: Condition, t: Condition, qs: seq<Condition>, row: Row, rule: Rule)
    requires AllRead(ps) && AllRead(qs) && Readable(n) && Readable(t) && Meets(t, row, rule)
    ensures var good := ps + [n] + ([t] + qs); GroupReadable(good) && AnyMeets(good, row, rule)
  {
    hide Readable, Meets;
    var good := ps + [n] + ([t] + qs);
    assert good[|ps| + 1] == t;
  }

  /** A group that the row meets changes nothing. */
  lemma AnyGroup(filters: seq<Condition>, before: seq<seq<Condition>>, g: seq<Condition>, after: seq<seq<Condition>>, row: Row, rule: Rule)
    requires AnyMeets(g, row, rule)
    ensures Selected(filters, before + [g] + after, row, rule) <==> Selected(filters, before + after, row, rule)
    ensures GroupReadable(g) && AllGroupsRead(before) && AllGroupsRead(after) ==> AllGroupsRead(before + [g] + after)
  {
    hide AnyMeets, Meets, GroupReadable;
    assert forall x :: x in before + [g] + after <==> x in before + after || x == g;
  }

  // --------------------------------------------------------------------------- out of the parentheses

  lemma OpenTrueTokens()
    ensures Cut(" (TRUE") == [LParen, TrueWord]
  {
    hide Cut;
    CutNothing();
    assert "TRUE" == "TRUE" + "" && "(TRUE" == "(" + "TRUE" && " (TRUE" == " " + "(TRUE";
    CutWord("TRUE", "");
    CutMarked('(', "TRUE");
    CutBlank("(TRUE");
  }

  lemma CloseOrTokens()
    ensures Cut(") OR (TRUE") == [RParen, Or, LParen, TrueWord]
  {
    hide Cut;
    OpenTrueTokens();
    assert "OR (TRUE" == "OR" + " (TRUE" && " OR (TRUE" == " " + "OR (TRUE" && ") OR (TRUE" == ")" + " OR (TRUE";
    CutWord("OR", " (TRUE");
    CutBlank("OR (TRUE");
    CutMarked(')', " OR (TRUE");
  }

  lemma BreakOutTokens()
    ensures IsTokens(Text("null) or (true")) == [Word("NULL"), RParen, Or, LParen, TrueWord]
  {
    hide Lex, Cut;
    assert Upper("null) or (true") == "NULL) OR (TRUE" == "NULL" + ") OR (TRUE";
    LexPlain("NULL) OR (TRUE");
    CloseOrTokens();
    CutWord("NULL", ") OR (TRUE");
  }

  lemma CutMarked(c: char, rest: string)
    requires c == '(' || c == ')'
    ensures Cut([c] + rest) == [Mark(c)] + Cut(rest)
  {
    assert ([c] + rest)[1..] == rest;
  }

  lemma BreakOutPiece(column: string, base: nat)
    ensures Piece(BreakOut(column), base) == [Column(column), Is, Word("NULL")] + [RParen, Or, LParen] + [TrueWord]
  {
    hide Lex;
    BreakOutTokens();
  }

  /** The group falls apart into two groups with OR between them. */
  lemma BrokenGroup(ps: seq<Condition>, column: string, qs: seq<Condition>, base: nat)
    ensures ClausePiece(Group(ps + [BreakOut(column)] + qs), base)
         == ClausePiece(Group(ps + [IsNull(column)]), base) + [Or]
          + ClausePiece(Group([Always(column)] + qs), base + |BoundAll(ps + [IsNull(column)])|)
    ensures BoundAll(ps + [BreakOut(column)] + qs) == BoundAll(ps + [IsNull(column)]) + BoundAll([Always(column)] + qs)
  {
    hide Piece, Joined, Pieces, BoundAll, BreakOut, IsNull, Always, Bound, ClausePiece, Lex;
    BindNothing(column);
    BreakOutSplits(column, base + |BoundAll(ps)|);
    BrokenAround(ps, BreakOut(column), IsNull(column), Always(column), qs, base);
  }

  lemma BindNothing(column: string)
    ensures Bound(OrTrue(column)) == [] && Bound(BreakOut(column)) == [] && Bound(IsNull(column)) == [] && Bound(Always(column)) == []
  {
  }

  lemma BrokenAround(ps: seq<Condition>, c: Condition, n: Condition, t: Condition, qs: seq<Condition>, base: nat)
    requires Bound(c) == [] && Bound(n) == [] && Bound(t) == []
    requires var next := base + |BoundAll(ps)|; Piece(c, next) == Piece(n, next) + [RParen, Or, LParen] + Piece(t, next)
    ensures ClausePiece(Group(ps + [c] + qs), base)
         == ClausePiece(Group(ps + [n]), base) + [Or] + ClausePiece(Group([t] + qs), base + |BoundAll(ps + [n])|)
    ensures BoundAll(ps + [c] + qs) == BoundAll(ps + [n]) + BoundAll([t] + qs)
  {
    hide Piece, Joined, Pieces, BoundAll, Bound;
    var next := base + |BoundAll(ps)|;
    GroupPieces(ps, c, qs, base);
    LastPiece(ps, n, base);
    FirstPiece(t, qs, next);
    BrokenJoined(Pieces(ps, base), Piece(n, next), Piece(t, next), Pieces(qs, next));
  }

  lemma BrokenJoined(a: seq<seq<Token>>, x: seq<Token>, y: seq<Token>, b: seq<seq<Token>>)
    ensures [LParen] + Joined(a + [x + [RParen, Or, LParen] + y] + b, Or) + [RParen]
         == ([LParen] + Joined(a + [x], Or) + [RParen]) + [Or] + ([LParen] + Joined([y] + b, Or) + [RParen])
  {
    hide Joined;
    JoinedSplit(a, x, [RParen, Or, LParen], y, b, Or);
    Regrouped(Joined(a + [x], Or), Joined([y] + b, Or));
  }

  lemma BreakOutSplits(column: string, base: nat)
    ensures Piece(BreakOut(column), base)
         == Piece(IsNull(column), base) + [RParen, Or, LParen] + Piece(Always(column), base)
  {
    hide Piece;
    BreakOutPiece(column, base);
    NullPieces(column, base);
  }

  lemma Regrouped(x: seq<Token>, y: seq<Token>)
    ensures [LParen] + (x + [RParen, Or, LParen] + y) + [RParen] == ([LParen] + x + [RParen]) + [Or] + ([LParen] + y + [RParen])
  {
  }

  /** Two conditions with OR between them. */
  lemma EitherText(left: seq<Clause>, right: seq<Clause>, base: nat, next: nat, row: Row, values: seq<Value>, rule: Rule)
    requires left != [] && right != [] && AllReadable(left) && AllReadable(right)
    ensures Holds(Parse(ConditionText(left, base) + [Or] + ConditionText(right, next)), row, values, rule)
       <==> Holds(Parse(ConditionText(left, base)), row, values, rule) || Holds(Parse(ConditionText(right, next)), row, values, rule)
  {
    var p, q, es, fs := ClausePieces(left, base), ClausePieces(right, next), ClauseExprs(left, base), ClauseExprs(right, next);
    ReadableTexts(left, base);
    ReadableTexts(right, next);
    hide ClausePieces, ClauseExprs, AllReadable;
    OrOfJoins(p, es, q, fs);
    ParsesAndJoin(p, es);
    ParsesAndJoin(q, fs);
    hide Joined, FoldAll, Reads, Parse;
    var e, f := FoldAll(false, es).value, FoldAll(false, fs).value;
    assert Eval(Either(e, f), row, values, rule) == TruthOr(Eval(e, row, values, rule), Eval(f, row, values, rule));
  }

  lemma ReadableTexts(cs: seq<Clause>, base: nat)
    requires cs != [] && AllReadable(cs)
    ensures forall i | 0 <= i < |cs| :: Reads(ClausePieces(cs, base)[i], ClauseExprs(cs, base)[i])
    ensures FoldAll(false, ClauseExprs(cs, base)).Some?
  {
    forall c | c in cs ensures TestsReadable(c) { var i :| 0 <= i < |cs| && cs[i] == c; assert ClauseReadable(cs[i]); }
    ClausePiecesRead(cs, base);
    hide Reads, ClausePieces, TestsReadable;
    ReadableFolds(cs, base);
  }

  lemma ReadableFolds(cs: seq<Clause>, base: nat)
    requires cs != [] && AllReadable(cs)
    ensures FoldAll(false, ClauseExprs(cs, base)).Some?
  {
    hide ClauseExprs, ClauseReadable, ClausesBound, ClauseMeets;
    var values := seq(base, _ => Null) + ClausesBound(cs);
    assert values[base..base + |ClausesBound(cs)|] == ClausesBound(cs);
    ClausesMean(cs, base, values, _ => Null, (_, _, _) => false);
    FoldAllReadable(false, ClauseExprs(cs, base));
  }

  lemma OrOfJoins(p: seq<seq<Token>>, es: seq<Option<Expr>>, q: seq<seq<Token>>, fs: seq<Option<Expr>>)
    requires |p| == |es| > 0 && forall i | 0 <= i < |es| :: Reads(p[i], es[i])
    requires |q| == |fs| > 0 && forall i | 0 <= i < |fs| :: Reads(q[i], fs[i])
    requires FoldAll(false, es).Some? && FoldAll(false, fs).Some?
    ensures Parse(Joined(p, And) + [Or] + Joined(q, And)) == Some(Either(FoldAll(false, es).value, FoldAll(false, fs).value))
  {
    var left, right := Joined(p, And), Joined(q, And);
    ReadsAndJoin(p, es, [Or] + right);
    ReadsAndJoin(q, fs, []);
    hide Joined, FoldAll, Reads;
    assert right + [] == right && left + ([Or] + right) == left + [Or] + right && ([Or] + right)[1..] == right;
    assert ParseOr(right) == With(FoldAll(false, fs), []);
  }

  /** `null) or (true` in a part of an OR group closes the group: the condition is true of the rows that meet all
      later groups, and besides of those that meet the filters, the earlier groups, and an earlier part of this
      group or have no value in the column. Where no group follows, that is every row. */
  lemma BreakOutSelectsExactly(pre: seq<Value>, post: seq<Value>, filters: seq<Condition>, before: seq<seq<Condition>>,
                               ps: seq<Condition>, column: string, qs: seq<Condition>, after: seq<seq<Condition>>,
                               row: Row, rule: Rule)
    requires AllRead(filters) && AllGroupsRead(before) && AllRead(ps) && AllRead(qs) && AllGroupsRead(after)
    ensures var cs := ClausesOf(filters, before + [ps + [BreakOut(column)] + qs] + after);
            Holds(Parse(ConditionText(cs, |pre|)), row, pre + ClausesBound(cs) + post, rule)
            <==> Selected([], after, row, rule) || Selected(filters, before + [ps + [IsNull(column)]], row, rule)
    ensures after == [] ==> Selected([], after, row, rule)
  {
    var first, second := before + [ps + [IsNull(column)]], [[Always(column)] + qs] + after;
    var cs := ClausesOf(filters, before + [ps + [BreakOut(column)] + qs] + after);
    hide ConditionText, ClausesOf, ClausesBound, Parse, Holds, AnyMeets, Readable, Meets, Selected, IsNull, Always, BreakOut,
         GroupReadable, AllGroupsRead, AllRead, Lex, Piece;
    BrokenText(filters, before, ps, column, qs, after, |pre|);
    BrokenGroups(before, ps, column, qs, after, row, rule);
    NoGroups(row, rule);
    EitherSelects(pre, post, filters, cs, first, second, row, rule);
  }

  lemma NoGroups(row: Row, rule: Rule)
    ensures Selected([], [], row, rule)
  {
  }

  lemma ValuesRegrouped(pre: seq<Value>, a: seq<Value>, b: seq<Value>, post: seq<Value>)
    ensures pre + (a + b) + post == pre + a + (b + post) && pre + (a + b) + post == (pre + a) + b + post
  {
  }

  lemma EitherSelects(pre: seq<Value>, post: seq<Value>, filters: seq<Condition>, cs: seq<Clause>, first: seq<seq<Condition>>,
                      second: seq<seq<Condition>>, row: Row, rule: Rule)
    requires first != [] && second != [] && AllRead(filters) && AllGroupsRead(first) && AllGroupsRead(second)
    requires var left, right := ClausesOf(filters, first), ClausesOf([], second);
             && ConditionText(cs, |pre|) == ConditionText(left, |pre|) + [Or] + ConditionText(right, |pre| + |ClausesBound(left)|)
             && ClausesBound(cs) == ClausesBound(left) + ClausesBound(right)
    ensures Holds(Parse(ConditionText(cs, |pre|)), row, pre + ClausesBound(cs) + post, rule)
            <==> Selected([], second, row, rule) || Selected(filters, first, row, rule)
  {
    hide ConditionText, ClausesOf, ClausesBound, Parse, Holds, Readable, Selected, GroupReadable, AllReadable, AllMeet, Lex, Piece;
    var left, right := ClausesOf(filters, first), ClausesOf([], second);
    ClausesSplit(filters, first, row, rule);
    ClausesSplit([], second, row, rule);
    SomeClauses(filters, first);
    SomeClauses([], second);
    WhereSelectsTwice(pre, post, filters, first, second, row, rule);
    var a, b := ClausesBound(left), ClausesBound(right);
    ValuesRegrouped(pre, a, b, post);
    EitherText(left, right, |pre|, |pre| + |a|, row, pre + (a + b) + post, rule);
  }

  lemma SomeClauses(filters: seq<Condition>, groups: seq<seq<Condition>>)
    requires groups != []
    ensures ClausesOf(filters, groups) != []
  {
  }

  lemma WhereSelectsTwice(pre: seq<Value>, post: seq<Value>, filters: seq<Condition>, first: seq<seq<Condition>>,
                          second: seq<seq<Condition>>, row: Row, rule: Rule)
    requires first != [] && second != [] && AllRead(filters) && AllGroupsRead(first) && AllGroupsRead(second)
    ensures var left, right := ClausesOf(filters, first), ClausesOf([], second);
            var a, b := ClausesBound(left), ClausesBound(right);
            && (Holds(Parse(ConditionText(left, |pre|)), row, pre + a + (b + post), rule) <==> Selected(filters, first, row, rule))
            && (Holds(Parse(ConditionText(right, |pre| + |a|)), row, (pre + a) + b + post, rule) <==> Selected([], second, row, rule))
  {
    hide ConditionText, ClausesOf, ClausesBound, Parse, Holds, Readable, Selected, GroupReadable;
    var a, b := ClausesBound(ClausesOf(filters, first)), ClausesBound(ClausesOf([], second));
    WhereSelectsExactly(pre, b + post, filters, first, row, rule);
    WhereSelectsExactly(pre + a, post, [], second, row, rule);
  }

  lemma BrokenGroups(before: seq<seq<Condition>>, ps: seq<Condition>, column: string, qs: seq<Condition>,
                     after: seq<seq<Condition>>, row: Row, rule: Rule)
    requires AllGroupsRead(before) && AllRead(ps) && AllRead(qs) && AllGroupsRead(after)
    ensures AllGroupsRead(before + [ps + [IsNull(column)]]) && AllGroupsRead([[Always(column)] + qs] + after)
    ensures Selected([], [[Always(column)] + qs] + after, row, rule) <==> Selected([], after, row, rule)
  {
    NullPieces(column, 0);
    var n, t := IsNull(column), Always(column);
    assert Readable(t) && Meets(t, row, rule);
    hide Readable, Meets, IsNull, Always, Selected, AllGroupsRead;
    GroupRead(ps + [n]);
    GroupRead([t] + qs);
    assert t in [t] + qs;
    LastRead(before, ps + [n]);
    AnyGroup([], [], [t] + qs, after, row, rule);
    assert [] + [[t] + qs] + after == [[t] + qs] + after && [] + after == after;
    NoneRead();
  }

  lemma GroupRead(g: seq<Condition>)
    requires g != [] && AllRead(g)
    ensures GroupReadable(g)
  {
  }

  lemma LastRead(before: seq<seq<Condition>>, g: seq<Condition>)
    requires AllGroupsRead(before) && GroupReadable(g)
    ensures AllGroupsRead(before + [g])
  {
  }

  lemma NoneRead()
    ensures AllGroupsRead([])
  {
  }

  lemma BrokenText(filters: seq<Condition>, before: seq<seq<Condition>>, ps: seq<Condition>, column: string, qs: seq<Condition>,
                   after: seq<seq<Condition>>, base: nat)
    ensures var cs := ClausesOf(filters, before + [ps + [BreakOut(column)] + qs] + after);
            var left, right := ClausesOf(filters, before + [ps + [IsNull(column)]]), ClausesOf([], [[Always(column)] + qs] + after);
            && ConditionText(cs, base) == ConditionText(left, base) + [Or] + ConditionText(right, base + |ClausesBound(left)|)
            && ClausesBound(cs) == ClausesBound(left) + ClausesBound(right) && left != [] && right != []
  {
    hide BreakOut, IsNull, Always, Lex, Piece;
    var first, second := ps + [IsNull(column)], [Always(column)] + qs;
    var front, later := ClausesOf(filters, before), ClausesOf([], after);
    ClausesOfParts(filters, before, ps + [BreakOut(column)] + qs, after);
    ClausesOfParts(filters, before, first, []);
    FirstGroup(second, after);
    hide ClausesOf, ConditionText, ClausesBound;
    BrokenClauses(front, ps, column, qs, later, base);
  }

  lemma FirstGroup(g: seq<Condition>, after: seq<seq<Condition>>)
    ensures ClausesOf([], [g] + after) == [Group(g)] + ClausesOf([], after)
  {
  }

  lemma BrokenClauses(front: seq<Clause>, ps: seq<Condition>, column: string, qs: seq<Condition>, later: seq<Clause>, base: nat)
    ensures var cs := front + [Group(ps + [BreakOut(column)] + qs)] + later;
            var left, right := front + [Group(ps + [IsNull(column)])], [Group([Always(column)] + qs)] + later;
            && ConditionText(cs, base) == ConditionText(left, base) + [Or] + ConditionText(right, base + |ClausesBound(left)|)
            && ClausesBound(cs) == ClausesBound(left) + ClausesBound(right)
  {
    var bad, first, second := Group(ps + [BreakOut(column)] + qs), Group(ps + [IsNull(column)]), Group([Always(column)] + qs);
    hide ClausePiece, BoundAll, BreakOut, IsNull, Always, ConditionText, ClausesBound, Lex, Piece;
    BrokenGroup(ps, column, qs, base + |ClausesBound(front)|);
    FallsApart(front, bad, first, second, later, base);
  }

  /** A clause whose text is that of two clauses with OR between them. */
  lemma FallsApart(front: seq<Clause>, bad: Clause, first: Clause, second: Clause, later: seq<Clause>, base: nat)
    requires ClauseBound(bad) == ClauseBound(first) + ClauseBound(second)
    requires var at := base + |ClausesBound(front)|;
             ClausePiece(bad, at) == ClausePiece(first, at) + [Or] + ClausePiece(second, at + |ClauseBound(first)|)
    ensures var left, right := front + [first], [second] + later;
            && ConditionText(front + [bad] + later, base)
            == ConditionText(left, base) + [Or] + ConditionText(right, base + |ClausesBound(left)|)
            && ClausesBound(front + [bad] + later) == ClausesBound(left) + ClausesBound(right)
  {
    var at := base + |ClausesBound(front)|;
    var next := at + |ClauseBound(first)|;
    hide Joined, ClausePiece, ClausePieces, ClausesBound, ClauseBound;
    ClauseInMiddle(front, bad, later, base);
    ClausePiecesSnoc(front, first, base);
    ClausesBoundSnoc(front, first);
    FirstClause(second, later, next);
    JoinedSplit(ClausePieces(front, base), ClausePiece(first, at), [Or], ClausePiece(second, next),
                ClausePieces(later, next + |ClauseBound(second)|), And);
  }

  lemma FirstClause(c: Clause, later: seq<Clause>, base: nat)
    ensures ClausePieces([c] + later, base) == [ClausePiece(c, base)] + ClausePieces(later, base + |ClauseBound(c)|)
    ensures ClausesBound([c] + later) == ClauseBound(c) + ClausesBound(later)
  {
    hide ClausePiece, ClauseBound;
    assert ([c] + later)[1..] == later;
  }

}
