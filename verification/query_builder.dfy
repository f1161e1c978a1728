/** The query builder: it collects filters and rows, then writes one statement and its parameters. */
module QueryBuilder {
  import opened Basics
  import opened FilterWords
  import opened Outcomes
  import opened SqlText
  import opened SqlGrammar
  import opened SqlLexer
  import opened StatementText
  import opened WhereClause
  import opened Words
  import OrExpression

  datatype Failure = UnsafeIdentifier | UnsupportedFilter | UnsupportedOrFilter

  /** A submitted row: its own keys in order; None stands for undefined. */
  type Entry = (string, Option<Value>)
  type Row = seq<Entry>

  datatype Compiled =
    | Statement(text: seq<Token>, values: seq<Value>)
    | NothingToRun
    | Throws(failure: Failure)

  // -------------------------------------------------------------------------------- specification

  function ValueOf(e: Option<Value>): Value { match e case Some(v) => v case None => Null }

  /** row[column], absent or undefined keys as null. */
  function CellOf(row: Row, column: string): Value {
    if row == [] then Null
    else if row[0].0 == column then ValueOf(row[0].1)
    else CellOf(row[1..], column)
  }

  function KeysOf(row: Row): seq<string> { seq(|row|, i requires 0 <= i < |row| => row[i].0) }

  function AllKeys(rows: seq<Row>): seq<string> {
    if rows == [] then [] else KeysOf(rows[0]) + AllKeys(rows[1..])
  }

  /** The distinct keys in order of first appearance. */
  function Distinct(keys: seq<string>): seq<string> {
    if keys == [] then []
    else
      var front := Distinct(keys[..|keys| - 1]);
      if keys[|keys| - 1] in front then front else front + [keys[|keys| - 1]]
  }

  lemma {:induction false} DistinctExactly(keys: seq<string>)
    ensures forall k :: k in Distinct(keys) <==> k in keys
    ensures NoRepeats(Distinct(keys))
  {
    if keys != [] {
      var front := keys[..|keys| - 1];
      assert keys == front + [keys[|keys| - 1]];
      DistinctExactly(front);
    }
  }

  function ColumnsOf(rows: seq<Row>): seq<string> { Distinct(AllKeys(rows)) }

  predicate SafeColumns(columns: seq<string>) { forall c | c in columns :: IsIdentifier(c) }

  function Cells(row: Row, columns: seq<string>): (r: seq<Value>)
    ensures |r| == |columns|
  {
    seq(|columns|, i requires 0 <= i < |columns| => CellOf(row, columns[i]))
  }

  function AllCells(rows: seq<Row>, columns: seq<string>): seq<Value> {
    if rows == [] then [] else AllCells(rows[..|rows| - 1], columns) + Cells(rows[|rows| - 1], columns)
  }

  function RowPieces(count: nat, width: nat): (r: seq<seq<Token>>)
    ensures |r| == count
  {
    if count == 0 then []
    else RowPieces(count - 1, width)
         + [[LParen] + CommaJoin(Numbers((count - 1) * width, width)) + [RParen]]
  }

  function ColumnPieces(columns: seq<string>): seq<seq<Token>> {
    seq(|columns|, i requires 0 <= i < |columns| => [Column(columns[i])])
  }

  function InsertText(table: string, columns: seq<string>, count: nat, conflict: seq<Token>): seq<Token> {
    [Word("INSERT INTO"), Column(table), LParen] + Joined(ColumnPieces(columns), Comma) + [RParen, Word("VALUES")]
    + Joined(RowPieces(count, |columns|), Comma) + conflict
  }

  function Without(columns: seq<string>, excluded: seq<string>): seq<string> {
    if columns == [] then []
    else (if columns[0] in excluded then [] else [columns[0]]) + Without(columns[1..], excluded)
  }

  function CopyPieces(columns: seq<string>): seq<seq<Token>> {
    seq(|columns|, i requires 0 <= i < |columns| =>
        [Column(columns[i]), Compare(Equal), Word("EXCLUDED."), Column(columns[i])])
  }

  function ActionText(updates: seq<string>): seq<Token> {
    if updates == [] then [Word("DO NOTHING")] else [Word("DO UPDATE SET")] + Joined(CopyPieces(updates), Comma)
  }

  function ConflictText(columns: seq<string>, conflictColumns: seq<string>): seq<Token> {
    if conflictColumns == [] then [Word("ON CONFLICT DO NOTHING")]
    else [Word("ON CONFLICT"), LParen] + Joined(ColumnPieces(conflictColumns), Comma) + [RParen]
         + ActionText(Without(columns, conflictColumns))
  }

  function SetPieces(row: Row, count: nat): (r: seq<seq<Token>>)
    requires count <= |row|
    ensures |r| == count
  {
    if count == 0 then []
    else SetPieces(row, count - 1) + [[Column(row[count - 1].0), Compare(Equal), Param(count)]]
  }

  function RowValues(row: Row): seq<Value> { seq(|row|, i requires 0 <= i < |row| => ValueOf(row[i].1)) }

  function WhereText(clauses: seq<Clause>, base: nat): seq<Token> {
    if clauses == [] then [] else [Word("WHERE")] + ConditionText(clauses, base)
  }

  function UpdateText(table: string, row: Row, clauses: seq<Clause>): seq<Token> {
    [Word("UPDATE"), Column(table), Word("SET")] + Joined(SetPieces(row, |row|), Comma) + WhereText(clauses, |row|)
  }

  // ------------------------------------------------------------------------------------ properties

  lemma ParamsOfSnoc(pieces: seq<seq<Token>>, piece: seq<Token>)
    ensures ParamsOf(Joined(pieces + [piece], Comma)) == ParamsOf(Joined(pieces, Comma)) + ParamsOf(piece)
  {
    hide ParamsOf, Joined;
    JoinedSnoc(pieces, piece, Comma);
    if pieces == [] {
      JoinedNone(Comma);
    } else {
      var front := Joined(pieces, Comma);
      ParamsOfConcat(front + [Comma], piece);
      ParamsOfConcat(front, [Comma]);
      ParamsOfNone([Comma]);
    }
  }

  lemma JoinedNone(separator: Token)
    ensures Joined([], separator) == [] && ParamsOf([]) == []
  {
  }

  lemma NumbersNone(count: nat)
    requires count == 0
    ensures Numbers(0, count) == []
  {
  }

  lemma {:induction false} RowNumbers(count: nat, width: nat)
    ensures ParamsOf(Joined(RowPieces(count, width), Comma)) == Numbers(0, count * width)
  {
    hide CommaJoin, ParamsOf, Joined, Numbers;
    if count == 0 {
      JoinedNone(Comma);
      NumbersNone(count * width);
    } else {
      var ns := Numbers((count - 1) * width, width);
      var piece := [LParen] + CommaJoin(ns) + [RParen];
      RowNumbers(count - 1, width);
      ParamsOfSnoc(RowPieces(count - 1, width), piece);
      ParamsOfAround([LParen], CommaJoin(ns), [RParen]);
      ParamsOfCommaJoin(ns);
      NumbersConcat(0, (count - 1) * width, width);
      assert (count - 1) * width + width == count * width;
    }
  }

  lemma {:induction false} AllCellsAt(rows: seq<Row>, columns: seq<string>, r: nat, c: nat)
    requires r < |rows| && c < |columns|
    ensures |AllCells(rows, columns)| == |rows| * |columns|
    ensures 0 <= r * |columns| + c < |rows| * |columns|
    ensures AllCells(rows, columns)[r * |columns| + c] == CellOf(rows[r], columns[c])
    decreases |rows|
  {
    var front := rows[..|rows| - 1];
    AllCellsSize(front, columns);
    assert |front| * |columns| + |columns| == |rows| * |columns|;
    if r == |rows| - 1 {
      assert r * |columns| == |front| * |columns|;
    } else {
      AllCellsAt(front, columns, r, c);
    }
  }

  lemma {:induction false} AllCellsSize(rows: seq<Row>, columns: seq<string>)
    ensures |AllCells(rows, columns)| == |rows| * |columns|
  {
    if rows != [] {
      AllCellsSize(rows[..|rows| - 1], columns);
      assert (|rows| - 1) * |columns| + |columns| == |rows| * |columns|;
    }
  }

  lemma {:induction false} NoParamsJoined(pieces: seq<seq<Token>>)
    requires forall p | p in pieces :: NoParams(p)
    ensures NoParams(Joined(pieces, Comma))
  {
    if |pieces| > 1 {
      NoParamsJoined(pieces[1..]);
      assert pieces[0] in pieces;
    }
  }

  lemma ConflictHasNoParams(columns: seq<string>, conflictColumns: seq<string>)
    ensures NoParams(ConflictText(columns, conflictColumns))
  {
    NoParamsJoined(ColumnPieces(conflictColumns));
    var updates := Without(columns, conflictColumns);
    NoParamsJoined(CopyPieces(updates));
  }

  /** An INSERT or upsert numbers its placeholders $1, $2, ... row by row: the cell of row r and
      column c is $(r * columns + c + 1), bound to that row's value or to null if it has none. */
  lemma InsertBindsEachCell(table: string, rows: seq<Row>, conflict: seq<Token>, r: nat, c: nat)
    requires NoParams(conflict) && r < |rows| && c < |ColumnsOf(rows)|
    ensures var columns := ColumnsOf(rows); var values := AllCells(rows, columns);
            && ParamsOf(InsertText(table, columns, |rows|, conflict)) == Numbers(0, |values|)
            && 1 <= r * |columns| + c + 1 <= |values|
            && values[r * |columns| + c + 1 - 1] == CellOf(rows[r], columns[c])
  {
    var columns := ColumnsOf(rows);
    AllCellsAt(rows, columns, r, c);
    RowNumbers(|rows|, |columns|);
    var prefix := [Word("INSERT INTO"), Column(table), LParen] + Joined(ColumnPieces(columns), Comma) + [RParen, Word("VALUES")];
    NoParamsJoined(ColumnPieces(columns));
    ParamsOfAround(prefix, Joined(RowPieces(|rows|, |columns|), Comma), conflict);
  }

  lemma {:induction false} SetNumbers(row: Row, count: nat)
    requires count <= |row|
    ensures ParamsOf(Joined(SetPieces(row, count), Comma)) == Numbers(0, count)
  {
    if count > 0 {
      var piece := [Column(row[count - 1].0), Compare(Equal), Param(count)];
      SetNumbers(row, count - 1);
      ParamsOfSnoc(SetPieces(row, count - 1), piece);
      ParamsOfCommaJoin([count]);
      ParamsOfAround([Column(row[count - 1].0), Compare(Equal)], [Param(count)], []);
      assert piece == [Column(row[count - 1].0), Compare(Equal)] + [Param(count)] + [];
      NumbersConcat(0, count - 1, 1);
    }
  }

  lemma WhereTextNumbers(clauses: seq<Clause>, base: nat)
    ensures ParamsOf(WhereText(clauses, base)) == Numbers(base, |ClausesBound(clauses)|)
       <==> forall c | c in clauses :: ClauseUnspliced(c)
  {
    hide ClauseUnspliced, ParamsOf;
    WhereNumbers(clauses, base);
    if clauses != [] {
      ParamsOfAround([Word("WHERE")], ConditionText(clauses, base), []);
      assert WhereText(clauses, base) == [Word("WHERE")] + ConditionText(clauses, base) + [];
    } else {
      JoinedNone(And);
    }
  }

  /** An UPDATE numbers its placeholders $1, $2, ... over the SET list and then the WHERE text; the
      i-th assignment gets the i-th submitted value, and the WHERE text selects, with the parameters
      of the whole statement, exactly the rows that meet the filters and groups. */
  lemma UpdateBindsInOrder(table: string, row: Row, filters: seq<Condition>, groups: seq<seq<Condition>>,
                           target: SqlText.Row, rule: Rule)
    requires filters != [] || groups != []
    requires (forall f | f in filters :: Readable(f)) && (forall g | g in groups :: GroupReadable(g))
    ensures var clauses := ClausesOf(filters, groups);
            var values := RowValues(row) + ClausesBound(clauses);
            && ParamsOf(UpdateText(table, row, clauses)) == Numbers(0, |values|)
            && (forall i | 0 <= i < |row| :: SetPieces(row, |row|)[i] == [Column(row[i].0), Compare(Equal), Param(i + 1)]
                                             && ValueAt(values, i + 1) == ValueOf(row[i].1))
            && (Holds(Parse(ConditionText(clauses, |row|)), target, values, rule)
                <==> Selected(filters, groups, target, rule))
  {
    hide UpdateText, ConditionText, ClausesOf, ClausesBound, ParamsOf, Parse, Holds, Selected, SetPieces, Readable, GroupReadable;
    var clauses := ClausesOf(filters, groups);
    UpdateSelects(row, filters, groups, target, rule);
    TestsUnspliced(filters, groups);
    UpdateNumbers(table, row, clauses);
    SetPiecesAt(row, |row|);
  }

  lemma UpdateSelects(row: Row, filters: seq<Condition>, groups: seq<seq<Condition>>, target: SqlText.Row, rule: Rule)
    requires filters != [] || groups != []
    requires (forall f | f in filters :: Readable(f)) && (forall g | g in groups :: GroupReadable(g))
    ensures var clauses := ClausesOf(filters, groups);
            Holds(Parse(ConditionText(clauses, |row|)), target, RowValues(row) + ClausesBound(clauses), rule)
            <==> Selected(filters, groups, target, rule)
  {
    hide ConditionText, ClausesOf, ClausesBound, Parse, Selected, Readable, GroupReadable;
    WhereSelectsExactly(RowValues(row), [], filters, groups, target, rule);
    var values := RowValues(row) + ClausesBound(ClausesOf(filters, groups));
    assert values + [] == values;
  }

  lemma {:induction false} SetPiecesAt(row: Row, count: nat)
    requires count <= |row|
    ensures forall i | 0 <= i < count :: SetPieces(row, count)[i] == [Column(row[i].0), Compare(Equal), Param(i + 1)]
  {
    if count > 0 { SetPiecesAt(row, count - 1); }
  }

  lemma TestsUnspliced(filters: seq<Condition>, groups: seq<seq<Condition>>)
    requires (forall f | f in filters :: Readable(f)) && (forall g | g in groups :: GroupReadable(g))
    ensures forall c | c in ClausesOf(filters, groups) :: ClauseUnspliced(c)
  {
    hide SingleTest, ClauseUnspliced;
    assert AllTestsReadable(filters, groups);
    hide Readable, GroupReadable;
    TestsSplit(filters, groups);
    ReadableClausesUnspliced(ClausesOf(filters, groups));
  }

  lemma NumbersBehind(m: nat, n: nat, later: seq<nat>)
    ensures Numbers(0, m) + later == Numbers(0, m + n) <==> later == Numbers(m, n)
  {
    NumbersConcat(0, m, n);
    assert (Numbers(0, m) + later)[m..] == later && (Numbers(0, m) + Numbers(m, n))[m..] == Numbers(m, n);
  }

  /** The placeholders of an UPDATE are exactly $1 to $n, in order, exactly when no IS text splices in a
      placeholder of its own. */
  lemma UpdateNumbers(table: string, row: Row, clauses: seq<Clause>)
    ensures ParamsOf(UpdateText(table, row, clauses)) == Numbers(0, |row| + |ClausesBound(clauses)|)
       <==> forall c | c in clauses :: ClauseUnspliced(c)
  {
    hide Joined, ParamsOf, SetPieces, WhereText, ClauseUnspliced, Numbers;
    var prefix := [Word("UPDATE"), Column(table), Word("SET")];
    var sets := Joined(SetPieces(row, |row|), Comma);
    ParamsOfConcat(prefix + sets, WhereText(clauses, |row|));
    ParamsOfAround(prefix, sets, []);
    assert prefix + sets + [] == prefix + sets;
    SetNumbers(row, |row|);
    WhereTextNumbers(clauses, |row|);
    NumbersBehind(|row|, |ClausesBound(clauses)|, ParamsOf(WhereText(clauses, |row|)));
  }

  // ------------------------------------------------------------------------------------- the class

  lemma {:induction false} BoundSnoc(cs: seq<Condition>, c: Condition)
    ensures BoundAll(cs + [c]) == BoundAll(cs) + Bound(c)
  {
    var all := cs + [c];
    if cs != [] {
      assert all[1..] == cs[1..] + [c] && all[0] == cs[0];
      BoundSnoc(cs[1..], c);
    }
  }

  lemma {:induction false} PiecesSnoc(cs: seq<Condition>, c: Condition, base: nat)
    ensures Pieces(cs + [c], base) == Pieces(cs, base) + [Piece(c, base + |BoundAll(cs)|)]
  {
    hide Piece, Bound;
    hide ClausePiece, ClauseBound;
    var all := cs + [c];
    if cs == [] {
      assert all[1..] == [] && all[0] == c;
    } else {
      var next := base + |Bound(cs[0])|;
      assert all[1..] == cs[1..] + [c] && all[0] == cs[0];
      PiecesSnoc(cs[1..], c, next);
      assert next + |BoundAll(cs[1..])| == base + |BoundAll(cs)|;
    }
  }

  predicate GroupsResolve(groups: seq<seq<Filter>>) {
    forall i | 0 <= i < |groups| :: ResolveAll(groups[i]).Some?
  }

  function ResolvedGroups(groups: seq<seq<Filter>>): seq<seq<Condition>>
    requires GroupsResolve(groups)
  {
    seq(|groups|, i requires 0 <= i < |groups| => ResolveAll(groups[i]).value)
  }

  // ------------------------------------------------------------------------------ filters by their words

  lemma AllResolve(fs: seq<Filter>)
    requires forall f | f in fs :: Proper(f)
    ensures ResolveAll(fs).Some? && forall c | c in ResolveAll(fs).value :: Readable(c)
  {
    hide Resolve, Proper, Readable;
    forall i | 0 <= i < |fs| ensures Resolve(fs[i]).Some? && Readable(Resolve(fs[i]).value) { ProperResolves(fs[i]); }
  }

  lemma ProperResolve(filters: seq<Filter>, groups: seq<seq<Filter>>)
    requires AllProper(filters, groups)
    ensures ResolveAll(filters).Some? && GroupsResolve(groups)
    ensures forall c | c in ResolveAll(filters).value :: Readable(c)
    ensures forall g | g in ResolvedGroups(groups) :: GroupReadable(g)
  {
    hide Resolve, Proper, Readable;
    AllResolve(filters);
    forall i | 0 <= i < |groups|
      ensures ResolveAll(groups[i]).Some? && GroupReadable(ResolveAll(groups[i]).value)
    {
      assert groups[i] in groups;
      AllResolve(groups[i]);
    }
  }

  /** A group is met through one of its filters. */
  lemma GroupIsWanted(g: seq<Filter>, row: SqlText.Row, rule: Rule, sense: Sense)
    requires ResolveAll(g).Some? && (forall f | f in g :: Proper(f)) && ReadsAs(rule, sense)
    ensures AnyMeets(ResolveAll(g).value, row, rule) <==> exists f | f in g :: Wanted(f, row, sense)
  {
    hide Resolve, Proper, Meets, Wanted, ReadsAs;
    var cs := ResolveAll(g).value;
    forall i | 0 <= i < |g| ensures Meets(cs[i], row, rule) <==> Wanted(g[i], row, sense) { FilterIsWanted(g[i], row, rule, sense); }
    if c :| c in cs && Meets(c, row, rule) {
      var i :| 0 <= i < |cs| && cs[i] == c;
      assert g[i] in g && Wanted(g[i], row, sense);
    }
    if f :| f in g && Wanted(f, row, sense) {
      var i :| 0 <= i < |g| && g[i] == f;
      assert cs[i] in cs && Meets(cs[i], row, rule);
    }
  }

  lemma SelectedIsWanted(filters: seq<Filter>, groups: seq<seq<Filter>>, row: SqlText.Row, rule: Rule, sense: Sense)
    requires AllProper(filters, groups) && ReadsAs(rule, sense) && ResolveAll(filters).Some? && GroupsResolve(groups)
    ensures Selected(ResolveAll(filters).value, ResolvedGroups(groups), row, rule) <==> AllWanted(filters, groups, row, sense)
  {
    hide Resolve, Proper, Meets, Wanted, ReadsAs, AnyMeets;
    var cs, gs := ResolveAll(filters).value, ResolvedGroups(groups);
    forall i | 0 <= i < |filters| ensures Meets(cs[i], row, rule) <==> Wanted(filters[i], row, sense) {
      FilterIsWanted(filters[i], row, rule, sense);
    }
    forall i | 0 <= i < |groups| ensures AnyMeets(gs[i], row, rule) <==> exists f | f in groups[i] :: Wanted(f, row, sense) {
      assert groups[i] in groups;
      GroupIsWanted(groups[i], row, rule, sense);
    }
    AllPairwise(cs, filters, c => Meets(c, row, rule), f => Wanted(f, row, sense));
    AllPairwise(gs, groups, c => AnyMeets(c, row, rule), g => exists f | f in g :: Wanted(f, row, sense));
  }

  /** Two lists that agree place by place agree on all their members. */
  lemma AllPairwise<A, B>(a: seq<A>, b: seq<B>, p: A -> bool, q: B -> bool)
    requires |a| == |b| && forall i | 0 <= i < |a| :: p(a[i]) == q(b[i])
    ensures (forall x | x in a :: p(x)) <==> (forall y | y in b :: q(y))
  {
    if forall x | x in a :: p(x) {
      forall y | y in b ensures q(y) {
        var i :| 0 <= i < |b| && b[i] == y;
        assert a[i] in a;
      }
    }
    if forall y | y in b :: q(y) {
      forall x | x in a ensures p(x) {
        var i :| 0 <= i < |a| && a[i] == x;
        assert b[i] in b;
      }
    }
  }

  /** By their words: the condition text of any proper filters and groups, among any other parameters, is true of
      exactly the rows they are for, under every rule that reads SQL's operators. */
  lemma FiltersSelectWanted(before: seq<Value>, after: seq<Value>, filters: seq<Filter>, groups: seq<seq<Filter>>)
    requires AllProper(filters, groups) && (filters != [] || groups != [])
    ensures ResolveAll(filters).Some? && GroupsResolve(groups)
    ensures var cs := ClausesOf(ResolveAll(filters).value, ResolvedGroups(groups));
            SelectsWanted(ConditionText(cs, |before|), before + ClausesBound(cs) + after, filters, groups)
  {
    ProperResolve(filters, groups);
    var cs, gs := ResolveAll(filters).value, ResolvedGroups(groups);
    hide ConditionText, ClausesOf, ClausesBound, Parse, Holds, Selected, Readable, GroupReadable, ReadsAs, AllWanted, ResolveAll, AllProper;
    forall row: SqlText.Row, rule: Rule, sense: Sense | ReadsAs(rule, sense)
      ensures Holds(Parse(ConditionText(ClausesOf(cs, gs), |before|)), row, before + ClausesBound(ClausesOf(cs, gs)) + after, rule)
              <==> AllWanted(filters, groups, row, sense)
    {
      WhereSelectsExactly(before, after, cs, gs, row, rule);
      SelectedIsWanted(filters, groups, row, rule, sense);
    }
  }

  /** A WHERE part: none without filters, and otherwise the word and a text that selects the rows they are for. */
  ghost predicate IsWhere(text: seq<Token>, values: seq<Value>, filters: seq<Filter>, groups: seq<seq<Filter>>) {
    if filters == [] && groups == [] then text == []
    else text != [] && text[0] == Word("WHERE") && SelectsWanted(text[1..], values, filters, groups)
  }

  lemma WhereTextSelects(before: seq<Value>, filters: seq<Filter>, groups: seq<seq<Filter>>)
    requires AllProper(filters, groups)
    ensures ResolveAll(filters).Some? && GroupsResolve(groups)
    ensures var cs := ClausesOf(ResolveAll(filters).value, ResolvedGroups(groups));
            IsWhere(WhereText(cs, |before|), before + ClausesBound(cs), filters, groups)
  {
    ProperResolve(filters, groups);
    var gs := ResolvedGroups(groups);
    NoClauses(ResolveAll(filters).value, gs);
    if filters != [] || groups != [] {
      hide SelectsWanted, ResolveAll, AllProper, ClausesOf, ClausesBound, ConditionText;
      var cs := ClausesOf(ResolveAll(filters).value, gs);
      FiltersSelectWanted(before, [], filters, groups);
      assert before + ClausesBound(cs) + [] == before + ClausesBound(cs);
      assert WhereText(cs, |before|)[1..] == ConditionText(cs, |before|);
    }
  }

  lemma NoClauses(filters: seq<Condition>, groups: seq<seq<Condition>>)
    ensures ClausesOf(filters, groups) == [] <==> filters == [] && groups == []
  {
  }

  /** One filter by itself. */
  lemma FilterSelectsWanted(before: seq<Value>, f: Filter)
    requires Proper(f)
    ensures Resolve(f).Some?
    ensures SelectsWanted(Piece(Resolve(f).value, |before|), before + Bound(Resolve(f).value), [f], [])
  {
    AllResolve([f]);
    var c := Resolve(f).value;
    assert ResolveAll([f]).value == [c] && ResolvedGroups([]) == [];
    hide Piece, Bound, SelectsWanted, Resolve, Proper;
    FiltersSelectWanted(before, [], [f], []);
    OneClause(c, |before|);
    assert before + Bound(c) + [] == before + Bound(c);
  }

  lemma OneClause(c: Condition, base: nat)
    ensures ConditionText(ClausesOf([c], []), base) == Piece(c, base) && ClausesBound(ClausesOf([c], [])) == Bound(c)
  {
    hide Piece, Bound;
    assert [c][1..] == [] && ClausesOf([], []) == [];
    assert ClausesOf([c], []) == [Single(c)] && [Single(c)][1..] == [];
    assert Bound(c) + [] == Bound(c);
  }

  // -------------------------------------------------------------------------- what the statements store

  /** The value that a submitted row gives to a column: null where it has none or an undefined one. */
  ghost predicate Gives(row: Row, column: string, v: Value) {
    if exists k | 0 <= k < |row| :: row[k].0 == column
    then exists k | 0 <= k < |row| ::
           && row[k].0 == column && (forall j | 0 <= j < k :: row[j].0 != column)
           && v == if row[k].1.Some? then row[k].1.value else Null
    else v == Null
  }

  lemma {:induction false} CellGiven(row: Row, column: string)
    ensures Gives(row, column, CellOf(row, column))
  {
    if row != [] {
      var rest := row[1..];
      CellGiven(rest, column);
      if row[0].0 == column {
      } else if k :| 0 <= k < |rest| && rest[k].0 == column && (forall j | 0 <= j < k :: rest[j].0 != column)
                     && CellOf(rest, column) == (if rest[k].1.Some? then rest[k].1.value else Null) {
        assert row[k + 1] == rest[k];
        forall j | 0 <= j < k + 1 ensures row[j].0 != column { if j > 0 { assert row[j] == rest[j - 1]; } }
      } else {
        forall k | 0 <= k < |row| ensures row[k].0 != column { if k > 0 { assert row[k] == rest[k - 1]; } }
      }
    }
  }

  lemma {:induction false} AllKeysExactly(rows: seq<Row>)
    ensures forall c :: c in AllKeys(rows) <==> exists row | row in rows :: c in KeysOf(row)
  {
    if rows != [] {
      AllKeysExactly(rows[1..]);
      assert rows == [rows[0]] + rows[1..];
    }
  }

  lemma {:induction false} WithoutExactly(columns: seq<string>, excluded: seq<string>)
    ensures forall c :: c in Without(columns, excluded) <==> c in columns && c !in excluded
  {
    if columns != [] {
      WithoutExactly(columns[1..], excluded);
      assert columns == [columns[0]] + columns[1..];
    }
  }

  lemma {:induction false} RowPiecesAt(count: nat, width: nat, i: nat)
    requires i < count
    ensures RowPieces(count, width)[i] == [LParen] + CommaJoin(Numbers(i * width, width)) + [RParen]
  {
    hide CommaJoin;
    if i < count - 1 { RowPiecesAt(count - 1, width, i); }
  }

  /** Every stored column comes from the submitted row, through a placeholder that is bound. */
  ghost predicate TakesFrom(columns: seq<string>, tuple: seq<nat>, row: Row, values: seq<Value>) {
    && |tuple| == |columns|
    && forall c | 0 <= c < |columns| :: 1 <= tuple[c] <= |values| && Gives(row, columns[c], ValueAt(values, tuple[c]))
  }

  /** Without conflict columns a conflict fails, or is passed over by an upsert; with them the stored row keeps
      those and every column that was not submitted, and takes all others from the submitted row. */
  ghost predicate ResolvesAs(r: Resolution, columns: seq<string>, conflict: Option<seq<string>>) {
    match conflict
    case None => r == Fails
    case Some(on) =>
      if on == [] then r == SkipsAny
      else
        && (r.Skips? || r.Updates?) && r.on == on
        && forall stored: string -> Value, given: string -> Value, column: string ::
             Merged(r, stored, given, column) == if column in columns && column !in on then given(column) else stored(column)
  }

  /** The text and its values insert exactly the submitted rows, under every key that one of them has. */
  ghost predicate Stores(text: seq<Token>, values: seq<Value>, table: string, rows: seq<Row>, conflict: Option<seq<string>>) {
    match ReadInsert(text)
    case None => false
    case Some(i) =>
      && i.table == table && |i.rows| == |rows| && NoRepeats(i.columns)
      && (forall c :: c in i.columns <==> exists row | row in rows :: c in KeysOf(row))
      && (forall r | 0 <= r < |rows| :: TakesFrom(i.columns, i.rows[r], rows[r], values))
      && ResolvesAs(i.conflict, i.columns, conflict)
  }

  lemma {:induction false} CopiesMerge(names: seq<string>, stored: string -> Value, given: string -> Value, column: string)
    ensures Copied(Copies(names), stored, given, column) == if column in names then given(column) else stored(column)
  {
    if names != [] {
      CopiesMerge(names[1..], stored, given, column);
      assert Copies(names)[1..] == Copies(names[1..]);
      assert names == [names[0]] + names[1..];
    }
  }

  lemma ActionReads(on: seq<string>, updates: seq<string>)
    ensures ReadAction(on, ActionText(updates)) == Some(if updates == [] then Skips(on) else Updates(on, Copies(updates)))
  {
    if updates != [] {
      CopiesRead(CopyPieces(updates), updates);
      hide Joined, ReadCopies;
      assert ActionText(updates)[1..] == Joined(CopyPieces(updates), Comma);
    }
  }

  lemma ConflictReads(on: seq<string>, names: seq<Token>, action: seq<Token>)
    requires ReadNames(names + ([RParen] + action)) == Some((on, [RParen] + action))
    ensures ReadConflict([Word("ON CONFLICT"), LParen] + names + [RParen] + action) == ReadAction(on, action)
  {
    hide ReadNames, ReadAction;
    var ts := [Word("ON CONFLICT"), LParen] + names + [RParen] + action;
    assert ts == [Word("ON CONFLICT"), LParen] + (names + ([RParen] + action));
    assert ts[2..] == names + ([RParen] + action) && ([RParen] + action)[1..] == action;
  }

  lemma CopiesResolve(columns: seq<string>, on: seq<string>, updates: seq<string>)
    requires on != [] && forall c :: c in updates <==> c in columns && c !in on
    ensures ResolvesAs(if updates == [] then Skips(on) else Updates(on, Copies(updates)), columns, Some(on))
  {
    hide Copied;
    var r := if updates == [] then Skips(on) else Updates(on, Copies(updates));
    forall stored: string -> Value, given: string -> Value, column: string
      ensures Merged(r, stored, given, column) == if column in columns && column !in on then given(column) else stored(column)
    {
      if updates != [] { CopiesMerge(updates, stored, given, column); }
    }
  }

  lemma ConflictResolves(columns: seq<string>, on: seq<string>)
    ensures var text := ConflictText(columns, on);
            && text != [] && text[0] != Comma
            && ReadConflict(text).Some? && ResolvesAs(ReadConflict(text).value, columns, Some(on))
  {
    if on != [] {
      var updates := Without(columns, on);
      WithoutExactly(columns, on);
      CopiesResolve(columns, on, updates);
      ActionReads(on, updates);
      var action := ActionText(updates);
      NamesRead(ColumnPieces(on), on, [RParen] + action);
      hide Joined, ReadNames, ReadAction, ReadConflict, ActionText, ResolvesAs;
      ConflictReads(on, Joined(ColumnPieces(on), Comma), action);
    }
  }

  lemma InsertReads(table: string, columns: seq<string>, count: nat, conflict: seq<Token>)
    requires columns != [] && count > 0
    requires (conflict != [] ==> conflict[0] != Comma) && ReadConflict(conflict).Some?
    ensures ReadInsert(InsertText(table, columns, count, conflict))
         == Some(Insertion(table, columns, seq(count, i requires 0 <= i < count => Numbers(i * |columns|, |columns|)),
                           ReadConflict(conflict).value))
  {
    hide Joined, CommaJoin, ReadNames, ReadTuples, ReadConflict;
    var tuples := seq(count, i requires 0 <= i < count => Numbers(i * |columns|, |columns|));
    forall i | 0 <= i < count
      ensures tuples[i] != [] && RowPieces(count, |columns|)[i] == [LParen] + CommaJoin(tuples[i]) + [RParen]
    {
      RowPiecesAt(count, |columns|, i);
    }
    TuplesRead(RowPieces(count, |columns|), tuples, conflict);
    var names, rows := Joined(ColumnPieces(columns), Comma), Joined(RowPieces(count, |columns|), Comma);
    var rest := [RParen, Word("VALUES")] + (rows + conflict);
    NamesRead(ColumnPieces(columns), columns, rest);
    var ts := InsertText(table, columns, count, conflict);
    assert ts == [Word("INSERT INTO"), Column(table), LParen] + (names + rest);
    assert ts[3..] == names + rest && rest[2..] == rows + conflict;
  }

  /** Rows without any key make a text that cannot be read. */
  lemma EmptyInsertUnreadable(table: string, count: nat, conflict: seq<Token>)
    ensures ReadInsert(InsertText(table, [], count, conflict)) == None
  {
    hide CommaJoin;
    JoinedNone(Comma);
    var ts := InsertText(table, [], count, conflict);
    assert ColumnPieces([]) == [];
    assert ts[3] == RParen;
    assert ts[3..][0] == RParen;
  }

  function ConflictPart(columns: seq<string>, conflict: Option<seq<string>>): seq<Token> {
    if conflict.Some? then ConflictText(columns, conflict.value) else []
  }

  lemma SomeKey(rows: seq<Row>)
    ensures (exists row | row in rows :: row != []) <==> ColumnsOf(rows) != []
  {
    AllKeysExactly(rows);
    DistinctExactly(AllKeys(rows));
    var columns := ColumnsOf(rows);
    if columns != [] {
      assert columns[0] in AllKeys(rows);
      var row :| row in rows && columns[0] in KeysOf(row);
      assert row != [];
    }
    if row: Row :| row in rows && row != [] {
      assert row[0].0 == KeysOf(row)[0];
      assert row[0].0 in columns;
    }
  }

  lemma CellTaken(rows: seq<Row>, columns: seq<string>, r: nat, c: nat, n: nat)
    requires r < |rows| && c < |columns| && n == r * |columns| + c + 1
    ensures var values := AllCells(rows, columns);
            1 <= n <= |values| && Gives(rows[r], columns[c], ValueAt(values, n))
  {
    hide Gives, AllCells, CellOf;
    AllCellsAt(rows, columns, r, c);
    CellGiven(rows[r], columns[c]);
  }

  lemma NumbersAt(base: nat, width: nat, c: nat)
    requires c < width
    ensures Numbers(base, width)[c] == base + c + 1
  {
  }

  lemma CellsTaken(rows: seq<Row>, columns: seq<string>, r: nat, base: nat)
    requires r < |rows| && base == r * |columns|
    ensures TakesFrom(columns, Numbers(base, |columns|), rows[r], AllCells(rows, columns))
  {
    hide Gives, AllCells, ValueAt, Numbers;
    var tuple, values := Numbers(base, |columns|), AllCells(rows, columns);
    forall c | 0 <= c < |columns| ensures 1 <= tuple[c] <= |values| && Gives(rows[r], columns[c], ValueAt(values, tuple[c])) {
      NumbersAt(base, |columns|, c);
      CellTaken(rows, columns, r, c, tuple[c]);
    }
  }

  lemma RowsTaken(rows: seq<Row>, columns: seq<string>, tuples: seq<seq<nat>>)
    requires |tuples| == |rows| && forall i | 0 <= i < |rows| :: tuples[i] == Numbers(i * |columns|, |columns|)
    ensures forall r | 0 <= r < |rows| :: TakesFrom(columns, tuples[r], rows[r], AllCells(rows, columns))
  {
    hide TakesFrom, AllCells;
    forall r | 0 <= r < |rows| ensures TakesFrom(columns, tuples[r], rows[r], AllCells(rows, columns)) {
      CellsTaken(rows, columns, r, r * |columns|);
    }
  }

  lemma ConflictPartResolves(columns: seq<string>, conflict: Option<seq<string>>)
    ensures var part := ConflictPart(columns, conflict);
            && (part != [] ==> part[0] != Comma)
            && ReadConflict(part).Some? && ResolvesAs(ReadConflict(part).value, columns, conflict)
  {
    hide ConflictText;
    if conflict.Some? {
      ConflictResolves(columns, conflict.value);
      hide ReadConflict, ResolvesAs;
      assert Some(conflict.value) == conflict;
    }
  }

  lemma ReadInsertStores(text: seq<Token>, values: seq<Value>, table: string, rows: seq<Row>, conflict: Option<seq<string>>,
                         i: Insertion)
    requires ReadInsert(text) == Some(i) && i.table == table && i.columns == ColumnsOf(rows) && |i.rows| == |rows|
    requires forall r | 0 <= r < |rows| :: TakesFrom(i.columns, i.rows[r], rows[r], values)
    requires ResolvesAs(i.conflict, i.columns, conflict)
    ensures Stores(text, values, table, rows, conflict)
  {
    hide ReadInsert, ResolvesAs, TakesFrom, AllKeys, Distinct, KeysOf;
    AllKeysExactly(rows);
    DistinctExactly(AllKeys(rows));
  }

  /** An insert or upsert of any rows stores exactly what was submitted; its text is readable exactly when some
      row has a key. */
  lemma InsertStoresExactly(table: string, rows: seq<Row>, conflict: Option<seq<string>>)
    requires rows != []
    ensures Stores(InsertText(table, ColumnsOf(rows), |rows|, ConflictPart(ColumnsOf(rows), conflict)),
                   AllCells(rows, ColumnsOf(rows)), table, rows, conflict)
       <==> exists row | row in rows :: row != []
  {
    hide InsertText, ReadInsert, ConflictPart, ResolvesAs, ReadConflict, TakesFrom, AllCells, ColumnsOf, Numbers;
    var columns := ColumnsOf(rows);
    SomeKey(rows);
    var part := ConflictPart(columns, conflict);
    ConflictPartResolves(columns, conflict);
    if columns == [] {
      EmptyInsertUnreadable(table, |rows|, part);
    } else {
      hide Stores;
      var tuples := seq(|rows|, i requires 0 <= i < |rows| => Numbers(i * |columns|, |columns|));
      InsertReads(table, columns, |rows|, part);
      RowsTaken(rows, columns, tuples);
      ReadInsertStores(InsertText(table, columns, |rows|, part), AllCells(rows, columns), table, rows, conflict,
                       Insertion(table, columns, tuples, ReadConflict(part).value));
    }
  }

  /** The text of an UPDATE of one row assigns to every key of the row its value. */
  ghost predicate Assigns(text: seq<Token>, values: seq<Value>, table: string, row: Row) {
    match ReadUpdate(text)
    case None => false
    case Some(change) =>
      && change.table == table && |change.sets| == |row|
      && forall i | 0 <= i < |row| ::
           && change.sets[i].0 == row[i].0 && 1 <= change.sets[i].1 <= |values|
           && ValueAt(values, change.sets[i].1) == if row[i].1.Some? then row[i].1.value else Null
  }

  lemma UpdateReads(table: string, sets: seq<(string, nat)>, head: seq<Token>, whereText: seq<Token>)
    requires ReadSets(head + whereText) == Some((sets, whereText))
    ensures ReadUpdate([Word("UPDATE"), Column(table), Word("SET")] + head + whereText) == Some(Change(table, sets, whereText))
  {
    hide ReadSets;
    var text := [Word("UPDATE"), Column(table), Word("SET")] + head + whereText;
    assert text == [Word("UPDATE"), Column(table), Word("SET")] + (head + whereText);
    assert text[3..] == head + whereText;
  }

  lemma BoundAt(row: Row, bound: seq<Value>, i: nat)
    requires i < |row|
    ensures var values := RowValues(row) + bound;
            i + 1 <= |values| && ValueAt(values, i + 1) == if row[i].1.Some? then row[i].1.value else Null
  {
    assert (RowValues(row) + bound)[i] == RowValues(row)[i];
  }

  lemma UpdateAssigns(table: string, row: Row, whereText: seq<Token>, bound: seq<Value>)
    requires row != [] && (whereText != [] ==> whereText[0] != Comma)
    ensures var text := [Word("UPDATE"), Column(table), Word("SET")] + Joined(SetPieces(row, |row|), Comma) + whereText;
            Assigns(text, RowValues(row) + bound, table, row) && ReadUpdate(text).value.rest == whereText
  {
    hide Joined, ReadSets, SetPieces, ReadUpdate, RowValues, ValueAt, Assigns;
    var sets: seq<(string, nat)> := seq(|row|, i requires 0 <= i < |row| => (row[i].0, i + 1));
    SetPiecesAt(row, |row|);
    SetsRead(SetPieces(row, |row|), sets, whereText);
    UpdateReads(table, sets, Joined(SetPieces(row, |row|), Comma), whereText);
    SetsAssign([Word("UPDATE"), Column(table), Word("SET")] + Joined(SetPieces(row, |row|), Comma) + whereText,
               table, row, sets, whereText, bound);
  }

  lemma WhereFollows(clauses: seq<Clause>, base: nat)
    ensures WhereText(clauses, base) != [] ==> WhereText(clauses, base)[0] != Comma
  {
  }

  lemma SetsAssign(text: seq<Token>, table: string, row: Row, sets: seq<(string, nat)>, whereText: seq<Token>, bound: seq<Value>)
    requires ReadUpdate(text) == Some(Change(table, sets, whereText))
    requires |sets| == |row| && forall i | 0 <= i < |row| :: sets[i] == (row[i].0, i + 1)
    ensures Assigns(text, RowValues(row) + bound, table, row)
  {
    hide ReadUpdate, RowValues, ValueAt;
    forall i | 0 <= i < |row|
      ensures sets[i].1 <= |RowValues(row) + bound|
              && ValueAt(RowValues(row) + bound, sets[i].1) == if row[i].1.Some? then row[i].1.value else Null
    {
      BoundAt(row, bound, i);
    }
  }

  /** The parameter array of one statement. */
  class Parameters {
    var values: seq<Value>

    constructor ()
      ensures values == []
    {
      values := [];
    }

    /** Appends a value and returns the number of its placeholder. */
    method Push(v: Value) returns (placeholder: nat)
      modifies this
      ensures values == old(values) + [v] && placeholder == |old(values)| + 1
    {
      values := values + [v];
      placeholder := |values|;
    }
  }

  class Builder {
    const table: string
    var filters: seq<Filter>
    var orGroups: seq<seq<Filter>>

    constructor (table: string)
      requires IsIdentifier(table)
      ensures this.table == table && filters == [] && orGroups == []
    {
      this.table := table;
      filters := [];
      orGroups := [];
    }

    method AddFilter(column: string, operator: string, value: Value) returns (r: Result<(), Failure>)
      modifies this
      ensures r == if IsIdentifier(column) then Ok(()) else Err(UnsafeIdentifier)
      ensures filters == if r.Ok? then old(filters) + [Filter(column, operator, value)] else old(filters)
      ensures orGroups == old(orGroups)
    {
      if !IsIdentifier(column) { return Err(UnsafeIdentifier); }
      filters := filters + [Filter(column, operator, value)];
      return Ok(());
    }

    /** or(expression): one more group, or an error and no change. */
    method AddOrGroup(expression: string) returns (r: Result<(), Failure>)
      modifies this
      ensures filters == old(filters)
      ensures match OrExpression.OrGroup(expression)
              case Some(group) => r == Ok(()) && orGroups == old(orGroups) + [group]
              case None => r == Err(UnsupportedOrFilter) && orGroups == old(orGroups)
    {
      var parts := OrExpression.SplitTopLevel(expression);
      var group := [];
      for i := 0 to |parts|
        invariant |group| == i
        invariant forall j | 0 <= j < i :: OrExpression.ParseOrFilter(parts[j]) == Some(group[j])
      {
        match OrExpression.ParseOrFilter(parts[i]) {
          case None => return Err(UnsupportedOrFilter);
          case Some(f) => group := group + [f];
        }
      }
      assert OrExpression.ParseParts(parts).value == group;
      orGroups := orGroups + [group];
      return Ok(());
    }

    /** One filter's text; its parameters are appended. */
    method FilterSql(f: Filter, params: Parameters) returns (r: Result<seq<Token>, Failure>)
      modifies params
      ensures match Resolve(f)
              case Some(c) => r == Ok(Piece(c, |old(params.values)|)) && params.values == old(params.values) + Bound(c)
              case None => r.Err?
      ensures Proper(f) ==> r.Ok? && SelectsWanted(r.value, params.values, [f], [])
    {
      hide Lex, CommaJoin, Proper, SelectsWanted;
      if Proper(f) { FilterSelectsWanted(params.values, f); }
      if !IsIdentifier(f.column) { return Err(UnsafeIdentifier); }
      var negated := IsNegated(f.operator);
      var operator := BaseOperator(f.operator);
      if operator == "is" {
        var sql := [Column(f.column), Is] + Lex(IsText(f.value));
        return Ok(if negated then [Not, LParen] + sql + [RParen] else sql);
      }
      if operator == "in" {
        var items := Items(f.value);
        if |items| == 0 { return Ok([if negated then TrueWord else FalseWord]); }
        var placeholders: seq<nat> := [];
        for i := 0 to |items|
          invariant params.values == old(params.values) + items[..i]
          invariant placeholders == Numbers(|old(params.values)|, i)
        {
          var n := params.Push(items[i]);
          placeholders := placeholders + [n];
        }
        return Ok([Column(f.column)] + ((if negated then [Not, In, LParen] else [In, LParen]) + CommaJoin(placeholders) + [RParen]));
      }
      var n := params.Push(f.value);
      match TestOf(operator) {
        case Some(CompareTest(op)) =>
          var sql := [Column(f.column), Compare(op), Param(n)] + (if op == Contains then [JsonCast] else []);
          return Ok(if negated then [Not, LParen] + sql + [RParen] else sql);
        case Some(InheritedTest(name)) =>
          var sql := [Column(f.column)] + (Lex(Upper(InheritedText(name))) + [Param(n)]);
          return Ok(if negated then [Not, LParen] + sql + [RParen] else sql);
        case _ => return Err(UnsupportedFilter);
      }
    }

    /** The pieces of a list of filters, in order, or the first failure. */
    method FilterPieces(fs: seq<Filter>, params: Parameters) returns (r: Result<seq<seq<Token>>, Failure>)
      modifies params
      ensures match ResolveAll(fs)
              case Some(cs) => r == Ok(Pieces(cs, |old(params.values)|)) && params.values == old(params.values) + BoundAll(cs)
              case None => r.Err?
    {
      hide Resolve, Piece, ResolveAll, Proper, SelectsWanted, Bound;
      var pieces := [];
      ghost var cs := [];
      ghost var base := |params.values|;
      for i := 0 to |fs|
        invariant |cs| == i && forall j | 0 <= j < i :: Resolve(fs[j]) == Some(cs[j])
        invariant pieces == Pieces(cs, base)
        invariant params.values == old(params.values) + BoundAll(cs)
      {
        var piece := FilterSql(fs[i], params);
        match piece {
          case Err(failure) => return Err(failure);
          case Ok(ts) =>
            PiecesSnoc(cs, Resolve(fs[i]).value, base);
            BoundSnoc(cs, Resolve(fs[i]).value);
            pieces := pieces + [ts];
            cs := cs + [Resolve(fs[i]).value];
        }
      }
      assert ResolveAll(fs).Some? && ResolveAll(fs).value == cs;
      return Ok(pieces);
    }

    ghost predicate Resolves()
      reads this
    {
      ResolveAll(filters).Some? && GroupsResolve(orGroups)
    }

    ghost function Conditions(): seq<Clause>
      reads this
      requires Resolves()
    {
      ClausesOf(ResolveAll(filters).value,
                ResolvedGroups(orGroups))
    }

    /** The whole WHERE text, or an error when a filter cannot be compiled. */
    method BuildFilterSql(params: Parameters) returns (r: Result<seq<Token>, Failure>)
      modifies params
      ensures r.Ok? <==> Resolves()
      ensures r.Ok? ==> r.value == WhereText(Conditions(), |old(params.values)|)
                        && params.values == old(params.values) + ClausesBound(Conditions())
      ensures AllProper(filters, orGroups) ==> r.Ok? && IsWhere(r.value, params.values, filters, orGroups)
    {
      hide Resolve, Piece, Pieces, ClausePieces, ClausesBound, BoundAll, Joined, ResolveAll, AllProper, IsWhere;
      if AllProper(filters, orGroups) { WhereTextSelects(params.values, filters, orGroups); }
      ghost var base := |params.values|;
      var clauses := [];
      var first := FilterPieces(filters, params);
      match first {
        case Err(failure) => return Err(failure);
        case Ok(pieces) => clauses := pieces;
      }
      ghost var cs := ResolveAll(filters).value;
      ghost var done := ClausesOf(cs, []);
      SinglesOf(cs, base);
      for g := 0 to |orGroups|
        invariant GroupsResolve(orGroups[..g])
        invariant done == ClausesOf(cs, ResolvedGroups(orGroups[..g]))
        invariant clauses == ClausePieces(done, base)
        invariant params.values == old(params.values) + ClausesBound(done)
      {
        var pieces := FilterPieces(orGroups[g], params);
        match pieces {
          case Err(failure) => return Err(failure);
          case Ok(ps) =>
            ghost var group := Group(ResolveAll(orGroups[g]).value);
            ClausePiecesSnoc(done, group, base);
            ClausesBoundSnoc(done, group);
            clauses := clauses + [[LParen] + Joined(ps, Or) + [RParen]];
            done := done + [group];
            assert orGroups[..g + 1] == orGroups[..g] + [orGroups[g]];
        }
      }
      assert orGroups[..|orGroups|] == orGroups;
      assert done == Conditions();
      return Ok(if |clauses| > 0 then [Word("WHERE")] + Joined(clauses, And) else []);
    }

    /** One row's placeholders; its values are appended. */
    method RowPlaceholders(row: Row, columns: seq<string>, params: Parameters) returns (placeholders: seq<nat>)
      modifies params
      ensures placeholders == Numbers(|old(params.values)|, |columns|)
      ensures params.values == old(params.values) + Cells(row, columns)
    {
      placeholders := [];
      for j := 0 to |columns|
        invariant placeholders == Numbers(|old(params.values)|, j)
        invariant params.values == old(params.values) + Cells(row, columns)[..j]
      {
        var n := params.Push(CellOf(row, columns[j]));
        placeholders := placeholders + [n];
      }
    }

    /** INSERT or upsert of the rows. */
    method CompileInsert(rows: seq<Row>, conflict: Option<seq<string>>) returns (r: Compiled)
      ensures rows == [] ==> r == NothingToRun
      ensures rows != [] ==>
                var columns := ColumnsOf(rows);
                if SafeColumns(columns) && (conflict.Some? ==> SafeColumns(conflict.value))
                then r == Statement(InsertText(table, columns, |rows|, ConflictPart(columns, conflict)), AllCells(rows, columns))
                else r == Throws(UnsafeIdentifier)
      ensures r.Statement? ==> (Stores(r.text, r.values, table, rows, conflict) <==> exists row | row in rows :: row != [])
    {
      hide Stores, Joined, CommaJoin, ConflictPart, IsIdentifier, AllKeys, Distinct, Cells, Numbers;
      if |rows| == 0 { return NothingToRun; }
      InsertStoresExactly(table, rows, conflict);
      var params := new Parameters();
      var columns := ColumnsOf(rows);
      if !(forall c | c in columns :: IsIdentifier(c)) { return Throws(UnsafeIdentifier); }
      var rowSql := [];
      for i := 0 to |rows|
        invariant fresh(params)
        invariant rowSql == RowPieces(i, |columns|)
        invariant params.values == AllCells(rows[..i], columns)
      {
        assert rows[..i + 1][..i] == rows[..i];
        AllCellsSize(rows[..i], columns);
        var placeholders := RowPlaceholders(rows[i], columns, params);
        rowSql := rowSql + [[LParen] + CommaJoin(placeholders) + [RParen]];
      }
      assert rows[..|rows|] == rows;
      if conflict.Some? && !(forall c | c in conflict.value :: IsIdentifier(c)) { return Throws(UnsafeIdentifier); }
      return Statement([Word("INSERT INTO"), Column(table), LParen] + Joined(ColumnPieces(columns), Comma)
                       + [RParen, Word("VALUES")] + Joined(rowSql, Comma)
                       + ConflictPart(columns, conflict), params.values);
    }

    /** UPDATE of the rows the filters select. */
    method CompileUpdate(row: Row) returns (r: Compiled)
      ensures SafeColumns(KeysOf(row)) && row == [] ==> r == NothingToRun
      ensures SafeColumns(KeysOf(row)) && row != [] && Resolves() ==>
                r == Statement(UpdateText(table, row, Conditions()), RowValues(row) + ClausesBound(Conditions()))
      ensures row != [] && !(SafeColumns(KeysOf(row)) && Resolves()) ==> r.Throws?
      ensures SafeColumns(KeysOf(row)) && row != [] && AllProper(filters, orGroups) ==>
                && r.Statement? && Assigns(r.text, r.values, table, row)
                && IsWhere(ReadUpdate(r.text).value.rest, r.values, filters, orGroups)
    {
      hide Resolve, ResolveAll, Joined, ConditionText, ClausesBound, ClausesOf, AllProper, IsWhere, WhereText, Assigns, ReadUpdate;
      var params := new Parameters();
      var assignments := [];
      for i := 0 to |row|
        invariant fresh(params)
        invariant forall j | 0 <= j < i :: IsIdentifier(row[j].0)
        invariant assignments == SetPieces(row, i)
        invariant params.values == RowValues(row)[..i]
      {
        var n := params.Push(ValueOf(row[i].1));
        if !IsIdentifier(row[i].0) {
          assert row[i].0 == KeysOf(row)[i];
          return Throws(UnsafeIdentifier);
        }
        assignments := assignments + [[Column(row[i].0), Compare(Equal), Param(n)]];
      }
      if |assignments| == 0 { return NothingToRun; }
      var whereSql := BuildFilterSql(params);
      match whereSql {
        case Err(failure) => return Throws(failure);
        case Ok(ts) =>
          WhereFollows(Conditions(), |row|);
          UpdateAssigns(table, row, ts, ClausesBound(Conditions()));
          return Statement([Word("UPDATE"), Column(table), Word("SET")] + Joined(assignments, Comma) + ts, params.values);
      }
    }

    /** SELECT or DELETE: the given opening text and the filters. */
    method CompileFiltered(opening: seq<Token>) returns (r: Compiled)
      ensures Resolves() ==> r == Statement(opening + WhereText(Conditions(), 0), ClausesBound(Conditions()))
      ensures !Resolves() ==> r.Throws?
      ensures AllProper(filters, orGroups) ==>
                r.Statement? && opening <= r.text && IsWhere(r.text[|opening|..], r.values, filters, orGroups)
    {
      hide ResolveAll, ConditionText, ClausesBound, ClausesOf, AllProper, IsWhere, WhereText;
      var params := new Parameters();
      var whereSql := BuildFilterSql(params);
      match whereSql {
        case Err(failure) => return Throws(failure);
        case Ok(ts) =>
          assert (opening + ts)[|opening|..] == ts;
          return Statement(opening + ts, params.values);
      }
    }
  }

  lemma {:induction false} SinglesOf(cs: seq<Condition>, base: nat)
    ensures ClausePieces(ClausesOf(cs, []), base) == Pieces(cs, base)
    ensures ClausesBound(ClausesOf(cs, [])) == BoundAll(cs)
  {
    hide Piece, Bound;
    if cs != [] {
      SinglesOf(cs[1..], base + |Bound(cs[0])|);
      assert ClausesOf(cs, [])[1..] == ClausesOf(cs[1..], []);
    }
  }
}
