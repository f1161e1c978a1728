/** How SQL reads the statements that write rows: INSERT with its ON CONFLICT part, and the head of UPDATE. */
module StatementText {
  import opened Outcomes
  import opened SqlGrammar
  import opened SqlText

  /** What happens to a row that is there already: an error, nothing, or assignments of the form column = EXCLUDED.column. */
  datatype Resolution =
    | Fails
    | SkipsAny
    | Skips(on: seq<string>)
    | Updates(on: seq<string>, copies: seq<(string, string)>)

  datatype Insertion = Insertion(table: string, columns: seq<string>, rows: seq<seq<nat>>, conflict: Resolution)

  /** An UPDATE up to its last assignment, each of a placeholder, and what follows it. */
  datatype Change = Change(table: string, sets: seq<(string, nat)>, rest: seq<Token>)

  // --------------------------------------------------------------------------------------- grammar

  function ReadNames(ts: seq<Token>): (r: Option<(seq<string>, seq<Token>)>)
    ensures r.Some? ==> |r.value.1| < |ts|
  {
    if ts == [] || !ts[0].Column? then None
    else if |ts| > 1 && ts[1] == Comma then
      match ReadNames(ts[2..])
      case None => None
      case Some((names, rest)) => Some(([ts[0].name] + names, rest))
    else Some(([ts[0].name], ts[1..]))
  }

  function ReadTuples(ts: seq<Token>): Option<(seq<seq<nat>>, seq<Token>)>
    decreases |ts|
  {
    if ts == [] || ts[0] != LParen then None
    else
      match ParseParams(ts[1..])
      case None => None
      case Some((first, rest)) =>
        if rest == [] || rest[0] != Comma then Some(([first], rest))
        else
          match ReadTuples(rest[1..])
          case None => None
          case Some((tuples, last)) => Some(([first] + tuples, last))
  }

  function ReadCopies(ts: seq<Token>): Option<seq<(string, string)>> {
    if |ts| < 4 || !ts[0].Column? || ts[1] != Compare(Equal) || ts[2] != Word("EXCLUDED.") || !ts[3].Column? then None
    else if |ts| == 4 then Some([(ts[0].name, ts[3].name)])
    else if ts[4] != Comma then None
    else
      match ReadCopies(ts[5..])
      case None => None
      case Some(copies) => Some([(ts[0].name, ts[3].name)] + copies)
  }

  function ReadSets(ts: seq<Token>): Option<(seq<(string, nat)>, seq<Token>)> {
    if |ts| < 3 || !ts[0].Column? || ts[1] != Compare(Equal) || !ts[2].Param? then None
    else if |ts| == 3 || ts[3] != Comma then Some(([(ts[0].name, ts[2].index)], ts[3..]))
    else
      match ReadSets(ts[4..])
      case None => None
      case Some((sets, rest)) => Some(([(ts[0].name, ts[2].index)] + sets, rest))
  }

  function ReadAction(on: seq<string>, ts: seq<Token>): Option<Resolution> {
    if ts == [Word("DO NOTHING")] then Some(Skips(on))
    else if ts == [] || ts[0] != Word("DO UPDATE SET") then None
    else
      match ReadCopies(ts[1..])
      case None => None
      case Some(copies) => Some(Updates(on, copies))
  }

  function ReadConflict(ts: seq<Token>): Option<Resolution> {
    if ts == [] then Some(Fails)
    else if ts == [Word("ON CONFLICT DO NOTHING")] then Some(SkipsAny)
    else if |ts| < 2 || ts[0] != Word("ON CONFLICT") || ts[1] != LParen then None
    else
      match ReadNames(ts[2..])
      case None => None
      case Some((on, rest)) => if rest == [] || rest[0] != RParen then None else ReadAction(on, rest[1..])
  }

  function ReadInsert(ts: seq<Token>): Option<Insertion> {
    if |ts| < 3 || ts[0] != Word("INSERT INTO") || !ts[1].Column? || ts[2] != LParen then None
    else
      match ReadNames(ts[3..])
      case None => None
      case Some((columns, rest)) =>
        if |rest| < 2 || rest[0] != RParen || rest[1] != Word("VALUES") then None
        else
          match ReadTuples(rest[2..])
          case None => None
          case Some((rows, last)) =>
            match ReadConflict(last)
            case None => None
            case Some(conflict) => Some(Insertion(ts[1].name, columns, rows, conflict))
  }

  function ReadUpdate(ts: seq<Token>): Option<Change> {
    if |ts| < 3 || ts[0] != Word("UPDATE") || !ts[1].Column? || ts[2] != Word("SET") then None
    else
      match ReadSets(ts[3..])
      case None => None
      case Some((sets, rest)) => Some(Change(ts[1].name, sets, rest))
  }

  // --------------------------------------------------------------------------------------- meaning

  function Copied(copies: seq<(string, string)>, stored: string -> Value, given: string -> Value, column: string): Value {
    if copies == [] then stored(column)
    else if copies[0].0 == column then given(copies[0].1)
    else Copied(copies[1..], stored, given, column)
  }

  /** A column of the stored row after a conflict with a given one. */
  function Merged(conflict: Resolution, stored: string -> Value, given: string -> Value, column: string): Value {
    match conflict
    case Updates(_, copies) => Copied(copies, stored, given, column)
    case _ => stored(column)
  }

  // ----------------------------------------------------------------------------------- joined lists

  lemma JoinedCons(pieces: seq<seq<Token>>, rest: seq<Token>)
    requires pieces != []
    ensures Joined(pieces, Comma) + rest
         == pieces[0] + (if |pieces| == 1 then rest else [Comma] + (Joined(pieces[1..], Comma) + rest))
  {
  }

  lemma {:induction false} NamesRead(pieces: seq<seq<Token>>, names: seq<string>, rest: seq<Token>)
    requires |pieces| == |names| > 0 && (rest != [] ==> rest[0] != Comma)
    requires forall i | 0 <= i < |names| :: pieces[i] == [Column(names[i])]
    ensures ReadNames(Joined(pieces, Comma) + rest) == Some((names, rest))
  {
    JoinedCons(pieces, rest);
    if |names| > 1 {
      NamesRead(pieces[1..], names[1..], rest);
      var later := Joined(pieces[1..], Comma) + rest;
      hide Joined;
      var ts := [Column(names[0]), Comma] + later;
      assert Joined(pieces, Comma) + rest == ts && ts[2..] == later;
      assert [names[0]] + names[1..] == names;
    } else {
      assert names == [names[0]];
    }
  }

  lemma {:induction false} TuplesRead(pieces: seq<seq<Token>>, tuples: seq<seq<nat>>, rest: seq<Token>)
    requires |pieces| == |tuples| > 0 && (rest != [] ==> rest[0] != Comma)
    requires forall i | 0 <= i < |tuples| :: tuples[i] != [] && pieces[i] == [LParen] + CommaJoin(tuples[i]) + [RParen]
    ensures ReadTuples(Joined(pieces, Comma) + rest) == Some((tuples, rest))
  {
    hide CommaJoin, ParseParams;
    JoinedCons(pieces, rest);
    var after := if |pieces| == 1 then rest else [Comma] + (Joined(pieces[1..], Comma) + rest);
    var ts := Joined(pieces, Comma) + rest;
    if |tuples| > 1 { TuplesRead(pieces[1..], tuples[1..], rest); }
    hide Joined;
    var first := CommaJoin(tuples[0]);
    assert ts == [LParen] + first + [RParen] + after;
    assert ts[1..] == first + ([RParen] + after);
    ParsesParams(tuples[0], after);
    if |tuples| > 1 {
      assert after[1..] == Joined(pieces[1..], Comma) + rest;
      assert [tuples[0]] + tuples[1..] == tuples;
    } else {
      assert tuples == [tuples[0]];
    }
  }

  function Copies(names: seq<string>): seq<(string, string)> {
    seq(|names|, i requires 0 <= i < |names| => (names[i], names[i]))
  }

  lemma CopiesTail(names: seq<string>)
    requires names != []
    ensures Copies(names) == [(names[0], names[0])] + Copies(names[1..])
  {
  }

  lemma {:induction false} CopiesRead(pieces: seq<seq<Token>>, names: seq<string>)
    requires |pieces| == |names| > 0
    requires forall i | 0 <= i < |names| ::
      pieces[i] == [Column(names[i]), Compare(Equal), Word("EXCLUDED."), Column(names[i])]
    ensures ReadCopies(Joined(pieces, Comma)) == Some(Copies(names))
  {
    JoinedCons(pieces, []);
    CopiesTail(names);
    var ts := Joined(pieces, Comma);
    assert ts + [] == ts;
    if |names| > 1 {
      CopiesRead(pieces[1..], names[1..]);
      hide Joined, Copies;
      var later := Joined(pieces[1..], Comma);
      assert later + [] == later;
      assert ts == pieces[0] + ([Comma] + later);
      assert ts[5..] == later;
    } else {
      assert ts == pieces[0] && Copies(names) == [(names[0], names[0])];
    }
  }

  lemma {:induction false} SetsRead(pieces: seq<seq<Token>>, sets: seq<(string, nat)>, rest: seq<Token>)
    requires |pieces| == |sets| > 0 && (rest != [] ==> rest[0] != Comma)
    requires forall i | 0 <= i < |sets| :: pieces[i] == [Column(sets[i].0), Compare(Equal), Param(sets[i].1)]
    ensures ReadSets(Joined(pieces, Comma) + rest) == Some((sets, rest))
  {
    JoinedCons(pieces, rest);
    var ts := Joined(pieces, Comma) + rest;
    if |sets| > 1 {
      SetsRead(pieces[1..], sets[1..], rest);
      var later := Joined(pieces[1..], Comma) + rest;
      hide Joined;
      assert ts == pieces[0] + ([Comma] + later);
      assert ts[4..] == later;
      assert [sets[0]] + sets[1..] == sets;
    } else {
      assert ts == pieces[0] + rest && ts[3..] == rest;
      assert sets == [sets[0]];
    }
  }
}
