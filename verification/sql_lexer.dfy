/** How the database cuts text that the query builder splices into a statement: words, placeholders, quoted
    names and strings, and single other characters. A closed comment counts as a blank; a comment or a quote
    that is not closed within the text is left as characters that no condition can have. */
module SqlLexer {
  import opened Outcomes
  import opened SqlText
  import opened Words

  predicate IsBlank(c: char) { c == ' ' || c == '\t' || c == '\n' || c == '\r' || c == '\U{0C}' }

  predicate IsDigit(c: char) { '0' <= c <= '9' }

  predicate StartsName(c: char) { 'a' <= c <= 'z' || 'A' <= c <= 'Z' || c == '_' || c >= '\U{80}' }

  predicate InName(c: char) { StartsName(c) || IsDigit(c) || c == '$' }

  /** How many characters at the start belong to a name. */
  function NameLength(s: string): (n: nat)
    ensures n <= |s| && (forall i | 0 <= i < n :: InName(s[i])) && (n < |s| ==> !InName(s[n]))
  {
    if s == "" || !InName(s[0]) then 0
    else
      var n := 1 + NameLength(s[1..]);
      assert forall i | 1 <= i < n :: s[i] == s[1..][i - 1];
      n
  }

  function DigitsLength(s: string): (n: nat)
    ensures n <= |s|
  {
    if s == "" || !IsDigit(s[0]) then 0 else 1 + DigitsLength(s[1..])
  }

  function NumberOf(digits: string): nat {
    if digits == "" then 0
    else
      var c := digits[|digits| - 1];
      10 * NumberOf(digits[..|digits| - 1]) + if IsDigit(c) then c as int - '0' as int else 0
  }

  /** A reserved word, or the name of a column, which the database takes in lower case. */
  function WordToken(name: string): Token {
    match name
    case "NULL" => Word("NULL")
    case "UNKNOWN" => Word("UNKNOWN")
    case "TRUE" => TrueWord
    case "FALSE" => FalseWord
    case "NOT" => Not
    case "AND" => And
    case "OR" => Or
    case "IS" => Is
    case "IN" => In
    case _ => Column(Lower(name))
  }

  function Mark(c: char): Token {
    match c
    case '(' => LParen
    case ')' => RParen
    case ',' => Comma
    case _ => Other(c)
  }

  /** How far a quoted text goes behind its opening quote, closing quote included; a doubled quote does not
      close it. */
  function Closing(s: string, quote: char): (n: Option<nat>)
    ensures n.Some? ==> 0 < n.value <= |s|
  {
    if s == "" then None
    else if s[0] != quote then Further(1, Closing(s[1..], quote))
    else if |s| > 1 && s[1] == quote then Further(2, Closing(s[2..], quote))
    else Some(1)
  }

  function Further(n: nat, rest: Option<nat>): Option<nat> { if rest.None? then None else Some(n + rest.value) }

  /** How far a comment goes behind its opening mark; comments between marks nest. */
  function CommentEnd(s: string, depth: nat): (n: Option<nat>)
    ensures n.Some? ==> n.value <= |s|
  {
    if |s| < 2 then None
    else if s[..2] == "*/" then if depth <= 1 then Some(2) else Further(2, CommentEnd(s[2..], depth - 1))
    else if s[..2] == "/*" then Further(2, CommentEnd(s[2..], depth + 1))
    else Further(1, CommentEnd(s[1..], depth))
  }

  function LineEnd(s: string): (n: Option<nat>)
    ensures n.Some? ==> n.value < |s|
  {
    if s == "" then None else if s[0] == '\n' || s[0] == '\r' then Some(0) else Further(1, LineEnd(s[1..]))
  }

  predicate IsQuote(c: char) { c == '"' || c == '\'' }

  /** The text with a blank for every comment. */
  function Uncommented(s: string): string
    decreases |s|
  {
    if s == "" then ""
    else if IsQuote(s[0]) then
      (match Closing(s[1..], s[0]) case None => s case Some(n) => s[..n + 1] + Uncommented(s[n + 1..]))
    else if |s| > 1 && s[..2] == "--" then
      (match LineEnd(s[2..]) case None => s case Some(n) => " " + Uncommented(s[n + 2..]))
    else if |s| > 1 && s[..2] == "/*" then
      (match CommentEnd(s[2..], 1) case None => s case Some(n) => " " + Uncommented(s[n + 2..]))
    else [s[0]] + Uncommented(s[1..])
  }

  /** The tokens of a text without comments. A quoted name keeps its letters; a string is no part of a condition
      here. */
  function Cut(s: string): seq<Token>
    decreases |s|
  {
    if s == "" then []
    else if IsBlank(s[0]) then Cut(s[1..])
    else if StartsName(s[0]) then [WordToken(s[..NameLength(s)])] + Cut(s[NameLength(s)..])
    else if s[0] == '$' && |s| > 1 && IsDigit(s[1]) then
      var n := 1 + DigitsLength(s[1..]);
      [Param(NumberOf(s[1..n]))] + Cut(s[n..])
    else if IsQuote(s[0]) && Closing(s[1..], s[0]).Some? then
      var n := Closing(s[1..], s[0]).value;
      [if s[0] == '"' then Column(s[1..n]) else Mark(s[0])] + Cut(s[n + 1..])
    else [Mark(s[0])] + Cut(s[1..])
  }

  function Lex(s: string): seq<Token> { Cut(Uncommented(s)) }

  // ---------------------------------------------------------------------- texts that are one test

  /** How many characters at the start are not blank. */
  function FieldLength(s: string): (n: nat)
    ensures n <= |s| && (forall i | 0 <= i < n :: !IsBlank(s[i])) && (n < |s| ==> IsBlank(s[n]))
  {
    if s == "" || IsBlank(s[0]) then 0
    else
      var n := 1 + FieldLength(s[1..]);
      assert forall i | 1 <= i < n :: s[i] == s[1..][i - 1];
      n
  }

  /** The parts of a text between its blanks. */
  function Fields(s: string): seq<string>
    decreases |s|
  {
    if s == "" then []
    else if IsBlank(s[0]) then Fields(s[1..])
    else [s[..FieldLength(s)]] + Fields(s[FieldLength(s)..])
  }

  const IS_WORDS := {"NULL", "TRUE", "FALSE", "UNKNOWN"}

  /** One of the four words, or NOT and one of them, with any blanks around and between. */
  predicate IsOnePlainTest(s: string) {
    var fields := Fields(s);
    || (|fields| == 1 && fields[0] in IS_WORDS)
    || (|fields| == 2 && fields[0] == "NOT" && fields[1] in IS_WORDS)
  }

  lemma {:induction false} NothingLexed(s: string)
    ensures Cut(s) == [] <==> Fields(s) == []
    decreases |s|
  {
    if s != "" && IsBlank(s[0]) { NothingLexed(s[1..]); }
  }

  predicate AllNames(s: string) { s != "" && StartsName(s[0]) && forall i | 0 <= i < |s| :: InName(s[i]) && !IsBlank(s[i]) }

  lemma ReservedNames(word: string)
    requires word in IS_WORDS + {"NOT"}
    ensures AllNames(word)
  {
  }

  lemma WordTokenExactly(name: string, word: string)
    requires word in IS_WORDS + {"NOT"}
    ensures WordToken(name) == WordToken(word) <==> name == word
  {
  }

  /** A text that starts with a reserved word, followed by a blank or by nothing. */
  predicate Leads(s: string, word: string) {
    s != "" && !IsBlank(s[0]) && |word| <= |s| && s[..|word|] == word && (|word| < |s| ==> IsBlank(s[|word|]))
  }

  lemma LeadsField(s: string, word: string)
    requires s != "" && !IsBlank(s[0]) && AllNames(word)
    ensures Fields(s) != [] && (Fields(s)[0] == word <==> Leads(s, word))
    ensures Leads(s, word) ==> Fields(s) == [word] + Fields(s[|word|..])
  {
    var m := FieldLength(s);
    if Leads(s, word) {
      assert forall i | 0 <= i < |word| :: s[i] == word[i];
      assert m == |word|;
    }
  }

  lemma LeadsLexed(s: string, word: string)
    requires s != "" && !IsBlank(s[0]) && word in IS_WORDS + {"NOT"}
    ensures Cut(s) != []
    ensures Leads(s, word) ==> Cut(s) == [WordToken(word)] + Cut(s[|word|..])
    ensures Cut(s)[0] == WordToken(word) ==> StartsName(s[0]) && NameLength(s) == |word| && s[..|word|] == word
                                              && Cut(s)[1..] == Cut(s[|word|..])
  {
    hide WordToken, NameLength, NumberOf, DigitsLength, Closing;
    ReservedNames(word);
    if Leads(s, word) {
      LeadsLength(s, word);
    } else if StartsName(s[0]) {
      WordTokenExactly(s[..NameLength(s)], word);
    } else {
      NotAWord(s, word);
    }
  }

  lemma LeadsLength(s: string, word: string)
    requires Leads(s, word) && AllNames(word)
    ensures StartsName(s[0]) && NameLength(s) == |word|
  {
    assert forall i | 0 <= i < |word| :: s[i] == word[i];
  }

  lemma NotAWord(s: string, word: string)
    requires s != "" && !IsBlank(s[0]) && !StartsName(s[0]) && word in IS_WORDS + {"NOT"}
    ensures Cut(s) != [] && Cut(s)[0] != WordToken(word)
  {
  }

  lemma NameToken(t: Token)
    requires IsName(t).Some?
    ensures IsName(t).value in IS_WORDS && t == WordToken(IsName(t).value)
  {
  }

  lemma TokenName(word: string)
    requires word in IS_WORDS
    ensures IsName(WordToken(word)) == Some(word) && WordToken("NOT") == Not
  {
  }

  predicate LexedName(s: string) { |Cut(s)| == 1 && IsName(Cut(s)[0]).Some? }

  predicate FieldName(s: string) { |Fields(s)| == 1 && Fields(s)[0] in IS_WORDS }

  lemma {:induction false} NamesAgree(s: string)
    ensures LexedName(s) <==> FieldName(s)
    decreases |s|
  {
    hide WordToken, NameLength, IsName;
    if s == "" {
    } else if IsBlank(s[0]) {
      NamesAgree(s[1..]);
    } else {
      if FieldName(s) {
        var word := Fields(s)[0];
        ReservedNames(word);
        LeadsField(s, word);
        LeadsLexed(s, word);
        NothingLexed(s[|word|..]);
        TokenName(word);
      }
      if LexedName(s) {
        NameToken(Cut(s)[0]);
        var word := IsName(Cut(s)[0]).value;
        ReservedNames(word);
        LeadsLexed(s, word);
        NothingLexed(s[|word|..]);
        LeadsField(s, word);
      }
    }
  }

  lemma {:induction false} PlainTestExactly(s: string)
    ensures IsReading(Cut(s)).Some? <==> IsOnePlainTest(s)
    decreases |s|
  {
    hide WordToken, NameLength, IsName, Closing;
    NamesAgree(s);
    if s == "" {
    } else if IsBlank(s[0]) {
      PlainTestExactly(s[1..]);
    } else {
      var rest := if |s| >= 3 then s[3..] else "";
      ReservedNames("NOT");
      TokenName("NULL");
      NamesAgree(rest);
      LeadsField(s, "NOT");
      LeadsLexed(s, "NOT");
      if |Cut(s)| == 2 && Cut(s)[0] == Not && IsName(Cut(s)[1]).Some? {
        NameToken(Cut(s)[1]);
        if rest != "" && !IsBlank(rest[0]) { NotAWord(rest, IsName(Cut(s)[1]).value); }
      }
    }
  }

  /** With comments for blanks. */
  predicate IsOneTest(s: string) { IsOnePlainTest(Uncommented(s)) }

  /** A text is exactly one test for the database exactly when, comments counting as blanks, its fields are one
      of the four words, or NOT and one of them. */
  lemma OneTestExactly(s: string)
    ensures IsReading(Lex(s)).Some? <==> IsOneTest(s)
  {
    PlainTestExactly(Uncommented(s));
  }

  // ------------------------------------------------------------------------------------ texts word by word

  /** Nothing in the text can begin a comment or a quote. */
  predicate IsPlain(s: string) { forall i | 0 <= i < |s| :: !IsQuote(s[i]) && s[i] != '-' && s[i] != '/' }

  lemma {:induction false} LexPlain(s: string)
    requires IsPlain(s)
    ensures Lex(s) == Cut(s)
  {
    NoComments(s);
  }

  lemma NotAnOpening(s: string)
    requires s != "" && !IsQuote(s[0]) && s[0] != '-' && s[0] != '/'
    ensures Uncommented(s) == [s[0]] + Uncommented(s[1..])
  {
    hide Closing, LineEnd, CommentEnd;
    if |s| > 1 { assert s[..2][0] == s[0]; }
  }

  lemma {:induction false} NoComments(s: string)
    requires IsPlain(s)
    ensures Uncommented(s) == s
  {
    if s != "" {
      assert IsPlain(s[1..]);
      NotAnOpening(s);
      NoComments(s[1..]);
      hide Uncommented, IsPlain;
      assert [s[0]] + s[1..] == s;
    }
  }

  lemma {:induction false} NameLengthOf(word: string, rest: string)
    requires (forall i | 0 <= i < |word| :: InName(word[i])) && (rest != "" ==> !InName(rest[0]))
    ensures NameLength(word + rest) == |word|
  {
    var s := word + rest;
    if word == "" {
      assert s == rest;
    } else {
      assert s[1..] == word[1..] + rest;
      NameLengthOf(word[1..], rest);
    }
  }

  lemma CutWord(word: string, rest: string)
    requires word != "" && StartsName(word[0]) && !IsBlank(word[0]) && (forall i | 0 <= i < |word| :: InName(word[i]))
    requires rest != "" ==> !InName(rest[0])
    ensures Cut(word + rest) == [WordToken(word)] + Cut(rest)
  {
    NameLengthOf(word, rest);
    assert (word + rest)[..|word|] == word && (word + rest)[|word|..] == rest;
  }

  lemma CutBlank(rest: string)
    ensures Cut(" " + rest) == Cut(rest)
  {
    assert (" " + rest)[1..] == rest;
  }

  lemma CutMark(s: string)
    requires s != "" && !IsBlank(s[0]) && !StartsName(s[0]) && s[0] != '$' && !IsQuote(s[0])
    ensures Cut(s) != [] && Cut(s)[0] == Mark(s[0])
  {
  }

  predicate NoDollar(s: string) { forall i | 0 <= i < |s| :: s[i] != '$' }

  lemma {:induction false} CutNoParams(s: string)
    requires NoDollar(s)
    ensures forall t | t in Cut(s) :: !t.Param?
    decreases |s|
  {
    hide NumberOf, DigitsLength, Lower, Closing;
    if s != "" {
      var n := if IsBlank(s[0]) then 1
               else if StartsName(s[0]) then NameLength(s)
               else if IsQuote(s[0]) && Closing(s[1..], s[0]).Some? then Closing(s[1..], s[0]).value + 1 else 1;
      assert s[0] != '$';
      CutNoParams(s[n..]);
    }
  }
}
