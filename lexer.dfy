/**
 * The on-demand tokenizer. `Scan(text, p)` is the specification of one call of
 * `get_next_token` started with the cursor at `p`: the token it returns and the
 * cursor position it leaves behind. The class `Lexer` is the cursor itself.
 */
module Lexing {
  import opened Tokens
  import opened Outcomes

  const MAX_IDENTIFIER_LENGTH := 4

  datatype CharClass = Space | Digit | Alpha

  predicate InClass(c: char, k: CharClass) {
    match k
    case Space => IsSpace(c)
    case Digit => IsDigit(c)
    case Alpha => IsAlpha(c)
  }

  /** The end of the maximal run of `k`-characters that starts at `i`. */
  function RunEnd(text: string, i: nat, k: CharClass): (j: nat)
    requires i <= |text|
    ensures i <= j <= |text|
    ensures forall m | i <= m < j :: InClass(text[m], k)
    ensures j == |text| || !InClass(text[j], k)
    decreases |text| - i
  {
    if i < |text| && InClass(text[i], k) then RunEnd(text, i + 1, k) else i
  }

  predicate AllDigits(s: string) {
    forall i | 0 <= i < |s| :: IsDigit(s[i])
  }

  function DigitValue(c: char): (d: nat)
    requires IsDigit(c)
    ensures d < 10
  {
    (c as int) - ('0' as int)
  }

  /** The base-10 value of a string of digits (`int(result)`). */
  function DecimalValue(s: string): (n: nat)
    requires AllDigits(s)
    ensures s != [] ==> n % 10 == DigitValue(s[|s| - 1])
  {
    if s == [] then 0 else 10 * DecimalValue(s[..|s| - 1]) + DigitValue(s[|s| - 1])
  }

  function DigitChar(d: nat): (c: char)
    requires d < 10
    ensures IsDigit(c) && DigitValue(c) == d
  {
    (('0' as int) + d) as char
  }

  /** The decimal spelling of a natural number: the reference inverse of DecimalValue. */
  function DecimalString(n: nat): (s: string)
    ensures |s| > 0 && AllDigits(s)
  {
    if n < 10 then [DigitChar(n)] else DecimalString(n / 10) + [DigitChar(n % 10)]
  }

  predicate IsKeyword(w: string) {
    w == "if" || w == "then" || w == "else" || w == "while" || w == "do"
  }

  /** The keyword map with IDENTIFIER as its default. */
  function KeywordKind(w: string): (k: Kind)
    ensures k == IDENTIFIER <==> !IsKeyword(w)
  {
    if w == "if" then IF
    else if w == "then" then THEN
    else if w == "else" then ELSE
    else if w == "while" then WHILE
    else if w == "do" then DO
    else IDENTIFIER
  }

  /** The token kind of a one-character operator or punctuation mark other than '='. */
  function PunctuationKind(c: char): (k: Option<Kind>)
    ensures k.Some? <==> IsOperatorChar(c) && c != '='
    ensures k.Some? ==> Advances(k.value)
  {
    if c == '-' then Some(MINUS)
    else if c == '+' then Some(PLUS)
    else if c == '*' then Some(MUL)
    else if c == '/' then Some(DIV)
    else if c == '>' then Some(GREATER)
    else if c == '<' then Some(LESS)
    else if c == '(' then Some(LPAREN)
    else if c == ')' then Some(RPAREN)
    else if c == ';' then Some(SEMICOLON)
    else if c == '{' then Some(LBRACE)
    else if c == '}' then Some(RBRACE)
    else None
  }

  /** Every character of `text[a..b]` is one the lexer steps over. */
  predicate Recognized(text: string, a: nat, b: nat)
    requires a <= b <= |text|
  {
    forall i | a <= i < b :: KnownChar(text[i])
  }

  /** The value each kind carries: a number for INTEGER, the text for words and operators. */
  predicate Shaped(t: Token) {
    && (t.kind == INTEGER ==> t.value.IntVal? && t.value.n >= 0)
    && (t.kind == EOF || t.kind == ERROR <==> t.value == NoValue)
    && (t.kind != INTEGER && t.value != NoValue ==> t.value.Str?)
  }

  /** The letter run of an identifier/keyword token that starts at `s`. */
  function Word(text: string, s: nat): (w: string)
    requires s <= |text|
    ensures forall i | 0 <= i < |w| :: IsAlpha(w[i])
  {
    text[s..RunEnd(text, s, Alpha)]
  }

  /**
   * One call of `get_next_token` with the cursor at `p`: skip whitespace, then
   * dispatch on the current character. On success, the token and the new cursor.
   */
  function Scan(text: string, p: nat): (r: Result<(Token, nat)>)
    requires p <= |text|
    ensures r.Ok? ==> p <= r.value.1 <= |text| && Shaped(r.value.0)
    ensures r.Ok? ==> Recognized(text, p, r.value.1)
    ensures r.Ok? && Advances(r.value.0.kind) ==> p < r.value.1
    ensures r.Ok? && r.value.0.kind == EOF ==> r.value.1 == |text|
    ensures r.Ok? && r.value.0.kind == ERROR ==> r.value.1 < |text| && !KnownChar(text[r.value.1])
  {
    var s := RunEnd(text, p, Space);
    if s == |text| then Ok((Token(EOF, NoValue), s))
    else
      var c := text[s];
      if IsDigit(c) then
        var e := RunEnd(text, s, Digit);
        var run := text[s..e];
        assert AllDigits(run) by {
          forall i | 0 <= i < |run| ensures IsDigit(run[i]) { assert run[i] == text[s + i]; }
        }
        Ok((Token(INTEGER, IntVal(DecimalValue(run))), e))
      else if IsAlpha(c) || c == '_' then
        var w := Word(text, s);
        if |w| > MAX_IDENTIFIER_LENGTH && !IsKeyword(w) then Err(IdentifierTooLong)
        else Ok((Token(KeywordKind(w), Str(w)), RunEnd(text, s, Alpha)))
      else if c == '=' then
        if s + 1 < |text| && text[s + 1] == '=' then Ok((Token(EQUALS, Str("==")), s + 2))
        else Ok((Token(ASSIGN, Str("=")), s + 1))
      else
        match PunctuationKind(c)
        case Some(k) => Ok((Token(k, Str([c])), s + 1))
        case None => Ok((Token(ERROR, NoValue), s))
  }

  // ---------------------------------------------------------------------------
  // Properties of Scan

  lemma {:induction false} DecimalRoundTrip(n: nat)
    ensures DecimalValue(DecimalString(n)) == n
  {
    if n >= 10 {
      var s := DecimalString(n);
      DecimalRoundTrip(n / 10);
      assert s[..|s| - 1] == DecimalString(n / 10);
    }
  }

  /** A digit run is read as one INTEGER token whose value is the run in base 10. */
  lemma IntegerToken(text: string, p: nat)
    requires p <= |text|
    requires RunEnd(text, p, Space) < |text| && IsDigit(text[RunEnd(text, p, Space)])
    ensures var s := RunEnd(text, p, Space);
            var e := RunEnd(text, s, Digit);
            s < e && AllDigits(text[s..e])
            && Scan(text, p) == Ok((Token(INTEGER, IntVal(DecimalValue(text[s..e]))), e))
  {
    var s := RunEnd(text, p, Space);
    var e := RunEnd(text, s, Digit);
    assert RunEnd(text, s, Digit) == RunEnd(text, s + 1, Digit);
    assert AllDigits(text[s..e]) by {
      forall i | 0 <= i < e - s ensures IsDigit(text[s..e][i]) { assert text[s..e][i] == text[s + i]; }
    }
  }

  /** Every natural number written in decimal lexes back to that number. */
  lemma {:induction false} NumeralRoundTrip(n: nat)
    ensures var s := DecimalString(n);
            Scan(s, 0) == Ok((Token(INTEGER, IntVal(n)), |s|))
  {
    var s := DecimalString(n);
    assert RunEnd(s, 0, Space) == 0;
    DigitRunEnd(s, 0);
    assert s[0..|s|] == s;
    DecimalRoundTrip(n);
  }

  lemma {:induction false} DigitRunEnd(s: string, i: nat)
    requires i <= |s| && AllDigits(s)
    ensures RunEnd(s, i, Digit) == |s|
    decreases |s| - i
  {
    if i < |s| {
      DigitRunEnd(s, i + 1);
    }
  }

  /** A letter run longer than four that is not a keyword is a lexer error. */
  lemma WordTooLong(text: string, p: nat)
    requires p <= |text|
    requires var s := RunEnd(text, p, Space);
             s < |text| && IsAlpha(text[s]) && |Word(text, s)| > MAX_IDENTIFIER_LENGTH && !IsKeyword(Word(text, s))
    ensures Scan(text, p) == Err(IdentifierTooLong)
  {
  }

  /** A letter run that is a keyword, or has at most four letters, becomes one token. */
  lemma WordToken(text: string, p: nat)
    requires p <= |text|
    requires var s := RunEnd(text, p, Space);
             s < |text| && IsAlpha(text[s]) && (|Word(text, s)| <= MAX_IDENTIFIER_LENGTH || IsKeyword(Word(text, s)))
    ensures var s := RunEnd(text, p, Space);
            var w := Word(text, s);
            Scan(text, p) == Ok((Token(KeywordKind(w), Str(w)), s + |w|))
            && (KeywordKind(w) == IDENTIFIER <==> !IsKeyword(w))
  {
  }

  /** '=' '=' is one EQUALS token of two characters; a lone '=' is ASSIGN. */
  lemma EqualsOrAssign(text: string, p: nat)
    requires p <= |text|
    requires var s := RunEnd(text, p, Space); s < |text| && text[s] == '='
    ensures var s := RunEnd(text, p, Space);
            Scan(text, p) == if s + 1 < |text| && text[s + 1] == '='
                             then Ok((Token(EQUALS, Str("==")), s + 2))
                             else Ok((Token(ASSIGN, Str("=")), s + 1))
  {
  }

  /** Each one-character operator other than '=' is a token of its own kind, one character long. */
  lemma PunctuationToken(text: string, p: nat)
    requires p <= |text|
    requires var s := RunEnd(text, p, Space); s < |text| && PunctuationKind(text[s]).Some?
    ensures var s := RunEnd(text, p, Space);
            Scan(text, p) == Ok((Token(PunctuationKind(text[s]).value, Str([text[s]])), s + 1))
  {
  }

  /** Whitespace never makes a token: scanning from the cursor is scanning from the end of the blank run. */
  lemma WhitespaceSkipped(text: string, p: nat)
    requires p <= |text|
    ensures Scan(text, p) == Scan(text, RunEnd(text, p, Space))
  {
    var s := RunEnd(text, p, Space);
    assert RunEnd(text, s, Space) == s;
    if s < |text| {
      assert IsDigit(text[s]) ==> Scan(text, p) == Scan(text, s);
      assert IsAlpha(text[s]) || text[s] == '_' ==> Scan(text, p) == Scan(text, s);
    }
  }

  /** An unrecognised character yields ERROR and leaves the cursor on it, so lexing again gives ERROR again. */
  lemma ErrorDoesNotAdvance(text: string, p: nat)
    requires p <= |text|
    requires var s := RunEnd(text, p, Space); s < |text| && !KnownChar(text[s]) && text[s] != '_'
    ensures var s := RunEnd(text, p, Space);
            Scan(text, p) == Ok((Token(ERROR, NoValue), s)) && Scan(text, s) == Scan(text, p)
  {
    var s := RunEnd(text, p, Space);
    assert RunEnd(text, s, Space) == s;
  }

  /** '_' starts an identifier but is not a letter: an empty IDENTIFIER, with the cursor left on '_'. */
  lemma UnderscoreDoesNotAdvance(text: string, p: nat)
    requires p <= |text|
    requires var s := RunEnd(text, p, Space); s < |text| && text[s] == '_'
    ensures var s := RunEnd(text, p, Space);
            Scan(text, p) == Ok((Token(IDENTIFIER, Str("")), s)) && Scan(text, s) == Scan(text, p)
  {
    var s := RunEnd(text, p, Space);
    assert RunEnd(text, s, Space) == s;
    assert RunEnd(text, s, Alpha) == s;
  }

  /** Once only whitespace is left, every call yields EOF and leaves the cursor at the end. */
  lemma EofForever(text: string, p: nat)
    requires p <= |text|
    requires forall i | p <= i < |text| :: IsSpace(text[i])
    ensures Scan(text, p) == Ok((Token(EOF, NoValue), |text|))
    ensures Scan(text, |text|) == Scan(text, p)
  {
  }

  // ---------------------------------------------------------------------------
  // The lexer object

  function CharAt(text: string, pos: nat): (c: Option<char>) {
    if pos < |text| then Some(text[pos]) else None
  }

  class Lexer {
    const text: string
    var pos: nat
    var currentChar: Option<char>

    /** `current_char` is the character under the cursor, or None past the end. */
    ghost predicate Valid()
      reads this
    {
      pos <= |text| && currentChar == CharAt(text, pos)
    }

    constructor (text: string)
      requires |text| > 0
      ensures Valid() && this.text == text && pos == 0
    {
      this.text := text;
      pos := 0;
      currentChar := Some(text[0]);
    }

    method Advance()
      requires Valid() && pos < |text|
      modifies this
      ensures Valid() && pos == old(pos) + 1
    {
      pos := pos + 1;
      if pos > |text| - 1 {
        currentChar := None;
      } else {
        currentChar := Some(text[pos]);
      }
    }

    method SkipWhitespace()
      requires Valid()
      modifies this
      ensures Valid() && pos == RunEnd(text, old(pos), Space)
    {
      while currentChar.Some? && IsSpace(currentChar.value)
        invariant Valid() && old(pos) <= pos
        invariant RunEnd(text, pos, Space) == RunEnd(text, old(pos), Space)
        decreases |text| - pos
      {
        Advance();
      }
    }

    /** `_id`: the letter run under the cursor, as a keyword or an identifier of at most four letters. */
    method Id() returns (r: Result<Token>)
      requires Valid()
      modifies this
      ensures Valid() && pos == RunEnd(text, old(pos), Alpha)
      ensures var w := Word(text, old(pos));
              r == if |w| > MAX_IDENTIFIER_LENGTH && !IsKeyword(w) then Err(IdentifierTooLong)
                   else Ok(Token(KeywordKind(w), Str(w)))
    {
      var result := "";
      while currentChar.Some? && IsAlpha(currentChar.value)
        invariant Valid() && old(pos) <= pos
        invariant result == text[old(pos)..pos]
        invariant RunEnd(text, pos, Alpha) == RunEnd(text, old(pos), Alpha)
        decreases |text| - pos
      {
        result := result + [currentChar.value];
        Advance();
      }
      if |result| > MAX_IDENTIFIER_LENGTH && !IsKeyword(result) {
        return Err(IdentifierTooLong);
      }
      r := Ok(Token(KeywordKind(result), Str(result)));
    }

    /** `integer`: the digit run under the cursor as one INTEGER token. */
    method Integer() returns (t: Token)
      requires Valid()
      modifies this
      ensures Valid() && pos == RunEnd(text, old(pos), Digit)
      ensures AllDigits(text[old(pos)..pos])
      ensures t == Token(INTEGER, IntVal(DecimalValue(text[old(pos)..pos])))
    {
      var result := "";
      while currentChar.Some? && IsDigit(currentChar.value)
        invariant Valid() && old(pos) <= pos
        invariant result == text[old(pos)..pos] && AllDigits(result)
        invariant RunEnd(text, pos, Digit) == RunEnd(text, old(pos), Digit)
        decreases |text| - pos
      {
        result := result + [currentChar.value];
        Advance();
      }
      t := Token(INTEGER, IntVal(DecimalValue(result)));
    }

    /** `get_next_token`, proved to be one step of Scan. */
    method GetNextToken() returns (r: Result<Token>)
      requires Valid()
      modifies this
      ensures Valid()
      ensures Scan(text, old(pos)).Ok? ==> r == Ok(Scan(text, old(pos)).value.0) && pos == Scan(text, old(pos)).value.1
      ensures Scan(text, old(pos)).Err? ==> r == Err(Scan(text, old(pos)).error)
    {
      while currentChar.Some?
        invariant Valid() && old(pos) <= pos
        invariant RunEnd(text, pos, Space) == RunEnd(text, old(pos), Space)
        decreases |text| - pos
      {
        var c := currentChar.value;
        if IsSpace(c) {
          SkipWhitespace();
          continue;
        }
        assert pos == RunEnd(text, old(pos), Space);
        WhitespaceSkipped(text, old(pos));
        r := Dispatch();
        return;
      }
      WhitespaceSkipped(text, old(pos));
      return Ok(Token(EOF, NoValue));
    }

    /** The body of `get_next_token` once the cursor is on a character that is not blank. */
    method Dispatch() returns (r: Result<Token>)
      requires Valid() && currentChar.Some? && !IsSpace(currentChar.value)
      modifies this
      ensures Valid()
      ensures Scan(text, old(pos)).Ok? ==> r == Ok(Scan(text, old(pos)).value.0) && pos == Scan(text, old(pos)).value.1
      ensures Scan(text, old(pos)).Err? ==> r == Err(Scan(text, old(pos)).error)
    {
      var c := currentChar.value;
      assert RunEnd(text, pos, Space) == pos;
      if IsDigit(c) {
        var t := Integer();
        return Ok(t);
      }
      if IsAlpha(c) || c == '_' {
        r := Id();
        return;
      }
      var t := Symbol();
      return Ok(t);
    }

    /** The rest of `get_next_token`: an operator, '=' or '==', or an ERROR token that does not advance. */
    method Symbol() returns (t: Token)
      requires Valid() && currentChar.Some?
      requires var c := currentChar.value; !IsSpace(c) && !IsDigit(c) && !IsAlpha(c) && c != '_'
      modifies this
      ensures Valid()
      ensures Scan(text, old(pos)) == Ok((t, pos))
    {
      var c := currentChar.value;
      assert RunEnd(text, pos, Space) == pos;
      if c == '-' {
        Advance();
        return Token(MINUS, Str("-"));
      }
      if c == '+' {
        Advance();
        return Token(PLUS, Str("+"));
      }
      if c == '*' {
        Advance();
        return Token(MUL, Str("*"));
      }
      if c == '/' {
        Advance();
        return Token(DIV, Str("/"));
      }
      if c == '>' {
        Advance();
        return Token(GREATER, Str(">"));
      }
      if c == '<' {
        Advance();
        return Token(LESS, Str("<"));
      }
      if c == '=' {
        Advance();
        if currentChar == Some('=') {
          Advance();
          return Token(EQUALS, Str("=="));
        }
        return Token(ASSIGN, Str("="));
      }
      t := Bracket();
    }

    /** The rest of `Symbol`: brackets, braces, ';', and an unknown character. */
    method Bracket() returns (t: Token)
      requires Valid() && currentChar.Some?
      requires var c := currentChar.value; !IsSpace(c) && !IsDigit(c) && !IsAlpha(c) && c != '_'
      requires var c := currentChar.value; c != '-' && c != '+' && c != '*' && c != '/' && c != '>' && c != '<' && c != '='
      modifies this
      ensures Valid()
      ensures Scan(text, old(pos)) == Ok((t, pos))
    {
      var c := currentChar.value;
      assert RunEnd(text, pos, Space) == pos;
      if c == '(' {
        Advance();
        return Token(LPAREN, Str("("));
      }
      if c == ')' {
        Advance();
        return Token(RPAREN, Str(")"));
      }
      if c == ';' {
        Advance();
        return Token(SEMICOLON, Str(";"));
      }
      if c == '{' {
        Advance();
        return Token(LBRACE, Str("{"));
      }
      if c == '}' {
        Advance();
        return Token(RBRACE, Str("}"));
      }
      return Token(ERROR, NoValue);
    }
  }
}
