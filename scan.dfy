/** The lexer's character machinery from src/scan.rs: the byte and word
    classifiers, the scanner's cursor over the current line, and the lexer
    states that do not re-enter `next_token`. The current line is a fixed
    input; reading past its end yields no byte. */
module Scan {
  import opened Outcomes

  /** One byte of the input line. */
  type Byte = c: char | c <= '\U{FF}' witness 'a'

  /** `scan::Type`, the kind of a lexed item. */
  datatype TokenType =
    | Eof | Error | Newline | Assign | Char | Identifier | LeftBrack | LeftParen | Number
    | Operator | Op | Rational | Complex | RightBrack | RightParen | Semicolon | String | Colon

  /** `scan::Token`. */
  datatype Token = Token(typ: TokenType, line: nat, text: string)

  /** The lexer states (`scan::Lex`); `Stop` is the source's `Lex::None`. */
  datatype Lex = Any | Comment | Space | Quote | RawQuote | Operator | Complex | Identifier | Stop

  /** What a state run leads to: the next state, the point where the
      source calls `next_token()` recursively, where this model stops, or a
      Rust panic, which ends the run. */
  datatype Step = Goto(next: Lex) | Reenters | Panics(message: string)

  // ---------------------------------------------------------------------
  // Classifiers

  /** `is_digit`. */
  predicate IsDigit(c: char) {
    '0' <= c <= '9'
  }

  predicate IsAsciiLetter(c: char) {
    'a' <= c <= 'z' || 'A' <= c <= 'Z'
  }

  /** `u8::is_ascii_alphanumeric` (no underscore). */
  predicate IsAsciiAlphanumeric(c: char) {
    IsAsciiLetter(c) || IsDigit(c)
  }

  /** `is_alpha_numeric`: underscore, ASCII letter or digit. */
  predicate IsAlphaNumeric(c: char) {
    c == '_' || IsAsciiLetter(c) || IsDigit(c)
  }

  /** `is_space`. */
  predicate IsSpace(c: char) {
    c == ' ' || c == '\t'
  }

  /** `is_end_of_line`. */
  predicate IsEndOfLine(c: char) {
    c == '\n' || c == ';'
  }

  /** Spaces, line ends and identifier bytes are three disjoint classes, and
      the line ends are exactly newline and semicolon. */
  lemma ClassesDisjoint(c: char)
    ensures !(IsSpace(c) && IsEndOfLine(c))
    ensures !(IsSpace(c) && IsAlphaNumeric(c))
    ensures !(IsEndOfLine(c) && IsAlphaNumeric(c))
    ensures IsDigit(c) ==> IsAlphaNumeric(c) && IsAsciiAlphanumeric(c)
    ensures IsAlphaNumeric(c) <==> IsAsciiAlphanumeric(c) || c == '_'
  {
  }

  /** `is_numeral` for the configured input base. The letter bounds are
      computed in `u8` (wrapping, as a release build does). Every digit is a
      numeral; below base 10 no letter is; from base 10 on (while the bound
      fits in a byte) the letters 'a'..='a'+(base-10) and 'A'..='A'+(base-10)
      are, bounds included, so base 10 admits 'a' and 'A'. */
  predicate IsNumeral(r: char, base: nat)
    ensures IsDigit(r) ==> IsNumeral(r, base)
    ensures base < 10 ==> (IsNumeral(r, base) <==> IsDigit(r))
    ensures 10 <= base <= 168 ==>
              (IsNumeral(r, base) <==> IsDigit(r) || 'a' as int <= r as int <= 'a' as int + (base - 10)
                                                  || 'A' as int <= r as int <= 'A' as int + (base - 10))
  {
    if IsDigit(r) then true
    else if base < 10 then false
    else
      var top := (base - 10) % 256;
      (97 <= r as int <= (97 + top) % 256) || (65 <= r as int <= (65 + top) % 256)
  }

  const DECIMAL: string := "0123456789"
  const LOWER: string := "abcdefghijklmnopqrstuvwxyz"
  const UPPER: string := "ABCDEFGHIJKLMNOPQRSTUVWXYZ"

  /** `digits_for_base`: base 0 means 10; a base above 36 slices past the
      end of the alphabet and panics (`None`). */
  function DigitsForBase(base: nat): (r: Option<string>)
    ensures r.Some? <==> base <= 36
    ensures r.Some? ==> |r.value| == (if base <= 10 then 10 else 2 * base - 10)
  {
    var b := if base == 0 then 10 else base;
    if b <= 10 then Some(DECIMAL[..10])
    else if b - 10 > |LOWER| then None
    else Some(DECIMAL + LOWER[..b - 10] + UPPER[..b - 10])
  }

  lemma AlphabetCodes()
    ensures |DECIMAL| == 10 && |LOWER| == 26 && |UPPER| == 26
    ensures forall k :: 0 <= k < 10 ==> DECIMAL[k] as int == '0' as int + k
    ensures forall k :: 0 <= k < 26 ==> LOWER[k] as int == 'a' as int + k
    ensures forall k :: 0 <= k < 26 ==> UPPER[k] as int == 'A' as int + k
  {
  }

  /** A prefix of an alphabet whose codes run consecutively from `first`
      holds exactly the characters of the first `n` codes. */
  lemma InAlphabetPrefix(alpha: string, first: int, n: nat, c: char)
    requires n <= |alpha|
    requires forall k :: 0 <= k < |alpha| ==> alpha[k] as int == first + k
    ensures c in alpha[..n] <==> first <= c as int < first + n
  {
    if first <= c as int < first + n {
      assert alpha[..n][c as int - first] == c;
    }
  }

  /** A base up to 10 (or 0) has exactly the ten decimal digits; a base
      `b` from 11 to 36 has the decimal digits, then the first `b - 10`
      lower-case letters, then the first `b - 10` upper-case letters. */
  lemma DigitsForBaseShape(base: nat)
    ensures base <= 10 ==> DigitsForBase(base) == Some("0123456789")
    ensures 10 < base <= 36 ==>
              DigitsForBase(base).value == DECIMAL + LOWER[..base - 10] + UPPER[..base - 10]
  {
    AlphabetCodes();
    assert DECIMAL[..10] == DECIMAL;
  }

  /** Membership in the digit set of a base up to 36. */
  lemma DigitsForBaseMembers(base: nat, c: char)
    requires base <= 36
    ensures c in DigitsForBase(base).value <==>
              IsDigit(c) || (base > 10 && ('a' as int <= c as int < 'a' as int + (base - 10)
                                           || 'A' as int <= c as int < 'A' as int + (base - 10)))
  {
    DigitsForBaseShape(base);
    AlphabetCodes();
    InAlphabetPrefix(DECIMAL, '0' as int, 10, c);
    assert DECIMAL[..10] == DECIMAL;
    if base > 10 {
      InAlphabetPrefix(LOWER, 'a' as int, base - 10, c);
      InAlphabetPrefix(UPPER, 'A' as int, base - 10, c);
    }
  }

  /** `is_numeral` and `digits_for_base` disagree by one letter of each case:
      for a base from 11 to 36 the numerals are the base's digits plus the
      letters 'a' + (base - 10) and 'A' + (base - 10). */
  lemma NumeralIsDigitsPlusOne(base: nat, c: char)
    requires 10 < base <= 36
    ensures IsNumeral(c, base) <==>
              c in DigitsForBase(base).value || c as int == 'a' as int + (base - 10)
                                             || c as int == 'A' as int + (base - 10)
  {
    DigitsForBaseMembers(base, c);
  }

  /** A UTF-8 continuation byte: a `String` index just before one is not a
      char boundary. */
  predicate IsContinuationByte(b: Byte) {
    0x80 <= b as int <= 0xBF
  }

  /** The head of the panic message for slicing a `String` at byte index `i`
      that is not a char boundary. */
  function NotCharBoundary(i: nat): string {
    "byte index " + Decimal(i) + " is not a char boundary"
  }

  /** The `u8` bound `first + base - 10 - 1` of `is_all_digits`, computed
      left to right with wrapping. */
  function DigitTop(base: nat, first: int): int {
    var b := base % 256;
    (((first + b) % 256 - 10) % 256 - 1) % 256
  }

  /** For bases up to 36 none of the `u8` steps wraps. */
  lemma DigitTopNoWrap(base: nat, first: int)
    requires base <= 36 && 11 <= first <= 200
    ensures DigitTop(base, first) == first + base - 11
  {
    assert (first + base % 256) % 256 == first + base;
    assert (first + base - 10) % 256 == first + base - 10;
    assert (first + base - 11) % 256 == first + base - 11;
  }

  /** A byte `is_all_digits` accepts as a digit of `base`. */
  predicate IsBaseDigit(c: char, base: nat) {
    IsDigit(c) || 97 <= c as int <= DigitTop(base, 97) || 65 <= c as int <= DigitTop(base, 65)
  }

  /** For bases up to 36 the digits `is_all_digits` accepts are exactly the
      ones of `digits_for_base`. */
  lemma BaseDigitIsInDigitsForBase(c: char, base: nat)
    requires base <= 36
    ensures IsBaseDigit(c, base) <==> c in DigitsForBase(base).value
  {
    DigitsForBaseMembers(base, c);
    DigitTopNoWrap(base, 97);
    DigitTopNoWrap(base, 65);
  }

  /** The loop of `is_all_digits`; `sawj` records that a 'j' was skipped. */
  predicate AllDigitsFrom(s: seq<char>, base: nat, sawj: bool)
    decreases |s|
  {
    if s == [] then true
    else if s[0] == 'j' && !sawj then AllDigitsFrom(s[1..], base, true)
    else IsBaseDigit(s[0], base) && AllDigitsFrom(s[1..], base, sawj)
  }

  /** `is_all_digits`: every byte is a digit of the base, except that the
      first 'j' is skipped; any later 'j' must be a digit itself. */
  predicate IsAllDigits(s: seq<char>, base: nat)
    ensures IsAllDigits(s, base) <==>
              forall k :: 0 <= k < |s| ==> IsBaseDigit(s[k], base) || (s[k] == 'j' && 'j' !in s[..k])
  {
    AllDigitsFromIff(s, base, false);
    AllDigitsFrom(s, base, false)
  }

  lemma {:induction false} AllDigitsFromIff(s: seq<char>, base: nat, sawj: bool)
    ensures AllDigitsFrom(s, base, sawj) <==>
              forall k :: 0 <= k < |s| ==> IsBaseDigit(s[k], base) || (s[k] == 'j' && !sawj && 'j' !in s[..k])
    decreases |s|
  {
    if s != [] {
      var t := s[1..];
      assert forall k :: 1 <= k <= |s| ==> s[..k] == [s[0]] + t[..k - 1];
      if s[0] == 'j' && !sawj {
        AllDigitsFromIff(t, base, true);
        assert forall k :: 1 <= k < |s| ==> 'j' in s[..k];
      } else {
        AllDigitsFromIff(t, base, sawj);
        if s[0] != 'j' {
          assert forall k :: 1 <= k < |s| ==> ('j' in s[..k] <==> 'j' in t[..k - 1]);
        }
      }
      assert forall k :: 1 <= k < |s| ==> s[k] == t[k - 1];
    }
  }

  /** The loop of `is_identifier`; `first` marks the first character. ASCII
      letters stand for `char::is_alphabetic`. */
  predicate IdentifierFrom(s: string, first: bool)
    decreases |s|
  {
    if s == [] then true
    else if IsDigit(s[0]) then !first && IdentifierFrom(s[1..], false)
    else if s[0] != '_' && !IsAsciiLetter(s[0]) then false
    else IdentifierFrom(s[1..], false)
  }

  /** `is_identifier`: rejects "_", a leading digit and any byte that is
      not a letter, digit or underscore; accepts the empty string. */
  predicate IsIdentifier(s: string)
    ensures IsIdentifier(s) <==>
              s != "_" && (s != [] ==> !IsDigit(s[0])) && forall k :: 0 <= k < |s| ==> IsAlphaNumeric(s[k])
  {
    IdentifierFromIff(s, true);
    if |s| == 1 && s[0] == '_' then
      assert s == "_";
      false
    else IdentifierFrom(s, true)
  }

  lemma {:induction false} IdentifierFromIff(s: string, first: bool)
    ensures IdentifierFrom(s, first) <==>
              (first && s != [] ==> !IsDigit(s[0])) && forall k :: 0 <= k < |s| ==> IsAlphaNumeric(s[k])
    decreases |s|
  {
    if s != [] {
      IdentifierFromIff(s[1..], false);
      assert forall k :: 1 <= k < |s| ==> s[k] == s[1..][k - 1];
    }
  }

  /** Decimal rendering of a byte, as `{:?}` prints a `u8`. */
  function Decimal(n: nat): (s: string)
    ensures |s| > 0
    decreases n
  {
    var d := ((n % 10) + '0' as int) as char;
    if n < 10 then [d] else Decimal(n / 10) + [d]
  }

  /** The outcome of `is_operator` on the byte just read, given the byte
      after it: an operator, not one, or a call of `next_token()`. */
  datatype OperatorTest = IsOp | NotOp | OpReenters

  /** The decision of `is_operator`: the doubled forms `!=`, `>>`, `>=`,
      `<<`, `<=`, `**` and every '=' not followed by a different byte call
      `next_token()`; the other operator bytes are operators; no letter,
      digit, underscore, space or line end is one. */
  function OperatorStart(r: char, peek: Option<Byte>): (t: OperatorTest)
    ensures t == OpReenters <==>
              (r == '!' && peek == Some('=')) ||
              ((r == '>' || r == '<') && (peek == Some(r) || peek == Some('='))) ||
              (r == '*' && peek == Some('*')) ||
              (r == '=' && (peek.None? || peek == Some('=')))
    ensures t == IsOp <==> r in "?+-/%&|^,!><*" && t != OpReenters
    ensures t != NotOp ==> !IsAlphaNumeric(r) && !IsSpace(r) && !IsEndOfLine(r)
  {
    if r in "?+-/%&|^," then IsOp
    else if r == '!' then (if peek == Some('=') then OpReenters else IsOp)
    else if r == '>' then (if peek == Some('>') || peek == Some('=') then OpReenters else IsOp)
    else if r == '<' then (if peek == Some('<') || peek == Some('=') then OpReenters else IsOp)
    else if r == '*' then (if peek == Some('*') then OpReenters else IsOp)
    else if r == '=' then (if peek.Some? && peek.value != '=' then NotOp else OpReenters)
    else NotOp
  }

  // ---------------------------------------------------------------------
  // The scanner's state and its transitions

  /** The fields of `Scanner` that the lexer reads and writes. */
  datatype ScanState = ScanState(
    input: seq<Byte>,
    pos: nat,
    start: nat,
    line: nat,
    token: Token,
    lastChar: Option<Byte>,
    lastWidth: nat)
  {
    /** The item being scanned lies inside the line, and the width of the
        last read is one exactly when a byte was read. */
    predicate Valid() {
      start <= pos <= |input| && lastWidth == (if lastChar.Some? then 1 else 0)
    }

    /** `Scanner::word`: the bytes of the item being scanned. */
    function Word(): seq<Byte>
      requires Valid()
    {
      input[start..pos]
    }

    /** `read_rune` on the current line; `None` past its end. */
    function ReadRune(): Option<Byte>
      requires pos <= |input|
    {
      if pos < |input| then Some(input[pos]) else None
    }

    /** `next_inner`: the byte under the cursor, consumed. */
    function Next(): (r: (ScanState, Option<Byte>))
      requires Valid()
      ensures r.0.Valid() && r.0.input == input && r.0.start == start && r.0.line == line && r.0.token == token
      ensures r.1 == ReadRune() && r.0.lastChar == r.1
      ensures r.0.pos == if r.1.Some? then pos + 1 else pos
    {
      var c := ReadRune();
      var w := if c.Some? then 1 else 0;
      (this.(lastChar := c, lastWidth := w, pos := pos + w), c)
    }

    /** `errorf`: an Error token carrying the message, whose line field is
        the start of the failed item; the line is discarded. */
    function Errorf(message: string): (s: ScanState)
      requires Valid()
      ensures s.Valid() && s.input == [] && s.pos == 0 && s.start == 0 && s.line == line
      ensures s.token.typ == Error && s.token.text == message && s.token.line == start
    {
      this.(token := Token(Error, start, message), start := 0, pos := 0, input := [])
    }

    /** `backup`: step back over the last byte read, if any; at the start of
        the item that is an internal error. */
    function Backup(): (s: ScanState)
      requires Valid()
      ensures s.Valid()
      ensures lastChar.Some? && pos > start ==> s == this.(pos := pos - 1)
      ensures lastChar.None? ==> s == this
      ensures lastChar.Some? && pos == start ==> s == Errorf("internal error: backup at start of input")
    {
      if lastChar.None? then this
      else if pos == start then Errorf("internal error: backup at start of input")
      else this.(pos := pos - lastWidth)
    }

    /** `emit`: the word becomes a token of type `t` and a new, empty word
        starts; only a Newline token advances the line count. */
    function Emit(t: TokenType): (s: ScanState)
      requires Valid()
      ensures s.Valid() && s.input == input && s.pos == pos
      ensures s.token.typ == t && s.token.text == Word() && s.token.line == s.line
      ensures s.line == (if t == Newline then line + 1 else line)
      ensures s.start == pos && s.Word() == []
    {
      var l := if t == Newline then line + 1 else line;
      this.(line := l, token := Token(t, l, input[start..pos]), start := pos)
    }

    /** `accept`: consume the next byte when it is in `valid`. */
    function Accept(valid: string): (r: (ScanState, bool))
      requires Valid()
      ensures r.0.Valid() && r.0.input == input && r.0.start == start && r.0.line == line && r.0.token == token
      ensures r.1 <==> pos < |input| && input[pos] in valid
      ensures r.0.pos == if r.1 then pos + 1 else pos
    {
      var (s, c) := Next();
      if c.Some? && c.value in valid then (s, true) else (s.Backup(), false)
    }

    /** `accept_run`: consume the longest run of bytes in `valid`. */
    function AcceptRun(valid: string): (s: ScanState)
      requires Valid()
      ensures s.Valid() && s.input == input && s.start == start && s.line == line && s.token == token
      ensures pos <= s.pos <= |input|
      ensures forall k :: pos <= k < s.pos ==> input[k] in valid
      ensures s.pos < |input| ==> input[s.pos] !in valid
      decreases |input| - pos
    {
      var (s, c) := Next();
      if c.Some? && c.value in valid then s.AcceptRun(valid) else s.Backup()
    }

    /** `peek2`: the next two bytes, with the cursor left where it was. */
    function Peek2(): (r: (ScanState, Option<Byte>, Option<Byte>))
      requires Valid()
      ensures r.0.Valid() && r.0.input == input && r.0.pos == pos && r.0.start == start
      ensures r.0.line == line && r.0.token == token
      ensures r.1 == (if pos < |input| then Some(input[pos]) else None)
      ensures r.2 == (if pos + 1 < |input| then Some(input[pos + 1]) else None)
    {
      var (s1, c1) := Next();
      var (s2, c2) := s1.Next();
      (s2.(pos := pos), c1, c2)
    }

    /** `fallthrough` on the byte `r` just read. */
    function FallThrough(r: Byte): (ScanState, Step)
      requires Valid()
    {
      if r == '.' || IsDigit(r) then (Backup(), Goto(Lex.Complex))
      else if r == '=' then
        if ReadRune() == Some('=') then (Emit(Assign), Goto(Stop)) else (this, Reenters)
      else FallThrough2(r)
    }

    /** `fallthrough2` on the byte `r` just read. */
    function FallThrough2(r: Byte): (ScanState, Step)
      requires Valid()
    {
      match OperatorStart(r, ReadRune())
      case OpReenters => (this, Reenters)
      case IsOp => (this, Goto(Lex.Operator))
      case NotOp =>
        if IsAlphaNumeric(r) then (Backup(), Goto(Lex.Identifier))
        else if r == '[' then (Emit(LeftBrack), Goto(Stop))
        else if r == ':' then (Emit(Colon), Goto(Stop))
        else if r == ']' then (Emit(RightBrack), Goto(Stop))
        else if r == '(' then (Emit(LeftParen), Goto(Stop))
        else if r == ')' then (Emit(RightParen), Goto(Stop))
        else if r as int < 128 then (Emit(TokenType.Char), Goto(Stop))
        else (Errorf("unrecognized character " + Decimal(r as int)), Goto(Stop))
    }

    /** The `Lex::Any` state. */
    function LexAny(base: nat): (ScanState, Step)
      requires Valid()
    {
      var (s, c) := Next();
      if c.None? then (s, Goto(Stop))
      else
        var r := c.value;
        if r == '\n' then (s.Emit(Newline), Goto(Stop))
        else if r == ';' then (s.Emit(Semicolon), Goto(Stop))
        else if r == '#' then (s, Goto(Comment))
        else if r == ' ' || r == '\t' then (s, Goto(Space))
        else if r == '\'' || r == '"' then (s.Backup(), Goto(Quote))
        else if r == '`' then (s, Goto(RawQuote))
        else if (r == '-' || r == '+') && s.start > 0 then
          var rr := s.input[|s.input| - 1];
          if IsAsciiAlphanumeric(rr) || rr == ')' || rr == ']' then (s, Goto(Lex.Operator))
          else
            var (s2, r1, r2) := s.Peek2();
            if r1 == Some('.') && r2.Some? && !IsNumeral(r2.value, base) then (s2, Goto(Lex.Operator))
            else s2.FallThrough(r)
        else s.FallThrough(r)
    }

    /** The reading loop of `Lex::Comment`: up to a newline or the end. */
    function SkipComment(): (s: ScanState)
      requires Valid()
      ensures s.Valid() && s.input == input && s.line == line && s.start == start && s.token == token
      ensures pos <= s.pos
      ensures forall k :: pos <= k < s.pos - 1 ==> input[k] != '\n'
      ensures s.pos == |input| || (pos < s.pos && input[s.pos - 1] == '\n')
      decreases |input| - pos
    {
      var (s, c) := Next();
      if c.Some? && c.value != '\n' then s.SkipComment() else s
    }

    /** The `Lex::Comment` state. The line's last byte becomes the word of
        the Newline token; when that byte continues a multi-byte character,
        slicing the `String` there panics in `word()`. */
    function LexComment(): (r: (ScanState, Step))
      requires Valid()
    {
      var s := SkipComment();
      if |s.input| > 0 then
        var e := s.(pos := |s.input|, start := |s.input| - 1);
        if IsContinuationByte(s.input[e.start]) then (e, Panics(NotCharBoundary(e.start)))
        else (e.Emit(Newline), Goto(Stop))
      else (s, Goto(Any))
    }

    /** The `Lex::RawQuote` state: everything up to the next backquote,
        newlines included. */
    function LexRawQuote(): (ScanState, Step)
      requires Valid()
      decreases |input| - pos
    {
      var (s, c) := Next();
      if c.None? then (s.Errorf("unterminated raw quoted string"), Goto(Stop))
      else if c.value == '`' then (s.Emit(String), Goto(Stop))
      else s.LexRawQuote()
    }

    /** The word classification of `Lex::Identifier`, once the word has been
        read: the keyword `op`, the product prefix `o.`, a defined operator
        (`isDefined` is the context's answer), a number in the input base,
        or a plain identifier. */
    function LexIdentifierWord(base: nat, isDefined: bool): (ScanState, Step)
      requires Valid()
    {
      var word := input[start..pos];
      if word == "op" then (Emit(Op), Goto(Stop))
      else if word == "o" then
        if ReadRune() == Some('.') then (this, Goto(Lex.Operator)) else (Emit(TokenType.Identifier), Goto(Stop))
      else if isDefined then (this, Goto(Lex.Operator))
      else if IsAllDigits(word, base) then (this.(pos := start), Goto(Lex.Complex))
      else (Emit(TokenType.Identifier), Goto(Stop))
    }

    /** The resets at the head of `next_token`: no byte read yet and an EOF
        token whose line field is the cursor. */
    function BeginToken(): (s: ScanState)
      requires Valid()
      ensures s.Valid() && s.input == input && s.pos == pos && s.start == start && s.line == line
      ensures s.lastChar.None? && s.lastWidth == 0 && s.token == Token(Eof, pos, "EOF")
    {
      this.(lastChar := None, lastWidth := 0, token := Token(Eof, pos, "EOF"))
    }
  }

  // ---------------------------------------------------------------------
  // Properties of the lexer states

  /** The one-byte items of `Lex::Any` and the token type each becomes. */
  function PunctuationType(r: char): Option<TokenType> {
    if r == '\n' then Some(Newline)
    else if r == ';' then Some(Semicolon)
    else if r == '[' then Some(LeftBrack)
    else if r == ']' then Some(RightBrack)
    else if r == '(' then Some(LeftParen)
    else if r == ')' then Some(RightParen)
    else if r == ':' then Some(Colon)
    else None
  }

  /** Brackets, parentheses and ':' are emitted by `fallthrough2`. */
  lemma BracketsAreEmitted(n: ScanState, r: Byte)
    requires n.Valid() && (r == '[' || r == ']' || r == '(' || r == ')' || r == ':')
    ensures n.FallThrough(r) == (n.Emit(PunctuationType(r).value), Goto(Stop))
  {
    assert OperatorStart(r, n.ReadRune()) == NotOp;
  }

  /** A punctuation byte ends the item: it is consumed and emitted with the
      word before it as a token of its type. */
  lemma LexAnyPunctuation(s: ScanState, base: nat)
    requires s.Valid() && s.pos < |s.input| && PunctuationType(s.input[s.pos]).Some?
    ensures var (t, step) := s.LexAny(base);
            step == Goto(Stop) && t.input == s.input &&
            t.token.typ == PunctuationType(s.input[s.pos]).value &&
            t.token.text == s.input[s.start..s.pos + 1] &&
            t.pos == s.pos + 1 && t.start == s.pos + 1 &&
            t.line == (if s.input[s.pos] == '\n' then s.line + 1 else s.line)
  {
    var r := s.input[s.pos];
    var n := s.Next().0;
    var typ := PunctuationType(r).value;
    assert n.Word() == s.input[s.start..s.pos + 1];
    if r == '\n' || r == ';' {
      assert s.LexAny(base) == (n.Emit(typ), Goto(Stop));
    } else {
      LexAnyFallsThrough(s, base);
      BracketsAreEmitted(n, r);
    }
  }

  /** A sign byte always leads to the operator state, whatever follows it:
      the numeric-sign tests of `Lex::Any` fall through to `is_operator`,
      which accepts '+' and '-'. */
  lemma SignIsOperator(s: ScanState, base: nat)
    requires s.Valid() && s.pos < |s.input| && s.input[s.pos] in "+-"
    ensures var (t, step) := s.LexAny(base);
            step == Goto(Lex.Operator) && t.input == s.input && t.pos == s.pos + 1 &&
            t.start == s.start && t.token == s.token && t.line == s.line
  {
    var (n, c) := s.Next();
    assert c == Some(s.input[s.pos]);
    if n.start > 0 {
      var (n2, r1, r2) := n.Peek2();
      assert OperatorStart(s.input[s.pos], n2.ReadRune()) == IsOp;
    }
  }

  /** A digit or '.' is put back and the number state takes over; a letter
      or underscore is put back for the identifier state. */
  lemma LexAnyPutsBack(s: ScanState, base: nat)
    requires s.Valid() && s.pos < |s.input|
    requires var r := s.input[s.pos]; r == '.' || IsAlphaNumeric(r)
    ensures var (t, step) := s.LexAny(base);
            step == (if s.input[s.pos] == '.' || IsDigit(s.input[s.pos]) then Goto(Lex.Complex) else Goto(Lex.Identifier)) &&
            t.input == s.input && t.pos == s.pos && t.start == s.start && t.token == s.token
  {
    var (n, c) := s.Next();
    assert c == Some(s.input[s.pos]);
    var r := s.input[s.pos];
    if !(r == '.' || IsDigit(r)) {
      assert OperatorStart(r, n.ReadRune()) == NotOp;
    }
  }

  /** At the end of the line `Lex::Any` stops without touching the token. */
  lemma LexAnyAtEnd(s: ScanState, base: nat)
    requires s.Valid() && s.pos == |s.input|
    ensures var (t, step) := s.LexAny(base);
            step == Goto(Stop) && t.token == s.token && t.pos == s.pos && t.start == s.start
  {
  }

  /** '#' moves to the comment state, '`' to the raw-quote state and a
      space or tab to the space state, each with the byte consumed; a quote
      is put back for the quote state. The token is untouched. */
  lemma LexAnyStateChanges(s: ScanState, base: nat)
    requires s.Valid() && s.pos < |s.input|
    requires var r := s.input[s.pos]; r in "#` \t'\""
    ensures var r := s.input[s.pos];
            var (t, step) := s.LexAny(base);
            t.input == s.input && t.start == s.start && t.token == s.token && t.line == s.line &&
            (r == '#' ==> step == Goto(Comment) && t.pos == s.pos + 1) &&
            (r == '`' ==> step == Goto(RawQuote) && t.pos == s.pos + 1) &&
            (r == ' ' || r == '\t' ==> step == Goto(Space) && t.pos == s.pos + 1) &&
            (r == '\'' || r == '"' ==> step == Goto(Quote) && t.pos == s.pos)
  {
    var (n, c) := s.Next();
    assert c == Some(s.input[s.pos]);
  }

  /** A byte that `Lex::Any` does not handle itself goes to `fallthrough`. */
  lemma LexAnyFallsThrough(s: ScanState, base: nat)
    requires s.Valid() && s.pos < |s.input|
    requires var r := s.input[s.pos];
             r != '\n' && r != ';' && r != '#' && r != ' ' && r != '\t' && r != '\'' && r != '"' &&
             r != '`' && r != '+' && r != '-'
    ensures s.LexAny(base) == s.Next().0.FallThrough(s.input[s.pos])
  {
  }

  /** The operator bytes other than the signs: '?', '/', '%', '&', '|', '^'
      and ',' move to the operator state; '!', '>', '<' and '*' do too,
      unless they start a doubled form, where the scanner is re-entered. */
  lemma LexAnyOperatorBytes(s: ScanState, base: nat)
    requires s.Valid() && s.pos < |s.input|
    requires s.input[s.pos] in "?/%&|^,!><*"
    ensures var r := s.input[s.pos];
            var next := if s.pos + 1 < |s.input| then Some(s.input[s.pos + 1]) else None;
            var (t, step) := s.LexAny(base);
            if (r == '!' && next == Some('=')) || ((r == '>' || r == '<') && (next == Some(r) || next == Some('=')))
               || (r == '*' && next == Some('*'))
            then step == Reenters
            else step == Goto(Lex.Operator) && t.pos == s.pos + 1 && t.start == s.start && t.token == s.token
  {
    var r := s.input[s.pos];
    LexAnyFallsThrough(s, base);
    var n := s.Next().0;
    assert n.ReadRune() == (if s.pos + 1 < |s.input| then Some(s.input[s.pos + 1]) else None);
    assert n.FallThrough(r) == n.FallThrough2(r);
  }

  /** An ASCII byte that no other rule of `Lex::Any` claims. */
  predicate CharTokenByte(r: char) {
    r as int < 128 && r !in "\n;#` \t'\".=?+-/%&|^,!<>*[]():" && !IsAlphaNumeric(r)
  }

  /** Any other ASCII byte becomes a one-byte Char token; a byte of 128 or
      more is an "unrecognized character" error, which discards the line. */
  lemma LexAnyCharOrError(s: ScanState, base: nat)
    requires s.Valid() && s.pos < |s.input|
    requires var r := s.input[s.pos]; CharTokenByte(r) || r as int >= 128
    ensures var r := s.input[s.pos];
            var (t, step) := s.LexAny(base);
            step == Goto(Stop) &&
            if r as int < 128 then
              t.token == Token(TokenType.Char, s.line, s.input[s.start..s.pos + 1]) &&
              t.pos == s.pos + 1 && t.start == s.pos + 1 && t.input == s.input
            else
              t.token == Token(Error, s.start, "unrecognized character " + Decimal(r as int)) &&
              t.input == [] && t.pos == 0 && t.start == 0
  {
    var (n, c) := s.Next();
    assert c == Some(s.input[s.pos]);
    assert OperatorStart(s.input[s.pos], n.ReadRune()) == NotOp;
    assert n.Word() == s.input[s.start..s.pos + 1];
  }

  /** Only '=' directly followed by a second '=' emits an Assign token, and
      its text is that first '=' alone; a lone '=' re-enters the scanner. */
  lemma AssignOnlyBeforeEquals(s: ScanState, base: nat)
    requires s.Valid() && s.pos < |s.input| && s.input[s.pos] == '='
    ensures var (t, step) := s.LexAny(base);
            if s.pos + 1 < |s.input| && s.input[s.pos + 1] == '=' then
              step == Goto(Stop) && t.token.typ == Assign && t.token.text == s.input[s.start..s.pos + 1]
            else step == Reenters
  {
    var (n, c) := s.Next();
    assert c == Some('=');
  }

  /** A comment runs to the end of the line, which is emitted as a Newline
      token holding the line's last byte; when that byte continues a
      multi-byte character the slice in `word()` panics instead; on an empty
      line the scanner goes back to `Lex::Any`. */
  lemma {:induction false} CommentEndsLine(s: ScanState)
    requires s.Valid()
    ensures var (t, step) := s.LexComment();
            if |s.input| == 0 then step == Goto(Any) && t.token == s.token
            else if IsContinuationByte(s.input[|s.input| - 1]) then
              step == Panics(NotCharBoundary(|s.input| - 1))
            else
              step == Goto(Stop) && t.token == Token(Newline, s.line + 1, [s.input[|s.input| - 1]]) &&
              t.pos == |s.input| && t.start == |s.input| && t.line == s.line + 1
  {
    var k := s.SkipComment();
    if |s.input| > 0 {
      var e := k.(pos := |k.input|, start := |k.input| - 1);
      assert e.Word() == [s.input[|s.input| - 1]];
    }
  }

  /** The first backquote at or after `pos`, when there is one. */
  predicate BackquoteAt(s: seq<Byte>, from: nat, k: nat) {
    from <= k < |s| && s[k] == '`' && forall j :: from <= j < k ==> s[j] != '`'
  }

  /** A raw string ends at the first backquote and is emitted whole, from the
      start of the item through that backquote; without one the line ends
      in an "unterminated raw quoted string" error. */
  lemma {:induction false} RawQuoteToBackquote(s: ScanState)
    requires s.Valid()
    ensures var (t, step) := s.LexRawQuote();
            step == Goto(Stop) &&
            if exists k: nat :: BackquoteAt(s.input, s.pos, k) then
              forall k: nat :: BackquoteAt(s.input, s.pos, k) ==>
                t.token == Token(String, s.line, s.input[s.start..k + 1]) &&
                t.pos == k + 1 && t.start == k + 1 && t.input == s.input
            else
              t.token == Token(Error, s.start, "unterminated raw quoted string") && t.input == []
    decreases |s.input| - s.pos
  {
    var (n, c) := s.Next();
    if c.Some? && c.value != '`' {
      assert s.LexRawQuote() == n.LexRawQuote();
      RawQuoteToBackquote(n);
      assert n.pos == s.pos + 1 && s.input[s.pos] != '`';
      forall k: nat
        ensures BackquoteAt(s.input, n.pos, k) <==> BackquoteAt(s.input, s.pos, k)
      {
      }
    } else if c.Some? {
      assert s.LexRawQuote() == (n.Emit(String), Goto(Stop));
      assert BackquoteAt(s.input, s.pos, s.pos);
      forall k: nat | BackquoteAt(s.input, s.pos, k)
        ensures k == s.pos
      {
      }
    } else {
      assert s.LexRawQuote() == (n.Errorf("unterminated raw quoted string"), Goto(Stop));
      forall k: nat | BackquoteAt(s.input, s.pos, k)
        ensures false
      {
      }
    }
  }

  /** The word "op" is the keyword Op whatever the context defines; "o"
      before '.' starts a product operator, and is an identifier otherwise,
      defined or not; any other defined word is an operator;
      an undefined word of digits in the input base is rescanned as a
      number; anything else is an identifier. */
  lemma IdentifierWordKinds(s: ScanState, base: nat, isDefined: bool)
    requires s.Valid()
    ensures var (t, step) := s.LexIdentifierWord(base, isDefined);
            var w := s.Word();
            (w == "op" ==> step == Goto(Stop) && t.token == Token(Op, s.line, "op") && t.start == s.pos) &&
            (w == "o" ==> (step == Goto(Lex.Operator) <==> s.ReadRune() == Some('.'))) &&
            (w == "o" && s.ReadRune() != Some('.') ==>
               step == Goto(Stop) && t.token == Token(TokenType.Identifier, s.line, "o")) &&
            (w != "op" && w != "o" && isDefined ==> step == Goto(Lex.Operator) && t == s) &&
            (w != "op" && w != "o" && !isDefined ==>
               if IsAllDigits(w, base) then step == Goto(Lex.Complex) && t.pos == s.start && t.token == s.token
               else step == Goto(Stop) && t.token == Token(TokenType.Identifier, s.line, w))
  {
  }

  // ---------------------------------------------------------------------
  // The scanner object

  /** `Scanner`: a cursor over the current line. The input base is the
      context's configuration, fixed for the scanner's life. */
  class Scanner {
    const inputBase: nat
    var input: seq<Byte>
    var pos: nat
    var start: nat
    var line: nat
    var token: Token
    var lastChar: Option<Byte>
    var lastWidth: nat

    function State(): ScanState
      reads this
    {
      ScanState(input, pos, start, line, token, lastChar, lastWidth)
    }

    predicate Valid()
      reads this
    {
      State().Valid()
    }

    /** `Scanner::new`, with the current line already loaded. */
    constructor (inputBase: nat, input: seq<Byte>)
      ensures this.inputBase == inputBase && Valid()
      ensures State() == ScanState(input, 0, 0, 0, Token(Eof, 0, ""), None, 0)
    {
      this.inputBase := inputBase;
      this.input := input;
      pos, start, line := 0, 0, 0;
      token := Token(Eof, 0, "");
      lastChar, lastWidth := None, 0;
    }

    function Word(): seq<Byte>
      requires Valid()
      reads this
    {
      input[start..pos]
    }

    method NextInner() returns (c: Option<Byte>)
      requires Valid()
      modifies this
      ensures Valid() && (State(), c) == old(State().Next())
    {
      if pos < |input| {
        c := Some(input[pos]);
        lastWidth := 1;
      } else {
        c := None;
        lastWidth := 0;
      }
      lastChar := c;
      pos := pos + lastWidth;
    }

    method Peek() returns (c: Option<Byte>)
      requires Valid()
      ensures c == State().ReadRune()
    {
      c := if pos < |input| then Some(input[pos]) else None;
    }

    method Peek2() returns (c1: Option<Byte>, c2: Option<Byte>)
      requires Valid()
      modifies this
      ensures Valid() && (State(), c1, c2) == old(State().Peek2())
    {
      var p := pos;
      c1 := NextInner();
      c2 := NextInner();
      pos := p;
    }

    method Errorf(message: string) returns (next: Lex)
      requires Valid()
      modifies this
      ensures Valid() && State() == old(State().Errorf(message)) && next == Stop
    {
      token := Token(Error, start, message);
      start := 0;
      pos := 0;
      input := [];
      next := Stop;
    }

    method Backup()
      requires Valid()
      modifies this
      ensures Valid() && State() == old(State().Backup())
    {
      if lastChar.None? {
        return;
      }
      if pos == start {
        var _ := Errorf("internal error: backup at start of input");
      }
      if pos > start {
        pos := pos - lastWidth;
      }
    }

    method Emit(t: TokenType) returns (next: Lex)
      requires Valid()
      modifies this
      ensures Valid() && State() == old(State().Emit(t)) && next == Stop
    {
      if t == Newline {
        line := line + 1;
      }
      token := Token(t, line, Word());
      start := pos;
      next := Stop;
    }

    method Accept(valid: string) returns (ok: bool)
      requires Valid()
      modifies this
      ensures Valid() && (State(), ok) == old(State().Accept(valid))
    {
      var c := NextInner();
      if c.Some? && c.value in valid {
        return true;
      }
      Backup();
      ok := false;
    }

    method AcceptRun(valid: string)
      requires Valid()
      modifies this
      ensures Valid() && State() == old(State().AcceptRun(valid))
    {
      var c := NextInner();
      while c.Some? && c.value in valid
        invariant Valid() && input == old(input)
        invariant c == lastChar
        invariant old(State().AcceptRun(valid)) ==
                  if c.Some? && c.value in valid then State().AcceptRun(valid) else State().Backup()
        decreases |input| - pos + (if c.Some? then 1 else 0)
      {
        c := NextInner();
      }
      Backup();
    }

    method FallThrough(r: Byte) returns (step: Step)
      requires Valid()
      modifies this
      ensures Valid() && (State(), step) == old(State().FallThrough(r))
    {
      if r == '.' || IsDigit(r) {
        Backup();
        return Goto(Lex.Complex);
      }
      if r == '=' {
        var c := Peek();
        if c == Some('=') {
          var next := Emit(Assign);
          return Goto(next);
        }
        return Reenters;
      }
      step := FallThrough2(r);
    }

    method FallThrough2(r: Byte) returns (step: Step)
      requires Valid()
      modifies this
      ensures Valid() && (State(), step) == old(State().FallThrough2(r))
    {
      var p := Peek();
      var test := OperatorStart(r, p);
      if test == OpReenters {
        return Reenters;
      } else if test == IsOp {
        return Goto(Lex.Operator);
      }
      var next;
      if IsAlphaNumeric(r) {
        Backup();
        return Goto(Lex.Identifier);
      } else if r == '[' {
        next := Emit(LeftBrack);
      } else if r == ':' {
        next := Emit(Colon);
      } else if r == ']' {
        next := Emit(RightBrack);
      } else if r == '(' {
        next := Emit(LeftParen);
      } else if r == ')' {
        next := Emit(RightParen);
      } else if r as int < 128 {
        next := Emit(TokenType.Char);
      } else {
        next := Errorf("unrecognized character " + Decimal(r as int));
      }
      step := Goto(next);
    }

    /** One run of the `Lex::Any` state. */
    method LexAny() returns (step: Step)
      requires Valid()
      modifies this
      ensures Valid() && (State(), step) == old(State().LexAny(inputBase))
    {
      var c := NextInner();
      if c.None? {
        return Goto(Stop);
      }
      var r := c.value;
      var next;
      if r == '\n' {
        next := Emit(Newline);
        return Goto(next);
      } else if r == ';' {
        next := Emit(Semicolon);
        return Goto(next);
      } else if r == '#' {
        return Goto(Comment);
      } else if r == ' ' || r == '\t' {
        return Goto(Space);
      } else if r == '\'' || r == '"' {
        Backup();
        return Goto(Quote);
      } else if r == '`' {
        return Goto(RawQuote);
      } else if (r == '-' || r == '+') && start > 0 {
        var rr := input[|input| - 1];
        if IsAsciiAlphanumeric(rr) || rr == ')' || rr == ']' {
          return Goto(Lex.Operator);
        }
        var r1, r2 := Peek2();
        if r1 == Some('.') && r2.Some? && !IsNumeral(r2.value, inputBase) {
          return Goto(Lex.Operator);
        }
      }
      step := FallThrough(r);
    }

    /** One run of the `Lex::Comment` state. */
    method LexComment() returns (step: Step)
      requires Valid()
      modifies this
      ensures Valid() && (State(), step) == old(State().LexComment())
    {
      var c := NextInner();
      while c.Some? && c.value != '\n'
        invariant Valid() && input == old(input)
        invariant old(State().SkipComment()) ==
                  if c.Some? && c.value != '\n' then State().SkipComment() else State()
        decreases |input| - pos + (if c.Some? then 1 else 0)
      {
        c := NextInner();
      }
      if |input| > 0 {
        pos := |input|;
        start := pos - 1;
        if IsContinuationByte(input[start]) {
          return Panics(NotCharBoundary(start));
        }
        var next := Emit(Newline);
        return Goto(next);
      }
      step := Goto(Any);
    }

    /** One run of the `Lex::RawQuote` state. */
    method LexRawQuote() returns (step: Step)
      requires Valid()
      modifies this
      ensures Valid() && (State(), step) == old(State().LexRawQuote())
    {
      while true
        invariant Valid() && State().LexRawQuote() == old(State().LexRawQuote())
        decreases |input| - pos
      {
        var c := NextInner();
        if c.None? {
          var next := Errorf("unterminated raw quoted string");
          return Goto(next);
        }
        if c.value == '`' {
          var next := Emit(String);
          return Goto(next);
        }
      }
    }

    /** The word classification that ends `Lex::Identifier`. */
    method LexIdentifierWord(isDefined: bool) returns (step: Step)
      requires Valid()
      modifies this
      ensures Valid() && (State(), step) == old(State().LexIdentifierWord(inputBase, isDefined))
    {
      var word := Word();
      var next;
      if word == "op" {
        next := Emit(Op);
        return Goto(next);
      } else if word == "o" {
        var c := Peek();
        if c == Some('.') {
          return Goto(Lex.Operator);
        }
      } else if isDefined {
        return Goto(Lex.Operator);
      } else if IsAllDigits(word, inputBase) {
        pos := start;
        return Goto(Lex.Complex);
      }
      next := Emit(TokenType.Identifier);
      step := Goto(next);
    }

    /** The resets at the head of `next_token`. */
    method BeginToken()
      requires Valid()
      modifies this
      ensures Valid() && State() == old(State().BeginToken())
    {
      lastChar := None;
      lastWidth := 0;
      token := Token(Eof, pos, "EOF");
    }
  }
}
