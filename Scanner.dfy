/**
 * What one call of the lexer recognises, stated on the input text as a
 * whole: from the index of the lookahead character, skip whitespace, then
 * read one token (or fail). The imperative lexer in module Lexers is proved
 * to do exactly this, one character at a time.
 *
 * The character classes are the ASCII part of Java's `Character.isWhitespace`,
 * `isLetter` and `isDigit`. A position past the end of the text reads as -1
 * (the reader's end of stream), which no class contains and which prints as
 * the char U+FFFF when cast.
 */
module Scanner {
  import opened Results
  import opened Numerals
  import opened Lines
  import opened Tokens
  import opened Recognition

  predicate IsSpace(c: char) {
    c == ' ' || c == '\t' || c == '\n' || c == '\U{000B}' || c == '\U{000C}' || c == '\r'
    || ('\U{001C}' <= c <= '\U{001F}')
  }

  predicate IsLetter(c: char) { 'a' <= c <= 'z' || 'A' <= c <= 'Z' }

  predicate IsVarStart(c: char) { c == 'x' || c == 'X' }

  /** The three character classes the lexer loops over. */
  datatype CharClass = Whitespace | Letters | Digits

  predicate Member(cls: CharClass, c: char) {
    match cls
    case Whitespace => IsSpace(c)
    case Letters => IsLetter(c)
    case Digits => IsDigit(c)
  }

  /** The reader's result at index `i`: the character code, or -1 past the end. */
  function Ch(s: string, i: nat): (k: int)
    ensures k == -1 <==> i >= |s|
  {
    if i < |s| then s[i] as int else -1
  }

  /** Java's `(char) lookahead` for the lookahead at index `i`. */
  function CharAt(s: string, i: nat): char {
    if i < |s| then s[i] else '\U{FFFF}'
  }

  /**
   * The end of the run of `cls` characters starting at `i`: the first index
   * at or after `i` that is past the text or holds a character outside `cls`.
   */
  function RunEnd(s: string, i: nat, cls: CharClass): (j: nat)
    ensures i <= j
    ensures i < j ==> j <= |s|
    ensures forall k :: i <= k < j ==> Member(cls, s[k])
    ensures j < |s| ==> !Member(cls, s[j])
    ensures i <= |s| ==> j <= |s|
    ensures i > |s| ==> j == i
    decreases if i <= |s| then |s| - i else 0
  {
    if i < |s| && Member(cls, s[i]) then RunEnd(s, i + 1, cls) else i
  }

  /** Any index with the two properties of a run's end is that end. */
  lemma RunEndUnique(s: string, i: nat, j: nat, cls: CharClass)
    requires i <= j && (i < j ==> j <= |s|)
    requires forall k :: i <= k < j ==> Member(cls, s[k])
    requires j < |s| ==> !Member(cls, s[j])
    ensures RunEnd(s, i, cls) == j
  {
    var e := RunEnd(s, i, cls);
    if e < j {
      assert false;
    } else if j < e {
      assert false;
    }
  }

  /** Line counter after `abs` reads: the line breaks among the characters read. */
  function LineAt(s: string, abs: nat): nat {
    if abs == 0 then 0
    else LineAt(s, abs - 1) + if abs - 1 < |s| && s[abs - 1] == '\n' then 1 else 0
  }

  /** The read count at which the current line began: just after the last line break read. */
  function LineBegin(s: string, abs: nat): (k: nat)
    ensures k <= abs
  {
    if abs == 0 then 0
    else if abs - 1 < |s| && s[abs - 1] == '\n' then abs
    else LineBegin(s, abs - 1)
  }

  /** Column counter after `abs` reads: reads since the last line break (reads of -1 count too). */
  function PosAt(s: string, abs: nat): nat {
    abs - LineBegin(s, abs)
  }

  /**
   * One more read: a line break counts a line and puts the column back to
   * 0; anything else, -1 included, moves the column on by one.
   */
  lemma ReadCounts(s: string, abs: nat)
    ensures abs < |s| && s[abs] == '\n' ==> LineAt(s, abs + 1) == LineAt(s, abs) + 1 && PosAt(s, abs + 1) == 0
    ensures !(abs < |s| && s[abs] == '\n') ==> LineAt(s, abs + 1) == LineAt(s, abs) && PosAt(s, abs + 1) == PosAt(s, abs) + 1
  {
  }

  /** The line counter is the number of line breaks in the text read so far. */
  lemma {:induction false} LineAtCounts(s: string, abs: nat)
    requires abs <= |s|
    ensures LineAt(s, abs) == Newlines(s[..abs])
  {
    if abs > 0 {
      LineAtCounts(s, abs - 1);
      NewlinesConcat(s[..abs - 1], [s[abs - 1]]);
      assert s[..abs] == s[..abs - 1] + [s[abs - 1]];
    }
  }

  /** The column counts the reads since the last line break, none of which is a line break. */
  lemma {:induction false} PosAtCounts(s: string, abs: nat)
    ensures forall k :: LineBegin(s, abs) <= k < abs && k < |s| ==> s[k] != '\n'
    ensures LineBegin(s, abs) > 0 ==> LineBegin(s, abs) <= |s| && s[LineBegin(s, abs) - 1] == '\n'
  {
    if abs > 0 && !(abs - 1 < |s| && s[abs - 1] == '\n') {
      PosAtCounts(s, abs - 1);
    }
  }

  /** One outcome of the lexer. */
  datatype Lexed =
    | AtEnd                                        // the EOF token: only whitespace was left
    | Lexeme(token: Token, text: string, next: nat) // a token, its lexeme, the index of the new lookahead
    | Rejected(error: RecognitionError)            // a RecognitionException

  /**
   * `lex()` with the lookahead at index `i`. The reader has then performed
   * `i + 1` reads, so the lookahead at index `j` goes with `abs == j + 1`.
   */
  function Scan(s: string, i: nat): Lexed {
    TokenAt(s, RunEnd(s, i, Whitespace))
  }

  /** The token that starts at `w`, once the whitespace before it is skipped. */
  function TokenAt(s: string, w: nat): Lexed {
    if w >= |s| then AtEnd
    else if IsOperator(s, w) then OperatorAt(s, w)
    else Word(s, w, WordStart(s, w))
  }

  /** The one-character tokens. */
  function Punctuation(c: char): Option<Token> {
    if c == ';' then Some(SEMICOLON)
    else if c == '=' then Some(EQU)
    else if c == '+' then Some(PLUS)
    else if c == '-' then Some(MINUS)
    else if c == '*' then Some(MULT)
    else None
  }

  /** An `=` follows the character at `w`. */
  predicate EqualsNext(s: string, w: nat) {
    w + 1 < |s| && s[w + 1] == '='
  }

  /** The `switch` of `lex()` returns a token for the character at `w`. */
  predicate IsOperator(s: string, w: nat)
    requires w < |s|
  {
    s[w] == ':' || Punctuation(s[w]).Some? || ((s[w] == '!' || s[w] == '<') && EqualsNext(s, w))
  }

  /** The token the `switch` returns. */
  function OperatorAt(s: string, w: nat): Lexed
    requires w < |s| && IsOperator(s, w)
  {
    var c := s[w];
    if c == ':' then
      if EqualsNext(s, w) then Lexeme(ASSIGN, ":=", w + 2) else Lexeme(COLON, ":", w + 1)
    else if c == '!' then Lexeme(NEQ, "!=", w + 2)
    else if c == '<' then Lexeme(LTE, "<=", w + 2)
    else Lexeme(Punctuation(c).value, [c], w + 1)
  }

  /** Where the word checks look: past a `!` or `<` that was not followed by `=`. */
  function WordStart(s: string, w: nat): nat
    requires w < |s|
  {
    if s[w] == '!' || s[w] == '<' then w + 1 else w
  }

  /**
   * The variable, keyword, number and unknown-character cases, with the
   * lookahead at `t` and the lexeme begun at `p` (one `!` or `<` may
   * already be in it).
   */
  function Word(s: string, p: nat, t: nat): Lexed
    requires p <= t <= p + 1 && t <= |s|
  {
    if t < |s| && IsVarStart(s[t]) then VariableAt(s, p, t)
    else if t < |s| && IsLetter(s[t]) then KeywordAt(s, p, t)
    else if t < |s| && IsDigit(s[t]) then NumberAt(s, p, t)
    else UnknownAt(s, t)
  }

  /** An x: the character after it is read whatever it is, then a run of digits. */
  function VariableAt(s: string, p: nat, t: nat): Lexed
    requires p <= t < |s|
  {
    var e := RunEnd(s, t + 2, Digits);
    if t + 1 < |s| && IsDigit(s[t + 1]) then Lexeme(VAR, s[p..e], e)
    else Rejected(AtPosition("Variable expected but found: " + [CharAt(s, e)], LineAt(s, e + 1), PosAt(s, e + 1), e + 1))
  }

  /** A run of letters, looked up in the keyword table (with any `!` or `<` before it). */
  function KeywordAt(s: string, p: nat, t: nat): Lexed
    requires p <= t < |s|
  {
    var e := RunEnd(s, t, Letters);
    var text := s[p..e];
    if text in KEYWORDS then Lexeme(KEYWORDS[text], text, e)
    else Rejected(SpanningLine("Unkown keyword: '" + text + "'", LineAt(s, e + 1), PosAt(s, e + 1), e + 1 - |text| - 1, e + 1 - 1))
  }

  /** A run of digits. */
  function NumberAt(s: string, p: nat, t: nat): Lexed
    requires p <= t < |s|
  {
    var e := RunEnd(s, t, Digits);
    Lexeme(NUM, s[p..e], e)
  }

  /** Any other character, -1 included, is rejected where it stands. */
  function UnknownAt(s: string, t: nat): Lexed {
    Rejected(AtPosition("Unkown character: '" + [CharAt(s, t)] + "'", LineAt(s, t + 1), PosAt(s, t + 1), t + 1))
  }

  /** EOF is never a lexeme: it comes only as `AtEnd`. */
  lemma LexemeNotEnd(s: string, i: nat)
    ensures Scan(s, i).Lexeme? ==> Scan(s, i).token != EOF
  {
    KeywordTable();
  }

  /** A token moves the lookahead forward, and never past the end of the text. */
  lemma ScanAdvances(s: string, i: nat)
    ensures Scan(s, i).Lexeme? ==> i < Scan(s, i).next <= |s|
  {
  }

  /** A token as `next()` hands it out, with the lexeme it was read from. */
  datatype Item = Item(token: Token, text: string)

  /**
   * What successive calls of `next()` produce: the items in order, ending
   * at the first failure. The model stops the stream there; the compiler
   * never calls `next()` again after an exception.
   */
  datatype Stream = More(item: Item, later: Stream) | Stop(failure: Raised) {
    /** What the next call of `next()` returns or throws. */
    function Head(): Result<Token, Failure> {
      if Stop? then Err(failure) else Ok(item.token)
    }

    /** How many items are left before the failure. */
    function Count(): nat {
      if Stop? then 0 else 1 + later.Count()
    }
  }

  /**
   * The tokens of `s` from the lookahead index `i` on: each `lex()` in turn,
   * ending in EOF (after which `next()` throws IllegalStateException) or in
   * the first RecognitionException.
   */
  function Lexemes(s: string, i: nat): Stream
    decreases |s| - i, 1
  {
    LexemesFrom(s, i)
  }

  /**
   * One step of `Lexemes`: the outcome of `Scan` at `i`, then the rest.
   * Kept apart from `Lexemes` so that a proof which only carries the
   * stream along does not also unfold the scanner.
   */
  function LexemesFrom(s: string, i: nat): Stream
    decreases |s| - i, 0
  {
    match Scan(s, i)
    case AtEnd => More(Item(EOF, ""), Stop(IllegalState))
    case Rejected(e) => Stop(Recognized(e))
    case Lexeme(t, text, next) =>
      ScanAdvances(s, i);
      More(Item(t, text), Lexemes(s, next))
  }
}
