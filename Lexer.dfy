/**
 * The lexer as the object it is: one character of lookahead over a reader,
 * a lexeme buffer, a one-token buffer, an end-of-input flag and three
 * position counters, all updated in place by `read`, `reset` and `lex`.
 *
 * The reader over the program text is the index `abs`: every `read` takes
 * the next character, or -1 once the text is used up, and counts one step of
 * `abs`. The lookahead 0 means that nothing has been read yet, so the text
 * must not contain the character 0.
 */
module Lexers {
  import opened Results
  import opened Numerals
  import opened Lines
  import opened Tokens
  import opened Recognition
  import opened Scanner

  predicate NoNul(s: string) { forall i :: 0 <= i < |s| ==> s[i] != '\0' }

  /** Java's `(char)` cast of a lookahead: a character stays itself, -1 becomes U+FFFF. */
  function ToChar(k: int): char {
    if 0 <= k < 0xD800 || 0xE000 <= k < 0x11_0000 then k as char else '\U{FFFF}'
  }

  /** The token a lexer outcome leaves in the token buffer. */
  function Buffered(sc: Lexed): Option<Token> {
    match sc
    case AtEnd => Some(EOF)
    case Lexeme(t, _, _) => Some(t)
    case Rejected(_) => None
  }

  /** Whether a lexer outcome completes or throws. */
  function Verdict(sc: Lexed): Outcome<Failure> {
    if sc.Rejected? then Fail(Recognized(sc.error)) else Pass
  }

  /** What `hasNext` returns after lexing: true, or the exception lexing threw. */
  function Answer(sc: Lexed): Result<bool, Failure> {
    if sc.Rejected? then Err(Recognized(sc.error)) else Ok(true)
  }

  /** What `next` returns for a lexer outcome, or the exception it throws. */
  function Delivered(sc: Lexed): Result<Token, Failure> {
    match sc
    case AtEnd => Ok(EOF)
    case Lexeme(t, _, _) => Ok(t)
    case Rejected(e) => Err(Recognized(e))
  }

  lemma SliceExtend(s: string, p: nat, c: nat)
    requires p <= c < |s|
    ensures s[p..c] + [s[c]] == s[p..c + 1]
  {
  }

  class Lexer {
    const input: string
    var lookahead: int
    var lexeme: string
    var token: Option<Token>
    var eof: bool
    var line: int
    var pos: int
    var abs: int

    /**
     * The counters describe the reads so far: `abs` reads, the lookahead is
     * the result of the last one, `line` counts the line breaks read and `pos`
     * the reads since the last of them.
     */
    ghost predicate Valid()
      reads this`lookahead, this`abs, this`line, this`pos
    {
      && NoNul(input)
      && abs >= 0
      && lookahead == (if abs == 0 then 0 else Ch(input, abs - 1))
      && (abs > 0 ==> ToChar(lookahead) == CharAt(input, abs - 1))
      && line == LineAt(input, abs)
      && pos == PosAt(input, abs)
    }

    /** Index of the lookahead character in the text. */
    function Cursor(): nat
      reads this`abs
    {
      if abs <= 0 then 0 else abs - 1
    }

    /** The EOF token is buffered only once the end is reached, and nothing else is buffered after it. */
    ghost predicate Ended()
      reads this`token, this`eof
    {
      && (token == Some(EOF) ==> eof)
      && (eof ==> token == None || token == Some(EOF))
    }

    /** The state a lexer outcome leaves, apart from the token buffer. */
    ghost predicate Landed(sc: Lexed)
      reads this
    {
      && eof == sc.AtEnd?
      && (sc.AtEnd? ==> lexeme == [])
      && (sc.Lexeme? ==> lexeme == sc.text && Cursor() == sc.next)
    }

    /**
     * What the calls of `next` hand out from now on: the buffered token with
     * its lexeme, then the tokens of the text from the lookahead on.
     */
    ghost function Pending(): Stream
      reads this
    {
      PendingFrom(Cursor())
    }

    /** `Pending` with the lookahead index given as `k`. */
    ghost function PendingFrom(k: nat): Stream
      reads this
    {
      var later := if eof then Stop(IllegalState) else Lexemes(input, k);
      if token.Some? then More(Item(token.value, lexeme), later) else later
    }

    constructor(program: string)
      requires NoNul(program)
      ensures input == program && Valid() && Ended()
      ensures abs == 0 && lookahead == 0 && lexeme == [] && token == None && !eof
      ensures Pending() == Lexemes(program, 0)
    {
      input := program;
      lookahead := 0;
      lexeme := [];
      token := None;
      eof := false;
      line := 0;
      pos := 0;
      abs := 0;
      new;
      assert input[..0] == [];
    }

    /**
     * `read`: append the lookahead to the lexeme (unless nothing was read
     * yet), take the next character, and count it.
     */
    method Read() returns (r: Outcome<Failure>)
      requires Valid()
      modifies this`lookahead, this`lexeme, this`line, this`pos, this`abs
      ensures Valid()
      ensures old(eof) ==> r == Fail(IllegalState) && abs == old(abs) && lexeme == old(lexeme)
      ensures !old(eof) ==> r == Pass && abs == old(abs) + 1
      ensures !old(eof) ==> lexeme == old(lexeme) + if old(abs) == 0 then [] else [CharAt(input, old(abs) - 1)]
    {
      if eof {
        return Fail(IllegalState);
      }
      if lookahead != 0 {
        lexeme := lexeme + [ToChar(lookahead)];
      }
      lookahead := if abs < |input| then input[abs] as int else -1;
      if lookahead == '\n' as int {
        line := line + 1;
        abs := abs + 1;
        pos := 0;
      } else {
        pos := pos + 1;
        abs := abs + 1;
      }
      r := Pass;
    }

    /** `reset`: empty the lexeme and the token buffer; read the first character if none was read. */
    method Reset() returns (r: Outcome<Failure>)
      requires Valid()
      modifies this
      ensures Valid() && eof == old(eof)
      ensures old(eof) ==> r == Fail(IllegalState) && abs == old(abs) && lexeme == old(lexeme) && token == old(token)
      ensures !old(eof) ==> r == Pass && lexeme == [] && token == None
      ensures !old(eof) ==> abs == if old(abs) == 0 then 1 else old(abs)
    {
      if eof {
        return Fail(IllegalState);
      }
      lexeme := [];
      token := None;
      if lookahead == 0 {
        r := Read();
      }
      r := Pass;
    }

    /**
     * `while (cls(lookahead)) read();`: the lookahead moves to the end of the
     * run, and the characters passed over extend the lexeme.
     */
    method ReadRun(cls: CharClass, ghost p: nat)
      requires Valid() && !eof && abs > 0 && p <= Cursor() && !Member(cls, '\U{FFFF}')
      modifies this`lookahead, this`lexeme, this`line, this`pos, this`abs
      ensures Valid() && abs >= old(abs) && p <= Cursor()
      ensures Cursor() == RunEnd(input, old(Cursor()), cls)
      ensures old(Cursor()) <= |input| && old(lexeme) == input[p..old(Cursor())] ==>
        Cursor() <= |input| && lexeme == input[p..Cursor()]
    {
      ghost var i := Cursor();
      ghost var collecting := i <= |input| && lexeme == input[p..i];
      while Member(cls, ToChar(lookahead))
        invariant Valid() && abs > 0 && abs >= old(abs) && i <= Cursor()
        invariant i < Cursor() ==> Cursor() <= |input|
        invariant forall k :: i <= k < Cursor() ==> Member(cls, input[k])
        invariant collecting ==> Cursor() <= |input| && lexeme == input[p..Cursor()]
        decreases |input| - Cursor()
      {
        if collecting {
          SliceExtend(input, p, Cursor());
        }
        var _ := Read();
      }
      RunEndUnique(input, i, Cursor(), cls);
    }

    /** The lexeme so far is the text from `p` up to the lookahead. */
    ghost predicate Collecting(p: nat)
      reads this
    {
      Valid() && !eof && token == None && abs > 0 && p <= Cursor() <= |input| && lexeme == input[p..Cursor()]
    }

    /** `do read while (cond)` over a run of `cls` that starts at the lookahead. */
    method ReadRunFrom(cls: CharClass, ghost p: nat)
      requires Collecting(p) && Cursor() < |input| && Member(cls, input[Cursor()]) && !Member(cls, '\U{FFFF}')
      modifies this`lookahead, this`lexeme, this`line, this`pos, this`abs
      ensures Valid() && abs > old(abs)
      ensures Cursor() == RunEnd(input, old(Cursor()), cls) && lexeme == input[p..Cursor()]
    {
      SliceExtend(input, p, Cursor());
      var _ := Read();
      ReadRun(cls, p);
    }

    /** Digits: `do read while digit`. */
    method LexNumber(ghost p: nat)
      requires Collecting(p) && Cursor() < |input| && IsDigit(input[Cursor()])
      modifies this
      ensures Valid() && abs > old(abs)
      ensures token == Buffered(NumberAt(input, p, old(Cursor()))) && Landed(NumberAt(input, p, old(Cursor())))
    {
      ReadRunFrom(Digits, p);
      token := Some(NUM);
    }

    /** Letters: `do read while letter`, then the keyword table. */
    method LexKeyword(ghost p: nat) returns (r: Outcome<Failure>)
      requires Collecting(p) && Cursor() < |input| && IsLetter(input[Cursor()])
      modifies this
      ensures Valid() && abs > old(abs)
      ensures r == Verdict(KeywordAt(input, p, old(Cursor())))
      ensures token == Buffered(KeywordAt(input, p, old(Cursor()))) && Landed(KeywordAt(input, p, old(Cursor())))
    {
      ReadRunFrom(Letters, p);
      var text := lexeme;
      if text in KEYWORDS {
        token := Some(KEYWORDS[text]);
        return Pass;
      }
      r := Fail(Recognized(SpanningLine("Unkown keyword: '" + text + "'", line, pos, abs - |text| - 1, abs - 1)));
    }

    /**
     * The first two reads of a variable: past the x, and past the character
     * after it, which is read whatever it is. Only a digit there keeps the
     * lexeme a slice of the text.
     */
    method VariableHead(ghost p: nat) returns (isDigit: bool)
      requires Collecting(p) && Cursor() < |input| && IsVarStart(input[Cursor()])
      modifies this`lookahead, this`lexeme, this`line, this`pos, this`abs
      ensures Valid() && abs == old(abs) + 2 && p <= Cursor()
      ensures isDigit == IsDigit(CharAt(input, old(Cursor()) + 1))
      ensures isDigit ==> Cursor() <= |input| && lexeme == input[p..Cursor()]
    {
      ghost var t := Cursor();
      isDigit := true;
      SliceExtend(input, p, t);
      var _ := Read();
      isDigit := isDigit && IsDigit(ToChar(lookahead));
      if isDigit {
        SliceExtend(input, p, t + 1);
      }
      var _ := Read();
    }

    /**
     * A variable: the x, then the next character whatever it is, then every
     * digit after it. Only a digit right after the x makes it a VAR.
     */
    method LexVariable(ghost p: nat) returns (r: Outcome<Failure>)
      requires Collecting(p) && Cursor() < |input| && IsVarStart(input[Cursor()])
      modifies this
      ensures Valid() && abs > old(abs)
      ensures r == Verdict(VariableAt(input, p, old(Cursor())))
      ensures token == Buffered(VariableAt(input, p, old(Cursor()))) && Landed(VariableAt(input, p, old(Cursor())))
    {
      var isDigit := VariableHead(p);
      ReadRun(Digits, p);
      if isDigit {
        token := Some(VAR);
        return Pass;
      }
      r := Fail(Recognized(AtPosition("Variable expected but found: " + [ToChar(lookahead)], line, pos, abs)));
    }

    /**
     * After the operator cases: a variable, a keyword, a number, or an
     * unknown character, with the lexeme begun at `p`.
     */
    method LexWord(ghost p: nat) returns (r: Outcome<Failure>)
      requires Collecting(p) && Cursor() <= p + 1
      modifies this
      ensures Valid() && abs >= old(abs)
      ensures r == Verdict(Word(input, p, old(Cursor())))
      ensures token == Buffered(Word(input, p, old(Cursor()))) && Landed(Word(input, p, old(Cursor())))
    {
      ghost var t := Cursor();
      if lookahead == 'x' as int || lookahead == 'X' as int {
        r := LexVariable(p);
      } else if IsLetter(ToChar(lookahead)) {
        r := LexKeyword(p);
      } else if IsDigit(ToChar(lookahead)) {
        LexNumber(p);
        r := Pass;
      } else {
        r := Fail(Recognized(AtPosition("Unkown character: '" + [ToChar(lookahead)] + "'", line, pos, abs)));
      }
    }

    /** A one-character token: set it and read past its character. */
    method Single(t: Token)
      requires Collecting(Cursor()) && Cursor() < |input|
      modifies this
      ensures Valid() && !eof && abs == old(abs) + 1
      ensures token == Some(t) && lexeme == [input[old(Cursor())]]
    {
      token := Some(t);
      var _ := Read();
    }

    /** `:` on its own, or `:=`. */
    method Colon()
      requires Collecting(Cursor()) && Cursor() < |input| && input[Cursor()] == ':'
      modifies this
      ensures Valid() && !eof && abs > old(abs)
      ensures EqualsNext(input, old(Cursor())) ==> token == Some(ASSIGN) && lexeme == ":=" && Cursor() == old(Cursor()) + 2
      ensures !EqualsNext(input, old(Cursor())) ==> token == Some(COLON) && lexeme == ":" && Cursor() == old(Cursor()) + 1
    {
      token := Some(COLON);
      var _ := Read();
      if lookahead == '=' as int {
        token := Some(ASSIGN);
        var _ := Read();
      }
    }

    /** `!=` or `<=`; a `!` or `<` without `=` stays in the lexeme for the word checks. */
    method Comparison() returns (done: bool)
      requires Collecting(Cursor()) && Cursor() < |input| && (input[Cursor()] == '!' || input[Cursor()] == '<')
      modifies this
      ensures Valid() && !eof && abs > old(abs)
      ensures done == EqualsNext(input, old(Cursor()))
      ensures done ==> token == Some(if input[old(Cursor())] == '!' then NEQ else LTE)
      ensures done ==> lexeme == [input[old(Cursor())], '='] && Cursor() == old(Cursor()) + 2
      ensures !done ==> Collecting(old(Cursor())) && Cursor() == old(Cursor()) + 1
    {
      ghost var w := Cursor();
      var c := lookahead;
      SliceExtend(input, w, w);
      var _ := Read();
      if lookahead == '=' as int {
        token := Some(if c == '!' as int then NEQ else LTE);
        var _ := Read();
        return true;
      }
      return false;
    }

    /**
     * The `switch` of `lex`: `done` when it returned a token; otherwise the
     * lexeme holds what it read (a `!` or `<`, or nothing).
     */
    method Switch() returns (done: bool)
      requires Collecting(Cursor()) && Cursor() < |input|
      modifies this
      ensures Valid() && !eof && abs >= old(abs)
      ensures done == IsOperator(input, old(Cursor()))
      ensures done ==> token == Some(OperatorAt(input, old(Cursor())).token)
      ensures done ==> lexeme == OperatorAt(input, old(Cursor())).text && Cursor() == OperatorAt(input, old(Cursor())).next
      ensures !done ==> Collecting(old(Cursor())) && Cursor() == WordStart(input, old(Cursor()))
    {
      if lookahead == ':' as int {
        Colon();
        return true;
      }
      if lookahead == ';' as int {
        Single(SEMICOLON);
        return true;
      }
      if lookahead == '=' as int {
        Single(EQU);
        return true;
      }
      if lookahead == '+' as int {
        Single(PLUS);
        return true;
      }
      if lookahead == '-' as int {
        Single(MINUS);
        return true;
      }
      if lookahead == '*' as int {
        Single(MULT);
        return true;
      }
      if lookahead == '!' as int || lookahead == '<' as int {
        done := Comparison();
        return;
      }
      return false;
    }

    /** Skip whitespace; the lexeme and the token buffer are emptied. */
    method Skip()
      requires Valid() && !eof
      modifies this
      ensures Valid() && !eof && abs > 0 && abs >= old(abs) && lexeme == [] && token == None
      ensures Cursor() == RunEnd(input, old(Cursor()), Whitespace)
    {
      var _ := Reset();
      ReadRun(Whitespace, Cursor());
      var _ := Reset();
    }

    /** The `switch` of `lex` and what follows it, with the whitespace skipped. */
    method Recognise() returns (r: Outcome<Failure>)
      requires Valid() && !eof && abs > 0 && lexeme == [] && token == None
      modifies this
      ensures Valid() && abs >= old(abs)
      ensures r == Verdict(TokenAt(input, old(Cursor())))
      ensures token == Buffered(TokenAt(input, old(Cursor()))) && Landed(TokenAt(input, old(Cursor())))
      ensures eof ==> Cursor() == old(Cursor())
    {
      if lookahead == -1 {
        eof := true;
        token := Some(EOF);
        return Pass;
      }
      ghost var w := Cursor();
      var done := Switch();
      if done {
        return Pass;
      }
      r := LexWord(w);
    }

    /**
     * `lex`: skip whitespace, then recognise one token from the lookahead on.
     * The outcome is `Scan` of the text from the lookahead's index.
     */
    method Lex() returns (r: Outcome<Failure>)
      requires Valid()
      modifies this
      ensures Valid() && abs >= old(abs)
      ensures old(eof) ==> r == Fail(IllegalState) && abs == old(abs) && token == old(token) && eof
      ensures !old(eof) ==> r == Verdict(Scan(input, old(Cursor())))
      ensures !old(eof) ==> token == Buffered(Scan(input, old(Cursor()))) && Landed(Scan(input, old(Cursor())))
      ensures !old(eof) && eof ==> Cursor() == RunEnd(input, old(Cursor()), Whitespace)
    {
      if eof {
        r := Reset();
        return;
      }
      Skip();
      r := Recognise();
    }

    /**
     * `hasNext`: a buffered token, or none left after the end, or else lex
     * one (a RecognitionException passes through).
     */
    method HasNext() returns (r: Result<bool, Failure>)
      requires Valid() && Ended()
      modifies this
      ensures Valid() && Ended() && abs >= old(abs)
      ensures old(token).Some? ==>
        r == Ok(true) && token == old(token) && lexeme == old(lexeme) && eof == old(eof) && abs == old(abs)
      ensures old(token).None? && old(eof) ==> r == Ok(false) && token == None && eof && abs == old(abs)
      ensures old(token).None? && !old(eof) ==>
        r == Answer(Scan(input, old(Cursor())))
      ensures old(token).None? && !old(eof) ==>
        token == Buffered(Scan(input, old(Cursor()))) && Landed(Scan(input, old(Cursor())))
      ensures r == Ok(true) <==> old(Pending()).More?
      ensures r.Ok? ==> Pending() == old(Pending())
      ensures r.Err? ==> old(Pending()).Stop? && r.error == old(Pending()).failure
    {
      if token.Some? {
        r := Ok(true);
      } else if eof {
        r := Ok(false);
      } else {
        LexemeNotEnd(input, Cursor());
        assert Lexemes(input, Cursor()) == LexemesFrom(input, Cursor());
        var lexed := Lex();
        r := if lexed.Fail? then Err(lexed.error) else Ok(true);
      }
    }

    /**
     * `next`: hand out the buffered token and empty the buffer; past the
     * end, an IllegalStateException.
     */
    method Next() returns (r: Result<Token, Failure>)
      requires Valid() && Ended()
      modifies this
      ensures Valid() && Ended() && token == None
      ensures old(token).Some? ==>
        r == Ok(old(token).value) && lexeme == old(lexeme) && eof == old(eof) && abs == old(abs)
      ensures old(token).None? && old(eof) ==> r == Err(IllegalState) && eof && abs == old(abs)
      ensures r == Ok(EOF) ==> eof
      ensures r == old(Pending()).Head()
      ensures r.Ok? ==> old(Pending()) == More(Item(r.value, lexeme), Pending())
    {
      ghost var i := Cursor();
      var more := HasNext();
      if more.Err? {
        return Err(more.error);
      }
      if more.value {
        r := Ok(token.value);
        token := None;
        if old(token).None? {
          ScanAdvances(input, i);
        }
        return;
      }
      r := Err(IllegalState);
    }
  }

  /** Once `next` has handed out EOF, every further call throws. */
  method EndIsFinal(lexer: Lexer) returns (first: Result<Token, Failure>, second: Result<Token, Failure>)
    requires lexer.Valid() && lexer.Ended()
    modifies lexer
    ensures first == Ok(EOF) ==> second == Err(IllegalState)
  {
    first := lexer.Next();
    second := lexer.Next();
  }
}
