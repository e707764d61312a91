/**
 * What the lexer recognises, stated token by token on the text from the
 * lookahead on: whitespace is skipped, each lexeme is the slice of text up to
 * the new lookahead, the two-character operators win over their prefixes,
 * keywords are whole letter runs spelled as in the table, variables and
 * numbers extend over every digit, and every other character is rejected
 * where it stands.
 */
module ScanFacts {
  import opened Numerals
  import opened Tokens
  import opened Recognition
  import opened Scanner

  /** The outcome is a token of kind `t`. */
  predicate Yields(sc: Lexed, t: Token) {
    sc.Lexeme? && sc.token == t
  }

  /** Every keyword is a non-empty run of lower-case letters that does not start with x. */
  lemma KeywordSpelling()
    ensures forall k :: k in KEYWORDS ==> |k| > 0 && k[0] != 'x' && forall j :: 0 <= j < |k| ==> 'a' <= k[j] <= 'z'
  {
    KeywordTable();
  }

  /** A lexeme the word checks produce is the text from `p` to the new lookahead. */
  predicate SliceUpTo(s: string, p: nat, sc: Lexed) {
    sc.Lexeme? ==>
      && p < sc.next <= |s|
      && sc.text == s[p..sc.next]
      && forall k :: p <= k < sc.next ==> !IsSpace(s[k])
  }

  /** Letters, digits and the two prefixes are not whitespace. */
  lemma NotSpace(c: char)
    requires IsLetter(c) || IsDigit(c) || c == '!' || c == '<'
    ensures !IsSpace(c)
  {
  }

  lemma VariableSlice(s: string, p: nat, t: nat)
    requires p <= t <= p + 1 && t < |s| && IsVarStart(s[t])
    requires p < t ==> s[p] == '!' || s[p] == '<'
    ensures SliceUpTo(s, p, VariableAt(s, p, t))
  {
    var e := RunEnd(s, t + 2, Digits);
    if t + 1 < |s| && IsDigit(s[t + 1]) {
      forall k | p <= k < e
        ensures !IsSpace(s[k])
      {
        if t + 2 <= k {
          assert Member(Digits, s[k]);
        } else if k == t {
          assert IsLetter(s[t]);
        }
        NotSpace(s[k]);
      }
    }
  }

  lemma KeywordSlice(s: string, p: nat, t: nat)
    requires p <= t <= p + 1 && t < |s| && IsLetter(s[t])
    requires p < t ==> s[p] == '!' || s[p] == '<'
    ensures SliceUpTo(s, p, KeywordAt(s, p, t))
  {
    var e := RunEnd(s, t, Letters);
    forall k | p <= k < e
      ensures !IsSpace(s[k])
    {
      if t <= k {
        assert Member(Letters, s[k]);
      }
      NotSpace(s[k]);
    }
  }

  lemma NumberSlice(s: string, p: nat, t: nat)
    requires p <= t <= p + 1 && t < |s| && IsDigit(s[t])
    requires p < t ==> s[p] == '!' || s[p] == '<'
    ensures SliceUpTo(s, p, NumberAt(s, p, t))
  {
    var e := RunEnd(s, t, Digits);
    forall k | p <= k < e
      ensures !IsSpace(s[k])
    {
      if t <= k {
        assert Member(Digits, s[k]);
      }
      NotSpace(s[k]);
    }
  }

  /** The word cases never end the input, and their lexeme is the text from `p` to the new lookahead. */
  lemma WordSlice(s: string, p: nat, t: nat)
    requires p <= t <= p + 1 && t <= |s|
    requires p < t ==> s[p] == '!' || s[p] == '<'
    ensures !Word(s, p, t).AtEnd? && SliceUpTo(s, p, Word(s, p, t))
  {
    if t < |s| && IsVarStart(s[t]) {
      VariableSlice(s, p, t);
    } else if t < |s| && IsLetter(s[t]) {
      KeywordSlice(s, p, t);
    } else if t < |s| && IsDigit(s[t]) {
      NumberSlice(s, p, t);
    }
  }

  /** The `switch` reads its operator and no more. */
  lemma OperatorSlice(s: string, w: nat)
    requires w < |s| && IsOperator(s, w)
    ensures SliceUpTo(s, w, OperatorAt(s, w))
  {
    if EqualsNext(s, w) {
      assert s[w..w + 2] == [s[w], s[w + 1]];
    }
    assert s[w..w + 1] == [s[w]];
  }

  /**
   * Only whitespace is skipped before a token, and the lexeme is exactly the
   * text from there up to the new lookahead, with no whitespace in it.
   */
  lemma ScanSlice(s: string, i: nat)
    ensures Scan(s, i).Lexeme? ==>
      var w := RunEnd(s, i, Whitespace);
      && (forall k :: i <= k < w ==> IsSpace(s[k]))
      && w < Scan(s, i).next <= |s|
      && Scan(s, i).text == s[w..Scan(s, i).next]
      && forall k :: w <= k < Scan(s, i).next ==> !IsSpace(s[k])
  {
    var w := RunEnd(s, i, Whitespace);
    ScanUnfold(s, i);
    if w < |s| {
      if IsOperator(s, w) {
        OperatorSlice(s, w);
      } else {
        WordSlice(s, w, WordStart(s, w));
      }
    }
  }

  /** The EOF token comes exactly when nothing but whitespace is left. */
  lemma ScanAtEnd(s: string, i: nat)
    ensures Scan(s, i).AtEnd? <==> forall k :: i <= k < |s| ==> IsSpace(s[k])
  {
    var w := RunEnd(s, i, Whitespace);
    if w < |s| {
      if !IsOperator(s, w) {
        WordSlice(s, w, WordStart(s, w));
      }
      assert !IsSpace(s[w]);
    }
  }

  /** The operator tokens. */
  predicate IsOperatorToken(t: Token) {
    t.COLON? || t.SEMICOLON? || t.ASSIGN? || t.NEQ? || t.EQU? || t.LTE? || t.PLUS? || t.MINUS? || t.MULT?
  }

  /** Every token in the keyword table is a keyword token. */
  lemma KeywordValues()
    ensures forall k :: k in KEYWORDS ==> IsKeywordToken(KEYWORDS[k])
  {
    KeywordTable();
  }

  /** `Scan` is the whitespace skip followed by the `switch` or the word checks. */
  lemma ScanUnfold(s: string, i: nat)
    ensures var w := RunEnd(s, i, Whitespace);
      && (w >= |s| ==> Scan(s, i) == AtEnd)
      && (w < |s| && IsOperator(s, w) ==> Scan(s, i) == OperatorAt(s, w))
      && (w < |s| && !IsOperator(s, w) ==> Scan(s, i) == Word(s, w, WordStart(s, w)))
  {
  }

  /** A letter is not the start of an operator, and the word checks start at it. */
  lemma LetterStartsWord(s: string, w: nat)
    requires w < |s| && IsLetter(s[w])
    ensures !IsSpace(s[w]) && !IsOperator(s, w) && WordStart(s, w) == w && !IsDigit(s[w])
  {
  }

  /** A digit is not the start of an operator, and the word checks start at it. */
  lemma DigitStartsWord(s: string, w: nat)
    requires w < |s| && IsDigit(s[w])
    ensures !IsSpace(s[w]) && !IsOperator(s, w) && WordStart(s, w) == w && !IsLetter(s[w])
  {
  }

  /** The `switch` returns operator tokens, and no letter or digit starts an operator. */
  lemma OperatorNotWord(s: string, w: nat)
    requires w < |s| && IsOperator(s, w)
    ensures OperatorAt(s, w).Lexeme? && IsOperatorToken(OperatorAt(s, w).token)
    ensures !IsLetter(s[w]) && !IsDigit(s[w])
    ensures !IsVarStart(s[w])
    ensures WordStart(s, w) == w + 1 ==>
      w + 1 < |s| && s[w + 1] == '=' && !IsLetter(s[w + 1]) && !IsDigit(s[w + 1]) && !IsVarStart(s[w + 1])
  {
  }

  /**
   * The word checks give a variable for an x followed by a digit, a number
   * for a digit, and otherwise a keyword or an error; variables and numbers
   * extend over every digit that follows.
   */
  lemma WordKinds(s: string, p: nat, t: nat)
    requires p <= t <= p + 1 && t <= |s|
    ensures Yields(Word(s, p, t), VAR) <==> t + 1 < |s| && IsVarStart(s[t]) && IsDigit(s[t + 1])
    ensures Yields(Word(s, p, t), NUM) <==> t < |s| && IsDigit(s[t])
    ensures Word(s, p, t).Lexeme? ==> !IsOperatorToken(Word(s, p, t).token)
    ensures Yields(Word(s, p, t), VAR) ==> Word(s, p, t).next == RunEnd(s, t + 1, Digits)
    ensures Yields(Word(s, p, t), NUM) ==> Word(s, p, t).next == RunEnd(s, t, Digits)
  {
    KeywordValues();
    if t < |s| && IsVarStart(s[t]) {
      assert IsLetter(s[t]) && !IsDigit(s[t]);
      if t + 1 < |s| && IsDigit(s[t + 1]) {
        assert RunEnd(s, t + 1, Digits) == RunEnd(s, t + 2, Digits);
      }
    } else if t < |s| && IsLetter(s[t]) {
      assert !IsDigit(s[t]);
    }
  }

  /** `:=` is ASSIGN; a `:` without `=` after it is COLON. */
  lemma ColonTokens(s: string, i: nat)
    ensures var w := RunEnd(s, i, Whitespace);
      && (Yields(Scan(s, i), ASSIGN) <==> w + 1 < |s| && s[w] == ':' && s[w + 1] == '=')
      && (Yields(Scan(s, i), COLON) <==> w < |s| && s[w] == ':' && !(w + 1 < |s| && s[w + 1] == '='))
  {
    var w := RunEnd(s, i, Whitespace);
    ScanUnfold(s, i);
    if w < |s| && !IsOperator(s, w) {
      WordKinds(s, w, WordStart(s, w));
    }
  }

  /** `!=` is NEQ and `<=` is LTE; `=` alone is EQU. */
  lemma ComparisonTokens(s: string, i: nat)
    ensures var w := RunEnd(s, i, Whitespace);
      && (Yields(Scan(s, i), NEQ) <==> w + 1 < |s| && s[w] == '!' && s[w + 1] == '=')
      && (Yields(Scan(s, i), LTE) <==> w + 1 < |s| && s[w] == '<' && s[w + 1] == '=')
      && (Yields(Scan(s, i), EQU) <==> w < |s| && s[w] == '=')
  {
    var w := RunEnd(s, i, Whitespace);
    ScanUnfold(s, i);
    if w < |s| && !IsOperator(s, w) {
      WordKinds(s, w, WordStart(s, w));
    }
  }

  /** The one-character tokens `;`, `+`, `-` and `*`. */
  lemma SingleTokens(s: string, i: nat)
    ensures var w := RunEnd(s, i, Whitespace);
      && (Yields(Scan(s, i), SEMICOLON) <==> w < |s| && s[w] == ';')
      && (Yields(Scan(s, i), PLUS) <==> w < |s| && s[w] == '+')
      && (Yields(Scan(s, i), MINUS) <==> w < |s| && s[w] == '-')
      && (Yields(Scan(s, i), MULT) <==> w < |s| && s[w] == '*')
  {
    var w := RunEnd(s, i, Whitespace);
    ScanUnfold(s, i);
    if w < |s| && !IsOperator(s, w) {
      WordKinds(s, w, WordStart(s, w));
    }
  }

  /** A whole run of letters that is in the table is that keyword; the lexer then stands at the end of the run. */
  lemma KeywordFromRun(s: string, i: nat)
    ensures var w := RunEnd(s, i, Whitespace);
      w < |s| && IsLetter(s[w]) && s[w..RunEnd(s, w, Letters)] in KEYWORDS ==>
        var e := RunEnd(s, w, Letters);
        Scan(s, i) == Lexeme(KEYWORDS[s[w..e]], s[w..e], e)
  {
    var w := RunEnd(s, i, Whitespace);
    if w < |s| && IsLetter(s[w]) {
      var e := RunEnd(s, w, Letters);
      if s[w..e] in KEYWORDS {
        KeywordSpelling();
        assert s[w..e][0] == s[w];
        assert !IsVarStart(s[w]);
        LetterStartsWord(s, w);
        ScanUnfold(s, i);
        assert Word(s, w, w) == KeywordAt(s, w, w);
      }
    }
  }

  /** A `!` or `<` read before a run of letters keeps the lexeme out of the table. */
  lemma PrefixedLetters(s: string, p: nat, t: nat)
    requires p + 1 == t < |s| && (s[p] == '!' || s[p] == '<')
    ensures KeywordAt(s, p, t).Rejected?
  {
    var e := RunEnd(s, t, Letters);
    KeywordSpelling();
    assert s[p..e][0] == s[p];
  }

  /** The word checks give a keyword only for a whole run of letters in the table, with nothing read before it. */
  lemma WordKeyword(s: string, p: nat, t: nat)
    requires p <= t <= p + 1 && t <= |s|
    requires p < t ==> p < |s| && (s[p] == '!' || s[p] == '<')
    ensures Word(s, p, t).Lexeme? && IsKeywordToken(Word(s, p, t).token) ==>
      && p == t && t < |s| && IsLetter(s[t])
      && Word(s, p, t).next == RunEnd(s, t, Letters)
      && Word(s, p, t).text == s[p..Word(s, p, t).next]
      && Word(s, p, t).text in KEYWORDS && KEYWORDS[Word(s, p, t).text] == Word(s, p, t).token
  {
    if t < |s| && IsLetter(s[t]) && !IsVarStart(s[t]) {
      if p < t {
        PrefixedLetters(s, p, t);
      }
      assert Word(s, p, t) == KeywordAt(s, p, t);
    }
  }

  /** Every keyword token comes from a whole run of letters in the table, with nothing read before it. */
  lemma KeywordOnlyFromRun(s: string, i: nat)
    ensures var w := RunEnd(s, i, Whitespace);
      Scan(s, i).Lexeme? && IsKeywordToken(Scan(s, i).token) ==>
        && w < |s| && IsLetter(s[w])
        && Scan(s, i).next == RunEnd(s, w, Letters)
        && Scan(s, i).text == s[w..Scan(s, i).next]
        && Scan(s, i).text in KEYWORDS && KEYWORDS[Scan(s, i).text] == Scan(s, i).token
  {
    var w := RunEnd(s, i, Whitespace);
    ScanUnfold(s, i);
    if w < |s| && IsOperator(s, w) {
      OperatorNotWord(s, w);
    } else if w < |s| {
      WordKeyword(s, w, WordStart(s, w));
    }
  }

  /**
   * A run of letters that is not a keyword is rejected, and the error selects
   * exactly that run.
   */
  lemma UnknownKeyword(s: string, i: nat)
    ensures var w := RunEnd(s, i, Whitespace);
      var e := if w < |s| then RunEnd(s, w, Letters) else w;
      w < |s| && IsLetter(s[w]) && !IsVarStart(s[w]) && s[w..e] !in KEYWORDS ==>
        && Scan(s, i) == Rejected(SpanningLine("Unkown keyword: '" + s[w..e] + "'", LineAt(s, e + 1), PosAt(s, e + 1), w, e))
        && Scan(s, i).error.Start() == w && Scan(s, i).error.End() == e
  {
    var w := RunEnd(s, i, Whitespace);
    if w < |s| && IsLetter(s[w]) && !IsVarStart(s[w]) {
      LetterStartsWord(s, w);
      ScanUnfold(s, i);
      assert Word(s, w, w) == KeywordAt(s, w, w);
    }
  }

  /**
   * A variable is an x or X followed at once by a digit; the token then
   * extends over every digit after it. Before the check a `!` or `<` may have
   * been read, and it stays in the lexeme.
   */
  lemma VariableTokens(s: string, i: nat)
    ensures var w := RunEnd(s, i, Whitespace);
      Yields(Scan(s, i), VAR) <==>
        w < |s| && WordStart(s, w) + 1 < |s| && IsVarStart(s[WordStart(s, w)]) && IsDigit(s[WordStart(s, w) + 1])
    ensures var w := RunEnd(s, i, Whitespace);
      Yields(Scan(s, i), VAR) ==> Scan(s, i).next == RunEnd(s, WordStart(s, w) + 1, Digits)
  {
    var w := RunEnd(s, i, Whitespace);
    ScanUnfold(s, i);
    if w < |s| && IsOperator(s, w) {
      OperatorNotWord(s, w);
    } else if w < |s| {
      WordKinds(s, w, WordStart(s, w));
    }
  }

  /**
   * An x or X without a digit right after it is an error, reported at the end
   * of the digit run that follows the character after the x.
   */
  lemma VariableError(s: string, i: nat)
    ensures var w := RunEnd(s, i, Whitespace);
      w < |s| && WordStart(s, w) < |s| && IsVarStart(s[WordStart(s, w)]) &&
      !(WordStart(s, w) + 1 < |s| && IsDigit(s[WordStart(s, w) + 1])) ==>
        var e := RunEnd(s, WordStart(s, w) + 2, Digits);
        Scan(s, i) == Rejected(AtPosition("Variable expected but found: " + [CharAt(s, e)], LineAt(s, e + 1), PosAt(s, e + 1), e + 1))
  {
  }

  /** A number is a maximal run of digits; only a `!` or `<` read before it can precede it in the lexeme. */
  lemma NumberTokens(s: string, i: nat)
    ensures var w := RunEnd(s, i, Whitespace);
      Yields(Scan(s, i), NUM) <==> w < |s| && WordStart(s, w) < |s| && IsDigit(s[WordStart(s, w)])
    ensures var w := RunEnd(s, i, Whitespace);
      Yields(Scan(s, i), NUM) ==>
        && Scan(s, i).next == RunEnd(s, WordStart(s, w), Digits)
        && (WordStart(s, w) == w ==> AllDigits(Scan(s, i).text))
  {
    var w := RunEnd(s, i, Whitespace);
    ScanUnfold(s, i);
    if w < |s| && IsOperator(s, w) {
      OperatorNotWord(s, w);
    } else if w < |s| {
      WordKinds(s, w, WordStart(s, w));
    }
    if w < |s| && WordStart(s, w) < |s| && IsDigit(s[WordStart(s, w)]) {
      var e := RunEnd(s, WordStart(s, w), Digits);
      if WordStart(s, w) == w {
        assert forall k :: 0 <= k < e - w ==> IsDigit(s[w..e][k]);
      }
    }
  }

  /** Any other character is rejected at the place where it stands. */
  lemma UnknownCharacter(s: string, i: nat)
    ensures var w := RunEnd(s, i, Whitespace);
      w < |s| && !IsOperator(s, w) &&
      !(WordStart(s, w) < |s| && (IsLetter(s[WordStart(s, w)]) || IsDigit(s[WordStart(s, w)]))) ==>
        var t := WordStart(s, w);
        Scan(s, i) == Rejected(AtPosition("Unkown character: '" + [CharAt(s, t)] + "'", LineAt(s, t + 1), PosAt(s, t + 1), t + 1))
  {
  }

  /** A `<` before digits is kept: the lexeme of the number is `<12`. */
  lemma PrefixedNumber()
    ensures Scan("<12", 0) == Lexeme(NUM, "<12", 3)
  {
    var s := "<12";
    assert RunEnd(s, 0, Whitespace) == 0;
    assert RunEnd(s, 3, Digits) == 3;
    assert RunEnd(s, 2, Digits) == 3;
    assert RunEnd(s, 1, Digits) == 3;
  }
}
