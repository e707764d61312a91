/** Tokens, language variants and the failures the toolchain can raise. */
module Tokens {
  import opened Results
  import opened Recognition

  datatype Token =
    | COLON | SEMICOLON | ASSIGN | NEQ | EQU | LTE | PLUS | MINUS | MULT
    | LOOP | DO | END | WHILE | IF | THEN | ELSE | GOTO
    | VAR | NUM | EOF

  datatype Language = LoopLang | WhileLang | GotoLang

  /** The keyword table: a whole word, matched case-sensitively. */
  const KEYWORDS: map<string, Token> := map[
    "loop" := LOOP, "do" := DO, "end" := END, "while" := WHILE,
    "if" := IF, "then" := THEN, "else" := ELSE, "goto" := GOTO]

  predicate IsKeywordToken(t: Token) {
    t.LOOP? || t.DO? || t.END? || t.WHILE? || t.IF? || t.THEN? || t.ELSE? || t.GOTO?
  }

  /** The table holds exactly the eight lower-case words, each mapped to a keyword token. */
  lemma KeywordTable()
    ensures KEYWORDS.Keys == {"loop", "do", "end", "while", "if", "then", "else", "goto"}
    ensures forall w :: w in KEYWORDS ==> IsKeywordToken(KEYWORDS[w])
  {
  }

  /** The enum constant's name, as Java's `toString` prints it. */
  function TokenName(t: Token): string {
    match t
    case COLON => "COLON"
    case SEMICOLON => "SEMICOLON"
    case ASSIGN => "ASSIGN"
    case NEQ => "NEQ"
    case EQU => "EQU"
    case LTE => "LTE"
    case PLUS => "PLUS"
    case MINUS => "MINUS"
    case MULT => "MULT"
    case LOOP => "LOOP"
    case DO => "DO"
    case END => "END"
    case WHILE => "WHILE"
    case IF => "IF"
    case THEN => "THEN"
    case ELSE => "ELSE"
    case GOTO => "GOTO"
    case VAR => "VAR"
    case NUM => "NUM"
    case EOF => "EOF"
  }

  function LanguageName(l: Language): string {
    match l
    case LoopLang => "LOOP"
    case WhileLang => "WHILE"
    case GotoLang => "GOTO"
  }

  /** Everything that can abort lexing or compiling. */
  datatype Failure =
    | Recognized(error: RecognitionError)   // RecognitionException
    | IllegalState                          // IllegalStateException
    | NumberFormat(text: string)            // NumberFormatException from Integer.parseInt
    | IndexOutOfBounds                      // String.substring(1) on an empty lexeme
    | NullPointer                           // unboxing a missing label in the relocation loop
    | OutOfMemory                           // the instruction list cannot grow past Integer.MAX_VALUE

  /** What the lexer and the operand conversions throw: anything but running out of memory. */
  type Raised = f: Failure | !f.OutOfMemory? witness IllegalState
}
