/**
 * The compile error of the toolchain (`RecognitionException`): a message and
 * five integer fields set once by one of four constructors. Fields a
 * constructor does not set keep Java's default 0. The getters decide whether
 * the editor shows a line number and which source span it selects.
 */
module Recognition {

  datatype RecognitionError = RecognitionError(message: string, line: int, pos: int, abs: int, from: int, to: int)
  {
    predicate HasSpan() { from > -1 && to > -1 }

    /** Whether `Line()` and `Pos()` are meaningful. */
    predicate HasLineInfo() { line > -1 && pos > -1 }

    /** Whether `Start()`..`End()` is a selection to show. */
    predicate HasSelectionInfo() { abs > 0 || HasSpan() }

    /** First offset of the selection: the span, or the character before `abs`. */
    function Start(): (r: int)
      ensures HasSelectionInfo() ==> r >= 0
    {
      if HasSpan() then from else abs - 1
    }

    /** End offset of the selection. */
    function End(): (r: int)
      ensures HasSelectionInfo() ==> r >= 0
    {
      if HasSpan() then to else abs
    }

    /** The line shown to the user, counted from one. */
    function Line(): (r: int)
      ensures HasLineInfo() ==> r >= 1
    {
      line + 1
    }

    function Pos(): int { pos }

    /** Without a span the selection is the single character before `abs`. */
    lemma CaretSelection()
      requires !HasSpan()
      ensures End() - Start() == 1 && End() == abs
    {
    }
  }

  /** `RecognitionException(message)`: every position field is 0. */
  function MessageOnly(message: string): RecognitionError {
    RecognitionError(message, 0, 0, 0, 0, 0)
  }

  /** `RecognitionException(message, line, pos, abs)`: from and to stay 0. */
  function AtPosition(message: string, line: int, pos: int, abs: int): RecognitionError {
    RecognitionError(message, line, pos, abs, 0, 0)
  }

  /** `RecognitionException(message, from, to)`: line and pos stay 0. */
  function Spanning(message: string, from: int, to: int): RecognitionError {
    RecognitionError(message, 0, 0, 0, from, to)
  }

  /** `RecognitionException(message, line, pos, from, to)`: abs stays 0. */
  function SpanningLine(message: string, line: int, pos: int, from: int, to: int): RecognitionError {
    RecognitionError(message, line, pos, 0, from, to)
  }

  /** A message-only error still claims line 1 and selects the empty span at 0. */
  lemma MessageOnlyInfo(message: string)
    ensures MessageOnly(message).message == message
    ensures MessageOnly(message).HasLineInfo() && MessageOnly(message).Line() == 1 && MessageOnly(message).Pos() == 0
    ensures MessageOnly(message).HasSelectionInfo()
    ensures MessageOnly(message).Start() == 0 && MessageOnly(message).End() == 0
  {
  }

  /**
   * A positioned error reports its line and column, but since from and to
   * stay 0 the selection is the empty span at 0 whatever abs is.
   */
  lemma AtPositionInfo(message: string, line: int, pos: int, abs: int)
    ensures AtPosition(message, line, pos, abs).HasLineInfo() <==> line > -1 && pos > -1
    ensures AtPosition(message, line, pos, abs).Line() == line + 1 && AtPosition(message, line, pos, abs).Pos() == pos
    ensures AtPosition(message, line, pos, abs).HasSelectionInfo()
    ensures AtPosition(message, line, pos, abs).Start() == 0 && AtPosition(message, line, pos, abs).End() == 0
  {
  }

  /** A span error selects its span when both ends are set, and claims line 1. */
  lemma SpanningInfo(message: string, from: int, to: int)
    ensures Spanning(message, from, to).HasLineInfo() && Spanning(message, from, to).Line() == 1
    ensures Spanning(message, from, to).HasSelectionInfo() <==> from > -1 && to > -1
    ensures from > -1 && to > -1 ==> Spanning(message, from, to).Start() == from && Spanning(message, from, to).End() == to
    ensures !(from > -1 && to > -1) ==> Spanning(message, from, to).Start() == -1 && Spanning(message, from, to).End() == 0
  {
  }

  /** A span error with a line reports both. */
  lemma SpanningLineInfo(message: string, line: int, pos: int, from: int, to: int)
    ensures SpanningLine(message, line, pos, from, to).HasLineInfo() <==> line > -1 && pos > -1
    ensures SpanningLine(message, line, pos, from, to).Line() == line + 1
    ensures SpanningLine(message, line, pos, from, to).HasSelectionInfo() <==> from > -1 && to > -1
    ensures from > -1 && to > -1 ==>
      SpanningLine(message, line, pos, from, to).Start() == from && SpanningLine(message, line, pos, from, to).End() == to
  {
  }
}
