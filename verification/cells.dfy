/**
 * Grid cell values and the cell check of utils.mjs.
 *
 * A cell holds whatever a JavaScript array element can hold that matters here:
 * a number (finite, NaN or an infinity), null, or undefined (also what reading
 * past the end of a row yields). Finite numbers are exact reals.
 */
module Cells {

  datatype JsNumber = Finite(r: real) | NaN | Infinity(negative: bool)

  datatype Cell = Num(n: JsNumber) | Null | Undefined

  /** JavaScript's numeric coercion of a cell value: null becomes 0, undefined NaN. */
  function ToNumber(c: Cell): JsNumber
  {
    match c
    case Num(n) => n
    case Null => Finite(0.0)
    case Undefined => NaN
  }

  /** The global isFinite. */
  predicate IsFinite(c: Cell) { ToNumber(c).Finite? }

  /** The global isNaN. */
  predicate IsNaN(c: Cell) { ToNumber(c).NaN? }

  /**
   * validateCell: finite and not NaN. The NaN test adds nothing to the finiteness
   * test, and null passes the check (it coerces to 0).
   */
  function ValidateCell(c: Cell): (ok: bool)
    ensures ok <==> IsFinite(c)
    ensures ok <==> c.Null? || (c.Num? && c.n.Finite?)
  {
    IsFinite(c) && !IsNaN(c)
  }

  /** The numeric value of a valid cell, as JavaScript arithmetic sees it. */
  function Value(c: Cell): real
    requires ValidateCell(c)
  {
    ToNumber(c).r
  }

  /** A cell belongs to a signal region when it is valid and strictly above the threshold. */
  predicate Qualifies(c: Cell, threshold: real)
  {
    ValidateCell(c) && Value(c) > threshold
  }
}
