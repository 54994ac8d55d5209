/** What the control functions of ECMA-48 mean for the text and the cursor, in closed form. */
module ControlFunctions {
  import opened Basics
  import opened Screen
  import opened ScreenCells
  import opened ScreenEditing

  /** The part of the screen's state the editing functions depend on. */
  datatype View = View(cols: nat, rows: nat, top: nat, bottom: nat, x: nat, y: nat, blank: Char)

  ghost predicate ViewOk(v: View) {
    v.x < v.cols && v.y < v.rows && v.top < v.bottom <= v.rows
  }

  /** The final bytes of the functions that change text. */
  predicate EditsText(c: char) {
    EditsLine(c) || EditsLines(c)
  }

  predicate EditsLine(c: char) {
    c == 'K' || c == '@' || c == 'P' || c == 'X'
  }

  predicate EditsLines(c: char) {
    c == 'J' || c == 'M' || c == 'L' || c == 'S' || c == 'T'
  }

  /** The text after an editing function with parameter `n`. */
  function Edited(c: char, n: nat, v: View, text: seq<Char>): seq<Char>
    requires v.x < v.cols && v.top < v.bottom
  {
    var row := At(v.cols, 0, v.y);
    var here := At(v.cols, v.x, v.y);
    var inMargins := v.top <= v.y < v.bottom;
    match c
    case 'J' =>
      var a, z := DisplayStart(v.cols, n, v.x, v.y), DisplayEnd(v.cols, v.rows, n, v.x, v.y);
      if n <= 3 && a <= z then Filled(text, a, z - a, v.blank) else text
    case 'K' => if n <= 2
      then Filled(text, LineStart(v.cols, n, v.x, v.y), LineCount(v.cols, n, v.x), v.blank) else text
    case '@' => Right(text, here, row + v.cols, Least(n, v.cols - v.x), v.blank)
    case 'P' => Left(text, here, row + v.cols, Least(n, v.cols - v.x), v.blank)
    case 'X' => Filled(text, here, Least(n, v.cols - v.x), v.blank)
    case 'M' => if inMargins
      then Left(text, row, At(v.cols, 0, v.bottom), At(v.cols, 0, Least(n, v.bottom - v.y)), v.blank) else text
    case 'L' => if inMargins
      then Right(text, row, At(v.cols, 0, v.bottom), At(v.cols, 0, Least(n, v.bottom - v.y)), v.blank) else text
    case 'S' => Left(text, At(v.cols, 0, v.top), At(v.cols, 0, v.bottom),
      At(v.cols, 0, Least(n, v.bottom - v.top)), v.blank)
    case 'T' => Right(text, At(v.cols, 0, v.top), At(v.cols, 0, v.bottom),
      At(v.cols, 0, Least(n, v.bottom - v.top)), v.blank)
    case _ => text
  }

  /** The functions that change modes or repeat a character. */
  predicate SetsState(c: char) {
    !EditsText(c) && !MovesCursor(c)
  }

  /** The kinds of functions do not overlap. */
  lemma Kinds(c: char)
    ensures MovesCursor(c) ==> !EditsText(c)
    ensures EditsText(c) || MovesCursor(c) ==>
      c != 'm' && c != 's' && c != 'u' && c != 'r' && c != 'h' && c != 'l' && c != 'b'
    ensures EditsText(c) <==> EditsLine(c) || EditsLines(c)
  {
  }

  predicate MovesCursor(c: char) {
    || c == 'A' || c == 'F' || c == 'B' || c == 'E' || c == 'e' || c == 'C' || c == 'a' || c == 'D'
    || c == 'd' || c == 'G' || c == '`' || c == 'H' || c == 'f'
  }

  function Minus(a: nat, b: nat): nat {
    if a < b then 0 else a - b
  }

  /** A one-based row, counted within the margins in origin mode, as a row of the screen. */
  function RowOf(v: View, origin: bool, p: nat): nat
    requires v.top < v.bottom && v.rows >= 1
  {
    if origin then v.top + Least(Minus(p, 1), v.bottom - v.top - 1) else Least(Minus(p, 1), v.rows - 1)
  }

  /** Where a cursor function with parameters `p` and `q` takes the cursor. */
  function Moved(c: char, p: nat, q: nat, v: View, origin: bool): (nat, nat)
    requires v.x < v.cols && v.y < v.rows && v.top < v.bottom
  {
    var up := Greatest(Minus(v.y, p), if origin then v.top else 0);
    var down := Least(v.y + p, (if origin then v.bottom else v.rows) - 1);
    match c
    case 'A' => (v.x, up)
    case 'F' => (0, up)
    case 'B' | 'e' => (v.x, down)
    case 'E' => (0, down)
    case 'C' | 'a' => (Least(v.x + p, v.cols - 1), v.y)
    case 'D' => (Minus(v.x, p), v.y)
    case 'd' => (v.x, RowOf(v, origin, p))
    case 'G' | '`' => (Least(Minus(p, 1), v.cols - 1), v.y)
    case 'H' | 'f' => (Least(Minus(q, 1), v.cols - 1), RowOf(v, origin, p))
    case _ => (v.x, v.y)
  }

  /** The margins a region of rows `p` to `q` sets; a region of fewer than two rows, or one that does
      not fit, gives the whole screen. */
  function Margins(rows: nat, given: nat, p: nat, q: nat): (r: (nat, nat))
    requires rows >= 1
    ensures r.0 < r.1 <= rows
  {
    var t := if given > 0 then Minus(p, 1) else 0;
    var b := if given > 1 then q else rows;
    if t + 1 < b <= rows then (t, b) else (0, rows)
  }
}
