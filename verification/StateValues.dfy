/**
 * The variant type of scheduler state: F is the type of its float, D of its double, S of its string.
 * Schedulers hold numbers and text; files hold bits and bytes.
 */
module StateValues {
  datatype StateValue<F, D, S> = Int64(i: int) | Float(x: F) | Double(d: D) | Text(s: S) | Floats(v: seq<F>)
}
