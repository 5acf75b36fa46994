/** The few JavaScript values the grid calculator computes with: an optional
    argument or option, a pixel quantity that may be `undefined` or `NaN`, and
    the integer-percent text that `percentage` produces. */
module JsValues {

  /** An optional value: `None` is a key that is absent or an argument that is
      left out (JavaScript's `undefined`). */
  datatype Option<+T> = None | Some(value: T) {
    /** The value, or `default` when there is none (a default parameter). */
    function GetOr(default: T): T {
      match this
      case Some(v) => v
      case None => default
    }
  }

  /** A pixel quantity as JavaScript holds it. Gutters are whole pixels; a
      gutter that was never assigned is `undefined`, and arithmetic on it
      gives `NaN`. */
  datatype Num = Undefined | NaN | Int(n: int)

  /** `a + b` on numbers: defined only when both operands are numbers. */
  function Add(a: Num, b: Num): (r: Num)
    ensures r.Int? <==> a.Int? && b.Int?
    ensures r.Int? ==> r.n == a.n + b.n
    ensures !r.Int? ==> r == NaN
  {
    if a.Int? && b.Int? then Int(a.n + b.n) else NaN
  }

  /** `a - b` on numbers: defined only when both operands are numbers. */
  function Sub(a: Num, b: Num): (r: Num)
    ensures r.Int? <==> a.Int? && b.Int?
    ensures r.Int? ==> r.n == a.n - b.n
    ensures !r.Int? ==> r == NaN
  {
    if a.Int? && b.Int? then Int(a.n - b.n) else NaN
  }

  /** A default parameter `x = d`: the default applies exactly when the
      argument is `undefined`; `NaN` and numbers are kept. */
  function OrDefault(x: Num, d: Num): (r: Num)
    ensures x != Undefined ==> r == x
    ensures x == Undefined ==> r == d
  {
    if x.Undefined? then d else x
  }

  /** The text `"<sign><digits>%"`: `negative` says whether a `-` is written,
      `magnitude` is the number written after it. */
  datatype Percent = Percent(negative: bool, magnitude: nat)

  function Abs(x: real): (r: real)
    ensures r >= 0.0 && (r == x || r == -x)
  {
    if x < 0.0 then -x else x
  }

  /** `percentage(d)`, that is `(d * 100).toFixed()` followed by `%`, over
      exact rationals. `toFixed` with no digits writes a `-` for every
      negative number (so a small negative fraction gives `-0%`) and then the
      integer nearest to the magnitude, taking the larger one on a tie. */
  function Percentage(d: real): (p: Percent)
    ensures p.negative <==> d < 0.0
    ensures Abs(d * 100.0) - 0.5 < p.magnitude as real <= Abs(d * 100.0) + 0.5
  {
    var x := d * 100.0;
    Percent(x < 0.0, (Abs(x) + 0.5).Floor)
  }

  /** No other whole number is nearer to `|d * 100|` than the magnitude that
      `Percentage` writes, and on a tie the written one is the larger. */
  lemma PercentageIsNearest(d: real, k: nat)
    ensures Abs(Percentage(d).magnitude as real - Abs(d * 100.0))
            <= Abs(k as real - Abs(d * 100.0))
    ensures (Abs(Percentage(d).magnitude as real - Abs(d * 100.0))
             == Abs(k as real - Abs(d * 100.0))) ==> k <= Percentage(d).magnitude
  {
    var m := Percentage(d).magnitude;
    var a := Abs(d * 100.0);
    if k < m {
      assert k as real <= m as real - 1.0;
      assert a - k as real >= a - m as real + 1.0;
    } else if k > m {
      assert k as real >= m as real + 1.0;
    }
  }

  /** Worked values: a third rounds down, an exact half rounds up, one is a
      hundred per cent, and a tiny negative fraction keeps its minus sign. */
  lemma PercentageExamples()
    ensures Percentage(0.3333) == Percent(false, 33)
    ensures Percentage(0.125) == Percent(false, 13)
    ensures Percentage(1.0) == Percent(false, 100)
    ensures Percentage(0.25) == Percent(false, 25)
    ensures Percentage(-0.004) == Percent(true, 0)
  {
  }
}
