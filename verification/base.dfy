/**
 * Shared vocabulary: an optional value (JavaScript `null`/`undefined` and
 * Rust's `Option`) and the JavaScript rounding functions on exact reals.
 */
module Base {

  datatype Option<+T> = None | Some(value: T) {
    function GetOr(default: T): T {
      match this
      case Some(v) => v
      case None => default
    }
  }

  function MaxR(a: real, b: real): real { if a >= b then a else b }
  function MinR(a: real, b: real): real { if a <= b then a else b }
  function MaxI(a: int, b: int): int { if a >= b then a else b }
  function MinI(a: int, b: int): int { if a <= b then a else b }

  predicate StrictlyIncreasing(s: seq<real>) {
    forall i, j :: 0 <= i < j < |s| ==> s[i] < s[j]
  }

  /** `Math.round`: ties go towards +infinity. */
  function Round(x: real): (r: int)
    ensures x - 0.5 < r as real <= x + 0.5
  {
    (x + 0.5).Floor
  }

  /** `Math.ceil`. */
  function Ceil(x: real): (r: int)
    ensures x <= r as real < x + 1.0
  {
    -((-x).Floor)
  }

  /** `Math.floor`, named for symmetry with the two above. */
  function Floor(x: real): (r: int)
    ensures r as real <= x < r as real + 1.0
  {
    x.Floor
  }

  /** Rounding returns the integer itself on integral inputs. */
  lemma RoundOfInt(n: int)
    ensures Round(n as real) == n
  {
  }

  /** Rounding never reverses the order of its inputs. */
  lemma RoundMonotone(x: real, y: real)
    requires x <= y
    ensures Round(x) <= Round(y)
  {
  }

  /** Flooring never reverses the order of its inputs. */
  lemma FloorMonotone(x: real, y: real)
    requires x <= y
    ensures Floor(x) <= Floor(y)
  {
  }

  /** The least integer at or above `x` is bounded by any integer at or above `x`. */
  lemma CeilLeast(x: real, n: int)
    requires x <= n as real
    ensures Ceil(x) <= n
  {
  }
}
