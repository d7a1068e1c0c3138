/** Python's slice `xs[start:stop]` (step 1), which never fails: negative
    bounds count from the end and both bounds clip to the length. */
module Slicing {

  function Min(a: int, b: int): int {
    if a <= b then a else b
  }

  /** The position that one slice bound `i` denotes in a sequence of length `len`. */
  function Clip(i: int, len: nat): (r: nat)
    ensures r <= len
  {
    if i < 0 then (if i + len < 0 then 0 else i + len)
    else if i > len then len
    else i
  }

  /** The index window [lo, hi) that `xs[start:stop]` selects when `|xs| == len`;
      it is empty (lo == hi) when the clipped start is not below the clipped stop. */
  function Window(len: nat, start: int, stop: int): (w: (nat, nat))
    ensures w.0 <= w.1 <= len
  {
    var lo := Clip(start, len);
    var hi := Clip(stop, len);
    if lo <= hi then (lo, hi) else (lo, lo)
  }

  /** For non-negative, ordered bounds, slicing only clips at the length:
      `xs[start:stop]` is `xs[min(start, len):min(stop, len)]`. */
  lemma WindowOfNonNegative(len: nat, start: int, stop: int)
    requires 0 <= start <= stop
    ensures Window(len, start, stop) == (Min(start, len), Min(stop, len))
  {
  }
}
