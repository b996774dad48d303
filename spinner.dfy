/** The activity spinner: a pointer walking the string "-\\|-/" (vaydeer.c:89-90, 99-103). */
module Spinner {
  import opened CString

  /** The glyphs shown in turn, one per byte read. */
  const Tumbler: string := "-\\|-/"

  /** Number of glyphs in the tumbler. */
  const Period: nat := 5

  /** `ptr++; if (*ptr == '\0') ptr = tumbler;` with the pointer as an index into `Tumbler`. */
  function Advance(p: nat): (q: nat)
    requires p < |Tumbler|
    ensures |Tumbler| == Period
    ensures q < |Tumbler| && q == (p + 1) % Period
  {
    if At(Tumbler, p + 1) == NUL then 0 else p + 1
  }

  /** The spinner position after `n` advances from `p`. */
  function AdvanceBy(p: nat, n: nat): (q: nat)
    requires p < Period
    ensures q < Period
    decreases n
  {
    if n == 0 then p else AdvanceBy(Advance(p), n - 1)
  }

  /** `n` advances move the spinner `n` places round the tumbler. */
  lemma {:induction false} AdvanceByMod(p: nat, n: nat)
    requires p < Period
    ensures AdvanceBy(p, n) == (p + n) % Period
    decreases n
  {
    if n > 0 {
      AdvanceByMod(Advance(p), n - 1);
    }
  }

  /** Advances compose: `m` then `n` is `m + n`. */
  lemma {:induction false} AdvanceByAdd(p: nat, m: nat, n: nat)
    requires p < Period
    ensures AdvanceBy(AdvanceBy(p, m), n) == AdvanceBy(p, m + n)
    decreases m
  {
    if m > 0 {
      AdvanceByAdd(Advance(p), m - 1, n);
    }
  }

  /** The glyphs shown from the start repeat with period five, beginning "-\\|-/". */
  lemma GlyphCycle(k: nat)
    ensures Tumbler[AdvanceBy(0, 0)] == '-'
    ensures AdvanceBy(0, k + Period) == AdvanceBy(0, k)
    ensures Tumbler[AdvanceBy(0, k)] == Tumbler[k % Period]
  {
    AdvanceByMod(0, k + Period);
    AdvanceByMod(0, k);
  }
}
