/**
 * The navigation rules as functions of the slide index: where each operation moves it, and how
 * the single "active" mark moves with it. The controller's methods are proved against these.
 */
module Navigation {
  import opened Input

  /** The presentation has a fixed number of slides. */
  const TotalSlides: int := 14

  predicate InRange(n: int, totalSlides: int) {
    1 <= n <= totalSlides
  }

  /** goToSlide: an out-of-range target is ignored; any other target becomes current. */
  function GoToTarget(current: int, totalSlides: int, slideNumber: int): (r: int)
    ensures InRange(current, totalSlides) ==> InRange(r, totalSlides)
    ensures r != current ==> r == slideNumber
  {
    if slideNumber < 1 || slideNumber > totalSlides then current else slideNumber
  }

  /** nextSlide: steps forward through goToSlide unless already on the last slide. */
  function NextTarget(current: int, totalSlides: int): (r: int)
    ensures InRange(current, totalSlides) ==> InRange(r, totalSlides) && (r == current || r == current + 1)
  {
    if current < totalSlides then GoToTarget(current, totalSlides, current + 1) else current
  }

  /** previousSlide: steps back through goToSlide unless already on the first slide. */
  function PreviousTarget(current: int, totalSlides: int): (r: int)
    ensures InRange(current, totalSlides) ==> InRange(r, totalSlides) && (r == current || r == current - 1)
  {
    if current > 1 then GoToTarget(current, totalSlides, current - 1) else current
  }

  /** The slide index after a command; fullscreen and ignored inputs leave it alone. */
  function Apply(current: int, totalSlides: int, c: Command): (r: int)
    ensures InRange(current, totalSlides) ==> InRange(r, totalSlides)
    ensures c == NoAction || c == ToggleFullscreen ==> r == current
  {
    match c
    case GoPrevious => PreviousTarget(current, totalSlides)
    case GoNext => NextTarget(current, totalSlides)
    case GoTo(n) => GoToTarget(current, totalSlides, n)
    case ToggleFullscreen => current
    case NoAction => current
  }

  /**
   * Whether a command reaches goToSlide with an in-range target, so that the marks, the display
   * and the progress bar are rewritten (also when the target is the current slide).
   */
  predicate Moves(current: int, totalSlides: int, c: Command) {
    match c
    case GoPrevious => current > 1
    case GoNext => current < totalSlides
    case GoTo(n) => InRange(n, totalSlides)
    case ToggleFullscreen => false
    case NoAction => false
  }

  /**
   * The slide index after a whole sequence of commands, applied one at a time in arrival order.
   * Whatever the inputs, the current slide never leaves 1..totalSlides.
   */
  function ApplyAll(current: int, totalSlides: int, cs: seq<Command>): (r: int)
    ensures InRange(current, totalSlides) ==> InRange(r, totalSlides)
    decreases |cs|
  {
    if cs == [] then current else ApplyAll(Apply(current, totalSlides, cs[0]), totalSlides, cs[1..])
  }

  /** Handling one stream of inputs and then another is the same as handling them together. */
  lemma {:induction false} ApplyAllAppend(current: int, totalSlides: int, first: seq<Command>, rest: seq<Command>)
    ensures ApplyAll(current, totalSlides, first + rest)
         == ApplyAll(ApplyAll(current, totalSlides, first), totalSlides, rest)
    decreases |first|
  {
    if first == [] {
      assert first + rest == rest;
    } else {
      assert (first + rest)[0] == first[0];
      assert (first + rest)[1..] == first[1..] + rest;
      ApplyAllAppend(Apply(current, totalSlides, first[0]), totalSlides, first[1..], rest);
    }
  }

  /** nextSlide is a no-op exactly on the last slide and otherwise advances by one. */
  lemma NextStep(current: int, totalSlides: int)
    requires InRange(current, totalSlides)
    ensures NextTarget(current, totalSlides) == current <==> current == totalSlides
    ensures current < totalSlides ==> NextTarget(current, totalSlides) == current + 1
  {
  }

  /** previousSlide is a no-op exactly on the first slide and otherwise goes back by one. */
  lemma PreviousStep(current: int, totalSlides: int)
    requires InRange(current, totalSlides)
    ensures PreviousTarget(current, totalSlides) == current <==> current == 1
    ensures current > 1 ==> PreviousTarget(current, totalSlides) == current - 1
  {
  }

  /** A step forward is undone by a step back, and vice versa, away from the ends. */
  lemma NextPreviousInverse(current: int, totalSlides: int)
    requires InRange(current, totalSlides)
    ensures current < totalSlides ==> PreviousTarget(NextTarget(current, totalSlides), totalSlides) == current
    ensures current > 1 ==> NextTarget(PreviousTarget(current, totalSlides), totalSlides) == current
  {
  }

  function Min(a: int, b: int): int { if a <= b then a else b }
  function Max(a: int, b: int): int { if a >= b then a else b }

  /** `k` copies of one command, as from pressing the same key `k` times. */
  function Repeat(c: Command, k: nat): (cs: seq<Command>)
    ensures |cs| == k && forall i :: 0 <= i < k ==> cs[i] == c
  {
    seq(k, _ => c)
  }

  /** Pressing "next" k times advances k slides, stopping at the last. */
  lemma {:induction false} NextsReach(current: int, totalSlides: int, k: nat)
    requires InRange(current, totalSlides)
    ensures ApplyAll(current, totalSlides, Repeat(GoNext, k)) == Min(current + k, totalSlides)
    decreases k
  {
    if k > 0 {
      var cs := Repeat(GoNext, k);
      assert cs[1..] == Repeat(GoNext, k - 1);
      NextsReach(NextTarget(current, totalSlides), totalSlides, k - 1);
    }
  }

  /** Pressing "previous" k times goes back k slides, stopping at the first. */
  lemma {:induction false} PreviousesReach(current: int, totalSlides: int, k: nat)
    requires InRange(current, totalSlides)
    ensures ApplyAll(current, totalSlides, Repeat(GoPrevious, k)) == Max(current - k, 1)
    decreases k
  {
    if k > 0 {
      var cs := Repeat(GoPrevious, k);
      assert cs[1..] == Repeat(GoPrevious, k - 1);
      PreviousesReach(PreviousTarget(current, totalSlides), totalSlides, k - 1);
    }
  }

  /** Home, then "next" seven times, from the opening slide of fourteen ends on slide 8. */
  lemma HomeThenSevenNexts()
    ensures ApplyAll(1, TotalSlides, [GoTo(1)] + Repeat(GoNext, 7)) == 8
  {
    var cs := [GoTo(1)] + Repeat(GoNext, 7);
    assert cs[0] == GoTo(1) && cs[1..] == Repeat(GoNext, 7);
    NextsReach(1, TotalSlides, 7);
  }

  /** Exactly the entry at `k` is active. */
  predicate ExactlyOneActive(flags: seq<bool>, k: int) {
    0 <= k < |flags| && forall i :: 0 <= i < |flags| ==> (flags[i] <==> i == k)
  }

  /** The flags after clearing entry `from` and then setting entry `to`. */
  function MoveMark(flags: seq<bool>, from: int, to: int): (r: seq<bool>)
    requires 0 <= from < |flags| && 0 <= to < |flags|
    ensures |r| == |flags| && r[to]
    ensures from != to ==> !r[from]
    ensures forall i :: 0 <= i < |flags| && i != from && i != to ==> r[i] == flags[i]
  {
    flags[from := false][to := true]
  }

  /** Moving the mark keeps exactly one entry active, now the target (also when from == to). */
  lemma MoveMarkKeepsOne(flags: seq<bool>, from: int, to: int)
    requires ExactlyOneActive(flags, from) && 0 <= to < |flags|
    ensures ExactlyOneActive(MoveMark(flags, from, to), to)
  {
  }
}
