/**
 * Input classification: touch gestures and key names become navigation commands.
 * Both rules are decisions on their inputs alone; the controller applies the command.
 */
module Input {

  /** What one input asks the navigator to do. */
  datatype Command = GoPrevious | GoNext | GoTo(target: int) | ToggleFullscreen | NoAction

  /** A horizontal swipe must travel strictly more than this many pixels. */
  const MinSwipeDistance: int := 50

  function Abs(x: int): (r: nat)
    ensures r == x || r == -x
  {
    if x < 0 then -x else x
  }

  /** A gesture navigates when it is mostly horizontal and long enough. */
  predicate IsNavigatingSwipe(deltaX: int, deltaY: int) {
    Abs(deltaX) > Abs(deltaY) && Abs(deltaX) > MinSwipeDistance
  }

  /** Classifies a touch gesture from its start and end points. */
  function ClassifySwipe(startX: int, startY: int, endX: int, endY: int): (c: Command)
    ensures c == GoPrevious || c == GoNext || c == NoAction
    ensures c != NoAction <==> IsNavigatingSwipe(endX - startX, endY - startY)
    ensures c == GoPrevious <==> IsNavigatingSwipe(endX - startX, endY - startY) && endX > startX
    ensures c == GoNext <==> IsNavigatingSwipe(endX - startX, endY - startY) && endX < startX
  {
    var deltaX := endX - startX;
    var deltaY := endY - startY;
    if IsNavigatingSwipe(deltaX, deltaY) then
      if deltaX > 0 then GoPrevious else GoNext
    else
      NoAction
  }

  /** The command a gesture in the opposite direction asks for. */
  function Opposite(c: Command): Command {
    match c
    case GoPrevious => GoNext
    case GoNext => GoPrevious
    case _ => c
  }

  /** Retracing a gesture backwards asks for the opposite step. */
  lemma SwipeReversed(startX: int, startY: int, endX: int, endY: int)
    ensures ClassifySwipe(endX, endY, startX, startY) == Opposite(ClassifySwipe(startX, startY, endX, endY))
  {
  }

  /** Only the displacement matters, not where on the screen the gesture happens. */
  lemma SwipeTranslated(startX: int, startY: int, endX: int, endY: int, shiftX: int, shiftY: int)
    ensures ClassifySwipe(startX + shiftX, startY + shiftY, endX + shiftX, endY + shiftY)
         == ClassifySwipe(startX, startY, endX, endY)
  {
  }

  /** Sample gestures: right swipe, left swipe, a short one and a vertical one. */
  lemma SwipeSamples()
    ensures ClassifySwipe(0, 0, 100, 0) == GoPrevious
    ensures ClassifySwipe(100, 0, 0, 0) == GoNext
    ensures ClassifySwipe(0, 0, 40, 0) == NoAction
    ensures ClassifySwipe(0, 0, 50, 0) == NoAction
    ensures ClassifySwipe(0, 0, 10, 100) == NoAction
  {
  }

  const PreviousKeys: set<string> := {"ArrowLeft", "ArrowUp"}
  const NextKeys: set<string> := {"ArrowRight", "ArrowDown", " "}

  /** Every key the keyboard handler reacts to (and whose default handling it suppresses). */
  const BoundKeys: set<string> := PreviousKeys + NextKeys + {"Home", "End", "Escape"}

  /** The keydown switch: which command a key name asks for, given the slide count. */
  function KeyCommand(key: string, totalSlides: int): (c: Command)
    ensures c == GoPrevious <==> key in PreviousKeys
    ensures c == GoNext <==> key in NextKeys
    ensures c == GoTo(1) <== key == "Home"
    ensures c == GoTo(totalSlides) <== key == "End"
    ensures c.GoTo? ==> key == "Home" || key == "End"
    ensures c == ToggleFullscreen <==> key == "Escape"
    ensures c == NoAction <==> key !in BoundKeys
  {
    if key == "ArrowLeft" || key == "ArrowUp" then GoPrevious
    else if key == "ArrowRight" || key == "ArrowDown" || key == " " then GoNext
    else if key == "Home" then GoTo(1)
    else if key == "End" then GoTo(totalSlides)
    else if key == "Escape" then ToggleFullscreen
    else NoAction
  }
}
