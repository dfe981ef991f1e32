/**
 * The presentation controller: the current slide index, the slide and dot "active" flags it
 * toggles in place, and the counter, button and progress-bar state it keeps in step with the index.
 */
module Controller {
  import opened Input
  import opened Navigation
  import opened Display

  class PresentationController {
    var currentSlide: int
    const totalSlides: int
    /** `slides[i]` holds when slide i + 1 carries the "active" mark; likewise `dots`. */
    const slides: array<bool>
    const dots: array<bool>
    var counterText: string
    var prevDisabled: bool
    var nextDisabled: bool
    var prevOpacity: string
    var nextOpacity: string
    /** The progress bar's width in percent. */
    var progress: real

    /** The index is a slide, and both flag arrays have one entry per slide. */
    predicate WellFormed()
      reads this
    {
      slides.Length == totalSlides && dots.Length == totalSlides && InRange(currentSlide, totalSlides)
    }

    /** The counter and the two buttons show the current index. */
    predicate DisplayInSync()
      reads this
      requires WellFormed()
    {
      counterText == CounterText(currentSlide, totalSlides) &&
      prevDisabled == (currentSlide == 1) && nextDisabled == (currentSlide == totalSlides) &&
      prevOpacity == ButtonOpacity(prevDisabled) && nextOpacity == ButtonOpacity(nextDisabled)
    }

    predicate Valid()
      reads this
    {
      WellFormed() && DisplayInSync()
    }

    /** Exactly slide `k` and dot `k` carry the "active" mark. */
    predicate ActiveMarksAt(k: int)
      reads this, slides, dots
    {
      ExactlyOneActive(slides[..], k - 1) && ExactlyOneActive(dots[..], k - 1)
    }

    /**
     * Starts on slide 1 of 14 and syncs the counter and buttons. The flag arrays are those of the
     * page; the progress bar keeps the width the page gave it until the first navigation.
     */
    constructor (slides: array<bool>, dots: array<bool>, pageProgress: real)
      requires slides.Length == TotalSlides && dots.Length == TotalSlides
      ensures Valid()
      ensures currentSlide == 1 && totalSlides == TotalSlides
      ensures this.slides == slides && this.dots == dots && progress == pageProgress
    {
      currentSlide := 1;
      totalSlides := TotalSlides;
      this.slides := slides;
      this.dots := dots;
      progress := pageProgress;
      new;
      UpdateSlideDisplay();
    }

    /** Derives the counter text, the disabled flags and the button opacities from the index. */
    method UpdateSlideDisplay()
      requires WellFormed()
      modifies this`counterText, this`prevDisabled, this`nextDisabled, this`prevOpacity, this`nextOpacity
      ensures Valid()
      ensures counterText == CounterText(currentSlide, totalSlides)
      ensures prevDisabled <==> currentSlide == 1
      ensures nextDisabled <==> currentSlide == totalSlides
    {
      counterText := CounterText(currentSlide, totalSlides);
      prevDisabled := currentSlide == 1;
      nextDisabled := currentSlide == totalSlides;
      prevOpacity := ButtonOpacity(prevDisabled);
      nextOpacity := ButtonOpacity(nextDisabled);
    }

    /**
     * Moves to `slideNumber` when it is a slide: clears the old slide's and dot's mark, sets the
     * new ones (also when they are the same), and refreshes the display and the progress bar.
     */
    method GoToSlide(slideNumber: int)
      requires Valid()
      modifies this, slides, dots
      ensures Valid()
      ensures currentSlide == GoToTarget(old(currentSlide), totalSlides, slideNumber)
      ensures !InRange(slideNumber, totalSlides) ==> unchanged(this) && unchanged(slides) && unchanged(dots)
      ensures InRange(slideNumber, totalSlides) ==>
        slides[..] == MoveMark(old(slides[..]), old(currentSlide) - 1, slideNumber - 1) &&
        dots[..] == MoveMark(old(dots[..]), old(currentSlide) - 1, slideNumber - 1) &&
        progress == ProgressPercent(slideNumber, totalSlides)
      ensures old(ActiveMarksAt(currentSlide)) ==> ActiveMarksAt(currentSlide)
    {
      if slideNumber < 1 || slideNumber > totalSlides {
        return;
      }
      ghost var oldSlides, oldDots := slides[..], dots[..];
      slides[currentSlide - 1] := false;
      dots[currentSlide - 1] := false;
      slides[slideNumber - 1] := true;
      dots[slideNumber - 1] := true;
      assert slides[..] == MoveMark(oldSlides, currentSlide - 1, slideNumber - 1);
      assert dots[..] == MoveMark(oldDots, currentSlide - 1, slideNumber - 1);
      if ExactlyOneActive(oldSlides, currentSlide - 1) {
        MoveMarkKeepsOne(oldSlides, currentSlide - 1, slideNumber - 1);
      }
      if ExactlyOneActive(oldDots, currentSlide - 1) {
        MoveMarkKeepsOne(oldDots, currentSlide - 1, slideNumber - 1);
      }
      currentSlide := slideNumber;
      UpdateSlideDisplay();
      progress := ProgressPercent(currentSlide, totalSlides);
    }

    /** Steps forward unless on the last slide, where nothing happens. */
    method NextSlide()
      requires Valid()
      modifies this, slides, dots
      ensures Valid()
      ensures currentSlide == NextTarget(old(currentSlide), totalSlides)
      ensures old(currentSlide) == totalSlides ==> unchanged(this) && unchanged(slides) && unchanged(dots)
      ensures old(currentSlide) < totalSlides ==>
        currentSlide == old(currentSlide) + 1 &&
        slides[..] == MoveMark(old(slides[..]), old(currentSlide) - 1, currentSlide - 1) &&
        dots[..] == MoveMark(old(dots[..]), old(currentSlide) - 1, currentSlide - 1) &&
        progress == ProgressPercent(currentSlide, totalSlides)
      ensures old(ActiveMarksAt(currentSlide)) ==> ActiveMarksAt(currentSlide)
    {
      if currentSlide < totalSlides {
        GoToSlide(currentSlide + 1);
      }
    }

    /** Steps back unless on the first slide, where nothing happens. */
    method PreviousSlide()
      requires Valid()
      modifies this, slides, dots
      ensures Valid()
      ensures currentSlide == PreviousTarget(old(currentSlide), totalSlides)
      ensures old(currentSlide) == 1 ==> unchanged(this) && unchanged(slides) && unchanged(dots)
      ensures old(currentSlide) > 1 ==>
        currentSlide == old(currentSlide) - 1 &&
        slides[..] == MoveMark(old(slides[..]), old(currentSlide) - 1, currentSlide - 1) &&
        dots[..] == MoveMark(old(dots[..]), old(currentSlide) - 1, currentSlide - 1) &&
        progress == ProgressPercent(currentSlide, totalSlides)
      ensures old(ActiveMarksAt(currentSlide)) ==> ActiveMarksAt(currentSlide)
    {
      if currentSlide > 1 {
        GoToSlide(currentSlide - 1);
      }
    }

    /** Carries out a command; fullscreen is the document's business and moves nothing here. */
    method Perform(c: Command)
      requires Valid()
      modifies this, slides, dots
      ensures Valid()
      ensures currentSlide == Apply(old(currentSlide), totalSlides, c)
      ensures !Moves(old(currentSlide), totalSlides, c) ==> unchanged(this) && unchanged(slides) && unchanged(dots)
      ensures Moves(old(currentSlide), totalSlides, c) ==>
        slides[..] == MoveMark(old(slides[..]), old(currentSlide) - 1, currentSlide - 1) &&
        dots[..] == MoveMark(old(dots[..]), old(currentSlide) - 1, currentSlide - 1) &&
        progress == ProgressPercent(currentSlide, totalSlides)
      ensures old(ActiveMarksAt(currentSlide)) ==> ActiveMarksAt(currentSlide)
    {
      match c
      case GoPrevious => PreviousSlide();
      case GoNext => NextSlide();
      case GoTo(n) => GoToSlide(n);
      case ToggleFullscreen =>
      case NoAction =>
    }

    /** The touchend handler: a long horizontal swipe right goes back, left goes forward. */
    method HandleSwipe(startX: int, startY: int, endX: int, endY: int)
      requires Valid()
      modifies this, slides, dots
      ensures Valid()
      ensures currentSlide == Apply(old(currentSlide), totalSlides, ClassifySwipe(startX, startY, endX, endY))
      ensures !IsNavigatingSwipe(endX - startX, endY - startY) ==>
        unchanged(this) && unchanged(slides) && unchanged(dots)
      ensures !Moves(old(currentSlide), totalSlides, ClassifySwipe(startX, startY, endX, endY)) ==>
        unchanged(this) && unchanged(slides) && unchanged(dots)
      ensures Moves(old(currentSlide), totalSlides, ClassifySwipe(startX, startY, endX, endY)) ==>
        slides[..] == MoveMark(old(slides[..]), old(currentSlide) - 1, currentSlide - 1) &&
        dots[..] == MoveMark(old(dots[..]), old(currentSlide) - 1, currentSlide - 1) &&
        progress == ProgressPercent(currentSlide, totalSlides)
      ensures old(ActiveMarksAt(currentSlide)) ==> ActiveMarksAt(currentSlide)
    {
      Perform(ClassifySwipe(startX, startY, endX, endY));
    }

    /**
     * The keydown handler. Reports whether the key's default handling is suppressed, which is
     * the case for exactly the keys it reacts to.
     */
    method HandleKey(key: string) returns (defaultPrevented: bool)
      requires Valid()
      modifies this, slides, dots
      ensures Valid()
      ensures defaultPrevented <==> key in BoundKeys
      ensures currentSlide == Apply(old(currentSlide), totalSlides, KeyCommand(key, totalSlides))
      ensures key !in BoundKeys || key == "Escape" ==> unchanged(this) && unchanged(slides) && unchanged(dots)
      ensures !Moves(old(currentSlide), totalSlides, KeyCommand(key, totalSlides)) ==>
        unchanged(this) && unchanged(slides) && unchanged(dots)
      ensures Moves(old(currentSlide), totalSlides, KeyCommand(key, totalSlides)) ==>
        slides[..] == MoveMark(old(slides[..]), old(currentSlide) - 1, currentSlide - 1) &&
        dots[..] == MoveMark(old(dots[..]), old(currentSlide) - 1, currentSlide - 1) &&
        progress == ProgressPercent(currentSlide, totalSlides)
      ensures old(ActiveMarksAt(currentSlide)) ==> ActiveMarksAt(currentSlide)
    {
      var c := KeyCommand(key, totalSlides);
      defaultPrevented := c != NoAction;
      Perform(c);
    }

    /** A click on the dot at zero-based position `index` selects slide `index + 1`. */
    method ClickDot(index: nat)
      requires Valid()
      requires index < dots.Length
      modifies this, slides, dots
      ensures Valid()
      ensures currentSlide == index + 1
      ensures slides[..] == MoveMark(old(slides[..]), old(currentSlide) - 1, currentSlide - 1) &&
        dots[..] == MoveMark(old(dots[..]), old(currentSlide) - 1, currentSlide - 1) &&
        progress == ProgressPercent(currentSlide, totalSlides)
      ensures old(ActiveMarksAt(currentSlide)) ==> ActiveMarksAt(currentSlide)
    {
      GoToSlide(index + 1);
    }
  }

  /**
   * A session on a fresh page: End, then the right arrow on the last slide, then a click on the
   * dot at index 7. Reports what the reader sees after each step.
   */
  method Walkthrough() returns (afterEnd: int, nextStillDisabled: bool, rightPrevented: bool, barFull: bool, afterDot: int, counter: string, marksOnDot: bool)
    ensures afterEnd == 14 && nextStillDisabled && rightPrevented && barFull
    ensures afterDot == 8 && counter == "8 / 14" && marksOnDot
  {
    var slideFlags := new bool[TotalSlides](i => i == 0);
    var dotFlags := new bool[TotalSlides](i => i == 0);
    var p := new PresentationController(slideFlags, dotFlags, 0.0);
    assert p.ActiveMarksAt(1);
    var _ := p.HandleKey("End");
    var slidesAtEnd := slideFlags[..];
    rightPrevented := p.HandleKey("ArrowRight");
    afterEnd, nextStillDisabled := p.currentSlide, p.nextDisabled;
    barFull := p.progress == 100.0 && slideFlags[..] == slidesAtEnd;
    p.ClickDot(7);
    afterDot, counter, marksOnDot := p.currentSlide, p.counterText, p.ActiveMarksAt(8);
    CounterSample();
  }
}
