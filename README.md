# Slide navigator: a verified model of the presentation controller

The presentation in `script.js` is a fixed deck of 14 slides. A `PresentationController` keeps
the number of the current slide (1-based, starting at 1), moves the "active" mark from the
current slide and dot to the new ones on every navigation, shows a counter such as `8 / 14`, disables the previous button on the
first slide and the next button on the last, and widens a progress bar. The user moves through the
deck with the previous/next buttons, the dots, the keyboard (arrows, space, Home, End) and
horizontal touch swipes.

This project models that navigation core in Dafny:

- `decimal.dfy` (`Decimal`): the decimal form of a slide number, and reading it back.
- `input.dfy` (`Input`): the swipe rule (a gesture navigates only when it is mostly horizontal and
  longer than 50 pixels; right goes back, left goes forward) and the keydown switch, both as pure
  functions from an input to a `Command`.
- `navigation.dfy` (`Navigation`): where `goToSlide`, `nextSlide` and `previousSlide` take the
  index, as functions; which commands actually navigate; any sequence of commands keeps the index in `1..totalSlides`; and how the
  "active" mark moves from the old entry to the new one.
- `display.dfy` (`Display`): the counter text, the button opacity and the progress ratio.
- `controller.dfy` (`Controller`): the class itself. Its fields are the index, the slide count, the
  two `array<bool>` "active" flags (updated in place), the counter text, the two disabled flags,
  the two opacities and the progress width. Each method is proved against the functions above and
  keeps the class invariant `Valid()`: the index is a slide, both arrays have one entry per slide,
  and the counter and buttons show the index. When exactly the current slide and dot were marked
  before a call, exactly the new current slide and dot are marked after it.

The page's element lists become the two arrays given to the constructor. The source indexes them
by slide number without checking their length, so the constructor requires both to have 14 entries.

`goToSlide` returns nothing, so `GoToSlide` has no result; `Navigation.Moves` says which commands
reach its in-range branch.

## Model

| member | source | states |
|---|---|---|
| Decimal.ToDecimal | script.js:131 | The printed slide number has at least one digit, all digits, and a leading zero only for zero |
| Decimal.ValueOfDecimal | script.js:131 | Reading the printed number back gives the number |
| Decimal.DecimalInjective | script.js:131 | Different numbers print differently |
| Display.CounterText | script.js:131 | The counter is exactly as long as both numbers' digits plus three, holds " / " right after the current slide's digits, and every other character is a digit |
| Display.CounterReadsBack | script.js:131 | The counter is the current slide's digits, then " / ", then the total's digits, and both read back to the two numbers |
| Display.CounterDeterminesSlide | script.js:131 | Two different slides never show the same counter text |
| Display.CounterSample | script.js:131 | Slide 8 of 14 shows "8 / 14"; slide 14 shows "14 / 14" |
| Display.ButtonOpacity | script.js:138-148 | A button is drawn at "0.5" exactly when disabled and at "1" exactly when enabled |
| Display.ProgressPercent | script.js:151-154 | The bar width is in (0, 100] for any slide, and exactly 100 precisely on the last slide |
| Display.ProgressMonotone | script.js:152 | A later slide shows a strictly longer bar |
| Input.ClassifySwipe | script.js:86-98 | A gesture navigates iff abs(dx) > abs(dy) and abs(dx) > 50; then rightwards asks for the previous slide and leftwards for the next |
| Input.SwipeReversed | script.js:92-97 | Retracing a gesture backwards asks for the opposite step |
| Input.SwipeTranslated | script.js:87-88 | Only the displacement of a gesture matters, not where it starts |
| Input.SwipeSamples | script.js:86-98 | A 100-pixel right swipe goes back, a left one forward; 40 or exactly 50 pixels, or a mostly vertical gesture, does nothing |
| Input.KeyCommand | script.js:40-64 | ArrowLeft/ArrowUp ask for previous; ArrowRight/ArrowDown/space for next; Home for slide 1; End for the last slide; Escape for fullscreen; every other key for nothing |
| Navigation.Apply | script.js:101-114 | Any command keeps an in-range index in range; fullscreen and ignored keys leave it alone |
| Navigation.ApplyAll | script.js:101-124 | Applying any sequence of next, previous and go-to commands, one at a time in arrival order, from a valid index keeps the index in 1..totalSlides |
| Navigation.ApplyAllAppend | script.js:101-124 | Handling one stream of inputs and then another ends where handling them as one stream ends |
| Navigation.GoToTarget | script.js:113-114 | goToSlide keeps a valid index valid, and the index changes only to the requested slide |
| Navigation.NextTarget | script.js:101-105 | nextSlide keeps a valid index valid and either stays or adds one |
| Navigation.PreviousTarget | script.js:107-111 | previousSlide keeps a valid index valid and either stays or subtracts one |
| Navigation.NextStep | script.js:101-105 | Next is a no-op exactly on the last slide and otherwise adds one |
| Navigation.PreviousStep | script.js:107-111 | Previous is a no-op exactly on the first slide and otherwise subtracts one |
| Navigation.NextPreviousInverse | script.js:101-111 | Away from the ends, next then previous, or previous then next, returns to the same slide |
| Navigation.NextsReach | script.js:101-105 | k presses of next from slide c end on min(c + k, totalSlides) |
| Navigation.PreviousesReach | script.js:107-111 | k presses of previous from slide c end on max(c - k, 1) |
| Navigation.HomeThenSevenNexts | script.js:52-55 | Home followed by seven nexts on a 14-slide deck ends on slide 8 |
| Navigation.MoveMark | script.js:117-122 | After clearing the old entry and setting the new one, the new entry is set, the old one is clear unless it is the new one, and no other entry changes |
| Navigation.MoveMarkKeepsOne | script.js:116-122 | If exactly the old entry was active, exactly the new entry is active afterwards, also when old and new coincide |
| Controller.PresentationController.constructor | script.js:3-13 | Starts on slide 1 of 14 with the page's arrays, the counter and buttons in sync, and the page's progress width |
| Controller.PresentationController.UpdateSlideDisplay | script.js:130-149 | Counter is the index over the total; previous disabled iff on slide 1; next disabled iff on the last slide; opacities follow the disabled flags |
| Controller.PresentationController.GoToSlide | script.js:113-128 | Out of range: nothing at all changes. In range: the index becomes the target, both arrays move their mark from the old entry to the new one in place, display and progress follow; a single active mark stays single |
| Controller.PresentationController.NextSlide | script.js:101-105 | On the last slide nothing changes; otherwise the index and both marks advance by one and the progress bar shows the new slide |
| Controller.PresentationController.PreviousSlide | script.js:107-111 | On the first slide nothing changes; otherwise the index and both marks go back by one and the progress bar shows the new slide |
| Controller.PresentationController.Perform | script.js:40-64 | The index follows the command's function; a command that does not reach an in-range goToSlide (next on the last slide, previous on the first, an out-of-range target, fullscreen, an ignored input) changes nothing; one that does moves both marks in place and sets the progress bar |
| Controller.PresentationController.HandleSwipe | script.js:86-98 | The index follows the swipe's classification; a short or mostly vertical gesture, or a swipe past either end, changes nothing; a navigating swipe moves both marks in place and sets the progress bar |
| Controller.PresentationController.HandleKey | script.js:38-65 | Default handling is suppressed exactly for the bound keys; the index follows the key's command; other keys, Escape, and a key that would step past either end change nothing; a moving key moves both marks in place and sets the progress bar |
| Controller.PresentationController.ClickDot | script.js:30-32 | A click on the dot at index i selects slide i + 1, moves both marks there in place and sets the progress bar |
| Controller.Walkthrough | script.js:52-59 | On a fresh page, End then the right arrow stays on slide 14 with next disabled, the bar full and the slide flags untouched; clicking dot 7 shows "8 / 14" with exactly slide 8 and dot 8 marked |

## Left out

- Looking up the slides, dots, buttons, counter and progress bar in the document, and registering the event listeners (script.js:6-11, 24-36, 68-84): the arrays and inputs are parameters instead. The previous and next button clicks call `PreviousSlide` and `NextSlide` directly and need no member of their own.
- `toggleFullscreen` (script.js:192-200): the document's fullscreen state and the promise it returns are outside the model; Escape is a `ToggleFullscreen` command that changes no navigation state.
- `animateSlideTransition` (script.js:156-164) and the context-menu suppression (script.js:35): style and reflow effects with no navigation content.
- Display.ProgressPercent: states the bar width as an exact ratio over reals, not as the floating-point number printed into the style string.
- Only the "active" class of each slide and dot is modelled, not the rest of the elements' class lists or contents.
- Input.ClassifySwipe: touch coordinates are integers here; the browser reports them as floating-point pixels.
- `autoResizeImages` and `adjustImageSize` (script.js:166-190), `PresentationUtils`, `AnimationController`, `PerformanceOptimizer`, the visibility, resize and startup handlers and the console logging (script.js:204-459): image geometry, drawing, browser feature checks and logging, none of which touches the navigation state.
