/** Model of the image carousel widget (`Carousel` in carousel.js).

    The slides are the carousel's images; each carries a set of position
    marks (the CSS classes `active`, `prev`, `next`). The pagination dots are
    a boolean array that is empty when the carousel has no indicators.
    Timers are not modelled: every deferred callback is a method that the
    caller may invoke later, and the auto-play interval is a counter of live
    timers together with the handle the carousel keeps. */
module Carousels {

  datatype Option<T> = None | Some(value: T)

  /** A position mark a slide can carry. */
  datatype Mark = MarkActive | MarkPrev | MarkNext

  /** One image of the carousel, by source URL and alternative text. */
  datatype Image = Image(src: string, alt: string)

  /** The options a carousel is created with; an option the caller leaves
      out is `None`, and an omitted options object is NoOptions. */
  datatype Options = Options(
    interval: Option<int>,
    autoPlay: Option<bool>,
    showIndicators: Option<bool>,
    showControls: Option<bool>)

  const NoOptions: Options := Options(None, None, None, None)

  /** What a horizontal drag asks of the carousel. */
  datatype Move = Back | Forward | Stay

  /** How the end of a touch on an image is read: a tap, or a swipe. */
  datatype Touch = Tap | Swipe(move: Move)

  const DefaultInterval: int := 3000
  /** A drag must travel strictly more than this many pixels to navigate. */
  const MinSwipeDistance: int := 30
  /** A tap travels strictly less than this many pixels horizontally ... */
  const TapMaxDistance: int := 15
  /** ... and lasts strictly less than this many milliseconds. */
  const TapMaxDuration: int := 300
  const PauseLabel: string := "Pausar"
  const ResumeLabel: string := "Continuar"
  /** The alternative text the shared viewer starts with. */
  const ViewerAlt: string := "Imagem ampliada"

  /** The auto-play period: an absent or zero interval falls back to the default. */
  function IntervalMs(requested: Option<int>): (ms: int)
    ensures ms != 0
    ensures requested.Some? && requested.value != 0 ==> ms == requested.value
    ensures requested == None || requested == Some(0) ==> ms == DefaultInterval
  {
    match requested
    case Some(v) => if v != 0 then v else DefaultInterval
    case None => DefaultInterval
  }

  /** A boolean option is on unless it is given as `false`: an absent
      option means on. */
  function Enabled(o: Option<bool>): (on: bool)
    ensures o == None ==> on
    ensures o.Some? ==> on == o.value
  {
    o != Some(false)
  }

  // ---------------------------------------------------------------------
  // Cyclic index arithmetic over n slides

  /** The slide after slide i, wrapping from the last slide to the first. */
  function NextIndex(i: nat, n: nat): (r: nat)
    requires i < n
    ensures r < n
    ensures i + 1 < n ==> r == i + 1
    ensures i + 1 == n ==> r == 0
  {
    (i + 1) % n
  }

  /** The slide before slide i, wrapping from the first slide to the last:
      the one slide whose successor is i. */
  function PrevIndex(i: nat, n: nat): (r: nat)
    requires i < n
    ensures r < n
    ensures NextIndex(r, n) == i
  {
    if i == 0 then n - 1 else i - 1
  }

  /** Stepping back undoes stepping forward. */
  lemma PrevUndoesNext(i: nat, n: nat)
    requires i < n
    ensures PrevIndex(NextIndex(i, n), n) == i
  {
  }

  /** Stepping forward undoes stepping back. */
  lemma NextUndoesPrev(i: nat, n: nat)
    requires i < n
    ensures NextIndex(PrevIndex(i, n), n) == i
  {
  }

  /** The predecessor is unique: k is PrevIndex(i) exactly when i follows k. */
  lemma PrevIsPredecessor(i: nat, n: nat, k: nat)
    requires i < n && k < n
    ensures k == PrevIndex(i, n) <==> NextIndex(k, n) == i
  {
  }

  /** The slide shown after k forward steps from slide i. */
  function Advance(i: nat, n: nat, k: nat): (r: nat)
    requires i < n
    ensures r < n
  {
    if k == 0 then i else NextIndex(Advance(i, n, k - 1), n)
  }

  /** Within one turn, k forward steps from slide i land k places further
      on, wrapping once past the last slide. */
  lemma {:induction false} AdvanceWithinCycle(i: nat, n: nat, k: nat)
    requires i < n && k <= n
    ensures Advance(i, n, k) == if i + k < n then i + k else i + k - n
  {
    if k > 0 {
      AdvanceWithinCycle(i, n, k - 1);
    }
  }

  /** n consecutive forward steps come back to the starting slide. */
  lemma AdvanceFullCycle(i: nat, n: nat)
    requires i < n
    ensures Advance(i, n, n) == i
  {
    AdvanceWithinCycle(i, n, n);
  }

  // ---------------------------------------------------------------------
  // Position marks

  /** The marks slide k carries while slide i is shown: `active` on i,
      `prev` on the slide whose successor is i, `next` on the successor of i. */
  function SlideMarks(i: nat, n: nat, k: nat): (marks: set<Mark>)
    requires i < n && k < n
    ensures MarkPrev in marks <==> k == PrevIndex(i, n)
    ensures n == 2 && k != i ==> marks == {MarkPrev, MarkNext}
  {
    (if k == i then {MarkActive} else {})
    + (if NextIndex(k, n) == i then {MarkPrev} else {})
    + (if k == NextIndex(i, n) then {MarkNext} else {})
  }

  /** Exactly the shown slide is active, and the neighbours it marks are the
      ones the index arithmetic picks. */
  lemma MarksPlacement(i: nat, n: nat, k: nat)
    requires i < n && k < n
    ensures MarkActive in SlideMarks(i, n, k) <==> k == i
    ensures MarkPrev in SlideMarks(i, n, k) <==> k == (if i == 0 then n - 1 else i - 1)
    ensures MarkNext in SlideMarks(i, n, k) <==> k == (i + 1) % n
  {
  }

  /** A slide that is neither the shown one nor one of its neighbours carries no mark. */
  lemma OtherSlidesUnmarked(i: nat, n: nat, k: nat)
    requires i < n && k < n
    requires k != i && k != PrevIndex(i, n) && k != NextIndex(i, n)
    ensures SlideMarks(i, n, k) == {}
  {
  }

  /** With two slides the other slide is both neighbours and carries both marks. */
  lemma TwoSlidesShareNeighbour(i: nat)
    requires i < 2
    ensures SlideMarks(i, 2, 1 - i) == {MarkPrev, MarkNext}
    ensures SlideMarks(i, 2, i) == {MarkActive}
  {
  }

  /** With three slides or more no slide carries two marks. */
  lemma ThreeOrMoreSlidesMarkedOnce(i: nat, n: nat, k: nat)
    requires 3 <= n && i < n && k < n
    ensures |SlideMarks(i, n, k)| <= 1
  {
  }

  /** Removing the three position classes leaves a slide unmarked. */
  lemma NoOtherMarks(s: set<Mark>)
    ensures s - {MarkActive, MarkPrev, MarkNext} == {}
  {
    forall m | m in s
      ensures m in {MarkActive, MarkPrev, MarkNext}
    {
      match m
      case MarkActive =>
      case MarkPrev =>
      case MarkNext =>
    }
  }

  // ---------------------------------------------------------------------
  // Gestures

  /** The navigation a drag from startX to endX asks for: a drag to the
      right of more than MinSwipeDistance goes back, one to the left goes
      forward, anything shorter is ignored. */
  function SwipeMove(startX: int, endX: int): (m: Move)
    ensures m == Back <==> endX - startX > MinSwipeDistance
    ensures m == Forward <==> startX - endX > MinSwipeDistance
    ensures m == Stay <==> -MinSwipeDistance <= endX - startX <= MinSwipeDistance
  {
    var distance := endX - startX;
    if Abs(distance) > MinSwipeDistance then
      if distance > 0 then Back else Forward
    else
      Stay
  }

  function Abs(x: int): (a: int)
    ensures a >= 0 && (a == x || a == -x)
  {
    if x < 0 then -x else x
  }

  /** How a touch on an image that ends at endX after `duration`
      milliseconds is read; only the horizontal travel is looked at. */
  function ClassifyTouch(startX: int, endX: int, duration: int): (t: Touch)
    ensures t == Tap <==> -TapMaxDistance < endX - startX < TapMaxDistance && duration < TapMaxDuration
    ensures t != Tap ==> t == Swipe(SwipeMove(startX, endX))
  {
    if Abs(endX - startX) < TapMaxDistance && duration < TapMaxDuration then Tap
    else Swipe(SwipeMove(startX, endX))
  }

  /** A movement short enough to be a tap would never have navigated as a
      swipe either; what stops a slow short touch navigating is the swipe
      threshold. */
  lemma ShortTouchNeverNavigates(startX: int, endX: int, duration: int)
    requires -TapMaxDistance < endX - startX < TapMaxDistance
    ensures SwipeMove(startX, endX) == Stay
    ensures ClassifyTouch(startX, endX, duration) in {Tap, Swipe(Stay)}
  {
  }

  /** The slide a move leads to from slide i. */
  function Step(i: nat, n: nat, m: Move): (r: nat)
    requires i < n
    ensures r < n
  {
    match m
    case Back => PrevIndex(i, n)
    case Forward => NextIndex(i, n)
    case Stay => i
  }

  // ---------------------------------------------------------------------
  // Objects

  /** The full-screen image viewer that all carousels share. */
  class ImageModal {
    var isOpen: bool
    var image: Image

    constructor ()
      ensures !isOpen && image == Image("", ViewerAlt)
    {
      isOpen := false;
      image := Image("", ViewerAlt);
    }
  }

  class Carousel {
    const images: seq<Image>
    const n: nat
    /** The position marks of each slide. */
    const slides: array<set<Mark>>
    /** One flag per pagination dot; no dots when indicators are not shown. */
    const indicators: array<bool>
    const showControls: bool
    const interval: int
    const modal: ImageModal

    var currentIndex: nat
    var isPaused: bool
    /** Whether the carousel holds an auto-play interval handle. */
    var hasInterval: bool
    /** How many auto-play interval timers are running. */
    var runningIntervals: nat
    /** Whether the container carries the `paused` class. */
    var containerPaused: bool
    var playPauseLabel: string
    var touchStartX: int
    var touchEndX: int

    /** The shape every carousel keeps, whatever slide it shows. */
    ghost predicate Shape()
      reads this
    {
      && n == |images| && 2 <= n
      && slides.Length == n
      && (indicators.Length == 0 || indicators.Length == n)
      && currentIndex < n
      && containerPaused == isPaused
      && runningIntervals == (if hasInterval then 1 else 0)
    }

    /** Slide i is shown: marks and indicators agree with it. */
    ghost predicate Shows(i: nat)
      reads this, slides, indicators
      requires Shape()
    {
      && i < n
      && (forall k :: 0 <= k < n ==> slides[k] == SlideMarks(i, n, k))
      && (forall k :: 0 <= k < indicators.Length ==> indicators[k] == (k == i))
    }

    ghost predicate Valid()
      reads this, slides, indicators
    {
      Shape() && Shows(currentIndex)
    }

    constructor (images: seq<Image>, options: Options, modal: ImageModal)
      requires 2 <= |images|
      ensures Valid() && fresh(slides) && fresh(indicators)
      ensures this.images == images && this.modal == modal
      ensures indicators.Length == (if Enabled(options.showIndicators) then |images| else 0)
      ensures showControls == Enabled(options.showControls)
      ensures interval == IntervalMs(options.interval)
      ensures currentIndex == 0 && !isPaused
      ensures hasInterval == Enabled(options.autoPlay)
      ensures playPauseLabel == PauseLabel
    {
      this.images := images;
      n := |images|;
      slides := new set<Mark>[|images|](_ => {});
      indicators := new bool[if Enabled(options.showIndicators) then |images| else 0](_ => false);
      showControls := Enabled(options.showControls);
      interval := IntervalMs(options.interval);
      this.modal := modal;
      currentIndex := 0;
      isPaused := false;
      hasInterval := false;
      runningIntervals := 0;
      containerPaused := false;
      playPauseLabel := PauseLabel;
      touchStartX := 0;
      touchEndX := 0;
      new;
      if Enabled(options.autoPlay) {
        StartAutoPlay();
      }
      ShowImage(0);
    }

    /** Clears every slide's marks, marks slide `index` and its neighbours,
        lights exactly indicator `index` and makes it the current slide. */
    method ShowImage(index: nat)
      requires Shape() && index < n
      modifies this`currentIndex, slides, indicators
      ensures Valid() && currentIndex == index
    {
      var k := 0;
      while k < slides.Length
        invariant k <= n
        invariant forall j :: 0 <= j < k ==> slides[j] == {}
        modifies slides
      {
        NoOtherMarks(slides[k]);
        slides[k] := slides[k] - {MarkActive, MarkPrev, MarkNext};
        k := k + 1;
      }
      slides[index] := slides[index] + {MarkActive};
      var prevIndex := PrevIndex(index, n);
      slides[prevIndex] := slides[prevIndex] + {MarkPrev};
      var nextIndex := NextIndex(index, n);
      slides[nextIndex] := slides[nextIndex] + {MarkNext};
      forall j | 0 <= j < n
        ensures slides[j] == SlideMarks(index, n, j)
      {
        PrevIsPredecessor(index, n, j);
      }

      k := 0;
      while k < indicators.Length
        invariant k <= indicators.Length
        invariant forall j :: 0 <= j < k ==> !indicators[j]
        modifies indicators
      {
        indicators[k] := false;
        k := k + 1;
      }
      if index < indicators.Length {
        indicators[index] := true;
      }
      currentIndex := index;
    }

    method Next()
      requires Valid()
      modifies this`currentIndex, slides, indicators
      ensures Valid() && currentIndex == NextIndex(old(currentIndex), n)
    {
      ShowImage(NextIndex(currentIndex, n));
    }

    method Prev()
      requires Valid()
      modifies this`currentIndex, slides, indicators
      ensures Valid() && currentIndex == PrevIndex(old(currentIndex), n)
    {
      ShowImage(PrevIndex(currentIndex, n));
    }

    /** Navigates at most once, by the drag between the recorded touch
        positions; nothing but the shown slide changes. */
    method HandleSwipe()
      requires Valid()
      modifies this`currentIndex, slides, indicators
      ensures Valid()
      ensures currentIndex == Step(old(currentIndex), n, SwipeMove(touchStartX, touchEndX))
      ensures SwipeMove(touchStartX, touchEndX) == Stay ==>
                slides[..] == old(slides[..]) && indicators[..] == old(indicators[..])
    {
      match SwipeMove(touchStartX, touchEndX)
      case Back => Prev();
      case Forward => Next();
      case Stay =>
    }

    method StartAutoPlay()
      requires runningIntervals == (if hasInterval then 1 else 0)
      modifies this`hasInterval, this`runningIntervals
      ensures hasInterval && runningIntervals == 1
      ensures old(hasInterval) ==> runningIntervals == old(runningIntervals)
    {
      if hasInterval {
        return;
      }
      runningIntervals := runningIntervals + 1;
      hasInterval := true;
    }

    method StopAutoPlay()
      requires runningIntervals == (if hasInterval then 1 else 0)
      modifies this`hasInterval, this`runningIntervals
      ensures !hasInterval && runningIntervals == 0
    {
      if hasInterval {
        runningIntervals := runningIntervals - 1;
        hasInterval := false;
      }
    }

    /** One firing of the auto-play interval: advances unless paused. */
    method Tick()
      requires Valid() && hasInterval
      modifies this`currentIndex, slides, indicators
      ensures Valid()
      ensures !isPaused ==> currentIndex == NextIndex(old(currentIndex), n)
      ensures isPaused ==>
                currentIndex == old(currentIndex) && slides[..] == old(slides[..]) && indicators[..] == old(indicators[..])
    {
      if !isPaused {
        Next();
      }
    }

    method PauseAutoPlay()
      modifies this`isPaused, this`containerPaused
      ensures isPaused && containerPaused
    {
      isPaused := true;
      containerPaused := true;
    }

    method ResumeAutoPlay()
      modifies this`isPaused, this`containerPaused
      ensures !isPaused && !containerPaused
    {
      isPaused := false;
      containerPaused := false;
    }

    /** The deferred "resume unless paused" callback: it never changes anything. */
    method ResumeIfPlaying()
      requires Valid()
      modifies this`isPaused, this`containerPaused
      ensures isPaused == old(isPaused) && containerPaused == old(containerPaused)
    {
      if !isPaused {
        ResumeAutoPlay();
      }
    }

    /** The play/pause button; the button exists only with controls. */
    method TogglePlayPause()
      requires Valid() && showControls
      modifies this`isPaused, this`containerPaused, this`playPauseLabel
      ensures Valid()
      ensures isPaused == !old(isPaused)
      ensures playPauseLabel == (if isPaused then ResumeLabel else PauseLabel)
    {
      if isPaused {
        ResumeAutoPlay();
        playPauseLabel := PauseLabel;
      } else {
        PauseAutoPlay();
        playPauseLabel := ResumeLabel;
      }
    }

    /** A click in the controls bar, by the `data-action` of its target
        (empty when the target has none). */
    method ControlsClick(action: string)
      requires Valid() && showControls
      modifies this`currentIndex, slides, indicators, this`isPaused, this`containerPaused, this`playPauseLabel
      ensures Valid()
      ensures action == "prev" ==>
                currentIndex == PrevIndex(old(currentIndex), n) && isPaused == old(isPaused)
                && playPauseLabel == old(playPauseLabel)
      ensures action == "next" ==>
                currentIndex == NextIndex(old(currentIndex), n) && isPaused == old(isPaused)
                && playPauseLabel == old(playPauseLabel)
      ensures action == "play-pause" ==>
                currentIndex == old(currentIndex) && isPaused == !old(isPaused)
                && playPauseLabel == (if isPaused then ResumeLabel else PauseLabel)
      ensures action !in {"prev", "next", "play-pause"} ==>
                currentIndex == old(currentIndex) && isPaused == old(isPaused)
                && slides[..] == old(slides[..]) && indicators[..] == old(indicators[..])
                && playPauseLabel == old(playPauseLabel)
    {
      if action == "" {
        return;
      }
      if action == "prev" {
        Prev();
      } else if action == "next" {
        Next();
      } else if action == "play-pause" {
        TogglePlayPause();
      }
    }

    /** A click on pagination dot k shows slide k and pauses; its deferred
        callback, five seconds later, is an unguarded ResumeAutoPlay. */
    method IndicatorClick(k: nat)
      requires Valid() && k < indicators.Length
      modifies this`currentIndex, slides, indicators, this`isPaused, this`containerPaused
      ensures Valid() && currentIndex == k && isPaused
    {
      ShowImage(k);
      PauseAutoPlay();
    }

    /** Shows an image in the shared viewer and pauses this carousel. */
    method OpenModal(image: Image)
      requires Valid()
      modifies modal, this`isPaused, this`containerPaused
      ensures Valid() && isPaused
      ensures modal.isOpen && modal.image == image
    {
      modal.image := image;
      modal.isOpen := true;
      PauseAutoPlay();
    }

    /** Hides the viewer; its deferred callback, one second later, is an
        unguarded ResumeAutoPlay. */
    method CloseModal()
      modifies modal
      ensures !modal.isOpen && modal.image == old(modal.image)
    {
      modal.isOpen := false;
    }

    /** A click on slide k opens it in the viewer. */
    method ImageClick(k: nat)
      requires Valid() && k < n
      modifies modal, this`isPaused, this`containerPaused
      ensures Valid() && isPaused
      ensures modal.isOpen && modal.image == images[k]
    {
      OpenModal(images[k]);
    }

    /** The pointer entering a slide pauses; leaving it runs ResumeIfPlaying. */
    method MouseEnter()
      modifies this`isPaused, this`containerPaused
      ensures isPaused && containerPaused
    {
      PauseAutoPlay();
    }

    /** A touch starting on an image, or on the container, at x. */
    method TouchStart(x: int)
      modifies this`touchStartX, this`isPaused, this`containerPaused
      ensures touchStartX == x && isPaused && containerPaused
    {
      touchStartX := x;
      PauseAutoPlay();
    }

    /** A touch on slide k ending at endX after `duration` milliseconds. A
        tap navigates nowhere and returns the image that the deferred
        OpenModal shows; anything else is handled as a swipe and returns
        None. Either way a ResumeIfPlaying follows three seconds later. */
    method ImageTouchEnd(k: nat, endX: int, duration: int) returns (opens: Option<Image>)
      requires Valid() && k < n
      modifies this`touchEndX, this`currentIndex, slides, indicators
      ensures Valid() && touchEndX == endX
      ensures opens == (if ClassifyTouch(touchStartX, endX, duration) == Tap then Some(images[k]) else None)
      ensures opens.Some? ==>
                currentIndex == old(currentIndex) && slides[..] == old(slides[..]) && indicators[..] == old(indicators[..])
      ensures opens == None ==> currentIndex == Step(old(currentIndex), n, SwipeMove(touchStartX, endX))
    {
      touchEndX := endX;
      if ClassifyTouch(touchStartX, touchEndX, duration) == Tap {
        opens := Some(images[k]);
      } else {
        opens := None;
        HandleSwipe();
      }
    }

    /** A touch ending on the container, outside the images, is always
        handled as a swipe; a ResumeIfPlaying follows three seconds later. */
    method ContainerTouchEnd(endX: int)
      requires Valid()
      modifies this`touchEndX, this`currentIndex, slides, indicators
      ensures Valid() && touchEndX == endX
      ensures currentIndex == Step(old(currentIndex), n, SwipeMove(touchStartX, endX))
    {
      touchEndX := endX;
      HandleSwipe();
    }
  }
}
