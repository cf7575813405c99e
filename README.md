# Carousel and mobile navigation drawer

A Dafny model of the two client-side state machines of the site's scripts:

- **The image carousel** (`Carousel` in `carousel.js`), module `Carousels` in
  `carousel.dfy`. A carousel over `n >= 2` images shows one slide at a time.
  Every slide carries a set of position marks (the CSS classes `active`,
  `prev`, `next`). The shown slide is `active`. Its cyclic predecessor is
  `prev` and its cyclic successor is `next`. The pagination dots are a boolean
  array, empty when the carousel is built without indicators. The class
  `Carousel` holds these as arrays and updates them in place. Its fields are
  `currentIndex`, `isPaused`, the container's `paused` class, the play/pause
  button label, the recorded touch coordinates and the auto-play interval
  handle. Navigation (`ShowImage`, `Next`, `Prev`) is proved against the
  specification function `SlideMarks`. The index arithmetic (`NextIndex`,
  `PrevIndex`, `Advance`) and the gesture thresholds (`SwipeMove`,
  `ClassifyTouch`) are pure functions with lemmas about them. The shared
  image viewer is the class `ImageModal`.
- **The mobile navigation drawer** (`MobileNavbar` in `mobile-navbar.js`),
  module `MobileNav` in `mobile_navbar.dfy`. The drawer state is the value
  `Drawer`: the open flag, the `active` class on the menu button, link list
  and overlay, `aria-expanded`, the set of document listeners, the body
  overflow and one animation flag per nav link. One `handleClick` is the
  function `Toggle`. The class `MobileNavbar` keeps the same state in fields
  and an array. Each of its handler methods is proved to act as the matching
  function (`Toggle`, `KeyPress`, `EscapeKeyDown`, `OutsideClickAt`,
  `LinkClick`). The invariant `Synced` says that every element shows
  `active`, the listeners are registered, the body is locked and the links
  are animated exactly while the drawer is open.

Timers are not modelled as time. Each deferred callback of the source is a
method the caller may invoke later:

- the 3-second "resume unless paused" after a touch, and the `mouseleave`
  handler, are `ResumeIfPlaying`;
- the 5-second resume after a dot click and the 1-second resume after the
  viewer closes are plain `ResumeAutoPlay`;
- the 100 ms open after a tap is `OpenModal` of the touched slide's image
  (`ImageTouchEnd` returns that image to ask for it).

The auto-play interval is a handle flag plus a count of running interval
timers. Each firing of the interval is `Tick`.

Three behaviours of the code are modelled as written:

- With two slides, the other slide is both neighbours and carries both
  `prev` and `next`.
- The guarded resumes change nothing: they resume only a carousel that is
  not paused. A pause from hovering or touching therefore lasts until an
  unguarded resume: the play/pause button, the resume after a dot click, or
  the resume after the viewer closes.
- The resume after a dot click is unguarded. It also clears a pause made with
  the play/pause button in between, and then leaves the label at `Continuar`.

The code keeps no cancellable "pending resume". The viewer's close handlers
are bound to the carousel that created the viewer, not to the one that
opened it. The model follows the code.

## Model

| member | source | states |
|---|---|---|
| `Carousels.IntervalMs` | carousel.js:12 | the auto-play period is the requested interval, or 3000 ms when it is absent or zero; never zero |
| `Carousels.Enabled` | carousel.js:13-15 | a boolean option is on when it is absent and otherwise has the given value: only an explicit `false` turns it off |
| `Carousels.NextIndex` | carousel.js:361 | the next slide stays in `[0, n)`: one place on, or slide 0 after the last |
| `Carousels.PrevIndex` | carousel.js:366 | the previous slide stays in `[0, n)` and is the slide whose successor is the current one |
| `Carousels.PrevUndoesNext` | carousel.js:360-368 | `prev` after `next` returns to the starting slide |
| `Carousels.NextUndoesPrev` | carousel.js:360-368 | `next` after `prev` returns to the starting slide |
| `Carousels.PrevIsPredecessor` | carousel.js:338 | slide `k` is the computed previous index of `i` exactly when `i` follows `k` |
| `Carousels.Advance` | carousel.js:360-363 | any number of consecutive `next` steps stays in `[0, n)` |
| `Carousels.AdvanceWithinCycle` | carousel.js:360-363 | up to `n` `next` steps move that many places on, wrapping past the last slide once |
| `Carousels.AdvanceFullCycle` | carousel.js:360-363 | `n` consecutive `next` steps return to the starting slide |
| `Carousels.SlideMarks` | carousel.js:326-347 | the reference placement of marks for shown slide `i`: `prev` is on exactly the slide `PrevIndex(i)` of line 338, and with two slides the other slide carries both `prev` and `next` |
| `Carousels.MarksPlacement` | carousel.js:326-347 | exactly the shown slide is `active`; `prev` is on slide `i == 0 ? n-1 : i-1` only; `next` is on slide `(i+1) % n` only |
| `Carousels.OtherSlidesUnmarked` | carousel.js:327-330 | a slide that is neither shown nor a neighbour carries no mark |
| `Carousels.TwoSlidesShareNeighbour` | carousel.js:337-347 | with two slides the other slide carries both `prev` and `next`, and the shown slide only `active` |
| `Carousels.ThreeOrMoreSlidesMarkedOnce` | carousel.js:337-347 | with three or more slides no slide carries more than one mark |
| `Carousels.SwipeMove` | carousel.js:301-324 | a drag of more than 30 px to the right goes back, more than 30 px to the left goes forward; 30 px or less (both directions) does nothing |
| `Carousels.ClassifyTouch` | carousel.js:214-226 | a touch is a tap exactly when its horizontal travel is under 15 px and it lasts under 300 ms (vertical travel is not looked at); otherwise it is a swipe by `SwipeMove` |
| `Carousels.ShortTouchNeverNavigates` | carousel.js:215-226 | a touch with horizontal travel under 15 px never navigates, whether or not it is a tap |
| `Carousels.ImageModal.constructor` | carousel.js:119-130 | the shared viewer starts closed, with an empty source and the alternative text `Imagem ampliada` |
| `Carousels.Carousel.constructor` | carousel.js:3-50 | a new carousel shows slide 0, is not paused, holds an interval handle iff `autoPlay` is not given as `false`, has one dot per slide iff `showIndicators` is not given as `false`, shows controls iff `showControls` is not given as `false` (an omitted options object is `NoOptions`, all absent), and labels the button `Pausar` |
| `Carousels.Carousel.ShowImage` | carousel.js:326-358 | the slide marks and dots agree with `SlideMarks` for the new index: exactly dot `index` lit when dots exist, `currentIndex == index`; nothing else changes |
| `Carousels.Carousel.Next` | carousel.js:360-363 | shows `NextIndex` of the current slide and keeps the invariant |
| `Carousels.Carousel.Prev` | carousel.js:365-368 | shows `PrevIndex` of the current slide and keeps the invariant |
| `Carousels.Carousel.HandleSwipe` | carousel.js:301-324 | moves by `SwipeMove` of the recorded touch positions, at most one step; a short drag changes no mark and no dot; `isPaused` is untouched |
| `Carousels.Carousel.StartAutoPlay` | carousel.js:370-378 | afterwards a handle exists and exactly one interval timer runs; with a handle already present no timer is added |
| `Carousels.Carousel.StopAutoPlay` | carousel.js:380-385 | afterwards there is no handle and no interval timer runs |
| `Carousels.Carousel.Tick` | carousel.js:373-377 | one firing of the interval advances to `NextIndex` when not paused, and changes nothing when paused |
| `Carousels.Carousel.PauseAutoPlay` | carousel.js:387-390 | sets `isPaused` and the container's `paused` class |
| `Carousels.Carousel.ResumeAutoPlay` | carousel.js:392-395 | clears `isPaused` and the container's `paused` class |
| `Carousels.Carousel.ResumeIfPlaying` | carousel.js:228-232 | the guarded deferred resume (also at lines 177-181 and 288-292) leaves `isPaused` and the `paused` class unchanged |
| `Carousels.Carousel.TogglePlayPause` | carousel.js:397-405 | flips `isPaused`; the label is `Continuar` when paused and `Pausar` when playing |
| `Carousels.Carousel.ControlsClick` | carousel.js:249-264 | `prev` and `next` navigate and keep the pause flag and label; `play-pause` flips the pause flag and sets the label to `Continuar` when paused, `Pausar` when playing; any other or missing action changes nothing |
| `Carousels.Carousel.IndicatorClick` | carousel.js:238-243 | a dot click shows that slide and pauses |
| `Carousels.Carousel.OpenModal` | carousel.js:407-422 | the viewer is open, shows the given image, and the carousel is paused |
| `Carousels.Carousel.CloseModal` | carousel.js:424-433 | the viewer is closed and keeps its image |
| `Carousels.Carousel.ImageClick` | carousel.js:167-171 | clicking slide `k` opens the viewer on that slide's source and alternative text |
| `Carousels.Carousel.MouseEnter` | carousel.js:173-175 | the pointer entering a slide pauses |
| `Carousels.Carousel.TouchStart` | carousel.js:187-193 | a touch start records its x coordinate and pauses |
| `Carousels.Carousel.ImageTouchEnd` | carousel.js:208-233 | a tap on slide `k` navigates nowhere and returns exactly `images[k]` for the deferred viewer open; any other touch returns nothing and moves by `SwipeMove` |
| `Carousels.Carousel.ContainerTouchEnd` | carousel.js:283-293 | a touch end on the container always moves by `SwipeMove` |
| `MobileNav.FlipAll` | mobile-navbar.js:29-39 | every link's animation is switched: set where it was clear, cleared where it was set; no link is added or lost |
| `MobileNav.FlipAllTwice` | mobile-navbar.js:29-39 | two passes restore every link's animation |
| `MobileNav.Initial` | mobile-navbar.js:2-15 | the drawer starts closed and synced, with one clear animation flag per link |
| `MobileNav.Toggle` | mobile-navbar.js:41-63 | the reference definition of one click: `isOpen` flips, the number of links is kept, and a drawer in agreement with its open flag stays so |
| `MobileNav.ToggleFlipsAndRecords` | mobile-navbar.js:41-63 | a click flips `isOpen`; `aria-expanded`, the two document listeners and the overflow follow the new value whatever they were before |
| `MobileNav.ToggleKeepsSynced` | mobile-navbar.js:41-63 | from a synced drawer a click leads to a synced drawer: the three elements are `active`, both listeners are registered, the body is `hidden` and the links are animated exactly while open |
| `MobileNav.TogglesStaySynced` | mobile-navbar.js:41-63 | every state reached by clicks from the initial drawer is synced, and is open exactly after an odd number of clicks |
| `MobileNav.ToggleTwiceRestores` | mobile-navbar.js:41-63 | two clicks in a row restore every part of a synced drawer |
| `MobileNav.KeyPress` | mobile-navbar.js:65-70 | Enter or space toggles the drawer; any other key leaves it unchanged |
| `MobileNav.EscapeKeyDown` | mobile-navbar.js:72-76 | Escape closes an open drawer; no key opens it; other keys change nothing; a closed drawer comes back unchanged |
| `MobileNav.OutsideClickAt` | mobile-navbar.js:78-85 | a click outside the button, list and overlay closes an open drawer; a click inside one of them changes nothing; nothing opens it; a closed drawer comes back unchanged |
| `MobileNav.LinkClick` | mobile-navbar.js:104-110 | after a nav-link click the drawer is closed; a closed drawer is unchanged |
| `MobileNav.LinkClickClears` | mobile-navbar.js:104-110 | after a nav-link click a synced drawer has no listeners, overflow `auto` and no animated link |
| `MobileNav.MobileNavbar.constructor` | mobile-navbar.js:2-15 | the drawer after construction and `init` is the initial drawer |
| `MobileNav.MobileNavbar.AnimateLinks` | mobile-navbar.js:29-39 | the link array afterwards is `FlipAll` of the link array before |
| `MobileNav.MobileNavbar.HandleClick` | mobile-navbar.js:41-63 | the new state is `Toggle` of the old one, and the drawer stays synced |
| `MobileNav.MobileNavbar.HandleKeyPress` | mobile-navbar.js:65-70 | the new state is `KeyPress` of the old one |
| `MobileNav.MobileNavbar.HandleEscapeKey` | mobile-navbar.js:72-76 | the new state is `EscapeKeyDown` of the old one |
| `MobileNav.MobileNavbar.HandleOutsideClick` | mobile-navbar.js:78-85 | the new state is `OutsideClickAt` of the old one |
| `MobileNav.MobileNavbar.HandleLinkClick` | mobile-navbar.js:104-110 | the new state is `LinkClick` of the old one |

## Left out

- Building the DOM: the image wrapper, the cloned images, the dot and
  button elements, the viewer markup and the overlay element. Slides and dots
  are abstract arrays.
- Timers and the clock. `setTimeout` and `setInterval` become methods the
  caller invokes, and a touch's duration is a parameter. The interval period
  is recorded but no time passes.
- Carousels with fewer than two images. Their `init` returns at once, so
  the model builds only carousels with `n >= 2`.
- `Carousels.Carousel.ShowImage`: requires `index < n`. Every caller passes
  such an index, so the source's guards for a missing slide or dot are only
  modelled for the absent dots.
- Touch coordinates are integers. The browser's `clientX` may be fractional.
- The `touchmove` handlers, which only decide whether to call
  `preventDefault`, and the container's `wheel` handler.
- The viewer's focus call and its writes to `document.body.style`.
- The viewer's own click, touch and Escape wiring. `CloseModal` is the
  operation those handlers call.
- Which carousel a viewer close resumes. The handlers are bound to the
  carousel that created the viewer.
- Resize and reload handling, the mobile-width test and `console.log`.
- The drawer's overlay click handler. It is registered before `handleClick`
  is bound, so it runs with the wrong receiver and does not toggle the drawer.
- A page without the menu button or the link list. There `init` wires nothing.
- The animation delay `index / 7 + 0.3` seconds. Only whether a link's
  animation is set is modelled.
- The page-level overflow safety listeners and the CSS injection in
  `mobile-navbar.js`.
- How one DOM event reaches several handlers in turn. For example, a click
  on the menu button also reaches the document listener it has just added.
  Each handler is modelled on its own.
- `sw.js` (cache-first fetch over the browser's cache and fetch APIs) and
  `main.js` (scroll wiring) are not part of this model.
