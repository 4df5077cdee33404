# Zsideo landing page: the four UI state machines, in Dafny

The site is a single-page marketing page built from React components. Almost
all of it is rendering and animation-library configuration; four components
hold small state machines whose behaviour can be stated exactly, and this
project models and proves them:

- `testimonials.dfy` (module `Testimonials`): the testimonial carousel. Its
  index runs over a fixed list of four testimonials. A 5-second interval and
  the next arrow advance it with wrap-around, the previous arrow moves it back
  with wrap-around, and a dot click sets it directly. The dot at the current
  index is drawn as the active one.
- `loading_screen.dfy` (module `Loading`): the loading splash. Each 150 ms tick
  adds `Math.random() * 12 + 3` to `progress` and clamps the result at 100. The
  status label is one of six ordered steps, picked by bucketing the unclamped
  sum, and it is written only while that sum is below 100.
- `client_wrapper.dfy` (module `Readiness`): the readiness gate. `isLoading`
  starts true, and one 1500 ms timer set at mount turns it false when its
  callback runs. Unmounting clears the timer. The loading overlay is shown while the flag is true and the
  page content once it is false.
- `navbar.dfy` (module `Navigation`): the navigation bar. `isScrolled` is
  `scrollY > 50` after each scroll event. The menu button flips
  `isMobileMenuOpen`, and a click on a mobile link clears it.

Each module has the same two layers. The pure layer is a datatype for the
component's state, a step function per event, and a `Run` over a sequence of
events; the lemmas are stated about these. The imperative layer is a class with
the component's state as fields. Each of its methods updates those fields as the
handler in the source does, and is proved to produce exactly the pure step
applied to the old state.

Modelling decisions:

- `Math.random()` is a parameter `r` with `0 <= r < 1`. Progress is an exact
  `real`, not a double.
- Timers are explicit events. For the gate, the host clock is the event
  `Elapse(ms)`, and the host running the timer's callback is the separate event
  `Expire`. `setTimeout` only promises that the callback runs no sooner than
  1500 ms, so `Expire` takes effect only while the timer is pending and its
  delay has passed, and it may come arbitrarily late. `Unmount` is the effect's
  cleanup and cancels a callback that has not yet run.
- The carousel's `%` is JavaScript's truncating remainder. Its dividends
  (`k + 1` and `k - 1 + 4` for `k` in `[0, 4)`) are never negative, so it agrees
  with Dafny's Euclidean `%`.
- The gate's flag is `isLoading`, which goes from true to false once, no
  sooner than 1500 ms after mount. Each loading tick adds an amount in
  `[3, 15)`, and the label is chosen by bucketing the unclamped sum, not the
  clamped progress.
- The loading model proves one property that the code does not state.
  Progress can reach 100 only from a value above 85, and every value above 85
  is already in the last bucket. So once progress is 100 the label always reads
  "Welcome to Zsideo!"; it never freezes on an earlier step (`Loading.Inv`).

## Model

| member | source | states |
|---|---|---|
| `Testimonials.NextIndex` | src/components/Testimonials.tsx:122-124 | next from k gives k+1, and 3 wraps to 0; the result is always a position of the list |
| `Testimonials.PrevIndex` | src/components/Testimonials.tsx:126-128 | previous from k gives k-1, and 0 wraps to 3; the result is always a position of the list |
| `Testimonials.PrevAfterNext` | src/components/Testimonials.tsx:122-128 | previous after next returns the original index |
| `Testimonials.NextAfterPrev` | src/components/Testimonials.tsx:122-128 | next after previous returns the original index |
| `Testimonials.Apply` | src/components/Testimonials.tsx:114-128 | one action (the interval tick at line 116, next at 123, previous at 127, a dot click at 291) keeps the index in [0, 4), and a dot click gives the dot's position; `AutoAdvanceIsNext`, `PrevAfterNext` and `NextAfterPrev` state the rest |
| `Testimonials.RunStaysInRange` | src/components/Testimonials.tsx:114-128 | after any sequence of interval ticks, arrows and dot clicks the index stays in [0, 4) |
| `Testimonials.AutoAdvanceIsNext` | src/components/Testimonials.tsx:114-124 | an auto-advance tick has the same effect as the next arrow |
| `Testimonials.SelectIgnoresPrevious` | src/components/Testimonials.tsx:288-291 | clicking dot i sets the index to i whatever it was before |
| `Testimonials.NextTimesIsModular` | src/components/Testimonials.tsx:122-124 | n presses of next from k give (k + n) mod 4 |
| `Testimonials.PrevTimesIsModular` | src/components/Testimonials.tsx:126-128 | n presses of previous from k give (k - n) mod 4 |
| `Testimonials.FullCycle` | src/components/Testimonials.tsx:27-72 | four next steps, or four previous steps, return to the start, because the list has four entries |
| `Testimonials.Dots` | src/components/Testimonials.tsx:288-296 | one dot per testimonial; `ExactlyOneActiveDot` states that exactly the current one is active |
| `Testimonials.ExactlyOneActiveDot` | src/components/Testimonials.tsx:288-296 | exactly one dot is active, the one at the current index |
| `Testimonials.Carousel.constructor` | src/components/Testimonials.tsx:25 | the index starts at 0 |
| `Testimonials.Carousel.AutoAdvance` | src/components/Testimonials.tsx:114-117 | the interval callback moves the index to the next position and keeps it in range |
| `Testimonials.Carousel.Next` | src/components/Testimonials.tsx:122-124 | the next arrow moves the index to the next position with wrap-around |
| `Testimonials.Carousel.Prev` | src/components/Testimonials.tsx:126-128 | the previous arrow moves the index back with wrap-around |
| `Testimonials.Carousel.Select` | src/components/Testimonials.tsx:291 | a dot click sets the index to the dot's position |
| `Testimonials.Carousel.IsActiveDot` | src/components/Testimonials.tsx:292-296 | a dot is drawn active exactly when it is the current entry of the dot row |
| `Loading.Increment` | src/components/LoadingScreen.tsx:32 | one tick adds at least 3 and less than 15 |
| `Loading.StepIndex` | src/components/LoadingScreen.tsx:17-35 | the bucket of a sum over the six `loadingSteps` is never negative for a non-negative sum, and names a step exactly when the sum is below 100; `StepIndexBounds` and `StepIndexMonotone` state the rest |
| `Loading.StepIndexBounds` | src/components/LoadingScreen.tsx:35 | the step index of a sum is the bucket of width 100/6 that holds it |
| `Loading.StepIndexMonotone` | src/components/LoadingScreen.tsx:35 | a larger sum never maps to an earlier step |
| `Loading.StepIndexAdvancesAtMostOne` | src/components/LoadingScreen.tsx:32-35 | a rise shorter than 100/6 moves the step index forward by at most one |
| `Loading.Initial` | src/components/LoadingScreen.tsx:12-13 | progress starts at 0 and the label at "Initializing...", and this state satisfies the invariant |
| `Loading.Update` | src/components/LoadingScreen.tsx:31-41 | the `setProgress` updater never exceeds 100, never lowers progress, and leaves a label that is one of the steps or the old one; `UpdateLabel`, `TickPreservesInv`, `TickProgressBounds` and `TickLabelAdvancesAtMostOne` state the rest |
| `Loading.UpdateLabel` | src/components/LoadingScreen.tsx:32-38 | the label is written exactly when the unclamped sum is below 100, with the step of its bucket; otherwise it is kept |
| `Loading.ShownStep` | src/components/LoadingScreen.tsx:35-38 | the step shown for a progress value is a valid position in the list, its bucket below 100 and the last step at 100 |
| `Loading.TickPreservesInv` | src/components/LoadingScreen.tsx:31-41 | a tick keeps progress in [0, 100] and the label equal to the step of progress, the last step once full |
| `Loading.TickProgressBounds` | src/components/LoadingScreen.tsx:32-40 | progress never decreases and rises by less than 15 per tick; it rises by at least 3 unless it reaches 100 |
| `Loading.TickAtFullIsIdentity` | src/components/LoadingScreen.tsx:32-40 | once progress is 100, a tick changes neither progress nor label |
| `Loading.TickLabelAdvancesAtMostOne` | src/components/LoadingScreen.tsx:32-38 | the label's step never goes back and advances by at most one per tick |
| `Loading.RunPreservesInv` | src/components/LoadingScreen.tsx:30-42 | after any number of ticks the invariant holds, the label is one of the six steps and progress has not decreased |
| `Loading.RunProgressLowerBound` | src/components/LoadingScreen.tsx:30-42 | after n ticks progress has risen by at least 3n or is 100 |
| `Loading.RunStaysFull` | src/components/LoadingScreen.tsx:30-42 | once progress is 100, no number of ticks changes the state |
| `Loading.FullWithin34Ticks` | src/components/LoadingScreen.tsx:30-42 | from the initial state, any 34 ticks bring progress to 100 with the label "Welcome to Zsideo!" |
| `Loading.OverlayVisible` | src/components/LoadingScreen.tsx:58 | the overlay is rendered exactly while `isLoading` is true; `Readiness.ChildrenVisible` states that it is the complement of the page content |
| `Loading.LoadingScreen.constructor` | src/components/LoadingScreen.tsx:12-13 | the component starts at progress 0 with the first label |
| `Loading.LoadingScreen.Tick` | src/components/LoadingScreen.tsx:29-41 | the interval callback sums into a local, writes the label if the sum is below 100, stores the clamped sum, and keeps the invariant |
| `Loading.LoadingScreen.IntervalTick` | src/components/LoadingScreen.tsx:26-45 | while isLoading is false no tick runs and neither progress nor label changes |
| `Readiness.Mount` | src/components/ClientWrapper.tsx:11-17 | the gate starts loading with the timer pending and no time elapsed |
| `Readiness.Fire` | src/components/ClientWrapper.tsx:15-17 | the timer callback leaves the page ready and the timer spent |
| `Readiness.Step` | src/components/ClientWrapper.tsx:13-19 | no event makes a ready page load again; with the timer cleared no event writes isLoading; isLoading changes only when the callback runs while the timer is pending and due |
| `Readiness.RunNeverReloads` | src/components/ClientWrapper.tsx:13-20 | no sequence of events turns a ready page back to loading |
| `Readiness.NoWriteWithoutTimer` | src/components/ClientWrapper.tsx:15-19 | with no pending timer, no sequence of events changes isLoading |
| `Readiness.NoWriteAfterUnmount` | src/components/ClientWrapper.tsx:19 | after unmount the timer is gone and isLoading never changes again, even when the delay had passed and the callback had not yet run |
| `Readiness.RunLoadingIff` | src/components/ClientWrapper.tsx:13-20 | after any events the page is loading exactly when it was loading and the callback never ran while the timer was pending, uncleared and due |
| `Readiness.ReadyExactlyWhenFired` | src/components/ClientWrapper.tsx:13-20 | from mount, the page is ready exactly when the callback ran at a point where 1500 ms of mounted time had passed and no unmount had come first |
| `Readiness.LoadingBeforeDelay` | src/components/ClientWrapper.tsx:15-17 | from mount, the page is loading while less than 1500 ms of mounted time have passed, whatever else the host does |
| `Readiness.UnmountBeforeLateCallback` | src/components/ClientWrapper.tsx:15-19 | a callback that runs late is cancelled by an unmount after the deadline, and the page stays loading; run before the unmount, it makes the page ready |
| `Readiness.FireIdempotent` | src/components/ClientWrapper.tsx:16 | running the callback body twice is the same as running it once |
| `Readiness.ExpireTwice` | src/components/ClientWrapper.tsx:15-17 | a second callback event finds the timer spent and changes nothing |
| `Readiness.ChildrenVisible` | src/components/ClientWrapper.tsx:24-25 | the children are shown exactly when the loading overlay, which gets the same flag, is not: never both, never neither |
| `Readiness.ClientWrapper.constructor` | src/components/ClientWrapper.tsx:11-17 | mounting gives the mount state: loading, with the timer pending |
| `Readiness.ClientWrapper.Elapse` | src/components/ClientWrapper.tsx:15-17 | the host clock advancing changes only the elapsed time |
| `Readiness.ClientWrapper.Expire` | src/components/ClientWrapper.tsx:15-17 | the callback, run only for a pending timer whose delay has passed, sets isLoading to false and spends the timer |
| `Readiness.ClientWrapper.Unmount` | src/components/ClientWrapper.tsx:19 | the cleanup cancels the timer and leaves isLoading as it was |
| `Readiness.ClientWrapper.ShowsChildren` | src/components/ClientWrapper.tsx:24-25 | the children are rendered exactly when the overlay is not |
| `Navigation.IsScrolledAt` | src/components/Navbar.tsx:13-15 | the comparison is strict, so an offset of exactly 50 is not scrolled |
| `Navigation.Initial` | src/components/Navbar.tsx:9-10 | both flags start false |
| `Navigation.MenuButtonTwiceRestores` | src/components/Navbar.tsx:113 | the menu button flips the menu flag, and two presses restore the state |
| `Navigation.LinkClickCloses` | src/components/Navbar.tsx:145 | a link click closes the menu whatever its prior value, and a second click changes nothing |
| `Navigation.Apply` | src/components/Navbar.tsx:13-145 | a scroll (line 14) leaves the menu flag alone, and the menu button (113) and link clicks (145) leave isScrolled alone; `MenuButtonTwiceRestores` and `LinkClickCloses` state what the clicks do |
| `Navigation.FlagsAreIndependent` | src/components/Navbar.tsx:13-15 | over any run, isScrolled is decided by the scroll events alone and the menu flag by the clicks alone |
| `Navigation.ClicksIgnoreScrolled` | src/components/Navbar.tsx:145 | over clicks alone, the menu flag does not depend on isScrolled |
| `Navigation.ScrollsIgnoreMenu` | src/components/Navbar.tsx:14 | over scrolls alone, isScrolled does not depend on the menu flag |
| `Navigation.LatestScrollDecides` | src/components/Navbar.tsx:14 | after any run whose last scroll was to y, isScrolled is y > 50 whatever came before |
| `Navigation.ClicksKeepScrolled` | src/components/Navbar.tsx:113 | clicks alone never change isScrolled |
| `Navigation.ButtonIcon` | src/components/Navbar.tsx:118 | the close icon is shown exactly when the menu is open, the hamburger otherwise |
| `Navigation.IconFollowsMenu` | src/components/Navbar.tsx:113-118 | the menu button swaps the icon, a link click brings back the hamburger, and a scroll leaves the icon |
| `Navigation.Navbar.constructor` | src/components/Navbar.tsx:9-10 | the bar starts with both flags false |
| `Navigation.Navbar.HandleScroll` | src/components/Navbar.tsx:13-15 | a scroll event sets isScrolled from the new offset and leaves the menu flag |
| `Navigation.Navbar.ToggleMenu` | src/components/Navbar.tsx:113 | the menu button flips isMobileMenuOpen and leaves isScrolled |
| `Navigation.Navbar.CloseMenu` | src/components/Navbar.tsx:145 | a link click sets isMobileMenuOpen to false and leaves isScrolled |
| `Navigation.Navbar.CurrentIcon` | src/components/Navbar.tsx:118 | the button shows the icon the rule `ButtonIcon` gives for the current menu flag |

## Left out

- The 3D scene, scroll-linked camera interpolation, per-frame animation and ring geometry (Scene3D.tsx, CameraLens.tsx, TimelineRing.tsx) are left out. They are floating-point trigonometry driven by three.js and GSAP callbacks.
- The tween and motion declarations (Hero.tsx, About.tsx, Services.tsx, and the GSAP block of Testimonials.tsx:74-112) are left out. They are configuration handed to animation libraries.
- Static content and composition (Footer.tsx, ScrollContent.tsx, page.tsx), SEO metadata, the manifest and the sitemap are left out. They are declarative and have no behaviour.
- React re-rendering is not modelled. The loading effect lists a fresh `loadingSteps` array among its dependencies, so it is torn down and re-created on every render; this changes no state.
- The race between manual carousel navigation and the 5-second interval is not modelled. The interval is not reset by a click; each callback is modelled as one `AutoAdvance` event applied to the then-current index.
- The 0.8 s exit animation of the loading overlay is not modelled. `Readiness.ChildrenVisible` is about which subtree React renders; while the overlay fades out it is still on screen beside the children.
- IEEE double rounding of `progress` is not modelled. Neither is the `Math.round` percentage display (LoadingScreen.tsx:169) or the random particle positions (LoadingScreen.tsx:50-53).
- Wall-clock time is not modelled. Timers are explicit events: `Elapse(ms)` stands for the host clock advancing and `Expire` for the host running the callback, at any point once it is due.
