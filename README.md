# Portfolio site core, modelled in Dafny

This project models the stateful core of a personal portfolio site built with
Next.js and React:

- the project image carousel in `app/components/Projects.tsx`: a table from
  project position to the current image index, moved by the next, previous
  and dot-indicator buttons (`carousel.dfy`, module `Carousel`);
- the navigation link in `app/components/shared/NavLink.tsx`: which style a
  desktop or mobile link takes for a given path, link target and hovered path
  (`nav_link.dfy`, module `NavLink`);
- the countdown heading and buttons in `app/timer/CountdownTimer.tsx`
  (`countdown.dfy`, module `CountdownTimer`);
- the timer page in `app/timer/page.tsx`: the expiry computed from the typed
  seconds, and the switch between the input and the countdown
  (`timer_page.dfy`, module `TimerPage`);
- the `useAsync` and `useLoading` hooks in `app/hooks/useAsync.ts`
  (`async_hooks.dfy`, module `AsyncHooks`);
- the error boundary in `app/components/shared/ErrorBoundary.tsx`
  (`error_boundary.dfy`, module `Boundary`);
- the dark-mode provider in `app/providers.tsx` (`providers.dfy`, module
  `Theme`).

`wrappers.dfy` holds the `Option` type that stands for `null`/`undefined`.

Pure logic (state derivation, class choice, heading text, rendering
decisions) is written as functions with contracts and lemmas. Components
whose state React updates step by step are classes whose methods change
their fields: `TimerPage.Timer`, `AsyncHooks.AsyncHook`,
`AsyncHooks.LoadingFlag`, `Boundary.ErrorBoundary` and `Theme.Providers`.
Each method's contract ties the new state to a pure function of the old
state. The properties are then proved about those functions.

JavaScript's `%` truncates toward zero, and Dafny's `%` is Euclidean. The
carousel therefore uses `Carousel.JsRem` for the source's remainder.

The timer page in `app/timer/page.tsx` does no validation of the typed value
and shows no loading spinner. The page's test file
(`app/timer/__tests__/page.test.tsx:86-204`) expects both, but the model
follows the page's code.

## Model

| member | source | states |
|---|---|---|
| Carousel.Current | app/components/Projects.tsx:99 | a project without an entry in the index table shows image 0; otherwise its stored index |
| Carousel.NextImage | app/components/Projects.tsx:59-64 | only the clicked project's entry changes; from an in-range index it advances by one and wraps from the last image to 0; the result is in range |
| Carousel.PrevImage | app/components/Projects.tsx:66-72 | only the clicked project's entry changes; from an in-range index it steps back by one and wraps from 0 to the last image; the result is in range |
| Carousel.GoToImage | app/components/Projects.tsx:74-79 | the clicked project's entry becomes the chosen image and no other entry changes |
| Carousel.JsRem | app/components/Projects.tsx:62-70 | JavaScript's remainder: equal to the mathematical one for a non-negative dividend and in range then; between -n and 0 for a negative one |
| Carousel.NextTimesIndex | app/components/Projects.tsx:59-64 | k clicks on "next" from an in-range index give (start + k) mod total; other projects keep their entries |
| Carousel.CycleReturnsToStart | app/components/__tests__/Projects.test.tsx:154-170 | clicking "next" as many times as there are images returns to the starting image |
| Carousel.NextThenPrev | app/components/__tests__/Projects.test.tsx:172-187 | "next" then "previous" returns to the starting image |
| Carousel.PrevThenNext | app/components/Projects.tsx:59-72 | "previous" then "next" returns to the starting image |
| Carousel.GoToIdempotent | app/components/Projects.tsx:74-79 | clicking the same dot twice is the same as clicking it once |
| Carousel.NavigateStaysInRange | app/components/Projects.tsx:128-183 | any sequence of arrow clicks and dot clicks (dots carry indices below the image count) keeps the shown index in range and leaves other projects alone |
| Carousel.ImageSrc | app/components/Projects.tsx:115-119 | the image source is the current image when present and non-empty, else the first image, else the empty string; it is always one of the images or "" |
| Carousel.CarouselControls | app/components/Projects.tsx:128-183 | arrows appear exactly when there is more than one image; one dot per image then, none otherwise; a dot is highlighted exactly when its index is the current one |
| Carousel.ExactlyOneIndicatorActive | app/components/Projects.tsx:171-183 | with an in-range current index, exactly one dot is highlighted |
| Carousel.ThreeImageWalkthrough | app/components/__tests__/Projects.test.tsx:117-170 | with three images: the first is shown initially, "next" shows the second, two and three clicks give indices 2 and 0, "previous" from the start shows the last, "next" then "previous" shows the first |
| NavLink.Classify | app/components/shared/NavLink.tsx:22-48 | a mobile link is active exactly when the path equals the target; a desktop link shows the border exactly when it is hovered, or active with nothing hovered; otherwise it is blue when active and grey when not |
| NavLink.ObserveStyle | app/components/shared/NavLink.tsx:28-48 | each style's class list carries blue text, grey text, a blue border, a transparent border, a blue background and semibold weight exactly as the component's class strings do |
| NavLink.ClassTokens | app/components/shared/NavLink.tsx:22-48 | desktop: blue text iff active or hovered, blue border iff the border is shown, grey text and transparent border otherwise; mobile: blue background and semibold iff active, grey text iff inactive, never a border class |
| NavLink.MobileIgnoresHover | app/components/shared/NavLink.tsx:44-48 | the hovered path never changes a mobile link's classes |
| NavLink.ActiveLosesBorderWhenOtherHovered | app/components/shared/__tests__/NavLink.test.tsx:24-57 | the active desktop link shows the border with nothing hovered and loses it, staying blue, when another link is hovered |
| NavLink.InactiveGainsBorderWhenHovered | app/components/shared/NavLink.tsx:25-26 | an inactive desktop link shows the border exactly when it is the hovered one |
| NavLink.DocumentedCases | app/components/shared/__tests__/NavLink.test.tsx:24-117 | the classes of the six documented cases: active, active with another hovered, inactive, hovered, active mobile, inactive mobile |
| CountdownTimer.NatToString | app/timer/CountdownTimer.tsx:23-26 | a number prints as one or more digits with no leading zero |
| CountdownTimer.NatToStringValue | app/timer/CountdownTimer.tsx:23-26 | the printed digits denote the number |
| CountdownTimer.LeadingZeroValue | app/timer/CountdownTimer.tsx:23-25 | a leading "0" pad does not change the value the digits denote |
| CountdownTimer.PadStart | app/timer/CountdownTimer.tsx:23-25 | the result is as long as the width or the input, whichever is longer, ends with the input, and is filled in front with the pad character |
| CountdownTimer.Segment | app/timer/CountdownTimer.tsx:23-25 | a zero unit shows nothing; a non-zero unit shows digits denoting its value, followed by its unit: exactly two digits below 10 (one "0" pad), the unpadded digits from 10 on |
| CountdownTimer.SecondsText | app/timer/CountdownTimer.tsx:26 | the seconds are always shown, as digits denoting them followed by " seconds remaining" |
| CountdownTimer.Heading | app/timer/CountdownTimer.tsx:22-27 | the heading is the days segment, written with the hour unit "h ", followed by the corrected heading with no days; so hours and minutes appear only when non-zero, in that order, and the seconds always end it |
| CountdownTimer.Tail | app/timer/CountdownTimer.tsx:24-26 | what follows the days: with no hours and no minutes it is the seconds text alone, and it always ends with the seconds text |
| CountdownTimer.NoDaysRoundTrip | app/timer/CountdownTimer.tsx:24-26 | as written, a heading without days reads back as its hours, minutes and seconds |
| CountdownTimer.DaysReadAsHours | app/timer/CountdownTimer.tsx:23-24 | one day and one hour produce the same heading, "01h 0 seconds remaining" |
| CountdownTimer.DaysParsedAsHours | app/timer/CountdownTimer.tsx:23-24 | as written, any heading with days and no hours reads back as that many hours and no days |
| CountdownTimer.HeadingWithDayUnit | app/timer/CountdownTimer.tsx:23-26 | with a day unit, a heading without days is the part that follows the days alone, and every heading ends with the seconds text |
| CountdownTimer.NoDaysSameHeading | app/timer/CountdownTimer.tsx:23-26 | without days, the corrected heading and the heading as written coincide |
| CountdownTimer.HeadingWithDayUnitRoundTrip | app/timer/CountdownTimer.tsx:23-26 | reading the heading back recovers the days, hours, minutes and seconds |
| CountdownTimer.HeadingWithDayUnitInjective | app/timer/CountdownTimer.tsx:23-26 | different remaining times give different headings |
| CountdownTimer.MockedHeading | app/timer/__tests__/CountdownTimer.test.tsx:50-60 | 1 hour, 5 minutes and 30 seconds read "01h 05m 30 seconds remaining" |
| CountdownTimer.SecondsOnlyHeading | app/timer/CountdownTimer.tsx:26 | 7 seconds alone read "7 seconds remaining" |
| CountdownTimer.OnClick | app/timer/CountdownTimer.tsx:29-46 | each button makes exactly one call: pause, resume, or setResetTimer(false) for reset |
| TimerPage.ExpiryFrom | app/timer/page.tsx:31-37 | a parsed number of seconds gives an expiry that many seconds after now; an unparsable value gives an invalid date |
| TimerPage.ViewOf | app/timer/page.tsx:41-51 | the input and the start button are shown together, exactly when the countdown is not |
| TimerPage.StartShowsCountdown | app/timer/page.tsx:47-51 | "Start Timer" sets the reset flag, keeps the expiry and shows the countdown |
| TimerPage.CountdownButtons | app/timer/page.tsx:41-46 | the countdown's reset button brings the input back; pause and resume leave the page state alone |
| TimerPage.UserTimeFrozenWhileCounting | app/timer/page.tsx:41 | while the countdown shows, no event changes the expiry |
| TimerPage.CountdownPersistsUntilReset | app/timer/page.tsx:41-51 | once counting, any run of events without a reset click leaves the page state unchanged |
| TimerPage.Timer.constructor | app/timer/page.tsx:28-29 | the expiry starts at now, the reset flag is off, and the input and start button show |
| TimerPage.Timer.HandleChange | app/timer/page.tsx:31-37 | typing sets the expiry from now and the parsed seconds |
| TimerPage.Timer.SetResetTimer | app/timer/page.tsx:29 | the reset flag takes the given value |
| TimerPage.Timer.OnEvent | app/timer/page.tsx:39-53 | the page's new state is the step function applied to the old state and the event |
| AsyncHooks.AsError | app/hooks/useAsync.ts:31 | a thrown Error is kept; anything else becomes an Error with message "Unknown error" |
| AsyncHooks.Initial | app/hooks/useAsync.ts:15-19 | the hook starts loading, with no data and no error |
| AsyncHooks.Begin | app/hooks/useAsync.ts:22 | starting a run sets loading, clears the error and keeps the data |
| AsyncHooks.Settle | app/hooks/useAsync.ts:24-33 | a run ends not loading: a result becomes the data with no error, a rejection clears the data and records the error |
| AsyncHooks.RefetchReplaces | app/hooks/useAsync.ts:41-43 | a refetch's outcome alone decides the state; earlier runs leave no trace |
| AsyncHooks.AlwaysExclusive | app/hooks/useAsync.ts:21-33 | data and error are never both set, whatever sequence of starts and settlements happens |
| AsyncHooks.AsyncHook.constructor | app/hooks/useAsync.ts:15-19 | the hook's state starts as the initial state |
| AsyncHooks.AsyncHook.Start | app/hooks/useAsync.ts:22 | the state becomes the begun state |
| AsyncHooks.AsyncHook.Finish | app/hooks/useAsync.ts:24-33 | the state becomes the settled state for the outcome |
| AsyncHooks.AsyncHook.Execute | app/hooks/useAsync.ts:21-35 | a whole run: begin, then settle with the outcome |
| AsyncHooks.AsyncHook.Refetch | app/hooks/useAsync.ts:41-43 | a refetch runs execute again, and its result does not depend on the state before |
| AsyncHooks.LoadingFlag.constructor | app/hooks/useAsync.ts:56-57 | the flag starts at the given initial value, which defaults to false |
| AsyncHooks.CreateLoadingFlags | app/hooks/__tests__/useAsync.test.ts:71-84 | a flag created without an argument starts false; one created with true starts true |
| AsyncHooks.LoadingFlag.StartLoading | app/hooks/useAsync.ts:59 | the flag becomes true |
| AsyncHooks.LoadingFlag.StopLoading | app/hooks/useAsync.ts:60 | the flag becomes false |
| AsyncHooks.LoadingFlag.WithLoading | app/hooks/useAsync.ts:62-73 | the wrapped outcome is passed through unchanged, the flag is set then cleared, and it ends false whether the function resolved or rejected |
| Boundary.ErrorToString | app/components/shared/ErrorBoundary.tsx:69 | an error prints as name, ": " and message, dropping whichever part is empty |
| Boundary.DerivedStateFromError | app/components/shared/ErrorBoundary.tsx:22-24 | a caught error sets hasError and stores the error; errorInfo keeps its value |
| Boundary.Retried | app/components/shared/ErrorBoundary.tsx:36-38 | retrying clears hasError, the error and the error info |
| Boundary.TransitionsStayReachable | app/components/shared/ErrorBoundary.tsx:18-38 | catching and retrying keep hasError equal to "an error is stored" and never set errorInfo; catching then retrying returns to the initial state |
| Boundary.Render | app/components/shared/ErrorBoundary.tsx:40-79 | without an error the children render; with one, a truthy fallback renders, else the default view with its heading, message and "Try Again" button; details appear exactly in development with an error stored |
| Boundary.DetailsCarryNoStack | app/components/shared/ErrorBoundary.tsx:63-73 | in any reachable state the details show the error text without a component stack, and only in development |
| Boundary.DocumentedBehaviour | app/components/shared/__tests__/ErrorBoundary.test.tsx:38-140 | a child throwing "Test error" shows the default view, or the fallback when given; retry shows the children again; development details read "Error: Test error" |
| Boundary.CatchLabel | app/components/shared/ErrorBoundary.tsx:26-34 | the console prefix is "Error caught by boundary:" in production and "ErrorBoundary caught an error:" otherwise |
| Boundary.ErrorBoundary.constructor | app/components/shared/ErrorBoundary.tsx:18-20 | the boundary starts without an error and with an empty console |
| Boundary.ErrorBoundary.Capture | app/components/shared/ErrorBoundary.tsx:22-34 | a caught error derives the new state and logs exactly one entry with the environment's prefix |
| Boundary.ErrorBoundary.HandleRetry | app/components/shared/ErrorBoundary.tsx:36-38 | the state is cleared and nothing is logged |
| Theme.WithDarkClass | app/providers.tsx:21-29 | "dark" is on the class list exactly when dark mode is on, and no other class changes |
| Theme.LastWriteWins | app/providers.tsx:21-29 | only the last add or remove of "dark" matters |
| Theme.SyncedIsFixed | app/providers.tsx:21-29 | rerunning the effect on a class list that already agrees changes nothing |
| Theme.ContextValue | app/providers.tsx:31-44 | the context exists exactly once mounted, and then carries the current dark-mode flag |
| Theme.Providers.constructor | app/providers.tsx:13-15 | dark mode starts on, unmounted, the document untouched and no context |
| Theme.Providers.SyncEffect | app/providers.tsx:21-29 | once mounted the effect writes the flag to the document root; before, it does nothing |
| Theme.Providers.Mount | app/providers.tsx:17-29 | mounting keeps the flag, puts "dark" on the root when dark mode is on and exposes the context |
| Theme.Providers.SetDarkMode | app/providers.tsx:14-29 | the setter changes the flag and, once mounted, the root's class list follows it; the flag and the root stay in agreement |
| Theme.ToggleTwice | app/providers.tsx:14-39 | mounting and toggling twice ends in dark mode with "dark" added to the original classes and nothing else changed |

## Left out

- The countdown's ticking, `pause`/`resume` timing and the expiry callback belong to the `react-timer-hook` package, which is not part of this model. The heading takes the days, hours, minutes and seconds as inputs. Pause and resume are calls the model records, not timing.
- The "Timer is up!" warning on expiry is console output and is not modelled.
- TimerPage.ExpiryFrom: `parseInt` is taken as already applied (a number or nothing), and dates are whole seconds. The millisecond part and the JavaScript date range limit are not modelled.
- Validation messages and a loading spinner on the timer page are not modelled, because `app/timer/page.tsx` has neither.
- AsyncHooks.AsyncHook.Execute: each run is modelled as a whole, begin then settle. Overlapping runs, promise scheduling, the mount effect and the dependency list are not modelled.
- AsyncHooks.LoadingFlag.WithLoading: the awaited function is given by its outcome. A rejection is passed back as a value rather than rethrown.
- Carousel.NextImage: for a stored index outside the image range, the contract gives only that the result is in range (from -1 up), not the exact truncated remainder the body computes.
- Carousel.PrevImage: for a stored index outside the image range, the contract gives only that the result is in range (from 1 - total up), not the exact truncated remainder.
- Carousel.JsRem: for a negative dividend the contract bounds the result in (-n, 0] and does not name its exact value.
- The carousel functions require at least one image. The page only uses them when a project has more than one image. The result for zero images (`NaN`) is not modelled.
- Image alt texts, projects data, links and all other markup and styling of the projects section are not modelled.
- NavLink.ClassTokens: class strings are modelled as token sequences. Dark-mode and hover variants are kept as tokens but not interpreted. The mouse-enter and click handlers are passed through unchanged and are not modelled.
- Boundary.Render: React node truthiness is reduced to nothing, text and elements. Numbers such as `0` are not modelled. Thrown values that are not `Error` objects are not modelled either.
- `isDevelopment()` and `NODE_ENV` come from the environment and are parameters here. Console output is a sequence of entries.
- Theme.Providers.SetDarkMode: only plain values are modelled, not React's updater-function form of the setter. It requires that the flag and the root already agree, which holds from the constructor on.
- The loading indicator, the navbar and the other components are not part of this model.

## Findings

| source | as written | input that shows it | evidently intended | confidence | as-written member | corrected member |
|---|---|---|---|---|---|---|
| app/timer/CountdownTimer.tsx:23 | the days segment is printed with the unit "h ", the same as hours | 1 day and 0 hours gives "01h 0 seconds remaining", the same as 0 days and 1 hour | a separate day unit ("d "), so that every remaining time has its own heading | medium, not executed | CountdownTimer.DaysReadAsHours | CountdownTimer.HeadingWithDayUnitRoundTrip |
