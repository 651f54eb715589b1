/**
 * The timer page (app/timer/page.tsx).
 *
 * The page holds two state cells, `userTime` (the expiry instant handed to
 * the countdown) and `resetTimer` (whether the countdown is showing), and
 * renders either the duration input with its "Start Timer" button or the
 * countdown. The clock reading and `parseInt` are inputs of the handlers:
 * `now` is the current instant in whole seconds and `parsed` is the parsed
 * number, `None` when `parseInt` gives `NaN`.
 */
module TimerPage {
  import opened Wrappers
  import CountdownTimer

  /** A `Date` in whole seconds; `Invalid` is the date that `NaN` arithmetic yields. */
  datatype Instant = At(seconds: int) | Invalid

  /** The expiry `handleChange` computes: the current instant plus the parsed seconds. */
  function ExpiryFrom(now: int, parsed: Option<int>): (t: Instant)
    ensures t.At? <==> parsed.Some?
    ensures t.At? ==> t.seconds - now == parsed.value
  {
    match parsed
    case Some(n) => At(now + n)
    case None => Invalid
  }

  /** Which parts of the page are rendered. */
  datatype View = View(input: bool, startButton: bool, countdown: bool)

  /** The three conditional children of the page: exactly one of the two views shows. */
  function ViewOf(resetTimer: bool): (v: View)
    ensures v.input == v.startButton && v.input != v.countdown
    ensures v.countdown <==> resetTimer
  {
    View(!resetTimer, !resetTimer, resetTimer)
  }

  /** The two state cells, as a value. */
  datatype PageState = PageState(userTime: Instant, resetTimer: bool)

  /** What the user can do: type in the input, press Start, or press a countdown button. */
  datatype Event =
    | Typed(now: int, parsed: Option<int>)
    | ClickStart
    | ClickCountdown(button: CountdownTimer.Button)

  /** A call from the countdown reaches the page only through `setResetTimer`. */
  function ApplyCall(s: PageState, c: CountdownTimer.Call): PageState {
    match c
    case SetResetTimer(v) => s.(resetTimer := v)
    case Pause => s
    case Resume => s
  }

  /** The page's response to an event; an event aimed at a control that is not rendered does nothing. */
  function Step(s: PageState, e: Event): PageState {
    var view := ViewOf(s.resetTimer);
    match e
    case Typed(now, parsed) => if view.input then s.(userTime := ExpiryFrom(now, parsed)) else s
    case ClickStart => if view.startButton then s.(resetTimer := true) else s
    case ClickCountdown(b) => if view.countdown then ApplyCall(s, CountdownTimer.OnClick(b)[0]) else s
  }

  /** Pressing Start replaces the input view by the countdown, keeping the expiry. */
  lemma StartShowsCountdown(s: PageState)
    requires !s.resetTimer
    ensures Step(s, ClickStart) == s.(resetTimer := true)
    ensures ViewOf(Step(s, ClickStart).resetTimer).countdown
  {
  }

  /** The countdown's reset returns to the input view; pause and resume leave the page alone. */
  lemma CountdownButtons(s: PageState)
    requires s.resetTimer
    ensures Step(s, ClickCountdown(CountdownTimer.ResetButton)) == s.(resetTimer := false)
    ensures ViewOf(Step(s, ClickCountdown(CountdownTimer.ResetButton)).resetTimer).input
    ensures Step(s, ClickCountdown(CountdownTimer.PauseButton)) == s
    ensures Step(s, ClickCountdown(CountdownTimer.ResumeButton)) == s
  {
  }

  /** While the countdown shows, typing cannot reach `handleChange`: the expiry is frozen. */
  lemma UserTimeFrozenWhileCounting(s: PageState, e: Event)
    requires s.resetTimer
    ensures Step(s, e).userTime == s.userTime
  {
  }

  /** The state after a sequence of events. */
  function Run(s: PageState, events: seq<Event>): PageState
    decreases |events|
  {
    if events == [] then s else Run(Step(s, events[0]), events[1..])
  }

  /**
   * Once the countdown is showing, no sequence of events that avoids the
   * reset button changes the expiry or leaves the countdown.
   */
  lemma {:induction false} CountdownPersistsUntilReset(s: PageState, events: seq<Event>)
    requires s.resetTimer
    requires forall k :: 0 <= k < |events| ==> events[k] != ClickCountdown(CountdownTimer.ResetButton)
    ensures Run(s, events) == s
    decreases |events|
  {
    if events != [] {
      assert Step(s, events[0]) == s;
      CountdownPersistsUntilReset(s, events[1..]);
    }
  }

  /** The page component with its two state cells. */
  class Timer {
    var userTime: Instant
    var resetTimer: bool

    function State(): PageState
      reads this
    {
      PageState(userTime, resetTimer)
    }

    function Visible(): View
      reads this
    {
      ViewOf(resetTimer)
    }

    /** Mounting: `userTime` starts at the current instant and the input view shows. */
    constructor(now: int)
      ensures userTime == At(now) && !resetTimer
      ensures Visible().input && Visible().startButton && !Visible().countdown
    {
      userTime := At(now);
      resetTimer := false;
    }

    /** `handleChange`: store now plus the parsed number of seconds, without validation. */
    method HandleChange(now: int, parsed: Option<int>)
      modifies this`userTime
      ensures userTime == ExpiryFrom(now, parsed)
    {
      userTime := ExpiryFrom(now, parsed);
    }

    /** The `setResetTimer` state setter, also handed to the countdown. */
    method SetResetTimer(value: bool)
      modifies this`resetTimer
      ensures resetTimer == value
    {
      resetTimer := value;
    }

    /** Routes a user event to the handler of the control it hits, if that control is rendered. */
    method OnEvent(e: Event)
      modifies this
      ensures State() == Step(old(State()), e)
    {
      match e
      case Typed(now, parsed) =>
        if !resetTimer {
          HandleChange(now, parsed);
        }
      case ClickStart =>
        if !resetTimer {
          SetResetTimer(true);
        }
      case ClickCountdown(b) =>
        if resetTimer {
          var call := CountdownTimer.OnClick(b)[0];
          if call.SetResetTimer? {
            SetResetTimer(call.value);
          }
        }
    }
  }
}
