/**
 * The Arduino firmware's button logic: raw down and up events from the
 * interrupt handler become BUTTON_PRESS and BUTTON_LONG_PRESS events.  A
 * one-shot FreeRTOS timer of LONG_PRESS_MIN ms is armed on every press and
 * turns a press that is still held into a long press.
 *
 * The clock (`gettimeofday`) is a parameter: a time is the 64-bit count
 * `tv_sec * 1000000 + tv_usec` of microseconds the source computes.  The
 * event queue (`put_main_event`) is the returned event.
 */
module Button {
  import opened Wrappers

  const DebounceMs := 100
  const ShortPressMax := 1999
  const LongPressMin := 3000

  const Two64 := 0x1_0000_0000_0000_0000

  datatype Event = Press | LongPress

  /** The press length in ms: the 64-bit unsigned difference of two microsecond stamps, over 1000. */
  function PressMs(nowUs: nat, downUs: nat): (r: nat)
    requires nowUs < Two64 && downUs < Two64
    ensures downUs <= nowUs ==> r * 1000 <= nowUs - downUs < r * 1000 + 1000
    ensures nowUs < downUs ==> r * 1000 <= Two64 + nowUs - downUs < r * 1000 + 1000
  {
    ((nowUs - downUs) % Two64) / 1000
  }

  /** The event a release reports for a press of `ms` milliseconds. */
  function Classify(ms: nat): (r: Option<Event>)
    ensures r == Some(Press) <==> DebounceMs < ms <= ShortPressMax
    ensures r == Some(LongPress) <==> LongPressMin <= ms
    ensures r == None <==> ms <= DebounceMs || ShortPressMax < ms < LongPressMin
  {
    if DebounceMs < ms && ms <= ShortPressMax then Some(Press)
    else if ms >= LongPressMin then Some(LongPress)
    else None
  }

  /** The globals `button_is_down` and `button_down_time`, and the timer. */
  class ButtonState {
    /** `button_timer != nullptr`: `button_init` created the timer. */
    var timerCreated: bool
    /** The timer is counting down towards its callback. */
    var timerRunning: bool
    var isDown: bool
    var downTimeUs: nat

    ghost predicate Valid()
      reads this
    {
      downTimeUs < Two64 && (timerRunning ==> timerCreated)
    }

    /** The statics before `button_init`: zero, and no timer. */
    constructor ()
      ensures Valid() && !timerCreated && !timerRunning && !isDown && downTimeUs == 0
    {
      timerCreated, timerRunning, isDown, downTimeUs := false, false, false, 0;
    }

    /** `button_init`: `created` says whether `xTimerCreate` returned a timer. */
    method Init(created: bool)
      requires Valid()
      modifies this
      ensures Valid() && timerCreated == created && !timerRunning
      ensures isDown == old(isDown) && downTimeUs == old(downTimeUs)
    {
      timerCreated := created;
      timerRunning := false;
    }

    /** `button_down`: before `button_init` (no timer) it does nothing. */
    method Down(nowUs: nat)
      requires Valid() && nowUs < Two64
      modifies this
      ensures Valid() && timerCreated == old(timerCreated)
      ensures !old(timerCreated) ==> isDown == old(isDown) && downTimeUs == old(downTimeUs) && timerRunning == old(timerRunning)
      ensures old(timerCreated) ==> isDown && downTimeUs == nowUs && timerRunning
    {
      if !timerCreated {
        return;
      }
      isDown := true;
      downTimeUs := nowUs;
      timerRunning := true;
    }

    /**
     * `button_up`: ignored unless the button is down; otherwise it stops the
     * timer, clears the down flag and classifies the press length.
     */
    method Up(nowUs: nat) returns (ev: Option<Event>)
      requires Valid() && nowUs < Two64
      modifies this
      ensures Valid() && timerCreated == old(timerCreated) && downTimeUs == old(downTimeUs)
      ensures !old(isDown) ==> ev == None && isDown == old(isDown) && timerRunning == old(timerRunning)
      ensures old(isDown) ==> !isDown && !timerRunning && ev == Classify(PressMs(nowUs, old(downTimeUs)))
    {
      if !isDown {
        return None;
      }
      timerRunning := false;
      isDown := false;
      ev := Classify(PressMs(nowUs, downTimeUs));
    }

    /** The timer callback: a long press only while the button is still down. */
    method TimerExpired() returns (ev: Option<Event>)
      requires Valid() && timerRunning
      modifies this
      ensures Valid() && !timerRunning && !isDown && timerCreated && downTimeUs == old(downTimeUs)
      ensures ev == if old(isDown) then Some(LongPress) else None
    {
      timerRunning := false;
      ev := None;
      if isDown {
        isDown := false;
        ev := Some(LongPress);
      }
    }
  }

  /**
   * A press held until the timer fires reports one long press, and the
   * release after it reports nothing more.
   */
  method HeldPress(b: ButtonState, t0: nat, t1: nat) returns (e1: Option<Event>, e2: Option<Event>)
    requires b.Valid() && b.timerCreated && t0 < Two64 && t1 < Two64
    modifies b
    ensures e1 == Some(LongPress) && e2 == None && !b.isDown
  {
    b.Down(t0);
    e1 := b.TimerExpired();
    e2 := b.Up(t1);
  }
}
