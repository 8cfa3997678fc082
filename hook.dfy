/**
 * The low-level mouse hook's button-state machine (mouse_hook in
 * jitter_by_rsanich.py): two press flags and the derived `active` flag.
 */
module Hook {

  /** Window message codes the hook reacts to. */
  const WM_LBUTTONDOWN: int := 0x0201
  const WM_LBUTTONUP: int := 0x0202
  const WM_RBUTTONDOWN: int := 0x0204
  const WM_RBUTTONUP: int := 0x0205

  /** The button part of the shared configuration record. */
  datatype Buttons = Buttons(leftPressed: bool, rightPressed: bool, active: bool)

  /** `active` is exactly the conjunction of the two press flags. */
  predicate Consistent(b: Buttons) {
    b.active == (b.leftPressed && b.rightPressed)
  }

  /** The button state of a freshly created configuration. */
  const Initial: Buttons := Buttons(false, false, false)

  /** True of the four button codes the hook distinguishes. */
  predicate IsButtonCode(wParam: int) {
    wParam == WM_LBUTTONDOWN || wParam == WM_LBUTTONUP ||
    wParam == WM_RBUTTONDOWN || wParam == WM_RBUTTONUP
  }

  /** One hook event: update the matching press flag, then recompute `active`. */
  function Step(b: Buttons, wParam: int): (r: Buttons)
    ensures Consistent(r)
  {
    var left :=
      if wParam == WM_LBUTTONDOWN then true
      else if wParam == WM_LBUTTONUP then false
      else b.leftPressed;
    var right :=
      if wParam == WM_LBUTTONDOWN || wParam == WM_LBUTTONUP then b.rightPressed
      else if wParam == WM_RBUTTONDOWN then true
      else if wParam == WM_RBUTTONUP then false
      else b.rightPressed;
    Buttons(left, right, left && right)
  }

  /** The hook applied to a sequence of events, first event first. */
  function Run(b: Buttons, events: seq<int>): Buttons
    decreases |events|
  {
    if events == [] then b else Run(Step(b, events[0]), events[1..])
  }

  /**
   * Reference definition of a press flag after a sequence of events: the
   * value set by the LAST event in `events` that is `down` or `up`, or
   * `init` when there is none.
   */
  function LastPress(events: seq<int>, down: int, up: int, init: bool): bool
    decreases |events|
  {
    if events == [] then init
    else
      var last := events[|events| - 1];
      if last == down then true
      else if last == up then false
      else LastPress(events[..|events| - 1], down, up, init)
  }

  lemma StepLeftButton(b: Buttons)
    ensures Step(b, WM_LBUTTONDOWN).leftPressed
    ensures !Step(b, WM_LBUTTONUP).leftPressed
    ensures Step(b, WM_LBUTTONDOWN).rightPressed == b.rightPressed
    ensures Step(b, WM_LBUTTONUP).rightPressed == b.rightPressed
  {
  }

  lemma StepRightButton(b: Buttons)
    ensures Step(b, WM_RBUTTONDOWN).rightPressed
    ensures !Step(b, WM_RBUTTONUP).rightPressed
    ensures Step(b, WM_RBUTTONDOWN).leftPressed == b.leftPressed
    ensures Step(b, WM_RBUTTONUP).leftPressed == b.leftPressed
  {
  }

  /** Any other message code leaves the press flags alone. */
  lemma StepOtherCode(b: Buttons, wParam: int)
    requires !IsButtonCode(wParam)
    ensures Step(b, wParam).leftPressed == b.leftPressed
    ensures Step(b, wParam).rightPressed == b.rightPressed
    ensures Consistent(b) ==> Step(b, wParam) == b
  {
  }

  /** Delivering the same event twice is the same as delivering it once. */
  lemma StepIdempotent(b: Buttons, wParam: int)
    ensures Step(Step(b, wParam), wParam) == Step(b, wParam)
  {
  }

  lemma {:induction false} RunAppend(b: Buttons, events: seq<int>, e: int)
    ensures Run(b, events + [e]) == Step(Run(b, events), e)
    decreases |events|
  {
    if events == [] {
      assert [] + [e] == [e];
    } else {
      assert (events + [e])[1..] == events[1..] + [e];
      RunAppend(Step(b, events[0]), events[1..], e);
    }
  }

  /**
   * After any non-empty sequence of events, each press flag is the value set
   * by the last event for that button, and `active` is their conjunction.
   */
  lemma {:induction false} RunMatchesLastPress(b: Buttons, events: seq<int>)
    ensures Run(b, events).leftPressed
            == LastPress(events, WM_LBUTTONDOWN, WM_LBUTTONUP, b.leftPressed)
    ensures Run(b, events).rightPressed
            == LastPress(events, WM_RBUTTONDOWN, WM_RBUTTONUP, b.rightPressed)
    ensures events != [] ==> Consistent(Run(b, events))
    decreases |events|
  {
    if events != [] {
      var init := events[..|events| - 1];
      var e := events[|events| - 1];
      assert events == init + [e];
      RunAppend(b, init, e);
      RunMatchesLastPress(b, init);
    }
  }

  /** Every state the hook can reach from the initial one is consistent. */
  lemma {:induction false} RunPreservesConsistent(b: Buttons, events: seq<int>)
    requires Consistent(b)
    ensures Consistent(Run(b, events))
    decreases |events|
  {
    if events != [] {
      RunPreservesConsistent(Step(b, events[0]), events[1..]);
    }
  }

  /** Left down alone, then right down, then left up. */
  lemma BothButtonsScenario()
    ensures !Run(Initial, [WM_LBUTTONDOWN]).active
    ensures Run(Initial, [WM_LBUTTONDOWN, WM_RBUTTONDOWN]).active
    ensures !Run(Initial, [WM_LBUTTONDOWN, WM_RBUTTONDOWN, WM_LBUTTONUP]).active
  {
    assert [WM_LBUTTONDOWN, WM_RBUTTONDOWN] == [WM_LBUTTONDOWN] + [WM_RBUTTONDOWN];
    RunAppend(Initial, [WM_LBUTTONDOWN], WM_RBUTTONDOWN);
    assert [WM_LBUTTONDOWN, WM_RBUTTONDOWN, WM_LBUTTONUP]
        == [WM_LBUTTONDOWN, WM_RBUTTONDOWN] + [WM_LBUTTONUP];
    RunAppend(Initial, [WM_LBUTTONDOWN, WM_RBUTTONDOWN], WM_LBUTTONUP);
  }
}
