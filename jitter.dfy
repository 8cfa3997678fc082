/**
 * The jitter emitter (jitter_loop in jitter_by_rsanich.py): the moves one
 * iteration emits, and the moves of a whole run of the loop against a finite
 * schedule of things the other threads do between two iterations.
 */
module Jitter {
  import opened Hook

  /** One relative mouse move sent to the operating system. */
  datatype Move = Move(dx: int, dy: int)

  /** The body of the loop: a move out and the move back while active, else nothing. */
  function IterationMoves(active: bool, h: int, v: int): seq<Move> {
    if active then [Move(h, v), Move(-h, -v)] else []
  }

  /** Net cursor displacement of a sequence of relative moves. */
  function Displacement(moves: seq<Move>): Move
    decreases |moves|
  {
    if moves == [] then Move(0, 0)
    else
      var rest := Displacement(moves[1..]);
      Move(moves[0].dx + rest.dx, moves[0].dy + rest.dy)
  }

  lemma {:induction false} DisplacementAppend(a: seq<Move>, b: seq<Move>)
    ensures Displacement(a + b).dx == Displacement(a).dx + Displacement(b).dx
    ensures Displacement(a + b).dy == Displacement(a).dy + Displacement(b).dy
    decreases |a|
  {
    if a != [] {
      assert (a + b)[1..] == a[1..] + b;
      DisplacementAppend(a[1..], b);
    } else {
      assert a + b == b;
    }
  }

  /** An active iteration emits two moves that cancel; an inactive one emits none. */
  lemma IterationReturnsCursor(active: bool, h: int, v: int)
    ensures |IterationMoves(active, h, v)| == (if active then 2 else 0)
    ensures Displacement(IterationMoves(active, h, v)) == Move(0, 0)
  {
    if active {
      var m := IterationMoves(active, h, v);
      assert m[1..] == [Move(-h, -v)] && m[1..][1..] == [];
      assert Displacement(m[1..]) == Move(-h, -v);
    }
  }

  /** In a consistent state an iteration moves the cursor exactly when both buttons are held. */
  lemma IterationEmitsIffBothHeld(b: Buttons, h: int, v: int)
    requires Consistent(b)
    ensures IterationMoves(b.active, h, v) != [] <==> b.leftPressed && b.rightPressed
  {
  }

  /** What another thread does between two iterations of the loop. */
  datatype Event =
    | Idle               // nothing
    | Mouse(wParam: int) // the hook thread handles a mouse message
    | Close              // the window is closed: `running` becomes false

  /** The part of the configuration the loop reads and the other threads write. */
  datatype LoopState = LoopState(buttons: Buttons, running: bool)

  function Deliver(s: LoopState, e: Event): LoopState {
    match e
    case Idle => s
    case Mouse(wParam) => s.(buttons := Step(s.buttons, wParam))
    case Close => s.(running := false)
  }

  /**
   * The moves emitted by the loop `while running: <iteration>` when event
   * `schedule[i]` happens after iteration `i` and the schedule bounds the
   * number of iterations.
   */
  function LoopMoves(s: LoopState, h: int, v: int, schedule: seq<Event>): seq<Move>
    decreases |schedule|
  {
    if !s.running || schedule == [] then []
    else IterationMoves(s.buttons.active, h, v) + LoopMoves(Deliver(s, schedule[0]), h, v, schedule[1..])
  }

  /** The state in which that loop exits. */
  function LoopFinal(s: LoopState, schedule: seq<Event>): LoopState
    decreases |schedule|
  {
    if !s.running || schedule == [] then s
    else LoopFinal(Deliver(s, schedule[0]), schedule[1..])
  }

  /** The loop ends in a consistent button state when it starts in one. */
  lemma {:induction false} LoopFinalConsistent(s: LoopState, schedule: seq<Event>)
    requires Consistent(s.buttons)
    ensures Consistent(LoopFinal(s, schedule).buttons)
    decreases |schedule|
  {
    if s.running && schedule != [] {
      LoopFinalConsistent(Deliver(s, schedule[0]), schedule[1..]);
    }
  }

  /** Once `running` is false the loop emits nothing. */
  lemma LoopNotRunning(s: LoopState, h: int, v: int, schedule: seq<Event>)
    requires !s.running
    ensures LoopMoves(s, h, v, schedule) == []
    ensures LoopFinal(s, schedule) == s
  {
  }

  /** The moves the modelled loop sends sum to (0, 0) over any schedule. */
  lemma {:induction false} LoopReturnsCursor(s: LoopState, h: int, v: int, schedule: seq<Event>)
    ensures Displacement(LoopMoves(s, h, v, schedule)) == Move(0, 0)
    decreases |schedule|
  {
    if s.running && schedule != [] {
      IterationReturnsCursor(s.buttons.active, h, v);
      LoopReturnsCursor(Deliver(s, schedule[0]), h, v, schedule[1..]);
      DisplacementAppend(IterationMoves(s.buttons.active, h, v),
                         LoopMoves(Deliver(s, schedule[0]), h, v, schedule[1..]));
    }
  }

  /**
   * The emitted moves alternate strictly between (h, v) and (-h, -v), starting
   * with (h, v) and ending with (-h, -v).
   */
  lemma {:induction false} LoopMovesAlternate(s: LoopState, h: int, v: int, schedule: seq<Event>)
    ensures |LoopMoves(s, h, v, schedule)| % 2 == 0
    ensures forall k :: 0 <= k < |LoopMoves(s, h, v, schedule)| ==>
      LoopMoves(s, h, v, schedule)[k] == (if k % 2 == 0 then Move(h, v) else Move(-h, -v))
    decreases |schedule|
  {
    if s.running && schedule != [] {
      var first := IterationMoves(s.buttons.active, h, v);
      var rest := LoopMoves(Deliver(s, schedule[0]), h, v, schedule[1..]);
      LoopMovesAlternate(Deliver(s, schedule[0]), h, v, schedule[1..]);
      var m := first + rest;
      assert m == LoopMoves(s, h, v, schedule);
      forall k | 0 <= k < |m|
        ensures m[k] == (if k % 2 == 0 then Move(h, v) else Move(-h, -v))
      {
        if k >= |first| {
          assert m[k] == rest[k - |first|];
          assert (k - |first|) % 2 == k % 2;
        }
      }
    }
  }

  /** Once the window is closed, later events make no difference: the loop has stopped. */
  lemma {:induction false} LoopStopsAtClose(s: LoopState, h: int, v: int, schedule: seq<Event>, j: nat)
    requires j < |schedule| && schedule[j] == Close
    ensures LoopMoves(s, h, v, schedule) == LoopMoves(s, h, v, schedule[..j + 1])
    ensures LoopFinal(s, schedule) == LoopFinal(s, schedule[..j + 1])
    ensures !LoopFinal(s, schedule).running
    decreases j
  {
    if s.running {
      assert schedule[..j + 1][0] == schedule[0];
      if j == 0 {
        assert schedule[..1][1..] == [];
      } else {
        assert schedule[..j + 1][1..] == schedule[1..][..j];
        LoopStopsAtClose(Deliver(s, schedule[0]), h, v, schedule[1..], j - 1);
      }
    }
  }

  /**
   * Left down alone emits nothing; right down while left is held starts the
   * jitter; releasing left stops it; after the window closes nothing is sent.
   */
  lemma BothButtonsScenario(h: int, v: int)
    ensures LoopMoves(LoopState(Initial, true), h, v,
                      [Mouse(WM_LBUTTONDOWN), Mouse(WM_RBUTTONDOWN), Mouse(WM_LBUTTONUP), Idle])
            == [Move(h, v), Move(-h, -v)]
    ensures LoopMoves(LoopState(Initial, true), h, v,
                      [Mouse(WM_LBUTTONDOWN), Mouse(WM_RBUTTONDOWN), Close, Idle, Idle])
            == [Move(h, v), Move(-h, -v)]
  {
    var s0 := LoopState(Initial, true);
    var s1 := Deliver(s0, Mouse(WM_LBUTTONDOWN));
    var s2 := Deliver(s1, Mouse(WM_RBUTTONDOWN));
    var s3 := Deliver(s2, Mouse(WM_LBUTTONUP));
    assert !s1.buttons.active && s2.buttons.active && !s3.buttons.active;
    var a := [Mouse(WM_LBUTTONDOWN), Mouse(WM_RBUTTONDOWN), Mouse(WM_LBUTTONUP), Idle];
    assert a[1..][1..][1..][1..] == [];
    assert LoopMoves(s3, h, v, a[1..][1..][1..]) == [];
    assert LoopMoves(s2, h, v, a[1..][1..]) == [Move(h, v), Move(-h, -v)];
    assert LoopMoves(s1, h, v, a[1..]) == [Move(h, v), Move(-h, -v)];
    var b := [Mouse(WM_LBUTTONDOWN), Mouse(WM_RBUTTONDOWN), Close, Idle, Idle];
    assert LoopMoves(Deliver(s2, Close), h, v, b[1..][1..][1..]) == [];
    assert LoopMoves(s2, h, v, b[1..][1..]) == [Move(h, v), Move(-h, -v)];
    assert LoopMoves(s1, h, v, b[1..]) == [Move(h, v), Move(-h, -v)];
  }
}
