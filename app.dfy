/**
 * The shared configuration record and the code that changes it in place:
 * the mouse hook, the jitter loop, and the settings window's handlers.
 */
module App {
  import opened Wrappers
  import opened Hook
  import opened Settings
  import opened Jitter

  /** The record shared by the hook, the jitter loop and the window. */
  class JitterConfig {
    var horizontal: int
    var vertical: int
    var speed: real
    var active: bool
    var running: bool
    var leftPressed: bool
    var rightPressed: bool

    constructor ()
      ensures horizontal == 15 && vertical == 15 && speed == 0.001
      ensures !active && running && !leftPressed && !rightPressed
      ensures ButtonState() == Initial && Valid()
    {
      horizontal, vertical, speed := 15, 15, 0.001;
      active, running := false, true;
      leftPressed, rightPressed := false, false;
    }

    function ButtonState(): Buttons
      reads this
    {
      Buttons(leftPressed, rightPressed, active)
    }

    function Loop(): LoopState
      reads this
    {
      LoopState(ButtonState(), running)
    }

    function ApplyFields(): Settings.Fields
      reads this
    {
      Settings.Fields(horizontal, vertical, speed)
    }

    /** `active` is the conjunction of the two press flags. */
    ghost predicate Valid()
      reads this
    {
      Consistent(ButtonState())
    }
  }

  /** The operating system's input queue, reduced to the moves sent to it. */
  class InputSink {
    ghost var sent: seq<Move>

    constructor ()
      ensures sent == []
    {
      sent := [];
    }

    method MoveMouse(dx: int, dy: int)
      modifies this
      ensures sent == old(sent) + [Move(dx, dy)]
    {
      sent := sent + [Move(dx, dy)];
    }
  }

  /** The low-level mouse hook's handling of one message. */
  method MouseHook(config: JitterConfig, wParam: int)
    modifies config`leftPressed, config`rightPressed, config`active
    ensures config.ButtonState() == Step(old(config.ButtonState()), wParam)
    ensures config.Valid()
  {
    if wParam == WM_LBUTTONDOWN {
      config.leftPressed := true;
    } else if wParam == WM_LBUTTONUP {
      config.leftPressed := false;
    } else if wParam == WM_RBUTTONDOWN {
      config.rightPressed := true;
    } else if wParam == WM_RBUTTONUP {
      config.rightPressed := false;
    }
    config.active := config.leftPressed && config.rightPressed;
  }

  /** One pass of the jitter loop's body; the configuration is only read. */
  method JitterIteration(config: JitterConfig, sink: InputSink)
    modifies sink
    ensures sink.sent == old(sink.sent) + IterationMoves(config.active, config.horizontal, config.vertical)
    ensures config.Valid() ==> (sink.sent != old(sink.sent) <==> config.leftPressed && config.rightPressed)
  {
    if config.active {
      sink.MoveMouse(config.horizontal, config.vertical);
      sink.MoveMouse(-config.horizontal, -config.vertical);
    }
  }

  /**
   * The jitter loop `while running`, where `schedule[i]` is what the other
   * threads do after iteration `i`.
   */
  method JitterLoop(config: JitterConfig, sink: InputSink, schedule: seq<Event>)
    modifies sink, config`leftPressed, config`rightPressed, config`active, config`running
    ensures sink.sent
            == old(sink.sent) + LoopMoves(old(config.Loop()), config.horizontal, config.vertical, schedule)
    ensures config.Loop() == LoopFinal(old(config.Loop()), schedule)
    ensures old(config.Valid()) ==> config.Valid()
  {
    ghost var start := config.Loop();
    var i := 0;
    while config.running && i < |schedule|
      invariant 0 <= i <= |schedule|
      invariant old(sink.sent) + LoopMoves(start, config.horizontal, config.vertical, schedule)
                == sink.sent + LoopMoves(config.Loop(), config.horizontal, config.vertical, schedule[i..])
      invariant LoopFinal(start, schedule) == LoopFinal(config.Loop(), schedule[i..])
      invariant old(config.Valid()) ==> config.Valid()
      decreases |schedule| - i
    {
      ghost var before := config.Loop();
      ghost var sentBefore := sink.sent;
      JitterIteration(config, sink);
      match schedule[i] {
        case Idle =>
        case Mouse(wParam) => MouseHook(config, wParam);
        case Close => config.running := false;
      }
      assert config.Loop() == Deliver(before, schedule[i]);
      assert schedule[i..][1..] == schedule[i + 1..];
      assert sink.sent == sentBefore + IterationMoves(before.buttons.active, config.horizontal, config.vertical);
      i := i + 1;
    }
  }

  /** The settings window: two amplitude entries with their sliders. */
  class JitterApp {
    const config: JitterConfig
    var hEntry: string
    var vEntry: string
    var hScale: int
    var vScale: int

    constructor (config: JitterConfig)
      ensures this.config == config
      ensures hEntry == "15" && vEntry == "15" && hScale == 15 && vScale == 15
    {
      this.config := config;
      hEntry, vEntry := "15", "15";
      hScale, vScale := 15, 15;
    }

    /** Focus leaves the horizontal entry. */
    method ValidateHorizontal()
      modifies this`hEntry, this`hScale
      ensures hEntry == ValidatedText(old(hEntry), config.horizontal)
      ensures ParseDecimal(old(hEntry)).Some? ==> hScale == Clamp(ParseDecimal(old(hEntry)).value)
      ensures ParseDecimal(old(hEntry)).None? ==> hScale == old(hScale)
    {
      match ParseDecimal(hEntry) {
        case Some(n) =>
          var val := Clamp(n);
          hEntry := Str(val);
          hScale := val;
        case None =>
          hEntry := Str(config.horizontal);
      }
    }

    /** Focus leaves the vertical entry. */
    method ValidateVertical()
      modifies this`vEntry, this`vScale
      ensures vEntry == ValidatedText(old(vEntry), config.vertical)
      ensures ParseDecimal(old(vEntry)).Some? ==> vScale == Clamp(ParseDecimal(old(vEntry)).value)
      ensures ParseDecimal(old(vEntry)).None? ==> vScale == old(vScale)
    {
      match ParseDecimal(vEntry) {
        case Some(n) =>
          var val := Clamp(n);
          vEntry := Str(val);
          vScale := val;
        case None =>
          vEntry := Str(config.vertical);
      }
    }

    /**
     * The "Apply" button; `speedText` is the outcome of reading the speed
     * entry as a float.
     */
    method UpdateSettings(speedText: Option<real>)
      modifies config`horizontal, config`vertical, config`speed
      ensures config.ApplyFields()
              == Apply(old(config.ApplyFields()), ParseDecimal(hEntry), ParseDecimal(vEntry), speedText)
    {
      var h := ParseDecimal(hEntry);
      if h.None? {
        return;
      }
      config.horizontal := h.value;
      var v := ParseDecimal(vEntry);
      if v.None? {
        return;
      }
      config.vertical := v.value;
      if speedText.None? {
        return;
      }
      config.speed := speedText.value;
    }

    /** The window is closed: the jitter loop's guard becomes false. */
    method OnClosing()
      modifies config`running
      ensures !config.running
    {
      config.running := false;
    }
  }

  /**
   * A session on a fresh configuration, using only the contracts above:
   * left down, right down, one iteration, left up, one more iteration.
   */
  method BothButtonsSession()
  {
    var config := new JitterConfig();
    var sink := new InputSink();
    MouseHook(config, WM_LBUTTONDOWN);
    JitterIteration(config, sink);
    assert sink.sent == [];
    MouseHook(config, WM_RBUTTONDOWN);
    assert config.active;
    JitterIteration(config, sink);
    assert sink.sent == [Move(15, 15), Move(-15, -15)];
    MouseHook(config, WM_LBUTTONUP);
    assert !config.active && config.rightPressed;
    JitterIteration(config, sink);
    assert sink.sent == [Move(15, 15), Move(-15, -15)];
    assert config.horizontal == 15 && config.running;
  }

  /**
   * Typing 100 into the horizontal entry: focus loss turns it into 25, which
   * Apply then stores; typed straight into Apply it would be stored as 100.
   */
  method SettingsSession()
  {
    var config := new JitterConfig();
    var app := new JitterApp(config);
    app.hEntry := Str(100);
    NatStrLength(100, 3);
    ParseStr(100);
    app.ValidateHorizontal();
    assert app.hEntry == Str(25) && app.hScale == 25;
    ClampedDigits(25);
    ParseStr(25);
    ClampedDigits(15);
    ParseStr(15);
    assert Str(15) == "15";
    app.UpdateSettings(None);
    assert config.horizontal == 25 && config.vertical == 15 && config.speed == 0.001;
    app.hEntry := Str(100);
    app.UpdateSettings(Some(0.002));
    assert config.horizontal == 100 && config.vertical == 15 && config.speed == 0.002;
    app.hEntry := "x";
    assert ParseDecimal("x") == None;
    app.ValidateHorizontal();
    assert ParseDecimal(app.hEntry) == Some(100);
    app.OnClosing();
    assert !config.running;
  }
}
