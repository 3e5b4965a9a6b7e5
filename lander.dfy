/** The moon-lander environment: lander kinematics, angle wrapping, leg contact,
    the reward rule, and the environment object that holds the state between steps.

    Quantities are exact reals. The sine and cosine of an angle given in degrees
    are not computed: they are supplied by the caller as a `Trig` value. */
module MoonLander {

  // Defaults fixed by the environment's constructor.
  const LanderWidth: real := 20.0
  const LanderHeight: real := 30.0
  const Gravity: real := 0.08
  const Thrust: real := 0.25
  const PadWidth: real := 80.0
  const PadHeight: real := 10.0
  /** Length of an observation vector (the environment's `input_size`). */
  const ObservationSize: int := 8
  /** Number of action codes (the environment's `output_size`). */
  const ActionCount: int := 4
  /** The pad centre is drawn from the integers in [PadMargin, width - PadMargin],
      where PadMargin is half the pad width converted to an integer. */
  const PadMargin: int := 40
  /** Starting height of the lander's centre. */
  const StartY: real := 50.0
  /** Factor applied to the angular velocity on every step. */
  const Damping: real := 0.9
  /** Bound on the angular velocity that holds for a whole episode: 0.9 * (18 + 2) == 18. */
  const MaxSpin: real := 18.0

  const TimePenalty: real := -1.0
  const CrashReward: real := -100.0
  const LandReward: real := 1000.0

  /** Cosine and sine of an angle given in degrees. */
  datatype Trig = Trig(cosDeg: real -> real, sinDeg: real -> real)

  /** The state the environment keeps between steps. */
  datatype Lander = Lander(
    x: real, y: real,             // centre of the lander
    vx: real, vy: real,           // velocity (y grows downwards)
    angle: real,                  // degrees
    omega: real,                  // angular velocity, degrees per step
    padX: real, padY: real,       // pad centre and pad top
    legL: bool, legR: bool,       // leg contact flags
    crashed: bool, landed: bool,  // terminal flags
    frame: int)                   // step counter

  datatype StepResult = StepResult(next: Lander, reward: real, done: bool)

  /** An axis-aligned rectangle given by its top-left corner and its size. */
  datatype Rect = Rect(left: real, top: real, width: real, height: real)

  /** Field sizes the environment can be built with: the pad-centre range must not
      be empty, and the observation divides by the height. */
  predicate ValidConfig(width: int, height: int) {
    width >= 2 * PadMargin && height > 0
  }

  /** A value the pad-centre distribution can produce. */
  predicate ValidPadDraw(width: int, padDraw: int) {
    PadMargin <= padDraw <= width - PadMargin
  }

  function Abs(v: real): real { if v < 0.0 then -v else v }
  function Max(a: real, b: real): real { if a < b then b else a }
  function Min(a: real, b: real): real { if a < b then a else b }

  /** What every reachable state satisfies: the angle is wrapped, the angular
      velocity is bounded, and the pad lies inside the field on the floor line. */
  predicate Invariant(s: Lander, width: int, height: int) {
    && 0.0 <= s.angle < 360.0
    && -MaxSpin <= s.omega <= MaxSpin
    && s.frame >= 0
    && PadMargin as real <= s.padX <= (width - PadMargin) as real
    && s.padY == height as real - PadHeight
  }

  /** The state `reset` establishes, for the pad centre `padDraw`. */
  function Start(width: int, height: int, padDraw: int): (s: Lander)
    requires ValidConfig(width, height) && ValidPadDraw(width, padDraw)
    ensures Invariant(s, width, height)
    ensures !s.crashed && !s.landed && !s.legL && !s.legR
  {
    Lander(x := width as real / 2.0, y := StartY, vx := 0.0, vy := 0.0,
           angle := 0.0, omega := 0.0,
           padX := padDraw as real, padY := height as real - PadHeight,
           legL := false, legR := false, crashed := false, landed := false,
           frame := 0)
  }

  /** Change of angular velocity an action asks for. */
  function Spin(action: int): real {
    if action == 2 then 2.0 else if action == 3 then -2.0 else 0.0
  }

  // ---------------------------------------------------------------------------
  // The stages of one step, in the order the environment performs them.

  /** Step counter, the action's effect on the velocities, then gravity. */
  function Accelerate(s: Lander, action: int, trig: Trig): (r: Lander)
    ensures r == s.(frame := s.frame + 1,
                    vx := s.vx + (if action == 1 then Thrust * trig.sinDeg(s.angle) else 0.0),
                    vy := s.vy - (if action == 1 then Thrust * trig.cosDeg(s.angle) else 0.0) + Gravity,
                    omega := s.omega + Spin(action))
  {
    var s := s.(frame := s.frame + 1);
    var s :=
      if action == 1 then
        s.(vy := s.vy - Thrust * trig.cosDeg(s.angle),
           vx := s.vx + Thrust * trig.sinDeg(s.angle))
      else if action == 2 then s.(omega := s.omega + 2.0)
      else if action == 3 then s.(omega := s.omega - 2.0)
      else s;
    s.(vy := s.vy + Gravity)
  }

  /** Unit-timestep position update with the new velocity. */
  function Integrate(s: Lander): (r: Lander)
    ensures r == s.(x := r.x, y := r.y)
    ensures r.x - s.x == s.vx && r.y - s.y == s.vy
  {
    s.(x := s.x + s.vx, y := s.y + s.vy)
  }

  /** Whether `a` is a whole number of turns. */
  predicate IsWholeTurns(a: real) {
    (a / 360.0).Floor as real == a / 360.0
  }

  /** Whether `a` and `b` denote the same direction. */
  predicate SameAngle(a: real, b: real) {
    IsWholeTurns(a - b)
  }

  /** The C library's `fmod(a, 360)` for a non-negative `a`. */
  function FMod360(a: real): (r: real)
    requires a >= 0.0
    ensures 0.0 <= r < 360.0 && r <= a
  {
    a - 360.0 * (a / 360.0).Floor as real
  }

  /** The remainder denotes the same direction, and it is 0 exactly for whole
      turns. */
  lemma FMod360SameAngle(a: real)
    requires a >= 0.0
    ensures SameAngle(a, FMod360(a))
    ensures FMod360(a) == 0.0 <==> IsWholeTurns(a)
  {
    var q := (a / 360.0).Floor;
    assert a - FMod360(a) == 360.0 * q as real;
    assert (a - FMod360(a)) / 360.0 == q as real;
  }

  /** The angle wrap: `fmod` for angles of a turn or more, `360 - fmod(-a, 360)`
      for negative ones, nothing in between. */
  function WrapAngle(a: real): (r: real)
    ensures 0.0 <= r <= 360.0
  {
    if a >= 360.0 then FMod360(a)
    else if a < 0.0 then 360.0 - FMod360(-a)
    else a
  }

  /** Subtracting a whole number of turns from the negation of a whole number of
      turns leaves a whole number of turns. */
  lemma NegatedTurns(x: real, k: int)
    requires IsWholeTurns(x)
    ensures IsWholeTurns(360.0 * k as real - x)
  {
    var q := (x / 360.0).Floor;
    assert x == 360.0 * q as real;
    var y := 360.0 * k as real - x;
    assert y == 360.0 * (k - q) as real;
    assert y / 360.0 == (k - q) as real;
    assert ((k - q) as real).Floor == k - q;
  }

  /** The wrap never changes the direction, and it lands in [0, 360) except for a
      negative whole number of turns, which it sends to 360. */
  lemma {:induction false} WrapAngleSameAngle(a: real)
    ensures SameAngle(a, WrapAngle(a))
    ensures WrapAngle(a) == 360.0 <==> a < 0.0 && IsWholeTurns(-a)
  {
    if a >= 360.0 {
      FMod360SameAngle(a);
    } else if a < 0.0 {
      FMod360SameAngle(-a);
      var f := FMod360(-a);
      assert IsWholeTurns(-a - f);
      NegatedTurns(-a - f, -1);
      assert a - WrapAngle(a) == 360.0 * (-1) as real - (-a - f);
    }
  }

  /** Angle integration, wrap, then damping of the angular velocity. */
  function Rotate(s: Lander): (r: Lander)
    ensures r == s.(angle := r.angle, omega := r.omega)
    ensures 0.0 <= r.angle <= 360.0 && r.omega == Damping * s.omega
  {
    s.(angle := WrapAngle(s.angle + s.omega), omega := s.omega * Damping)
  }

  function LanderRect(s: Lander): Rect {
    Rect(s.x - LanderWidth / 2.0, s.y - LanderHeight / 2.0, LanderWidth, LanderHeight)
  }

  function PadRect(s: Lander): Rect {
    Rect(s.padX - PadWidth / 2.0, s.padY, PadWidth, PadHeight)
  }

  /** Overlap of two rectangles of positive size, as SFML's `FloatRect::intersects`
      decides it: the intersection must have a positive width and height. */
  predicate Intersects(a: Rect, b: Rect): (r: bool)
    ensures r <==> && 0.0 < a.width && 0.0 < b.width && a.left < b.left + b.width && b.left < a.left + a.width
                   && 0.0 < a.height && 0.0 < b.height && a.top < b.top + b.height && b.top < a.top + a.height
  {
    && Max(a.left, b.left) < Min(a.left + a.width, b.left + b.width)
    && Max(a.top, b.top) < Min(a.top + a.height, b.top + b.height)
  }

  /** Both leg flags, recomputed from the current position and angle. */
  function Contacts(s: Lander, trig: Trig): (r: Lander)
    ensures r == s.(legL := r.legL, legR := r.legR)
  {
    var body := LanderRect(s);
    var pad := PadRect(s);
    var legLY := s.y + (LanderHeight / 2.0) * trig.cosDeg(s.angle) + (LanderWidth / 2.0) * trig.sinDeg(s.angle);
    var legRY := s.y + (LanderHeight / 2.0) * trig.cosDeg(s.angle) - (LanderWidth / 2.0) * trig.sinDeg(s.angle);
    s.(legL := legLY >= s.padY && body.left >= pad.left && body.left <= pad.left + pad.width,
       legR := legRY >= s.padY && body.left + body.width >= pad.left
                                && body.left + body.width <= pad.left + pad.width)
  }

  /** The floor test: the lander's y plus its full height has reached the field height. */
  predicate OnFloor(s: Lander, height: int) {
    s.y + LanderHeight >= height as real
  }

  predicate InBounds(s: Lander, width: int) {
    !(s.x < 0.0 || s.x > width as real)
  }

  /** The three conditions besides the floor that a landing needs. */
  predicate Touchdown(s: Lander) {
    Intersects(LanderRect(s), PadRect(s)) && s.legL && s.legR
  }

  predicate Gentle(s: Lander) {
    Abs(s.vx) < 1.0 && Abs(s.vy) < 2.0 && Abs(s.angle) < 10.0
  }

  /** The reward rule: the floor branch first, then the horizontal bounds check,
      which overrides whatever the floor branch decided. */
  function Settle(s: Lander, width: int, height: int): (r: StepResult)
    ensures r.next == s.(crashed := r.next.crashed, landed := r.next.landed)
  {
    var afterFloor :=
      if OnFloor(s, height) then
        if Touchdown(s) then
          if Gentle(s) then StepResult(s.(landed := true), LandReward, true)
          else StepResult(s.(crashed := true), CrashReward, true)
        else StepResult(s.(crashed := true), CrashReward, true)
      else StepResult(s, TimePenalty, false);
    if !InBounds(s, width) then
      StepResult(afterFloor.next.(crashed := true), CrashReward, true)
    else afterFloor
  }

  /** One step of the environment under `action`: the frame counter, the
      kinematics, and the pad, which never moves. */
  function Transition(s: Lander, action: int, trig: Trig, width: int, height: int): (r: StepResult)
    ensures r.next.frame == s.frame + 1
    ensures r.next.vx == s.vx + (if action == 1 then Thrust * trig.sinDeg(s.angle) else 0.0)
    ensures r.next.vy == s.vy - (if action == 1 then Thrust * trig.cosDeg(s.angle) else 0.0) + Gravity
    ensures r.next.x == s.x + r.next.vx && r.next.y == s.y + r.next.vy
    ensures r.next.angle == WrapAngle(s.angle + s.omega + Spin(action))
    ensures r.next.omega == Damping * (s.omega + Spin(action))
    ensures r.next.padX == s.padX && r.next.padY == s.padY
  {
    var moved := Integrate(Accelerate(s, action, trig));
    var turned := Rotate(moved);
    assert turned.angle == WrapAngle(s.angle + s.omega + Spin(action));
    Settle(Contacts(turned, trig), width, height)
  }

  /** The reward rule of one step: the reward is one of three values and is -1
      exactly on the steps that do not end the episode, which are those that
      leave the lander above the floor and inside the field; leaving the field
      always crashes; the terminal flags are only ever set, never cleared. */
  lemma TransitionReward(s: Lander, action: int, trig: Trig, width: int, height: int)
    ensures var r := Transition(s, action, trig, width, height);
      && (r.reward == TimePenalty || r.reward == CrashReward || r.reward == LandReward)
      && (r.reward == TimePenalty <==> !r.done)
      && (!r.done <==> !OnFloor(r.next, height) && InBounds(r.next, width))
      && (!InBounds(r.next, width) ==> r.reward == CrashReward && r.done && r.next.crashed)
      && (r.reward == LandReward <==>
            OnFloor(r.next, height) && Touchdown(r.next) && Gentle(r.next) && InBounds(r.next, width))
      && r.next.crashed == (s.crashed || r.reward == CrashReward)
      && r.next.landed == (s.landed || (OnFloor(r.next, height) && Touchdown(r.next) && Gentle(r.next)))
  {
  }

  /** A leg is only in contact above the pad, so with both legs down the lander's
      rectangle lies horizontally within the pad's span. */
  lemma LegsWithinPad(s: Lander, action: int, trig: Trig, width: int, height: int)
    ensures var n := Transition(s, action, trig, width, height).next;
      n.legL && n.legR ==>
        PadRect(n).left <= LanderRect(n).left &&
        LanderRect(n).left + LanderWidth <= PadRect(n).left + PadWidth
  {
  }

  /** Damping keeps the angular velocity within 18 and the wrap keeps the angle
      in [0, 360): the episode invariant holds after every step. */
  lemma TransitionPreservesInvariant(s: Lander, action: int, trig: Trig, width: int, height: int)
    requires Invariant(s, width, height)
    ensures Invariant(Transition(s, action, trig, width, height).next, width, height)
  {
    WrapWithinOneTurn(s.angle, s.omega + Spin(action));
  }

  /** The +1000 branch never fires from a state above the floor: a gentle
      step falls less than 2, so it ends more than 28 above the field bottom,
      while the lander's rectangle only overlaps the pad, whose top is 10
      above the bottom, once it is less than 25 above it. */
  lemma NoLandingFromAboveFloor(s: Lander, action: int, trig: Trig, width: int, height: int)
    requires Invariant(s, width, height) && !OnFloor(s, height)
    ensures var r := Transition(s, action, trig, width, height);
      && r.reward != LandReward && (r.reward == TimePenalty || r.reward == CrashReward)
      && r.next.landed == s.landed
  {
    TransitionReward(s, action, trig, width, height);
  }

  /** With the pad inside the field, a landing is never overridden by the bounds
      check: the reward is +1000 exactly when the lander touches down gently on
      the pad with both legs. */
  lemma LandingIsInBounds(s: Lander, action: int, trig: Trig, width: int, height: int)
    requires Invariant(s, width, height)
    ensures var r := Transition(s, action, trig, width, height);
      r.reward == LandReward <==> OnFloor(r.next, height) && Touchdown(r.next) && Gentle(r.next)
  {
    TransitionReward(s, action, trig, width, height);
    LegsWithinPad(s, action, trig, width, height);
  }

  /** The observation: position over the field size, velocities and angular
      velocity over 5, angle over 180, and the two contact flags as 0 or 1. */
  function Observe(s: Lander, width: int, height: int): (obs: seq<real>)
    requires ValidConfig(width, height)
    ensures |obs| == ObservationSize
    ensures (obs[6] == 1.0 <==> s.legL) && (obs[6] == 0.0 <==> !s.legL)
    ensures (obs[7] == 1.0 <==> s.legR) && (obs[7] == 0.0 <==> !s.legR)
  {
    [s.x / width as real, s.y / height as real, s.vx / 5.0, s.vy / 5.0,
     s.angle / 180.0, s.omega / 5.0,
     if s.legL then 1.0 else 0.0, if s.legR then 1.0 else 0.0]
  }

  /** Scaling each observation entry back by its divisor gives the state. */
  lemma ObserveScales(s: Lander, width: int, height: int)
    requires ValidConfig(width, height)
    ensures var obs := Observe(s, width, height);
      && obs[0] * width as real == s.x && obs[1] * height as real == s.y
      && obs[2] * 5.0 == s.vx && obs[3] * 5.0 == s.vy
      && obs[4] * 180.0 == s.angle && obs[5] * 5.0 == s.omega
  {
  }

  /** For an angle in [0, 360) and a turn of less than a full circle, the wrap
      is the remainder modulo 360 and stays below 360. */
  lemma WrapWithinOneTurn(a: real, w: real)
    requires 0.0 <= a < 360.0 && -360.0 < w < 360.0
    ensures 0.0 <= WrapAngle(a + w) < 360.0
    ensures WrapAngle(a + w) == (if a + w >= 360.0 then a + w - 360.0
                                 else if a + w < 0.0 then a + w + 360.0
                                 else a + w)
  {
    var v := a + w;
    if v >= 360.0 {
      assert 1.0 <= v / 360.0 < 2.0;
      assert (v / 360.0).Floor == 1;
    } else if v < 0.0 {
      assert 0.0 < -v / 360.0 < 1.0;
      assert (-v / 360.0).Floor == 0;
    }
  }

  /** `n` steps of action 0 from `s`, whether or not the episode has ended. */
  function Idle(s: Lander, n: nat, trig: Trig, width: int, height: int): Lander {
    if n == 0 then s else Transition(Idle(s, n - 1, trig, width, height), 0, trig, width, height).next
  }

  /** Free fall from the start: after n steps of action 0 the lander is still at
      the horizontal centre, level, and has fallen 0.08 * n(n+1)/2; as long as it
      is above the floor no terminal flag has been set. */
  lemma {:induction false} FreeFall(width: int, height: int, padDraw: int, n: nat, trig: Trig)
    requires ValidConfig(width, height) && ValidPadDraw(width, padDraw)
    ensures var s := Idle(Start(width, height, padDraw), n, trig, width, height);
      && s.x == width as real / 2.0 && s.vx == 0.0
      && s.vy == Gravity * n as real
      && s.y == StartY + Gravity * (n * (n + 1)) as real / 2.0
      && s.angle == 0.0 && s.omega == 0.0 && s.frame == n
      && s.padX == padDraw as real && s.padY == height as real - PadHeight
      && (s.y + LanderHeight < height as real ==> !s.crashed && !s.landed)
  {
    if n > 0 {
      FreeFall(width, height, padDraw, n - 1, trig);
      assert n * (n + 1) == (n - 1) * n + 2 * n;
    }
  }

  lemma ProductBound(n: nat)
    requires n < 88
    ensures (n + 1) * (n + 2) <= 88 * 89
  {
    assert (n + 1) * (n + 2) <= 88 * (n + 2);
  }

  /** On the default 600 x 400 field, each of the first 88 steps of action 0
      from the start costs -1 and does not end the episode. */
  lemma IdleStepIsPenalty(padDraw: int, n: nat, trig: Trig)
    requires ValidPadDraw(600, padDraw) && n < 88
    ensures var r := Transition(Idle(Start(600, 400, padDraw), n, trig, 600, 400), 0, trig, 600, 400);
            r.reward == TimePenalty && !r.done
  {
    var s := Idle(Start(600, 400, padDraw), n, trig, 600, 400);
    var next := Idle(Start(600, 400, padDraw), n + 1, trig, 600, 400);
    FreeFall(600, 400, padDraw, n + 1, trig);
    ProductBound(n);
    assert next.y + LanderHeight < 400.0;
    assert next == Transition(s, 0, trig, 600, 400).next;
    TransitionReward(s, 0, trig, 600, 400);
  }

  /** Free fall on the 600 x 400 field, k steps after the start: centred,
      level, falling at 0.08 k after a drop of 0.08 k(k+1)/2, not landed. */
  predicate Falling(s: Lander, k: nat) {
    && s.x == 300.0 && s.vx == 0.0 && s.angle == 0.0 && s.omega == 0.0 && !s.landed
    && s.vy == Gravity * k as real
    && s.y == StartY + Gravity * (k * (k + 1)) as real / 2.0
  }

  /** Before step 89 an idle step from free fall costs -1, does not end the
      episode, and continues the fall. */
  lemma FallingStep(s: Lander, k: nat, trig: Trig)
    requires Falling(s, k) && k < 88
    ensures var r := Transition(s, 0, trig, 600, 400);
            r.reward == TimePenalty && !r.done && Falling(r.next, k + 1)
  {
    var r := Transition(s, 0, trig, 600, 400);
    assert (k + 1) * (k + 2) == k * (k + 1) + 2 * (k + 1);
    ProductBound(k);
    assert r.next.y + LanderHeight < 400.0;
    TransitionReward(s, 0, trig, 600, 400);
  }

  /** Step 89 of free fall reaches the floor at 7.12 and crashes with -100. */
  lemma FastDescentCrashes(s: Lander, trig: Trig)
    requires Falling(s, 88)
    ensures var r := Transition(s, 0, trig, 600, 400);
            r.reward == CrashReward && r.done && r.next.crashed && !r.next.landed
  {
    var r := Transition(s, 0, trig, 600, 400);
    assert r.next.vy == 7.12 && r.next.y == 370.4 && r.next.x == 300.0;
    assert !Gentle(r.next);
    TransitionReward(s, 0, trig, 600, 400);
  }

  /** On the default 600 x 400 field, step 89 of action 0 from the start
      reaches the floor at 7.12 per step and crashes with -100, whatever the
      pad position. */
  lemma IdleDescentCrashes(padDraw: int, trig: Trig)
    requires ValidPadDraw(600, padDraw)
    ensures var r := Transition(Idle(Start(600, 400, padDraw), 88, trig, 600, 400), 0, trig, 600, 400);
            r.reward == CrashReward && r.done && r.next.crashed && !r.next.landed
  {
    FreeFall(600, 400, padDraw, 88, trig);
    FastDescentCrashes(Idle(Start(600, 400, padDraw), 88, trig, 600, 400), trig);
  }

  /** The environment object. Its fields are overwritten in place by `Reset`
      and `Step`; `State` packages them as a `Lander`. */
  class MoonLanderEnv {
    const inputSize: int := ObservationSize
    const outputSize: int := ActionCount
    const width: int
    const height: int

    var landerX: real
    var landerY: real
    var landerVelX: real
    var landerVelY: real
    var angle: real
    var angularVelocity: real
    var landingPadX: real
    var landingPadY: real
    var crashed: bool
    var landed: bool
    var legLContact: bool
    var legRContact: bool
    var frameIteration: int

    function State(): Lander
      reads this
    {
      Lander(landerX, landerY, landerVelX, landerVelY, angle, angularVelocity,
             landingPadX, landingPadY, legLContact, legRContact, crashed, landed,
             frameIteration)
    }

    ghost predicate Valid()
      reads this
    {
      ValidConfig(width, height) && Invariant(State(), width, height)
    }

    /** Builds the environment and resets it, which draws the first pad centre. */
    constructor (width: int, height: int, padDraw: int)
      requires ValidConfig(width, height) && ValidPadDraw(width, padDraw)
      ensures this.width == width && this.height == height
      ensures Valid() && State() == Start(width, height, padDraw)
    {
      this.width := width;
      this.height := height;
      new;
      var obs := Reset(padDraw);
    }

    /** The member-wise copy made when an environment is passed by value. */
    constructor CopyOf(other: MoonLanderEnv)
      ensures width == other.width && height == other.height
      ensures State() == other.State()
      ensures other.Valid() ==> Valid()
    {
      width := other.width;
      height := other.height;
      landerX := other.landerX;
      landerY := other.landerY;
      landerVelX := other.landerVelX;
      landerVelY := other.landerVelY;
      angle := other.angle;
      angularVelocity := other.angularVelocity;
      landingPadX := other.landingPadX;
      landingPadY := other.landingPadY;
      crashed := other.crashed;
      landed := other.landed;
      legLContact := other.legLContact;
      legRContact := other.legRContact;
      frameIteration := other.frameIteration;
    }

    method Reset(padDraw: int) returns (obs: seq<real>)
      requires ValidConfig(width, height) && ValidPadDraw(width, padDraw)
      modifies this
      ensures landerX == width as real / 2.0 && landerY == StartY
      ensures landerVelX == 0.0 && landerVelY == 0.0 && angle == 0.0 && angularVelocity == 0.0
      ensures landingPadX == padDraw as real && landingPadY == height as real - PadHeight
      ensures !crashed && !landed && !legLContact && !legRContact && frameIteration == 0
      ensures State() == Start(width, height, padDraw) && Valid()
      ensures obs == Observe(State(), width, height)
    {
      landerX := width as real / 2.0;
      landerY := StartY;
      landerVelX := 0.0;
      landerVelY := 0.0;
      angle := 0.0;
      angularVelocity := 0.0;
      landingPadX := padDraw as real;
      landingPadY := height as real - PadHeight;
      crashed := false;
      landed := false;
      legLContact := false;
      legRContact := false;
      frameIteration := 0;
      obs := Observe(State(), width, height);
    }

    method Step(action: int, trig: Trig) returns (obs: seq<real>, reward: real, done: bool)
      requires Valid()
      modifies this
      ensures Valid()
      ensures var r := Transition(old(State()), action, trig, width, height);
              State() == r.next && reward == r.reward && done == r.done
      ensures obs == Observe(State(), width, height)
    {
      ghost var before := State();
      ApplyAction(action, trig);
      MoveBody();
      TurnAndDamp();
      UpdateLegContacts(trig);
      reward, done := SettleReward();
      TransitionPreservesInvariant(before, action, trig, width, height);
      obs := Observe(State(), width, height);
    }

    /** Counts the frame, applies the action, then gravity. */
    method ApplyAction(action: int, trig: Trig)
      modifies this
      ensures State() == Accelerate(old(State()), action, trig)
    {
      frameIteration := frameIteration + 1;
      if action == 1 {
        landerVelY := landerVelY - Thrust * trig.cosDeg(angle);
        landerVelX := landerVelX + Thrust * trig.sinDeg(angle);
      } else if action == 2 {
        angularVelocity := angularVelocity + 2.0;
      } else if action == 3 {
        angularVelocity := angularVelocity - 2.0;
      }
      landerVelY := landerVelY + Gravity;
    }

    method MoveBody()
      modifies this
      ensures State() == Integrate(old(State()))
    {
      landerX := landerX + landerVelX;
      landerY := landerY + landerVelY;
    }

    /** Integrates and wraps the angle, then damps the angular velocity. */
    method TurnAndDamp()
      modifies this
      ensures State() == Rotate(old(State()))
    {
      angle := angle + angularVelocity;
      if angle >= 360.0 {
        angle := FMod360(angle);
      } else if angle < 0.0 {
        angle := 360.0 - FMod360(-angle);
      }
      angularVelocity := angularVelocity * Damping;
    }

    /** Clears both leg flags and sets each one whose foot has reached the pad
        line while its side of the lander lies over the pad. */
    method UpdateLegContacts(trig: Trig)
      modifies this
      ensures State() == Contacts(old(State()), trig)
    {
      var body := Rect(landerX - LanderWidth / 2.0, landerY - LanderHeight / 2.0, LanderWidth, LanderHeight);
      var pad := Rect(landingPadX - PadWidth / 2.0, landingPadY, PadWidth, PadHeight);

      legLContact := false;
      legRContact := false;

      var legLY := landerY + (LanderHeight / 2.0) * trig.cosDeg(angle) + (LanderWidth / 2.0) * trig.sinDeg(angle);
      var legRY := landerY + (LanderHeight / 2.0) * trig.cosDeg(angle) - (LanderWidth / 2.0) * trig.sinDeg(angle);

      if legLY >= landingPadY && body.left >= pad.left && body.left <= pad.left + pad.width {
        legLContact := true;
      }
      if legRY >= landingPadY && body.left + body.width >= pad.left
          && body.left + body.width <= pad.left + pad.width {
        legRContact := true;
      }
    }

    /** The reward rule: the floor branch, then the bounds check, which overrides it. */
    method SettleReward() returns (reward: real, done: bool)
      modifies this
      ensures var r := Settle(old(State()), width, height);
              State() == r.next && reward == r.reward && done == r.done
    {
      reward := TimePenalty;
      done := false;
      var body := Rect(landerX - LanderWidth / 2.0, landerY - LanderHeight / 2.0, LanderWidth, LanderHeight);
      var pad := Rect(landingPadX - PadWidth / 2.0, landingPadY, PadWidth, PadHeight);

      if landerY + LanderHeight >= height as real {
        if Intersects(body, pad) && legLContact && legRContact {
          if Abs(landerVelX) < 1.0 && Abs(landerVelY) < 2.0 && Abs(angle) < 10.0 {
            reward := LandReward;
            landed := true;
            done := true;
          } else {
            reward := CrashReward;
            crashed := true;
            done := true;
          }
        } else {
          reward := CrashReward;
          crashed := true;
          done := true;
        }
      }

      if landerX < 0.0 || landerX > width as real {
        reward := CrashReward;
        crashed := true;
        done := true;
      }
    }
  }
}
