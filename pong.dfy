/** The tabular Q-learning game: a paddle at the bottom of a 400 x 400 court
    and a ball that moves 5 units per axis per step, a five-coordinate state
    cut into 20 bins per coordinate, and the one-cell update of a
    20 x 20 x 20 x 20 x 20 x 2 table of action values. All positions and
    speeds are integers; the table holds reals. */
module Pong {
  const Alpha: real := 0.08
  const Gamma: real := 0.9
  const StepSize: int := 10
  const BallSpeed: int := 5
  const Width: int := 400
  const Height: int := 400
  const Steps: nat := 1000
  const NumBins: nat := 20
  const Actions: nat := 2
  // Half the paddle width (50 / 2).
  const HalfPaddle: int := 25
  const PaddleY: int := Height - 50

  function Abs(v: int): int { if v < 0 then -v else v }
  function MaxInt(a: int, b: int): int { if a < b then b else a }
  function MinInt(a: int, b: int): int { if a < b then a else b }

  /** The game state: paddle position, ball position, ball velocity. */
  datatype Court = Court(x: int, y: int, bobX: int, bobY: int, vx: int, vy: int)

  datatype StepResult = StepResult(next: Court, reward: int, done: bool)

  predicate Speeds(s: Court) {
    (s.vx == BallSpeed || s.vx == -BallSpeed) && (s.vy == BallSpeed || s.vy == -BallSpeed)
  }

  /** What holds from the first reset on: the paddle on its row inside the
      court, and the ball moving at 5 on each axis. */
  predicate Invariant(s: Court) {
    0 <= s.x <= Width && s.y == PaddleY && Speeds(s)
  }

  /** The observation: paddle x, ball position and ball velocity. */
  function Observation(s: Court): (obs: seq<int>)
    ensures |obs| == 5
  {
    [s.x, s.bobX, s.bobY, s.vx, s.vy]
  }

  /** A reset: the paddle at the drawn column on row 350, the ball at the drawn
      column on row 0; the velocity carries over. */
  function Start(s: Court, drawX: int, drawBobX: int): (r: Court)
    requires 0 <= drawX <= Width && 0 <= drawBobX <= Width
    ensures 0 <= r.x <= Width && r.y == PaddleY && 0 <= r.bobX <= Width && r.bobY == 0
    ensures r.x == drawX && r.bobX == drawBobX
    ensures r.vx == s.vx && r.vy == s.vy
    ensures Speeds(s) ==> Invariant(r)
  {
    Court(drawX, PaddleY, drawBobX, 0, s.vx, s.vy)
  }

  /** Action 0 moves the paddle 10 left, action 1 moves it 10 right, clamped
      to the court; any other action leaves it. */
  function MovePaddle(x: int, action: int): (r: int)
    ensures 0 <= x <= Width ==> 0 <= r <= Width && x - StepSize <= r <= x + StepSize
    ensures action == 0 ==> (x >= 0 ==> r <= x) && (x - StepSize >= 0 ==> r == x - StepSize)
    ensures action == 1 ==> (x <= Width ==> r >= x) && (x + StepSize <= Width ==> r == x + StepSize)
    ensures action == 0 && x < StepSize ==> r == 0
    ensures action == 1 && x > Width - StepSize ==> r == Width
    ensures action != 0 && action != 1 ==> r == x
  {
    if action == 0 then MaxInt(0, x - StepSize)
    else if action == 1 then MinInt(Width, x + StepSize)
    else x
  }

  /** The paddle meets the ball: within half a paddle across and within `dy`
      rows. */
  predicate Near(s: Court, dy: int) {
    Abs(s.bobX - s.x) < HalfPaddle && Abs(s.bobY - s.y) < dy
  }

  /** The paddle and ball positions after the move, before any reflection. */
  function Moved(s: Court, action: int): Court {
    s.(x := MovePaddle(s.x, action), bobX := s.bobX + s.vx, bobY := s.bobY + s.vy)
  }

  /** The three reflections, each tested on its own: a side wall flips the
      horizontal velocity, the top or bottom flips the vertical one, and the
      ball on the paddle row within half a paddle flips it again. */
  function Reflect(m: Court): (r: Court)
    ensures r.x == m.x && r.y == m.y && r.bobX == m.bobX && r.bobY == m.bobY
    ensures Abs(r.vx) == Abs(m.vx) && Abs(r.vy) == Abs(m.vy)
    ensures r.vx == (if m.bobX > Width || m.bobX < 0 then -m.vx else m.vx)
    ensures (m.bobY > Height || m.bobY < 0) == Near(m, 1) ==> r.vy == m.vy
    ensures (m.bobY > Height || m.bobY < 0) != Near(m, 1) ==> r.vy == -m.vy
  {
    var vx := if m.bobX > Width || m.bobX < 0 then -m.vx else m.vx;
    var vy := if m.bobY > Height || m.bobY < 0 then -m.vy else m.vy;
    var vy' := if Near(m, 1) then -vy else vy;
    m.(vx := vx, vy := vy')
  }

  /** The move: paddle, then ball by its velocity, then the reflections. */
  function Advance(s: Court, action: int): (r: Court)
    ensures r.x == MovePaddle(s.x, action) && r.y == s.y
    ensures r.bobX == s.bobX + s.vx && r.bobY == s.bobY + s.vy
    ensures Abs(r.vx) == Abs(s.vx) && Abs(r.vy) == Abs(s.vy)
  {
    Reflect(Moved(s, action))
  }

  /** +100 for the ball at the paddle, -100 for the ball more than 10 below the
      paddle row, 0 otherwise. */
  function GetReward(s: Court): (rew: int)
    ensures rew == 100 || rew == 0 || rew == -100
    ensures rew == 100 <==> Near(s, 5)
    ensures rew == -100 <==> s.bobY > s.y + 10
  {
    var hit := if Near(s, 5) then 100 else 0;
    if s.bobY > s.y + 10 then hit - 100 else hit
  }

  /** One step of the game: the move, the reward of the new state, and the end
      of the episode once the ball is below row 395. */
  function PongStep(s: Court, action: int): (r: StepResult)
    ensures r.next == Advance(s, action)
    ensures r.done <==> r.next.bobY > Width - 5
  {
    var next := Advance(s, action);
    StepResult(next, GetReward(next), next.bobY > Width - 5)
  }

  /** Each step keeps the paddle on its row inside the court and the ball at
      speed 5 on each axis. */
  lemma StepPreservesInvariant(s: Court, action: int)
    requires Invariant(s)
    ensures Invariant(PongStep(s, action).next)
  {
  }

  /** The game object; `ready` records that `Reset` has placed the paddle and
      the ball (before it they are unset). */
  class MyEnv {
    var x: int
    var y: int
    var bobX: int
    var bobY: int
    var vx: int
    var vy: int
    ghost var ready: bool

    function State(): Court
      reads this
    {
      Court(x, y, bobX, bobY, vx, vy)
    }

    ghost predicate Valid()
      reads this
    {
      Speeds(State()) && (ready ==> Invariant(State()))
    }

    constructor ()
      ensures vx == BallSpeed && vy == BallSpeed && !ready && Valid()
    {
      vx, vy := BallSpeed, BallSpeed;
      ready := false;
    }

    method Reset(drawX: int, drawBobX: int) returns (obs: seq<int>)
      requires Valid() && 0 <= drawX <= Width && 0 <= drawBobX <= Width
      modifies this
      ensures State() == Start(old(State()), drawX, drawBobX)
      ensures ready && Valid()
      ensures obs == Observation(State())
    {
      x, y := drawX, Height - 50;
      bobX, bobY := drawBobX, 0;
      ready := true;
      obs := [x, bobX, bobY, vx, vy];
    }

    method Step(action: int) returns (newState: seq<int>, reward: int, done: bool)
      requires ready && Valid()
      modifies this
      ensures ready && Valid()
      ensures var r := PongStep(old(State()), action);
        State() == r.next && reward == r.reward && done == r.done
      ensures newState == Observation(State())
    {
      ghost var before := State();
      ApplyAction(action);
      MoveBall();
      newState := [x, bobX, bobY, vx, vy];
      reward := GetReward(State());
      done := bobY > Width - 5;
      StepPreservesInvariant(before, action);
    }

    /** Moves the paddle by the action. */
    method ApplyAction(action: int)
      modifies this
      ensures State() == old(State()).(x := MovePaddle(old(x), action))
      ensures ready == old(ready)
    {
      if action == 0 {
        x := MaxInt(0, x - StepSize);
      } else if action == 1 {
        x := MinInt(Width, x + StepSize);
      }
    }

    /** Moves the ball by its velocity and applies the reflections. */
    method MoveBall()
      modifies this
      ensures State() == Reflect(old(State()).(bobX := old(bobX + vx), bobY := old(bobY + vy)))
      ensures ready == old(ready)
    {
      bobX := bobX + vx;
      bobY := bobY + vy;
      if bobX > Width || bobX < 0 {
        vx := -vx;
      }
      if bobY > Height || bobY < 0 {
        vy := -vy;
      }
      if Abs(bobX - x) < HalfPaddle && Abs(bobY - y) < 1 {
        vy := -vy;
      }
    }
  }

  // ----------------------------------------------------------- discretisation

  predicate Ascending(xs: seq<real>) {
    forall i, j :: 0 <= i <= j < |xs| ==> xs[i] <= xs[j]
  }

  lemma ScaleMonotone(i: nat, j: nat, d: real, n: real)
    requires i <= j && d >= 0.0 && n > 0.0
    ensures i as real * d / n <= j as real * d / n
  {
    assert i as real * d <= j as real * d;
  }

  /** Point k of `num` evenly spaced points from `start` to `stop`. */
  function LinPoint(start: real, stop: real, num: nat, k: nat): (r: real)
    requires num >= 2
    ensures k == 0 ==> r == start
    ensures k == num - 1 ==> r == stop
  {
    assert k == num - 1 ==> k as real * (stop - start) / (num - 1) as real == stop - start;
    start + k as real * (stop - start) / (num - 1) as real
  }

  /** `num` evenly spaced points from `start` to `stop`, both included. */
  function Linspace(start: real, stop: real, num: nat): (r: seq<real>)
    ensures |r| == num
    ensures num >= 1 ==> r[0] == start
    ensures num >= 2 ==> r[num - 1] == stop
  {
    if num == 1 then [start]
    else if num == 0 then []
    else seq(num, k requires 0 <= k < num => LinPoint(start, stop, num, k))
  }

  lemma LinPointMonotone(start: real, stop: real, num: nat, i: nat, j: nat)
    requires num >= 2 && start <= stop && i <= j
    ensures LinPoint(start, stop, num, i) <= LinPoint(start, stop, num, j)
  {
    var d, n := stop - start, (num - 1) as real;
    ScaleMonotone(i, j, d, n);
    assert LinPoint(start, stop, num, i) == start + i as real * d / n;
    assert LinPoint(start, stop, num, j) == start + j as real * d / n;
  }

  /** With start <= stop the points ascend. */
  lemma LinspaceAscending(start: real, stop: real, num: nat)
    requires start <= stop
    ensures Ascending(Linspace(start, stop, num))
  {
    var r := Linspace(start, stop, num);
    forall i, j | 0 <= i <= j < num
      ensures r[i] <= r[j]
    {
      if num > 1 {
        LinPointMonotone(start, stop, num, i, j);
      }
    }
  }

  /** The bin edges of every coordinate: 19 points from 0 to 400, giving 20
      bins. */
  function CreateBins(): (bins: seq<seq<real>>)
    ensures |bins| == 5
    ensures forall c :: 0 <= c < 5 ==> |bins[c]| == NumBins - 1 && bins[c][0] == 0.0 && bins[c][NumBins - 2] == 400.0
  {
    var xBins := Linspace(0.0, Width as real, NumBins - 1);
    var bobXBins := Linspace(0.0, Width as real, NumBins - 1);
    var bobYBins := Linspace(0.0, Height as real, NumBins - 1);
    var vxBins := Linspace(0.0, Width as real, NumBins - 1);
    var vyBins := Linspace(0.0, Height as real, NumBins - 1);
    [xBins, bobXBins, bobYBins, vxBins, vyBins]
  }

  lemma BinsAscending()
    ensures forall c :: 0 <= c < 5 ==> Ascending(CreateBins()[c])
  {
    LinspaceAscending(0.0, 400.0, NumBins - 1);
  }

  /** The bin of `v`: the number of edges at or below it. */
  function Digitize(v: real, bins: seq<real>): (i: nat)
    ensures i <= |bins|
  {
    if bins == [] then 0
    else Digitize(v, bins[..|bins| - 1]) + if bins[|bins| - 1] <= v then 1 else 0
  }

  /** Over ascending edges the bin index i is the one with
      bins[i-1] <= v < bins[i] (a missing edge bounds nothing). */
  lemma {:induction false} DigitizeBrackets(v: real, bins: seq<real>)
    requires Ascending(bins)
    ensures var i := Digitize(v, bins);
      (i == 0 || bins[i - 1] <= v) && (i == |bins| || v < bins[i])
  {
    if bins != [] {
      var init := bins[..|bins| - 1];
      assert Ascending(init);
      DigitizeBrackets(v, init);
      var i := Digitize(v, init);
      assert i < |init| ==> init[i] <= bins[|bins| - 1];
    }
  }

  /** A larger value never falls in a lower bin. */
  lemma {:induction false} DigitizeMonotone(v: real, w: real, bins: seq<real>)
    requires v <= w
    ensures Digitize(v, bins) <= Digitize(w, bins)
  {
    if bins != [] {
      DigitizeMonotone(v, w, bins[..|bins| - 1]);
    }
  }

  /** A cell of the table: one bin index per coordinate. */
  datatype Cell = Cell(x: int, bobX: int, bobY: int, vx: int, vy: int)

  predicate InTable(c: Cell) {
    && 0 <= c.x < NumBins && 0 <= c.bobX < NumBins && 0 <= c.bobY < NumBins
    && 0 <= c.vx < NumBins && 0 <= c.vy < NumBins
  }

  /** Clamps a bin index into [0, 19], leaving indices already there alone. */
  function ClampBin(i: int): (r: int)
    ensures 0 <= r < NumBins
    ensures 0 <= i < NumBins ==> r == i
    ensures i < 0 ==> r == 0
    ensures i >= NumBins ==> r == NumBins - 1
  {
    MinInt(MaxInt(i, 0), NumBins - 1)
  }

  /** The cell of an observation: each coordinate digitised against its edges
      and clamped to [0, 19]. */
  function DiscretizeState(state: seq<int>): (c: Cell)
    requires |state| == 5
    ensures InTable(c)
  {
    var bins := CreateBins();
    Cell(ClampBin(Digitize(state[0] as real, bins[0])),
         ClampBin(Digitize(state[1] as real, bins[1])),
         ClampBin(Digitize(state[2] as real, bins[2])),
         ClampBin(Digitize(state[3] as real, bins[3])),
         ClampBin(Digitize(state[4] as real, bins[4])))
  }

  /** The clamp never changes a digitised index: 19 edges give at most 19. */
  lemma ClampIsIdentity(state: seq<int>)
    requires |state| == 5
    ensures var c := DiscretizeState(state);
      var bins := CreateBins();
      c.x == Digitize(state[0] as real, bins[0]) && c.bobX == Digitize(state[1] as real, bins[1]) &&
      c.bobY == Digitize(state[2] as real, bins[2]) && c.vx == Digitize(state[3] as real, bins[3]) &&
      c.vy == Digitize(state[4] as real, bins[4])
  {
  }

  /** Each index grows with its coordinate. */
  lemma DiscretizeMonotone(state: seq<int>, other: seq<int>)
    requires |state| == 5 && |other| == 5
    requires forall k :: 0 <= k < 5 ==> state[k] <= other[k]
    ensures var c, d := DiscretizeState(state), DiscretizeState(other);
      c.x <= d.x && c.bobX <= d.bobX && c.bobY <= d.bobY && c.vx <= d.vx && c.vy <= d.vy
  {
    var bins := CreateBins();
    DigitizeMonotone(state[0] as real, other[0] as real, bins[0]);
    DigitizeMonotone(state[1] as real, other[1] as real, bins[1]);
    DigitizeMonotone(state[2] as real, other[2] as real, bins[2]);
    DigitizeMonotone(state[3] as real, other[3] as real, bins[3]);
    DigitizeMonotone(state[4] as real, other[4] as real, bins[4]);
  }

  // ---------------------------------------------------------------- Q-update

  predicate TableShape(q: array6<real>) {
    && q.Length0 == NumBins && q.Length1 == NumBins && q.Length2 == NumBins
    && q.Length3 == NumBins && q.Length4 == NumBins && q.Length5 == Actions
  }

  function MaxReal(a: real, b: real): real { if a < b then b else a }

  /** The learning step: move the current value a fraction Alpha toward the
      reward plus the discounted best value of the next cell. */
  function Learned(current: real, reward: real, maxFuture: real): (r: real)
    ensures r == (1.0 - Alpha) * current + Alpha * (reward + Gamma * maxFuture)
  {
    current + Alpha * (reward + Gamma * maxFuture - current)
  }

  /** Rewards are within 100, so values within 1000 = 100 / (1 - 0.9) stay
      within 1000. */
  lemma LearnedWithinBound(current: real, reward: real, maxFuture: real)
    requires -1000.0 <= current <= 1000.0 && -1000.0 <= maxFuture <= 1000.0
    requires -100.0 <= reward <= 100.0
    ensures -1000.0 <= Learned(current, reward, maxFuture) <= 1000.0
  {
  }

  /** A learned value lies between the current value and the target. */
  lemma LearnedBetween(current: real, reward: real, maxFuture: real)
    ensures var target := reward + Gamma * maxFuture;
      var r := Learned(current, reward, maxFuture);
      (current <= target ==> current <= r <= target) && (target <= current ==> target <= r <= current)
  {
  }

  /** Every value of the table lies within 1000 of zero. */
  ghost predicate Bounded(q: array6<real>)
    reads q
  {
    forall a, b, c, d, e, f ::
      0 <= a < q.Length0 && 0 <= b < q.Length1 && 0 <= c < q.Length2 && 0 <= d < q.Length3 &&
      0 <= e < q.Length4 && 0 <= f < q.Length5 ==>
        -1000.0 <= q[a, b, c, d, e, f] <= 1000.0
  }

  /** The table as a value: one action value per cell and action. */
  type Values = imap<(Cell, int), real>

  /** Holds a value for every cell of the table and both actions. */
  ghost predicate Full(t: Values) {
    forall k: (Cell, int) :: InTable(k.0) && 0 <= k.1 < Actions ==> k in t
  }

  /** The values the table holds now. */
  ghost function Snapshot(q: array6<real>): (t: Values)
    requires TableShape(q)
    reads q
    ensures Full(t)
  {
    imap k: (Cell, int) | InTable(k.0) && 0 <= k.1 < Actions :: q[k.0.x, k.0.bobX, k.0.bobY, k.0.vx, k.0.vy, k.1]
  }

  /** The values after the update of `action` in cell `c` for a step to cell
      `next` with `reward`: that one value is learned, from the values before. */
  ghost function Update(t: Values, c: Cell, action: int, reward: int, next: Cell): (r: Values)
    requires Full(t) && InTable(c) && InTable(next) && 0 <= action < Actions
    ensures Full(r)
  {
    t[(c, action) := Learned(t[(c, action)], reward as real, MaxReal(t[(next, 0)], t[(next, 1)]))]
  }

  /** Updates the value of `action` in cell `s` after a step to cell `next`
      with `reward`; no other cell changes. */
  method QUpdate(q: array6<real>, s: Cell, action: int, reward: int, next: Cell)
    requires TableShape(q) && InTable(s) && InTable(next) && 0 <= action < Actions
    modifies q
    ensures -100 <= reward <= 100 && old(Bounded(q)) ==> Bounded(q)
    ensures q[s.x, s.bobX, s.bobY, s.vx, s.vy, action] ==
            Learned(old(q[s.x, s.bobX, s.bobY, s.vx, s.vy, action]), reward as real,
                    MaxReal(old(q[next.x, next.bobX, next.bobY, next.vx, next.vy, 0]),
                            old(q[next.x, next.bobX, next.bobY, next.vx, next.vy, 1])))
    ensures forall a, b, c, d, e, f ::
              0 <= a < NumBins && 0 <= b < NumBins && 0 <= c < NumBins && 0 <= d < NumBins &&
              0 <= e < NumBins && 0 <= f < Actions &&
              (a, b, c, d, e, f) != (s.x, s.bobX, s.bobY, s.vx, s.vy, action) ==>
                q[a, b, c, d, e, f] == old(q[a, b, c, d, e, f])
    ensures Snapshot(q) == Update(old(Snapshot(q)), s, action, reward, next)
  {
    var maxFutureQ := MaxReal(q[next.x, next.bobX, next.bobY, next.vx, next.vy, 0],
                              q[next.x, next.bobX, next.bobY, next.vx, next.vy, 1]);
    var currentQ := q[s.x, s.bobX, s.bobY, s.vx, s.vy, action];
    if -100 <= reward <= 100 && Bounded(q) {
      LearnedWithinBound(currentQ, reward as real, maxFutureQ);
    }
    q[s.x, s.bobX, s.bobY, s.vx, s.vy, action] := currentQ + Alpha * (reward as real + Gamma * maxFutureQ - currentQ);
  }

  // ---------------------------------------------------------------- episodes

  /** The rewards summed over at most `budget` steps from `s`, the action of
      step k being `actions(k)`; the episode stops at the step that ends it. */
  function EpisodeRewards(s: Court, actions: nat -> int, k: nat, budget: nat): (sum: int)
    ensures budget == 0 ==> sum == 0
    ensures budget > 0 && PongStep(s, actions(k)).done ==> sum == PongStep(s, actions(k)).reward
    decreases budget
  {
    if budget == 0 then 0
    else
      var r := PongStep(s, actions(k));
      r.reward + if r.done then 0 else EpisodeRewards(r.next, actions, k + 1, budget - 1)
  }

  lemma EpisodeRewardsStep(s: Court, actions: nat -> int, k: nat, budget: nat)
    requires budget > 0
    ensures var r := PongStep(s, actions(k));
      EpisodeRewards(s, actions, k, budget) ==
        r.reward + if r.done then 0 else EpisodeRewards(r.next, actions, k + 1, budget - 1)
  {
  }

  /** Each step earns at most 100 and loses at most 100. */
  lemma {:induction false} EpisodeRewardsBounds(s: Court, actions: nat -> int, k: nat, budget: nat)
    ensures -100 * budget <= EpisodeRewards(s, actions, k, budget) <= 100 * budget
    decreases budget
  {
    if budget > 0 {
      var r := PongStep(s, actions(k));
      if !r.done {
        EpisodeRewardsBounds(r.next, actions, k + 1, budget - 1);
      }
    }
  }

  /** The values of the table after an episode from `s` with `budget` steps
      left, each step updating the cell it left; `t` holds the values before. */
  ghost function Trained(t: Values, s: Court, actions: nat -> int, k: nat, budget: nat): (r: Values)
    requires Full(t) && forall j: nat :: 0 <= actions(j) < Actions
    ensures Full(r)
    ensures budget == 0 ==> r == t
    decreases budget
  {
    if budget == 0 then t
    else
      var step := PongStep(s, actions(k));
      var u := Update(t, DiscretizeState(Observation(s)), actions(k), step.reward,
                      DiscretizeState(Observation(step.next)));
      if step.done then u else Trained(u, step.next, actions, k + 1, budget - 1)
  }

  lemma TrainedStep(t: Values, s: Court, actions: nat -> int, k: nat, budget: nat)
    requires Full(t) && forall j: nat :: 0 <= actions(j) < Actions
    requires budget > 0
    ensures var step := PongStep(s, actions(k));
      var u := Update(t, DiscretizeState(Observation(s)), actions(k), step.reward,
                      DiscretizeState(Observation(step.next)));
      Trained(t, s, actions, k, budget) == if step.done then u else Trained(u, step.next, actions, k + 1, budget - 1)
  {
  }

  /** Every value lies within 1000 of zero. */
  ghost predicate WithinBound(t: Values) {
    forall k :: k in t ==> -1000.0 <= t[k] <= 1000.0
  }

  /** An episode keeps the values of a table within 1000 of zero: every reward
      is within 100 and the discount is 0.9. */
  lemma {:induction false} TrainedWithinBound(t: Values, s: Court, actions: nat -> int, k: nat, budget: nat)
    requires Full(t) && forall j: nat :: 0 <= actions(j) < Actions
    requires WithinBound(t)
    ensures WithinBound(Trained(t, s, actions, k, budget))
    decreases budget
  {
    if budget > 0 {
      var step := PongStep(s, actions(k));
      var c, n := DiscretizeState(Observation(s)), DiscretizeState(Observation(step.next));
      LearnedWithinBound(t[(c, actions(k))], step.reward as real, MaxReal(t[(n, 0)], t[(n, 1)]));
      var u := Update(t, c, actions(k), step.reward, n);
      assert WithinBound(u);
      if !step.done {
        TrainedWithinBound(u, step.next, actions, k + 1, budget - 1);
      }
    }
  }

  /** The court at the end of an episode from `s` with `budget` steps left. */
  function LastCourt(s: Court, actions: nat -> int, k: nat, budget: nat): (r: Court)
    ensures budget == 0 ==> r == s
    ensures budget > 0 && PongStep(s, actions(k)).done ==> r == PongStep(s, actions(k)).next
    decreases budget
  {
    if budget == 0 then s
    else
      var step := PongStep(s, actions(k));
      if step.done then step.next else LastCourt(step.next, actions, k + 1, budget - 1)
  }

  /** The court an episode ends in still has the ball at speed 5 on each axis,
      which the next reset carries over, and the paddle inside the court. */
  lemma {:induction false} LastCourtKeepsInvariant(s: Court, actions: nat -> int, k: nat, budget: nat)
    requires Invariant(s)
    ensures Invariant(LastCourt(s, actions, k, budget))
    decreases budget
  {
    if budget > 0 {
      StepPreservesInvariant(s, actions(k));
      var step := PongStep(s, actions(k));
      if !step.done {
        LastCourtKeepsInvariant(step.next, actions, k + 1, budget - 1);
      }
    }
  }

  /** One training episode: a reset, then up to 999 steps, each followed by
      the update of the table at the cell it left. `actions(k)` is the action
      chosen at step k. Returns the rewards summed over the episode. */
  method TrainEpisode(env: MyEnv, q: array6<real>, drawX: int, drawBobX: int, actions: nat -> int)
    returns (totalRewards: int)
    requires env.Valid() && TableShape(q)
    requires 0 <= drawX <= Width && 0 <= drawBobX <= Width
    requires forall k: nat :: 0 <= actions(k) < Actions
    modifies env, q
    ensures env.Valid() && env.ready
    ensures totalRewards == EpisodeRewards(Start(old(env.State()), drawX, drawBobX), actions, 0, Steps - 1)
    ensures env.State() == LastCourt(Start(old(env.State()), drawX, drawBobX), actions, 0, Steps - 1)
    ensures Snapshot(q) == Trained(old(Snapshot(q)), Start(old(env.State()), drawX, drawBobX), actions, 0, Steps - 1)
    ensures old(Bounded(q)) ==> Bounded(q)
  {
    ghost var before := Snapshot(q);
    var step: nat := 1;
    var state := env.Reset(drawX, drawBobX);
    ghost var start := env.State();
    var discreteState := DiscretizeState(state);
    totalRewards := 0;
    var done := false;
    while !done && step < Steps
      invariant 1 <= step <= Steps
      invariant env.Valid() && env.ready
      invariant discreteState == DiscretizeState(Observation(env.State()))
      invariant totalRewards + (if done then 0 else EpisodeRewards(env.State(), actions, step - 1, Steps - step))
                == EpisodeRewards(start, actions, 0, Steps - 1)
      invariant LastCourt(start, actions, 0, Steps - 1) ==
                if done then env.State() else LastCourt(env.State(), actions, step - 1, Steps - step)
      invariant Trained(before, start, actions, 0, Steps - 1) ==
                if done then Snapshot(q) else Trained(Snapshot(q), env.State(), actions, step - 1, Steps - step)
      invariant old(Bounded(q)) ==> Bounded(q)
      decreases Steps - step
    {
      ghost var s := env.State();
      ghost var values := Snapshot(q);
      step := step + 1;
      var reward;
      discreteState, reward, done := TrainStep(env, q, discreteState, actions(step - 2));
      TrainedStep(values, s, actions, step - 2, Steps - step + 1);
      EpisodeRewardsStep(s, actions, step - 2, Steps - step + 1);
      assert EpisodeRewards(s, actions, step - 2, Steps - step + 1) ==
             reward + if done then 0 else EpisodeRewards(env.State(), actions, step - 1, Steps - step);
      totalRewards := totalRewards + reward;
    }
  }

  /** One step of an episode: the move, then the update of the table at the
      cell the step left. */
  method TrainStep(env: MyEnv, q: array6<real>, discreteState: Cell, action: int)
    returns (newDiscreteState: Cell, reward: int, done: bool)
    requires env.Valid() && env.ready && TableShape(q) && 0 <= action < Actions
    requires discreteState == DiscretizeState(Observation(env.State()))
    modifies env, q
    ensures env.Valid() && env.ready
    ensures var r := PongStep(old(env.State()), action);
      env.State() == r.next && reward == r.reward && done == r.done
    ensures newDiscreteState == DiscretizeState(Observation(env.State()))
    ensures q[discreteState.x, discreteState.bobX, discreteState.bobY, discreteState.vx, discreteState.vy, action] ==
            Learned(old(q[discreteState.x, discreteState.bobX, discreteState.bobY, discreteState.vx, discreteState.vy, action]),
                    reward as real,
                    MaxReal(old(q[newDiscreteState.x, newDiscreteState.bobX, newDiscreteState.bobY, newDiscreteState.vx, newDiscreteState.vy, 0]),
                            old(q[newDiscreteState.x, newDiscreteState.bobX, newDiscreteState.bobY, newDiscreteState.vx, newDiscreteState.vy, 1])))
    ensures forall a, b, c, d, e, f ::
              0 <= a < NumBins && 0 <= b < NumBins && 0 <= c < NumBins && 0 <= d < NumBins &&
              0 <= e < NumBins && 0 <= f < Actions &&
              (a, b, c, d, e, f) != (discreteState.x, discreteState.bobX, discreteState.bobY, discreteState.vx, discreteState.vy, action) ==>
                q[a, b, c, d, e, f] == old(q[a, b, c, d, e, f])
    ensures Snapshot(q) == Update(old(Snapshot(q)), discreteState, action, reward, newDiscreteState)
    ensures old(Bounded(q)) ==> Bounded(q)
  {
    var nextState;
    nextState, reward, done := env.Step(action);
    newDiscreteState := DiscretizeState(nextState);
    QUpdate(q, discreteState, action, reward, newDiscreteState);
  }
}
