/** The snake mini-game shown while a reply loads: a row of dots that starts
    moving on the first arrow key, steers with the arrow keys, and grows by
    one dot each time its head reaches the target. Screen coordinates are
    whole pixels; the layout-based start positions and the random draws are
    parameters. */
module SnakeGame {
  import opened Text

  const GridSize := 20
  const DotSize := 12

  datatype Position = Position(x: int, y: int)

  function Abs(n: int): nat {
    if n < 0 then -n else n
  }

  // ---------------------------------------------------------------------------
  // Start positions

  /** `getDefaultPositions`: the dots in a row, one grid step apart. */
  function DefaultPositions(numDots: nat): (ps: seq<Position>)
    ensures |ps| == numDots
  {
    seq(numDots, i requires 0 <= i < numDots => Position((numDots - 1 - i) * GridSize, 0))
  }

  /** The default row starts at the origin, lies on the top line, and runs
      leftwards from the head (index 0) one grid step per dot. */
  lemma DefaultRowLayout(numDots: nat)
    ensures var ps := DefaultPositions(numDots);
            (numDots > 0 ==> ps[numDots - 1] == Position(0, 0)) &&
            (forall i :: 0 <= i < numDots ==> ps[i].y == 0 && ps[i].x % GridSize == 0) &&
            (forall i :: 0 <= i < numDots - 1 ==> ps[i].x == ps[i + 1].x + GridSize)
  {
  }

  // ---------------------------------------------------------------------------
  // Targets

  /** `Math.round(x / GRID_SIZE) * GRID_SIZE` for a non-negative whole `x`
      (halves round up). */
  function Snap(x: nat): (r: nat)
    ensures r % GridSize == 0
  {
    ((x + GridSize / 2) / GridSize) * GridSize
  }

  /** The snapped value is the nearest grid line; a tie goes to the upper
      one. */
  lemma SnapIsNearest(x: nat, m: int)
    requires m % GridSize == 0
    ensures x - GridSize / 2 < Snap(x) <= x + GridSize / 2
    ensures Abs(x - Snap(x)) <= Abs(x - m)
  {
    var q := (x + GridSize / 2) / GridSize;
    assert q * GridSize <= x + GridSize / 2 < q * GridSize + GridSize;
    var k := m / GridSize;
    assert m == k * GridSize;
    if k >= q + 1 {
      assert m >= q * GridSize + GridSize;
    } else if k <= q - 1 {
      assert m <= q * GridSize - GridSize;
    }
  }

  /** `generateRandomTarget` as written, from the two floored draws
      `Math.floor(Math.random() * width)` and `... * height`. */
  function RandomTarget(drawX: nat, drawY: nat): (t: Position)
    ensures t.x % GridSize == 0 && t.y % GridSize == 0
  {
    Position(Snap(drawX), Snap(drawY))
  }

  /** The target dot lies wholly on a screen of the given size. */
  predicate OnScreen(t: Position, width: nat, height: nat) {
    0 <= t.x && t.x + DotSize <= width && 0 <= t.y && t.y + DotSize <= height
  }

  /** As written, a draw near the right edge snaps past it: on a screen
      1000 pixels wide the draw 999 snaps to 1000, so the target dot lies
      off the screen and the bounds check of the component throws. */
  lemma TargetCanLeaveScreen()
    ensures 999 < 1000 && !OnScreen(RandomTarget(999, 0), 1000, 800)
  {
  }

  /** One coordinate of the corrected target: the snapped draw when its dot
      fits, the last grid line whose dot fits otherwise. */
  function SnapWithin(draw: nat, size: nat): (r: nat)
    ensures r % GridSize == 0
    ensures size >= DotSize ==> r + DotSize <= size
  {
    if Snap(draw) + DotSize <= size then Snap(draw)
    else if size >= DotSize then ((size - DotSize) / GridSize) * GridSize
    else 0
  }

  /** The target the game uses: on the grid and, whenever the screen is at
      least one dot wide and high, wholly on the screen. */
  function Target(drawX: nat, drawY: nat, width: nat, height: nat): (t: Position)
    ensures t.x % GridSize == 0 && t.y % GridSize == 0
    ensures width >= DotSize && height >= DotSize ==> OnScreen(t, width, height)
  {
    Position(SnapWithin(drawX, width), SnapWithin(drawY, height))
  }

  /** The correction changes nothing when the written target fits. */
  lemma TargetAgreesWhenOnScreen(drawX: nat, drawY: nat, width: nat, height: nat)
    requires OnScreen(RandomTarget(drawX, drawY), width, height)
    ensures Target(drawX, drawY, width, height) == RandomTarget(drawX, drawY)
  {
  }

  // ---------------------------------------------------------------------------
  // Collision and steering

  /** `checkCollision`: the centres are at most one dot size apart on both
      axes. */
  predicate Collides(head: Position, target: Position) {
    Abs(head.x - target.x) <= DotSize && Abs(head.y - target.y) <= DotSize
  }

  /** A hit is a hit from either side, and a head exactly on the target
      hits it. */
  lemma CollisionSymmetric(a: Position, b: Position)
    ensures Collides(a, b) <==> Collides(b, a)
    ensures Collides(a, a)
  {
  }

  predicate IsUnit(d: Position) {
    d in {Position(0, -1), Position(0, 1), Position(-1, 0), Position(1, 0)}
  }

  predicate IsArrowKey(key: string) {
    key == "ArrowUp" || key == "ArrowDown" || key == "ArrowLeft" || key == "ArrowRight"
  }

  /** The keydown handler's `switch`: an arrow key turns to its direction
      unless the snake is heading the opposite way. */
  function Turn(d: Position, key: string): Position {
    if key == "ArrowUp" then (if d.y != 1 then Position(0, -1) else d)
    else if key == "ArrowDown" then (if d.y != -1 then Position(0, 1) else d)
    else if key == "ArrowLeft" then (if d.x != 1 then Position(-1, 0) else d)
    else if key == "ArrowRight" then (if d.x != -1 then Position(1, 0) else d)
    else d
  }

  /** A key press never turns the snake back on itself, keeps it moving
      along one axis at one step, and changes nothing for other keys. */
  lemma TurnNeverReverses(d: Position, key: string)
    requires IsUnit(d)
    ensures IsUnit(Turn(d, key))
    ensures Turn(d, key) != Position(-d.x, -d.y)
    ensures !IsArrowKey(key) ==> Turn(d, key) == d
    ensures key == "ArrowUp" && d != Position(0, 1) ==> Turn(d, key) == Position(0, -1)
    ensures key == "ArrowDown" && d != Position(0, -1) ==> Turn(d, key) == Position(0, 1)
    ensures key == "ArrowLeft" && d != Position(1, 0) ==> Turn(d, key) == Position(-1, 0)
    ensures key == "ArrowRight" && d != Position(-1, 0) ==> Turn(d, key) == Position(1, 0)
  {
  }

  // ---------------------------------------------------------------------------
  // Moving

  function Advance(p: Position, d: Position): Position {
    Position(p.x + d.x * GridSize, p.y + d.y * GridSize)
  }

  /** One step without growth: a new head, and every other dot takes the
      place of the dot in front of it. */
  function Stepped(ps: seq<Position>, d: Position): seq<Position>
    requires |ps| > 0
  {
    [Advance(ps[0], d)] + ps[..|ps| - 1]
  }

  /** Without growth the tail's old place is given up; with growth (the
      old tail pushed back on) the snake is its old self with a new head in
      front. */
  lemma StepShapes(ps: seq<Position>, d: Position)
    requires |ps| > 0
    ensures |Stepped(ps, d)| == |ps|
    ensures Stepped(ps, d)[1..] == ps[..|ps| - 1]
    ensures Stepped(ps, d) + [ps[|ps| - 1]] == [Advance(ps[0], d)] + ps
  {
    assert ps[..|ps| - 1] + [ps[|ps| - 1]] == ps;
  }

  /** The copy and the backward loop of `updatePositions`: each body dot
      takes the position of the dot in front of it, then the head moves. */
  method MoveBody(ps: seq<Position>, newHead: Position) returns (r: seq<Position>)
    requires |ps| > 0
    ensures r == [newHead] + ps[..|ps| - 1]
  {
    var n := |ps|;
    var newPositions := new Position[n](i requires 0 <= i < n => ps[i]);
    var i := n - 1;
    while i > 0
      invariant 0 <= i < n
      invariant forall k {:trigger newPositions[k]} :: 0 <= k <= i ==> newPositions[k] == ps[k]
      invariant forall k {:trigger newPositions[k]} :: i < k < n ==> newPositions[k] == ps[k - 1]
    {
      newPositions[i] := newPositions[i - 1];
      i := i - 1;
    }
    newPositions[0] := newHead;
    r := newPositions[..];
    assert forall k :: 0 <= k < n ==> r[k] == ([newHead] + ps[..n - 1])[k];
  }

  class Snake {
    var numDots: nat
    var direction: Position
    var hasGameStarted: bool
    var target: Option<Position>
    var positions: seq<Position>
    var screenWidth: nat
    var screenHeight: nat

    /** One dot per counted dot, a direction of one step along an axis, and
        a target on the grid exactly once the game has started. */
    predicate Valid()
      reads this
    {
      numDots >= 1 && |positions| == numDots && IsUnit(direction) &&
      (hasGameStarted <==> target.Some?) &&
      (target.Some? ==> target.value.x % GridSize == 0 && target.value.y % GridSize == 0)
    }

    constructor (initialDotCount: nat, width: nat, height: nat)
      requires initialDotCount >= 1
      ensures Valid()
      ensures numDots == initialDotCount && positions == DefaultPositions(initialDotCount)
      ensures direction == Position(-1, 0) && !hasGameStarted && target == None
      ensures screenWidth == width && screenHeight == height
    {
      numDots := initialDotCount;
      direction := Position(-1, 0);
      hasGameStarted := false;
      target := None;
      positions := DefaultPositions(initialDotCount);
      screenWidth := width;
      screenHeight := height;
    }

    /** The resize handler. */
    method Resize(width: nat, height: nat)
      modifies this
      requires Valid()
      ensures Valid()
      ensures screenWidth == width && screenHeight == height
      ensures numDots == old(numDots) && direction == old(direction) && hasGameStarted == old(hasGameStarted)
      ensures target == old(target) && positions == old(positions)
    {
      screenWidth := width;
      screenHeight := height;
    }

    /** The keydown handler. Other keys are ignored. The first arrow key
        places the dots at their laid-out positions, starts the game and
        draws the first target; every arrow key then steers. */
    method KeyDown(key: string, laidOut: seq<Position>, drawX: nat, drawY: nat)
      modifies this
      requires Valid() && |laidOut| == numDots
      ensures Valid()
      ensures !IsArrowKey(key) ==>
                direction == old(direction) && hasGameStarted == old(hasGameStarted) &&
                target == old(target) && positions == old(positions)
      ensures IsArrowKey(key) ==> hasGameStarted && direction == Turn(old(direction), key)
      ensures IsArrowKey(key) && !old(hasGameStarted) ==>
                positions == laidOut && target == Some(Target(drawX, drawY, screenWidth, screenHeight))
      ensures old(hasGameStarted) ==> target == old(target) && positions == old(positions)
      ensures numDots == old(numDots) && screenWidth == old(screenWidth) && screenHeight == old(screenHeight)
    {
      if !IsArrowKey(key) {
        return;
      }
      if !hasGameStarted {
        positions := laidOut;
        hasGameStarted := true;
        target := Some(Target(drawX, drawY, screenWidth, screenHeight));
      }
      TurnNeverReverses(direction, key);
      direction := Turn(direction, key);
    }

    /** `updatePositions`, run on every tick: nothing before the game has
        started; otherwise the snake steps, and when the new head hits the
        target the old tail position is pushed back on, the dot count goes
        up and a new target is drawn. */
    method UpdatePositions(drawX: nat, drawY: nat)
      modifies this
      requires Valid()
      ensures Valid()
      ensures !old(hasGameStarted) ==>
                numDots == old(numDots) && target == old(target) && positions == old(positions)
      ensures old(hasGameStarted) ==>
                var ps := old(positions);
                var hit := Collides(Advance(ps[0], direction), old(target).value);
                positions == Stepped(ps, direction) + (if hit then [ps[|ps| - 1]] else []) &&
                numDots == old(numDots) + (if hit then 1 else 0) &&
                target == (if hit then Some(Target(drawX, drawY, screenWidth, screenHeight)) else old(target))
      ensures direction == old(direction) && hasGameStarted == old(hasGameStarted)
      ensures screenWidth == old(screenWidth) && screenHeight == old(screenHeight)
    {
      if !hasGameStarted {
        return;
      }
      var ps := positions;
      var lastPosition := ps[|ps| - 1];
      var newHead := Position(ps[0].x + direction.x * GridSize, ps[0].y + direction.y * GridSize);
      var newPositions := MoveBody(ps, newHead);
      if Collides(newHead, target.value) {
        target := Some(Target(drawX, drawY, screenWidth, screenHeight));
        numDots := numDots + 1;
        positions := newPositions + [lastPosition];
      } else {
        positions := newPositions;
      }
    }
  }
}
