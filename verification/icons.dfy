/** The player character: a fixed x, a vertical position clamped at the top of
    the screen, and a velocity driven by gravity and jumps. */
module Icons {

  import opened JavaMath
  import opened Geometry

  const START_X := 100
  const START_Y := 300
  const GRAVITY := 2
  const JUMP_VELOCITY := -30
  /** The icon bitmap is scaled to SIZE x SIZE pixels. */
  const SIZE := 75

  datatype Icon = Icon(x: int, y: int, velocity: int)

  /** A freshly constructed icon rests at its spawn point. */
  function New(): (i: Icon)
    ensures i.x == 100 && i.y == 300 && i.velocity == 0
  {
    Icon(START_X, START_Y, 0)
  }

  /** One physics step: gravity first, then the position moves by half the new
      velocity (Java division), and the icon may not rise above y = 0. */
  function Update(i: Icon): (r: Icon)
    ensures r.x == i.x
    ensures r.velocity == i.velocity + 1
    ensures r.y >= 0
    ensures r.y > 0 ==> TruncatedQuotient(r.velocity, 2, r.y - i.y)
    ensures r.y == 0 <==> i.y + JavaDiv(r.velocity, 2) <= 0
  {
    var v := i.velocity + JavaDiv(GRAVITY, 2);
    var y := i.y + JavaDiv(v, 2);
    Icon(i.x, if y < 0 then 0 else y, v)
  }

  /** A jump replaces the velocity, whatever it was, and moves nothing. */
  function Jump(i: Icon): (r: Icon)
    ensures r.velocity == -30
    ensures r.x == i.x && r.y == i.y
  {
    i.(velocity := JUMP_VELOCITY)
  }

  /** The icon's bounding box at its current position. */
  function CollisionShape(i: Icon): (r: Rect)
    ensures r.left == i.x && r.top == i.y
    ensures r.Width() == 75 && r.Height() == 75
  {
    Rect(i.x, i.y, i.x + SIZE, i.y + SIZE)
  }

  /** `n` consecutive updates with no jump in between. */
  function UpdateN(i: Icon, n: nat): (r: Icon)
    ensures r.x == i.x
    ensures r.velocity == i.velocity + n
    ensures i.y >= 0 ==> r.y >= 0
  {
    if n == 0 then i else Update(UpdateN(i, n - 1))
  }

  /** Jumping twice is jumping once. */
  lemma JumpIdempotent(i: Icon)
    ensures Jump(Jump(i)) == Jump(i)
  {
  }

  /** n updates after a jump the velocity is -30 + n, and x has not moved. */
  lemma VelocityAfterJump(i: Icon, n: nat)
    ensures UpdateN(Jump(i), n).velocity == -30 + n
    ensures UpdateN(Jump(i), n).x == i.x
  {
  }

  /** From the spawn point, the first update leaves the icon at y = 300 with
      velocity 1, because 1 / 2 truncates to 0. */
  lemma FirstUpdateFromSpawn()
    ensures Update(New()).y == 300 && Update(New()).velocity == 1
  {
  }

  /** A jump followed by one update moves the icon up by 14 (-29 / 2 truncated),
      stopping at the top of the screen. */
  lemma JumpThenUpdateRises(i: Icon)
    requires i.y > 0
    ensures Update(Jump(i)).y < i.y
    ensures Update(Jump(i)).y == Max(0, i.y - 14)
  {
  }

  lemma QuarterSquareStep(m: nat)
    ensures (m * m) / 4 + (m + 1) / 2 == ((m + 1) * (m + 1)) / 4
  {
    var k := m / 2;
    if m % 2 == 0 {
      assert m == 2 * k;
      assert m * m == 4 * (k * k);
      assert (m + 1) * (m + 1) == 4 * (k * k + k) + 1;
    } else {
      assert m == 2 * k + 1;
      assert m * m == 4 * (k * k + k) + 1;
      assert (m + 1) * (m + 1) == 4 * ((k + 1) * (k + 1));
    }
  }

  /** Falling from rest, after n updates the icon has dropped by n*n/4
      (rounded down): a discrete parabola, so y only grows. */
  lemma {:induction false} FallFromRest(i: Icon, n: nat)
    requires i.velocity == 0 && i.y >= 0
    ensures UpdateN(i, n).y == i.y + (n * n) / 4
    ensures UpdateN(i, n).velocity == n
  {
    if n > 0 {
      FallFromRest(i, n - 1);
      var prev := UpdateN(i, n - 1);
      assert prev.velocity == n - 1;
      assert JavaDiv(n, 2) == n / 2;
      QuarterSquareStep(n - 1);
    }
  }

  /** Thirty updates from the spawn point leave the icon at y = 525. */
  lemma ThirtyUpdatesFromSpawn()
    ensures UpdateN(New(), 30).y == 525
  {
    FallFromRest(New(), 30);
  }
}
