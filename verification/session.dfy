/** The game session: one icon, a fixed pool of pipes, the score and the flags
    the game loop, the touch handler and the collision handler share. */
module Session {

  import opened JavaMath
  import opened Geometry
  import Icons
  import Pipes

  const PIPE_GAP := 425
  const PIPE_COUNT := 3
  const PIPE_SPACING := 400
  /** The game loop pins the displayed icon at x = 100, where the Icon itself starts. */
  const ICON_VIEW_X := 100
  const ICON_VIEW_SIZE := 75

  /** Everything the simulation reads or writes. Besides the icon and the pool:
      `running` is the game-running flag; `iconShown` is the visibility of the
      displayed icon (the loop only steps while it is shown); `listening` says
      whether the touch handler is installed; `looping` whether a loop step is
      scheduled; `shownY` is the displayed icon's y, which the loop keeps within
      one pixel of the icon's; `topView` and `bottomView` are the rectangles the
      two pipe views were last laid out at. */
  datatype Game = Game(
    icon: Icons.Icon,
    pipes: seq<Pipes.Pipe>,
    width: int,
    height: int,
    running: bool,
    iconShown: bool,
    listening: bool,
    looping: bool,
    points: int,
    hasPassed: bool,
    shownY: int,
    topView: Rect,
    bottomView: Rect)

  /** A loop step does work only when it is scheduled, the game runs and the icon is shown. */
  predicate Active(g: Game) {
    g.looping && g.running && g.iconShown
  }

  function IconView(shownY: int): Rect {
    Rect(ICON_VIEW_X, shownY, ICON_VIEW_X + ICON_VIEW_SIZE, shownY + ICON_VIEW_SIZE)
  }

  /** The rectangle the loop tests is the icon's own collision shape exactly when
      the icon sits at the view's x and the view shows the icon's y. */
  lemma CollisionShapeIsIconView(i: Icons.Icon, shownY: int)
    ensures Icons.CollisionShape(i) == IconView(shownY) <==> i.x == ICON_VIEW_X && i.y == shownY
  {
  }

  /** The pools have the same length and each pipe keeps its gap and screen size. */
  predicate SameGeometry(a: seq<Pipes.Pipe>, b: seq<Pipes.Pipe>) {
    && |a| == |b|
    && forall j :: 0 <= j < |a| ==>
         a[j].gap == b[j].gap && a[j].screenHeight == b[j].screenHeight && a[j].screenWidth == b[j].screenWidth
  }

  /** One random draw per pool slot, each within that pipe's range. */
  predicate ValidDraws(pipes: seq<Pipes.Pipe>, draws: seq<int>) {
    |draws| == |pipes| && forall j :: 0 <= j < |pipes| ==> Pipes.ValidDraw(pipes[j], draws[j])
  }

  // ---------------------------------------------------------------- start

  /** The three draws the pool's constructors make. */
  predicate InitDraws(height: int, draws: seq<int>) {
    |draws| == PIPE_COUNT && forall k :: 0 <= k < |draws| ==> 0 <= draws[k] < Pipes.GapRange(height, PIPE_GAP)
  }

  /** Three pipes, 400 apart, the first at the right edge of the screen. */
  function InitializePipes(width: int, height: int, draws: seq<int>): (pipes: seq<Pipes.Pipe>)
    requires InitDraws(height, draws)
    ensures |pipes| == 3
    ensures forall k :: 0 <= k < |pipes| ==>
      && pipes[k].x == width + 400 * k
      && pipes[k].gap == 425
      && pipes[k].gapY == 525 + draws[k]
      && pipes[k].screenHeight == height && pipes[k].screenWidth == width
      && Pipes.GapPlaced(pipes[k])
  {
    seq(PIPE_COUNT, k requires 0 <= k < PIPE_COUNT =>
      Pipes.New(width + k * PIPE_SPACING, height, width, PIPE_GAP, draws[k]))
  }

  /** The start button, as the code does it: a new icon, the flags raised, and,
      once the container has a size, a new pool and a scheduled loop. The score
      and the pass flag are left as they were. */
  function StartAsWritten(prev: Game, width: int, height: int, draws: seq<int>): (g: Game)
    requires InitDraws(height, draws)
    ensures g.icon == Icons.New()
    ensures g.running && g.iconShown && g.listening
    ensures g.points == prev.points && g.hasPassed == prev.hasPassed
    ensures g.width == width && g.height == height
    ensures g.shownY == prev.shownY && g.topView == prev.topView && g.bottomView == prev.bottomView
    ensures width > 0 && height > 0 ==> g.looping && |g.pipes| == 3 && g.pipes[0].x == width
    ensures width > 0 && height > 0 ==> g.pipes == InitializePipes(width, height, draws)
    ensures !(width > 0 && height > 0) ==> g.pipes == prev.pipes && g.looping == prev.looping
  {
    var sized := width > 0 && height > 0;
    prev.(icon := Icons.New(), running := true, iconShown := true, listening := true,
          width := width, height := height,
          pipes := if sized then InitializePipes(width, height, draws) else prev.pipes,
          looping := prev.looping || sized)
  }

  /** The start button with the score and the pass flag reset, as a new game needs. */
  function Start(prev: Game, width: int, height: int, draws: seq<int>): (g: Game)
    requires InitDraws(height, draws)
    ensures g.points == 0 && !g.hasPassed
    ensures g.icon == Icons.New() && g.running && g.iconShown && g.listening
    ensures width > 0 && height > 0 ==> g.looping && |g.pipes| == 3 && g.pipes[0].x == width
    ensures g.(points := prev.points, hasPassed := prev.hasPassed) == StartAsWritten(prev, width, height, draws)
  {
    StartAsWritten(prev, width, height, draws).(points := 0, hasPassed := false)
  }

  // ---------------------------------------------------------------- input

  /** A touch: jumps and re-syncs the displayed icon only while the handler is
      installed and the game runs. */
  function Tap(g: Game): (r: Game)
    ensures r.icon.x == g.icon.x && r.icon.y == g.icon.y
    ensures r.icon.velocity == (if g.listening && g.running then -30 else g.icon.velocity)
    ensures g.listening && g.running ==> r.shownY == g.icon.y
    ensures !(g.listening && g.running) ==> r == g
    ensures r.(icon := g.icon, shownY := g.shownY) == g
  {
    if g.listening && g.running then g.(icon := Icons.Jump(g.icon), shownY := g.icon.y) else g
  }

  /** onPause: the game stops running; nothing else changes. */
  function Pause(g: Game): (r: Game)
    ensures !r.running && r.(running := g.running) == g
  {
    g.(running := false)
  }

  /** onResume: the flag is raised again, even after a collision. */
  function Resume(g: Game): (r: Game)
    ensures r.running && r.(running := g.running) == g
  {
    g.(running := true)
  }

  /** The pause dialog's play button: running again, loop scheduled, touch handler back. */
  function PlayPressed(g: Game): (r: Game)
    ensures r.running && r.looping && r.listening
    ensures r.(running := g.running, looping := g.looping, listening := g.listening) == g
  {
    g.(running := true, looping := true, listening := true)
  }

  // ---------------------------------------------------------------- collisions

  /** Ends the game once: a second call finds the flag down and does nothing. */
  function HandleCollision(g: Game): (r: Game)
    ensures !r.running
    ensures g.running ==> !r.iconShown && !r.listening && r.points == 0
    ensures !g.running ==> r == g
    ensures r.icon == g.icon && r.pipes == g.pipes && r.hasPassed == g.hasPassed
    ensures r.shownY == g.shownY && r.looping == g.looping && r.height == g.height
    ensures r.topView == g.topView && r.bottomView == g.bottomView && r.width == g.width
  {
    if g.running then g.(running := false, iconShown := false, listening := false, points := 0) else g
  }

  predicate HitsPipeViews(g: Game) {
    Intersects(IconView(g.shownY), g.topView) || Intersects(IconView(g.shownY), g.bottomView)
  }

  predicate OutOfBounds(g: Game) {
    g.shownY <= 0 || g.shownY + ICON_VIEW_SIZE >= g.height
  }

  /** The displayed icon against the two pipe views, then against the top and
      bottom of the container; either hit ends the game. */
  function CheckCollisions(g: Game): (r: Game)
    ensures r.running == (g.running && !HitsPipeViews(g) && !OutOfBounds(g))
    ensures r.points == (if g.running && !r.running then 0 else g.points)
    ensures r.iconShown == (g.iconShown && r.running == g.running)
    ensures r.listening == (g.listening && r.running == g.running)
    ensures r.width == g.width
    ensures r.icon == g.icon && r.pipes == g.pipes && r.hasPassed == g.hasPassed
    ensures r.shownY == g.shownY && r.looping == g.looping && r.height == g.height
    ensures r.topView == g.topView && r.bottomView == g.bottomView
  {
    var afterPipes := if HitsPipeViews(g) then HandleCollision(g) else g;
    if OutOfBounds(afterPipes) then HandleCollision(afterPipes) else afterPipes
  }

  // ---------------------------------------------------------------- the pool

  /** What updatePipes reads and writes besides the pool itself. */
  datatype Pool = Pool(pipes: seq<Pipes.Pipe>, hasPassed: bool, points: int, topView: Rect, bottomView: Rect)

  predicate OffScreen(p: Pipes.Pipe) {
    p.x + Pipes.WIDTH < 0
  }

  /** The icon, drawn at `shownY`, is strictly inside the gap of `p` and wholly to its right. */
  predicate Cleared(p: Pipes.Pipe, shownY: int) {
    && p.gapY < shownY
    && shownY + ICON_VIEW_SIZE < p.gapY + p.gap
    && p.x + Pipes.WIDTH < ICON_VIEW_X
  }

  /** The largest x in the pool, starting from `acc`. */
  function MaxX(pipes: seq<Pipes.Pipe>, acc: int): (m: int)
    ensures m >= acc
    ensures forall j :: 0 <= j < |pipes| ==> pipes[j].x <= m
    ensures m == acc || exists j :: 0 <= j < |pipes| && pipes[j].x == m
    decreases |pipes|
  {
    if |pipes| == 0 then acc else MaxX(pipes[1..], Max(acc, pipes[0].x))
  }

  /** The rightmost x in the pool, or -1 if every pipe lies further left. */
  function Rightmost(pipes: seq<Pipes.Pipe>): (m: int)
    ensures m >= -1
    ensures forall j :: 0 <= j < |pipes| ==> pipes[j].x <= m
    ensures m == -1 || exists j :: 0 <= j < |pipes| && pipes[j].x == m
  {
    MaxX(pipes, -1)
  }

  /** Pipe 0's bookkeeping: lay the views out at its shapes, score when the icon
      has cleared it and it was not yet counted, and re-arm once it is off screen. */
  function Track(s: Pool, p: Pipes.Pipe, shownY: int): (r: Pool)
    ensures r.pipes == s.pipes
    ensures r.topView == Pipes.TopShape(p) && r.bottomView == Pipes.BottomShape(p)
    ensures r.points == s.points + (if !s.hasPassed && Cleared(p, shownY) then 1 else 0)
    ensures r.hasPassed == (!OffScreen(p) && (s.hasPassed || Cleared(p, shownY)))
  {
    var top := Pipes.TopShape(p);
    var bottom := Pipes.BottomShape(p);
    var inGapVertically := shownY > top.Height() && shownY + ICON_VIEW_SIZE < bottom.top;
    var scored := !s.hasPassed && inGapVertically && ICON_VIEW_X > p.x + top.Width();
    var passed := if scored then true else s.hasPassed;
    s.(topView := top, bottomView := bottom,
       points := if scored then s.points + 1 else s.points,
       hasPassed := if p.x + Pipes.WIDTH < 0 then false else passed)
  }

  /** What one loop step does to one pipe: it moves 7 left, or, having left the
      screen, it gets a fresh gap and a place at least 399 to the right. */
  predicate Advanced(before: Pipes.Pipe, after: Pipes.Pipe, draw: int) {
    var moved := Pipes.Update(before);
    && (!OffScreen(moved) ==> after == moved)
    && (OffScreen(moved) ==>
          && after.gapY == before.gap + 100 + draw
          && after.x >= 399
          && after.gap == before.gap && after.screenHeight == before.screenHeight
          && after.screenWidth == before.screenWidth)
  }

  /** If slot `j` is recycled, it lands 400 past the rightmost pipe of the pool
      as it stands when the loop reaches `j`: the slots before `j` already
      stepped, slot `j` moved, the slots after `j` not yet touched. */
  predicate PlacedAfterPool(before: seq<Pipes.Pipe>, after: seq<Pipes.Pipe>, j: int)
    requires 0 <= j < |before| == |after|
  {
    var moved := Pipes.Update(before[j]);
    OffScreen(moved) ==> after[j].x == Rightmost(after[..j] + [moved] + before[j + 1..]) + PIPE_SPACING
  }

  /** One iteration of updatePipes, for pool slot `i`. */
  function StepPipe(s: Pool, i: nat, shownY: int, draw: int): (r: Pool)
    requires i < |s.pipes|
    requires Pipes.ValidDraw(s.pipes[i], draw)
    ensures SameGeometry(s.pipes, r.pipes)
    ensures forall j :: 0 <= j < |s.pipes| && j != i ==> r.pipes[j] == s.pipes[j]
    ensures Advanced(s.pipes[i], r.pipes[i], draw)
    ensures OffScreen(Pipes.Update(s.pipes[i])) ==>
      && r.pipes[i].x == Rightmost(s.pipes[i := Pipes.Update(s.pipes[i])]) + 400
      && forall j :: 0 <= j < |r.pipes| && j != i ==> r.pipes[j].x < r.pipes[i].x
    ensures i == 0 ==> r.(pipes := s.pipes) == Track(s, Pipes.Update(s.pipes[0]), shownY)
    ensures i != 0 ==> r.(pipes := s.pipes) == s
  {
    var moved := Pipes.Update(s.pipes[i]);
    var s1 := s.(pipes := s.pipes[i := moved]);
    var s2 := if i == 0 then Track(s1, moved, shownY) else s1;
    if OffScreen(moved) then
      s2.(pipes := s2.pipes[i := Pipes.ResetPosition(moved, Rightmost(s2.pipes) + PIPE_SPACING, draw)])
    else
      s2
  }

  /** updatePipes from slot `i` to the end of the pool, in list order. */
  function UpdatePipesFrom(s: Pool, i: nat, shownY: int, draws: seq<int>): (r: Pool)
    requires i <= |s.pipes| && |draws| == |s.pipes|
    requires forall j :: i <= j < |s.pipes| ==> Pipes.ValidDraw(s.pipes[j], draws[j])
    ensures SameGeometry(s.pipes, r.pipes)
    ensures forall j :: 0 <= j < i ==> r.pipes[j] == s.pipes[j]
    ensures forall j :: i <= j < |s.pipes| ==> Advanced(s.pipes[j], r.pipes[j], draws[j])
    ensures forall j :: i <= j < |s.pipes| ==> PlacedAfterPool(s.pipes, r.pipes, j)
    ensures i > 0 ==> r.(pipes := s.pipes) == s
    ensures i == 0 && |s.pipes| > 0 ==> r.(pipes := s.pipes) == Track(s, Pipes.Update(s.pipes[0]), shownY)
    decreases |s.pipes| - i
  {
    if i == |s.pipes| then s
    else
      var s1 := StepPipe(s, i, shownY, draws[i]);
      var r := UpdatePipesFrom(s1, i + 1, shownY, draws);
      PlacedAfterPoolStep(s.pipes, s1.pipes, r.pipes, i);
      r
  }

  /** Slot `i` placed against the pool it saw, and the later slots against the
      pools they saw, give every slot from `i` on its place. */
  lemma PlacedAfterPoolStep(a: seq<Pipes.Pipe>, b: seq<Pipes.Pipe>, c: seq<Pipes.Pipe>, i: nat)
    requires i < |a| == |b| == |c|
    requires forall j :: 0 <= j < |a| && j != i ==> b[j] == a[j]
    requires OffScreen(Pipes.Update(a[i])) ==> b[i].x == Rightmost(a[i := Pipes.Update(a[i])]) + PIPE_SPACING
    requires forall j :: 0 <= j <= i ==> c[j] == b[j]
    requires forall j :: i < j < |a| ==> PlacedAfterPool(b, c, j)
    ensures forall j :: i <= j < |a| ==> PlacedAfterPool(a, c, j)
  {
    forall j | i <= j < |a|
      ensures PlacedAfterPool(a, c, j)
    {
      var moved := Pipes.Update(a[j]);
      if j == i {
        assert c[..i] + [moved] + a[i + 1..] == a[i := moved];
      } else {
        assert PlacedAfterPool(b, c, j);
        assert b[j + 1..] == a[j + 1..];
      }
    }
  }

  function UpdatePipes(s: Pool, shownY: int, draws: seq<int>): (r: Pool)
    requires ValidDraws(s.pipes, draws)
    ensures SameGeometry(s.pipes, r.pipes)
    ensures forall j :: 0 <= j < |s.pipes| ==> Advanced(s.pipes[j], r.pipes[j], draws[j])
    ensures forall j :: 0 <= j < |s.pipes| ==> PlacedAfterPool(s.pipes, r.pipes, j)
    ensures |s.pipes| == 0 ==> r == s
    ensures |s.pipes| > 0 ==> r.(pipes := s.pipes) == Track(s, Pipes.Update(s.pipes[0]), shownY)
  {
    UpdatePipesFrom(s, 0, shownY, draws)
  }

  // ---------------------------------------------------------------- the loop

  /** The displayed y after the loop's re-sync: moved to `y` only when more than one pixel off. */
  function SyncShownY(shownY: int, y: int): (r: int)
    ensures Abs(r - y) <= 1
    ensures r != shownY ==> r == y
    ensures r == shownY <==> Abs(shownY - y) <= 1
  {
    if Abs(shownY - y) > 1 then y else shownY
  }

  /** The displayed y the loop step works with. */
  function SyncedY(g: Game): int {
    SyncShownY(g.shownY, Icons.Update(g.icon).y)
  }

  /** One run of the game-loop runnable. `draws` stands for the random numbers
      the pipes that get recycled in this step draw. */
  function Tick(g: Game, draws: seq<int>): (r: Game)
    requires ValidDraws(g.pipes, draws)
    ensures SameGeometry(g.pipes, r.pipes)
    ensures r.running ==> g.running
    ensures r.looping == (Active(g) && r.running)
    ensures !Active(g) ==> r == g.(looping := false)
    ensures Active(g) ==> r.icon == Icons.Update(g.icon) && r.shownY == SyncedY(g)
    ensures Active(g) ==> r.listening == (g.listening && r.running) && r.iconShown == r.running
    ensures Active(g) ==> forall j :: 0 <= j < |g.pipes| ==> Advanced(g.pipes[j], r.pipes[j], draws[j])
    ensures Active(g) ==> forall j :: 0 <= j < |g.pipes| ==> PlacedAfterPool(g.pipes, r.pipes, j)
    ensures r.width == g.width && r.height == g.height
  {
    if !g.looping then g
    else if !(g.running && g.iconShown) then g.(looping := false)
    else
      var icon := Icons.Update(g.icon);
      var y := SyncShownY(g.shownY, icon.y);
      var pool := UpdatePipes(Pool(g.pipes, g.hasPassed, g.points, g.topView, g.bottomView), y, draws);
      var moved := g.(icon := icon, shownY := y, pipes := pool.pipes, hasPassed := pool.hasPassed,
                      points := pool.points, topView := pool.topView, bottomView := pool.bottomView);
      var checked := CheckCollisions(moved);
      checked.(looping := checked.running)
  }

  /** A step that finds the game not running changes nothing but drops the loop. */
  lemma TickWhileStopped(g: Game, draws: seq<int>)
    requires ValidDraws(g.pipes, draws)
    requires !g.running
    ensures Tick(g, draws) == g.(looping := false)
  {
  }

  /** The step collides exactly when the displayed icon overlaps pipe 0's top or
      bottom half, as pipe 0 stands after moving, or touches the top or bottom
      of the container. No other pipe takes part. */
  lemma TickCollision(g: Game, draws: seq<int>)
    requires ValidDraws(g.pipes, draws)
    requires Active(g) && |g.pipes| > 0
    ensures var p := Pipes.Update(g.pipes[0]);
            var y := SyncedY(g);
            !Tick(g, draws).running <==>
              || Intersects(IconView(y), Pipes.TopShape(p))
              || Intersects(IconView(y), Pipes.BottomShape(p))
              || y <= 0 || y + 75 >= g.height
  {
  }

  /** The score rises by one exactly when the icon has cleared pipe 0 and that
      pass was not yet counted; a collision in the same step zeroes it. */
  lemma TickScoring(g: Game, draws: seq<int>)
    requires ValidDraws(g.pipes, draws)
    requires Active(g) && |g.pipes| > 0
    ensures var p := Pipes.Update(g.pipes[0]);
            var r := Tick(g, draws);
            r.points == (if r.running then g.points + (if !g.hasPassed && Cleared(p, SyncedY(g)) then 1 else 0) else 0)
    ensures var p := Pipes.Update(g.pipes[0]);
            Tick(g, draws).hasPassed == (!OffScreen(p) && (g.hasPassed || Cleared(p, SyncedY(g))))
  {
  }

  /** The pass flag is only lowered in the step that recycles pipe 0, which then
      lands to the right of the screen's left edge. */
  lemma PassFlagClearedOnlyByRecycle(g: Game, draws: seq<int>)
    requires ValidDraws(g.pipes, draws)
    requires |g.pipes| > 0 && g.hasPassed && !Tick(g, draws).hasPassed
    ensures Active(g) && OffScreen(Pipes.Update(g.pipes[0]))
    ensures Tick(g, draws).pipes[0].x >= 399
  {
    TickScoring(g, draws);
  }

  /** Reaching the top of the screen ends the game whenever the displayed icon
      follows the icon there, which it does unless it was already within one pixel. */
  lemma CeilingEndsRun(g: Game, draws: seq<int>)
    requires ValidDraws(g.pipes, draws)
    requires Active(g) && Icons.Update(g.icon).y == 0 && Abs(g.shownY) > 1
    ensures !Tick(g, draws).running && !Tick(g, draws).iconShown
    ensures Tick(g, draws).points == 0
  {
  }

  /** The displayed icon lags by up to a pixel: after a jump from y = 15 the
      icon reaches y = 0 on the second step while the displayed icon stays at
      y = 1, so the ceiling test does not fire and the game goes on. */
  lemma CeilingMissedByDisplayLag()
    ensures var pool := [Pipes.Pipe(1000, 525, 425, 1600, 1000), Pipes.Pipe(1400, 525, 425, 1600, 1000),
                         Pipes.Pipe(1800, 525, 425, 1600, 1000)];
            var g := Game(Icons.Icon(100, 15, 5), pool, 1000, 1600, true, true, true, true, 0, false, 15,
                          Pipes.TopShape(pool[0]), Pipes.BottomShape(pool[0]));
            var d := [0, 0, 0];
            && ValidDraws(pool, d)
            && Tick(Tick(Tap(g), d), d).icon.y == 0
            && Tick(Tick(Tap(g), d), d).shownY == 1
            && Tick(Tick(Tap(g), d), d).running
  {
    var pool := [Pipes.Pipe(1000, 525, 425, 1600, 1000), Pipes.Pipe(1400, 525, 425, 1600, 1000),
                 Pipes.Pipe(1800, 525, 425, 1600, 1000)];
    var g := Game(Icons.Icon(100, 15, 5), pool, 1000, 1600, true, true, true, true, 0, false, 15,
                  Pipes.TopShape(pool[0]), Pipes.BottomShape(pool[0]));
    var d := [0, 0, 0];
    var g1 := Tap(g);
    assert g1.icon == Icons.Icon(100, 15, -30) && g1.shownY == 15;
    var g2 := Tick(g1, d);
    assert g2.icon == Icons.Icon(100, 1, -29) && g2.shownY == 1;
    TickCollision(g1, d);
    assert g2.running && Active(g2);
    assert forall j :: 0 <= j < 3 ==> Advanced(pool[j], g2.pipes[j], d[j]);
    assert g2.pipes[0].x == 993;
    var g3 := Tick(g2, d);
    assert g3.icon == Icons.Icon(100, 0, -28) && g3.shownY == 1;
    TickCollision(g2, d);
  }

  /** A position where the icon has cleared pipe 0 is never a collision with it. */
  lemma ClearedMeansNoPipeHit(p: Pipes.Pipe, y: int)
    requires Cleared(p, y)
    ensures !Intersects(IconView(y), Pipes.TopShape(p)) && !Intersects(IconView(y), Pipes.BottomShape(p))
  {
  }

  /** A collision is handled once: handling it again changes nothing. */
  lemma HandleCollisionOnce(g: Game)
    ensures HandleCollision(HandleCollision(g)) == HandleCollision(g)
  {
  }
}
