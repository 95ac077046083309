/** What a new game owes the pass flag. The code's start keeps the flag of the
    game before it, so a game that ended after its pipe 0 was counted but
    before that pipe left the screen spoils the next game's first pipe. */
module Restart {

  import opened JavaMath
  import Icons
  import Pipes
  import opened Session
  import opened Traces
  import opened Passes

  /** With the code's start, if the last game ended with the pass flag up, no
      run of the new game scores while its first pipe 0 is on screen, whatever
      the player does. */
  lemma RestartAsWrittenMissesFirstPipe(prev: Game, w: int, h: int, draws: seq<int>, evs: seq<Event>)
    requires InitDraws(h, draws) && w > 0 && h > 0
    requires prev.hasPassed && prev.points >= 0
    requires ValidTrace(prev, [StartGame(w, h, draws)] + evs) && NoStart(evs)
    requires 7 * ActiveSteps(prev, [StartGame(w, h, draws)] + evs) <= w + 75
    ensures Run(prev, [StartGame(w, h, draws)] + evs).points <= prev.points
  {
    var g0 := StartAsWritten(prev, w, h, draws);
    assert ([StartGame(w, h, draws)] + evs)[1..] == evs;
    RunPotential(g0, evs);
  }

  /** With the corrected start, the first step in which the icon clears pipe 0
      without colliding brings the score to 1. */
  lemma StartScoresFirstClear(prev: Game, w: int, h: int, draws: seq<int>, evs: seq<Event>, d: seq<int>)
    requires InitDraws(h, draws) && w > 0 && h > 0
    requires ValidTrace(Start(prev, w, h, draws), evs) && NoStart(evs)
    requires 7 * ActiveSteps(Start(prev, w, h, draws), evs) <= w + 75
    requires var g1 := Run(Start(prev, w, h, draws), evs);
             && |g1.pipes| > 0 && ValidDraws(g1.pipes, d)
             && Active(g1) && Cleared(Pipes.Update(g1.pipes[0]), SyncedY(g1))
    ensures Tick(Run(Start(prev, w, h, draws), evs), d).running ==>
              Tick(Run(Start(prev, w, h, draws), evs), d).points == 1
  {
    var g0 := Start(prev, w, h, draws);
    RunPotential(g0, evs);
    ClearingRealizesPotential(Run(g0, evs), d);
  }

  /** The two starts differ only after a game that left the score or the pass flag
      up; since a collision zeroes the score, in practice only after one that
      ended with the flag up. */
  lemma StartsAgreeWhenFlagDown(prev: Game, w: int, h: int, draws: seq<int>)
    requires InitDraws(h, draws)
    ensures StartAsWritten(prev, w, h, draws) == Start(prev, w, h, draws) <==> prev.points == 0 && !prev.hasPassed
  {
  }

  /** The scenario of a 1000 x 1600 screen, with the code's start: the first loop
      step leaves the icon at y = 300 with velocity 1, moves the pipes to 993,
      1393 and 1793, keeps the game running and leaves score and pass flag as
      the previous game left them. */
  lemma StartThenFirstStep(prev: Game, draws: seq<int>, d: seq<int>)
    requires InitDraws(1600, draws)
    requires ValidDraws(StartAsWritten(prev, 1000, 1600, draws).pipes, d)
    ensures var r := Tick(StartAsWritten(prev, 1000, 1600, draws), d);
            && r.running && r.points == prev.points && r.hasPassed == prev.hasPassed
            && r.icon.y == 300 && r.icon.velocity == 1
            && |r.pipes| == 3
            && r.pipes[0].x == 993 && r.pipes[1].x == 1393 && r.pipes[2].x == 1793
  {
    var g := StartAsWritten(prev, 1000, 1600, draws);
    var r := Tick(g, d);
    Icons.FirstUpdateFromSpawn();
    assert Advanced(g.pipes[0], r.pipes[0], d[0]);
    assert Advanced(g.pipes[1], r.pipes[1], d[1]);
    assert Advanced(g.pipes[2], r.pipes[2], d[2]);
    TickCollision(g, d);
    TickScoring(g, d);
  }

  // ------------------------------------------------ a run that clears the first pipe

  /** The few numbers that change while a game on a 400 x 1600 screen, with
      every gap at 525, runs without collision or recycling: pipe 0's x (the
      others follow 400 and 800 behind), the icon's y and velocity, the
      displayed y, the score and the pass flag. */
  datatype Flight = Flight(x: int, y: int, v: int, shownY: int, points: int, hasPassed: bool)

  const DRAWS: seq<int> := [0, 0, 0]

  function PipeAt(x: int): Pipes.Pipe {
    Pipes.Pipe(x, 525, PIPE_GAP, 1600, 400)
  }

  /** The game a flight stands for, its pipe views laid out at pipe 0. */
  function Cruise(f: Flight): Game {
    Game(Icons.Icon(Icons.START_X, f.y, f.v), [PipeAt(f.x), PipeAt(f.x + 400), PipeAt(f.x + 800)],
         400, 1600, true, true, true, true, f.points, f.hasPassed, f.shownY,
         Pipes.TopShape(PipeAt(f.x)), Pipes.BottomShape(PipeAt(f.x)))
  }

  /** One loop step of a flight in plain arithmetic: gravity, the truncated
      half-velocity move clamped at 0, the one-pixel re-sync, the scroll and
      pipe 0's scoring. */
  function Next(f: Flight): Flight {
    var v := f.v + 1;
    var y := f.y + (if v >= 0 then v / 2 else -((-v) / 2));
    var y := if y < 0 then 0 else y;
    var shown := if f.shownY - y > 1 || y - f.shownY > 1 then y else f.shownY;
    var x := f.x - 7;
    var cleared := 525 < shown && shown + 75 < 950 && x + 75 < 100;
    Flight(x, y, v, shown, if !f.hasPassed && cleared then f.points + 1 else f.points, f.hasPassed || cleared)
  }

  /** The next step recycles nothing and collides with nothing: pipe 0 stays on
      screen, the displayed icon keeps off the top and bottom, and while pipe 0
      overlaps its column the icon is within the gap. */
  predicate Safe(f: Flight) {
    var n := Next(f);
    && n.x + 75 >= 0
    && 0 < n.shownY && n.shownY + 75 < 1600
    && (n.x + 75 <= 100 || n.x >= 175 || (525 <= n.shownY && n.shownY + 75 <= 950))
  }

  /** A safe flight step is exactly one run of the game loop. */
  lemma CruiseStep(f: Flight)
    requires Safe(f)
    ensures ValidDraws(Cruise(f).pipes, DRAWS)
    ensures Tick(Cruise(f), DRAWS) == Cruise(Next(f))
    ensures Moves(Cruise(f), Cruise(Next(f)))
  {
    var g := Cruise(f);
    assert ValidDraws(g.pipes, DRAWS);
    var r := Tick(g, DRAWS);
    forall j | 0 <= j < 3 ensures r.pipes[j] == Cruise(Next(f)).pipes[j] {
      assert Advanced(g.pipes[j], r.pipes[j], DRAWS[j]);
    }
    TickScoring(g, DRAWS);
    TickCollision(g, DRAWS);
  }

  /** A touch during a flight: velocity -30 and the displayed icon moved to the icon. */
  lemma CruiseTap(f: Flight)
    ensures Tap(Cruise(f)) == Cruise(f.(v := -30, shownY := f.y))
  {
  }

  /** The loop steps of a run, each drawing 0 for every pipe. */
  function Steps(n: nat): seq<Event> {
    seq(n, _ => LoopStep(DRAWS))
  }

  /** Squaring is monotone on non-negative numbers. */
  lemma SquareMono(a: int, b: int)
    requires 0 <= a <= b
    ensures a * a <= b * b
  {
  }

  /** The icon falling from rest k + 1 steps after the start, before any touch;
      from the second step on the displayed icon follows it every step. */
  function FallAt(k: nat, points: int, hasPassed: bool): Flight {
    var y := 300 + ((k + 1) * (k + 1)) / 4;
    Flight(393 - 7 * k, y, k + 1, y, points, hasPassed)
  }

  /** Each falling step until the touch is safe and keeps to the parabola. */
  lemma FallStep(k: nat, points: int, hasPassed: bool)
    requires 2 <= k <= 40
    ensures Safe(FallAt(k, points, hasPassed))
    ensures Next(FallAt(k, points, hasPassed)) == FallAt(k + 1, points, hasPassed)
  {
    Icons.QuarterSquareStep(k + 1);
    SquareMono(k + 2, 42);
    if k >= 31 {
      SquareMono(33, k + 2);
    }
  }

  /** A falling step, as a step of the event model. */
  lemma FallTick(k: nat, points: int, hasPassed: bool)
    requires 2 <= k <= 40
    ensures Moves(Cruise(FallAt(k, points, hasPassed)), Cruise(FallAt(k + 1, points, hasPassed)))
  {
    FallStep(k, points, hasPassed);
    CruiseStep(FallAt(k, points, hasPassed));
  }

  /** The icon j steps after the touch: rising, then slowing, inside the gap. */
  function GlideAt(j: nat, points: int, hasPassed: bool): Flight {
    var y := 531 + ((29 - j) * (29 - j)) / 4;
    Flight(106 - 7 * j, y, j - 30, y, points, hasPassed)
  }

  /** Each step after the touch but the last is safe and keeps to its parabola. */
  lemma GlideStep(j: nat, points: int, hasPassed: bool)
    requires j <= 10
    ensures Safe(GlideAt(j, points, hasPassed))
    ensures Next(GlideAt(j, points, hasPassed)) == GlideAt(j + 1, points, hasPassed)
  {
    Icons.QuarterSquareStep(28 - j);
    SquareMono(18, 28 - j);
    SquareMono(28 - j, 28);
  }

  /** A gliding step, as a step of the event model. */
  lemma GlideTick(j: nat, points: int, hasPassed: bool)
    requires j <= 10
    ensures Moves(Cruise(GlideAt(j, points, hasPassed)), Cruise(GlideAt(j + 1, points, hasPassed)))
  {
    GlideStep(j, points, hasPassed);
    CruiseStep(GlideAt(j, points, hasPassed));
  }

  /** One loop step, with every draw 0, takes `g` to `h`. */
  predicate Moves(g: Game, h: Game) {
    Enabled(g, LoopStep(DRAWS)) && Step(g, LoopStep(DRAWS)) == h
  }

  /** Loop steps that follow a path of games one step at a time end where the path does. */
  lemma {:induction false} PathRun(path: nat -> Game, k: nat, n: nat)
    requires forall i: nat :: k <= i < k + n ==> Moves(path(i), path(i + 1))
    ensures ValidTrace(path(k), Steps(n)) && Run(path(k), Steps(n)) == path(k + n)
    decreases n
  {
    if n > 0 {
      assert Steps(n)[0] == LoopStep(DRAWS) && Steps(n)[1..] == Steps(n - 1);
      PathRun(path, k + 1, n - 1);
    }
  }

  /** A run of one event is one step. */
  lemma RunOne(g: Game, e: Event)
    requires Enabled(g, e)
    ensures ValidTrace(g, [e]) && Run(g, [e]) == Step(g, e)
  {
    assert [e][1..] == [];
  }

  /** Fifty-four loop steps with one touch after the forty-second: the icon falls
      into pipe 0's gap, the touch keeps it there while the pipe goes by, and
      the last step clears the pipe. */
  function Flight54(): seq<Event> {
    Steps(42) + [Touch] + Steps(12)
  }

  /** The opening step of a new game on a 400 x 1600 screen after a game that
      ended at the floor, whatever score and pass flag the new game carries. */
  lemma OpeningStep(prev: Game, points: int, hasPassed: bool)
    requires prev.shownY + 75 >= 1600
    ensures var g := StartAsWritten(prev, 400, 1600, DRAWS).(points := points, hasPassed := hasPassed);
            ValidDraws(g.pipes, DRAWS) && Tick(g, DRAWS) == Cruise(FallAt(0, points, hasPassed))
    ensures Moves(StartAsWritten(prev, 400, 1600, DRAWS).(points := points, hasPassed := hasPassed),
                  Cruise(FallAt(0, points, hasPassed)))
  {
    var g := StartAsWritten(prev, 400, 1600, DRAWS).(points := points, hasPassed := hasPassed);
    var r := Tick(g, DRAWS);
    Icons.FirstUpdateFromSpawn();
    forall j | 0 <= j < 3 ensures r.pipes[j] == PipeAt(393 + 400 * j) {
      assert Advanced(g.pipes[j], r.pipes[j], DRAWS[j]);
    }
    TickScoring(g, DRAWS);
    TickCollision(g, DRAWS);
  }

  /** Four runs one after the other. */
  lemma Compose4(g0: Game, g1: Game, g2: Game, g3: Game, g4: Game,
                 a: seq<Event>, b: seq<Event>, c: seq<Event>, d: seq<Event>)
    requires ValidTrace(g0, a) && Run(g0, a) == g1
    requires ValidTrace(g1, b) && Run(g1, b) == g2
    requires ValidTrace(g2, c) && Run(g2, c) == g3
    requires ValidTrace(g3, d) && Run(g3, d) == g4
    ensures ValidTrace(g0, a + b + c + d) && Run(g0, a + b + c + d) == g4
  {
    RunAppend(g0, a, b);
    RunAppend(g0, a + b, c);
    RunAppend(g0, a + b + c, d);
  }

  /** The first three loop steps of a new game: the spawn step, then two steps
      in which the displayed icon first lags and then catches up. */
  lemma OpeningMoves(prev: Game, points: int, hasPassed: bool)
    requires prev.shownY + 75 >= 1600
    ensures Moves(StartAsWritten(prev, 400, 1600, DRAWS).(points := points, hasPassed := hasPassed),
                  Cruise(FallAt(0, points, hasPassed)))
    ensures Moves(Cruise(FallAt(0, points, hasPassed)), Cruise(Flight(386, 301, 2, 300, points, hasPassed)))
    ensures Moves(Cruise(Flight(386, 301, 2, 300, points, hasPassed)), Cruise(FallAt(2, points, hasPassed)))
  {
    OpeningStep(prev, points, hasPassed);
    CruiseStep(FallAt(0, points, hasPassed));
    CruiseStep(Flight(386, 301, 2, 300, points, hasPassed));
  }

  lemma OpeningRun(prev: Game, points: int, hasPassed: bool)
    requires prev.shownY + 75 >= 1600
    ensures var g := StartAsWritten(prev, 400, 1600, DRAWS).(points := points, hasPassed := hasPassed);
            ValidTrace(g, Steps(3)) && Run(g, Steps(3)) == Cruise(FallAt(2, points, hasPassed))
  {
    var g := StartAsWritten(prev, 400, 1600, DRAWS).(points := points, hasPassed := hasPassed);
    var f1 := Cruise(Flight(386, 301, 2, 300, points, hasPassed));
    var path := (i: nat) =>
      if i == 0 then g else if i == 1 then Cruise(FallAt(0, points, hasPassed)) else if i == 2 then f1
      else Cruise(FallAt(2, points, hasPassed));
    OpeningMoves(prev, points, hasPassed);
    PathRun(path, 0, 3);
  }

  /** Thirty-nine more falling steps bring the icon to y = 741 without a collision. */
  lemma FallRun(points: int, hasPassed: bool)
    ensures ValidTrace(Cruise(FallAt(2, points, hasPassed)), Steps(39))
    ensures Run(Cruise(FallAt(2, points, hasPassed)), Steps(39)) == Cruise(FallAt(41, points, hasPassed))
  {
    var path := (i: nat) => Cruise(FallAt(i, points, hasPassed));
    forall i: nat | 2 <= i < 41 ensures Moves(path(i), path(i + 1)) {
      FallTick(i, points, hasPassed);
    }
    PathRun(path, 2, 39);
  }

  /** The touch at y = 741 sends the icon up at velocity -30. */
  lemma TouchRun(points: int, hasPassed: bool)
    ensures ValidTrace(Cruise(FallAt(41, points, hasPassed)), [Touch])
    ensures Run(Cruise(FallAt(41, points, hasPassed)), [Touch]) == Cruise(GlideAt(0, points, hasPassed))
  {
    CruiseTap(FallAt(41, points, hasPassed));
    RunOne(Cruise(FallAt(41, points, hasPassed)), Touch);
  }

  /** Twelve steps in the gap; the last one clears pipe 0 and scores exactly
      when the pass was uncounted. */
  lemma GlideRun(points: int, hasPassed: bool)
    ensures ValidTrace(Cruise(GlideAt(0, points, hasPassed)), Steps(12))
    ensures Run(Cruise(GlideAt(0, points, hasPassed)), Steps(12))
            == Cruise(Flight(22, 603, -18, 603, if hasPassed then points else points + 1, true))
  {
    var last := Flight(22, 603, -18, 603, if hasPassed then points else points + 1, true);
    var path := (j: nat) => if j < 12 then Cruise(GlideAt(j, points, hasPassed)) else Cruise(last);
    forall j: nat | j < 12 ensures Moves(path(j), path(j + 1)) {
      if j < 11 {
        GlideTick(j, points, hasPassed);
      } else {
        CruiseStep(GlideAt(11, points, hasPassed));
      }
    }
    PathRun(path, 0, 12);
  }

  /** The witness run, cut at the phases the proof follows. */
  lemma Flight54Parts()
    ensures Flight54() == Steps(3) + Steps(39) + [Touch] + Steps(12)
  {
    assert Steps(42) == Steps(3) + Steps(39);
  }

  /** The whole flight from the start, for any score and pass flag the game carries:
      nothing collides, and the score rises exactly when the pass was uncounted. */
  lemma FlightFromStart(prev: Game, points: int, hasPassed: bool)
    requires prev.shownY + 75 >= 1600
    ensures var g := StartAsWritten(prev, 400, 1600, DRAWS).(points := points, hasPassed := hasPassed);
            && ValidTrace(g, Flight54())
            && Run(g, Flight54()) == Cruise(Flight(22, 603, -18, 603, if hasPassed then points else points + 1, true))
  {
    OpeningRun(prev, points, hasPassed);
    FallRun(points, hasPassed);
    TouchRun(points, hasPassed);
    GlideRun(points, hasPassed);
    Flight54Parts();
    Compose4(StartAsWritten(prev, 400, 1600, DRAWS).(points := points, hasPassed := hasPassed),
             Cruise(FallAt(2, points, hasPassed)), Cruise(FallAt(41, points, hasPassed)),
             Cruise(GlideAt(0, points, hasPassed)),
             Cruise(Flight(22, 603, -18, 603, if hasPassed then points else points + 1, true)),
             Steps(3), Steps(39), [Touch], Steps(12));
  }

  /** A game that ended at the floor with its pipe 0 counted, then a new game on
      a 400 x 1600 screen with every gap at 525 and the run above. With the
      code's start the new game clears its first pipe and its score has not
      moved; with the corrected start the same run has 1 point. */
  lemma RestartWitness(prev: Game)
    requires prev.hasPassed && prev.shownY + 75 >= 1600
    ensures ValidTrace(prev, [StartGame(400, 1600, DRAWS)] + Flight54())
    ensures var r := Run(prev, [StartGame(400, 1600, DRAWS)] + Flight54());
            && |r.pipes| == 3 && r.running && Cleared(r.pipes[0], r.shownY)
            && r.points == prev.points
    ensures ValidTrace(Start(prev, 400, 1600, DRAWS), Flight54())
    ensures var r := Run(Start(prev, 400, 1600, DRAWS), Flight54());
            && |r.pipes| == 3 && r.running && Cleared(r.pipes[0], r.shownY)
            && r.points == 1
  {
    var coded := StartAsWritten(prev, 400, 1600, DRAWS);
    assert coded.(points := prev.points, hasPassed := prev.hasPassed) == coded;
    FlightFromStart(prev, prev.points, prev.hasPassed);
    RunOne(prev, StartGame(400, 1600, DRAWS));
    RunAppend(prev, [StartGame(400, 1600, DRAWS)], Flight54());
    FlightFromStart(prev, 0, false);
  }
}
