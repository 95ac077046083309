/** Sessions as sequences of events: start, loop steps, touches and the pause
    lifecycle, with the invariants every reachable game keeps. */
module Traces {

  import Icons
  import Pipes
  import opened Session

  datatype Event =
    | StartGame(width: int, height: int, draws: seq<int>)
    | LoopStep(stepDraws: seq<int>)
    | Touch
    | PauseGame
    | ResumeGame
    | PlayButton

  /** The random draws an event carries are in range. */
  predicate Enabled(g: Game, e: Event) {
    match e
    case StartGame(_, height, draws) => InitDraws(height, draws)
    case LoopStep(d) => ValidDraws(g.pipes, d)
    case _ => true
  }

  function Step(g: Game, e: Event): Game
    requires Enabled(g, e)
  {
    match e
    case StartGame(w, h, draws) => StartAsWritten(g, w, h, draws)
    case LoopStep(d) => Tick(g, d)
    case Touch => Tap(g)
    case PauseGame => Pause(g)
    case ResumeGame => Resume(g)
    case PlayButton => PlayPressed(g)
  }

  predicate ValidTrace(g: Game, evs: seq<Event>)
    decreases |evs|
  {
    |evs| == 0 || (Enabled(g, evs[0]) && ValidTrace(Step(g, evs[0]), evs[1..]))
  }

  function Run(g: Game, evs: seq<Event>): Game
    requires ValidTrace(g, evs)
    decreases |evs|
  {
    if |evs| == 0 then g else Run(Step(g, evs[0]), evs[1..])
  }

  /** Running two event sequences one after the other is running their concatenation. */
  lemma {:induction false} RunAppend(g: Game, a: seq<Event>, b: seq<Event>)
    requires ValidTrace(g, a) && ValidTrace(Run(g, a), b)
    ensures ValidTrace(g, a + b) && Run(g, a + b) == Run(Run(g, a), b)
    decreases |a|
  {
    if |a| > 0 {
      assert (a + b)[0] == a[0] && (a + b)[1..] == a[1..] + b;
      RunAppend(Step(g, a[0]), a[1..], b);
    } else {
      assert a + b == b;
    }
  }

  /** The number of loop steps of a run taken while the game is active: the
      steps that move the pipes. Steps after a pause, a collision or a finished
      game leave everything but the looping flag alone and are not counted. */
  function ActiveSteps(g: Game, evs: seq<Event>): (n: nat)
    requires ValidTrace(g, evs)
    ensures n <= |evs|
    decreases |evs|
  {
    if |evs| == 0 then 0
    else (if evs[0].LoopStep? && Active(g) then 1 else 0) + ActiveSteps(Step(g, evs[0]), evs[1..])
  }

  /** The events contain no start of a new game. */
  predicate NoStart(evs: seq<Event>) {
    forall k :: 0 <= k < |evs| ==> !evs[k].StartGame?
  }

  /** Dropping the first event keeps a sequence free of starts. */
  lemma NoStartTail(evs: seq<Event>)
    requires |evs| > 0 && NoStart(evs)
    ensures !evs[0].StartGame? && NoStart(evs[1..])
  {
    forall k | 0 <= k < |evs[1..]| ensures !evs[1..][k].StartGame? {
      assert evs[1..][k] == evs[k + 1];
    }
  }

  /** What holds of every game reachable from a well-formed one: a non-negative
      score, the icon at its fixed x and never above the screen, a pool that is
      empty (before the first start) or exactly three pipes, every gap 425 tall
      and placed where resetPosition puts gaps. */
  predicate Inv(g: Game) {
    && g.points >= 0
    && g.icon.x == Icons.START_X
    && g.icon.y >= 0
    && (|g.pipes| == 0 || |g.pipes| == PIPE_COUNT)
    && forall j :: 0 <= j < |g.pipes| ==> g.pipes[j].gap == PIPE_GAP && Pipes.GapPlaced(g.pipes[j])
  }

  /** Every event keeps the invariant. */
  lemma StepPreservesInv(g: Game, e: Event)
    requires Inv(g) && Enabled(g, e)
    ensures Inv(Step(g, e))
  {
    match e
    case LoopStep(d) =>
      var r := Tick(g, d);
      if Active(g) {
        forall j | 0 <= j < |r.pipes|
          ensures r.pipes[j].gap == PIPE_GAP && Pipes.GapPlaced(r.pipes[j])
        {
          assert Advanced(g.pipes[j], r.pipes[j], d[j]);
          assert Pipes.ValidDraw(g.pipes[j], d[j]);
        }
      }
    case _ =>
  }

  /** Every valid run keeps the invariant, and a pool of three pipes stays three
      pipes: a start replaces it by three new ones, and nothing else changes its size. */
  lemma {:induction false} RunPreservesInv(g: Game, evs: seq<Event>)
    requires Inv(g) && ValidTrace(g, evs)
    ensures Inv(Run(g, evs))
    ensures |g.pipes| == PIPE_COUNT ==> |Run(g, evs).pipes| == PIPE_COUNT
    decreases |evs|
  {
    if |evs| > 0 {
      StepPreservesInv(g, evs[0]);
      RunPreservesInv(Step(g, evs[0]), evs[1..]);
    }
  }

  /** The corrected start keeps the invariant as well. */
  lemma CorrectedStartPreservesInv(g: Game, w: int, h: int, draws: seq<int>)
    requires Inv(g) && InitDraws(h, draws)
    ensures Inv(Start(g, w, h, draws))
  {
  }

  /** No event but a start re-shows the icon, and with the icon hidden the loop
      steps do nothing: a finished game keeps its pool, score and pass flag. */
  lemma {:induction false} OverIsAbsorbing(g: Game, evs: seq<Event>)
    requires ValidTrace(g, evs)
    requires !g.iconShown
    requires NoStart(evs)
    ensures !Run(g, evs).iconShown
    ensures Run(g, evs).pipes == g.pipes
    ensures Run(g, evs).points == g.points && Run(g, evs).hasPassed == g.hasPassed
    decreases |evs|
  {
    if |evs| > 0 {
      assert !evs[0].StartGame?;
      var g1 := Step(g, evs[0]);
      assert !g1.iconShown && g1.pipes == g.pipes && g1.points == g.points && g1.hasPassed == g.hasPassed;
      NoStartTail(evs);
      OverIsAbsorbing(g1, evs[1..]);
    }
  }

  /** Once a collision has been handled the score is 0 and stays 0 until the next start. */
  lemma CollisionZeroesScore(g: Game, evs: seq<Event>)
    requires g.running
    requires ValidTrace(HandleCollision(g), evs)
    requires NoStart(evs)
    ensures Run(HandleCollision(g), evs).points == 0
    ensures !Run(HandleCollision(g), evs).iconShown
  {
    OverIsAbsorbing(HandleCollision(g), evs);
  }
}
