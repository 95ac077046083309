/** Scoring over runs of events: however the player taps, pauses and resumes,
    one pass of pipe 0 scores at most one point. */
module Passes {

  import Pipes
  import opened Session
  import opened Traces

  /** The points scored so far plus one if the current pass of pipe 0 can still score. */
  function Potential(g: Game): int {
    g.points + (if g.hasPassed then 0 else 1)
  }

  /** While pipe 0 stays on screen a loop step never raises the potential, and
      keeps it exactly unless the step ends the game. */
  lemma TickPotential(g: Game, d: seq<int>)
    requires ValidDraws(g.pipes, d)
    requires g.points >= 0 && |g.pipes| > 0
    requires !OffScreen(Pipes.Update(g.pipes[0]))
    ensures Potential(Tick(g, d)) <= Potential(g)
    ensures Tick(g, d).running ==> Potential(Tick(g, d)) == Potential(g)
    ensures Tick(g, d).iconShown ==> g.iconShown && Potential(Tick(g, d)) == Potential(g)
    ensures Tick(g, d).points >= 0
    ensures Tick(g, d).pipes[0].x >= g.pipes[0].x - 7
  {
    if Active(g) {
      TickScoring(g, d);
      assert Advanced(g.pipes[0], Tick(g, d).pipes[0], d[0]);
    }
  }

  /** The same over any run without a start in which pipe 0 cannot leave the
      screen, taps, pauses, resumes and play presses included: the potential
      never rises, and it is kept exactly while the icon is still shown. Only
      the active loop steps move pipe 0, so only they use up its way across. */
  lemma {:induction false} RunPotential(g: Game, evs: seq<Event>)
    requires ValidTrace(g, evs) && NoStart(evs)
    requires g.points >= 0 && |g.pipes| > 0
    requires 7 * ActiveSteps(g, evs) <= g.pipes[0].x + 75
    ensures |Run(g, evs).pipes| == |g.pipes|
    ensures Run(g, evs).pipes[0].x >= g.pipes[0].x - 7 * ActiveSteps(g, evs)
    ensures Run(g, evs).points >= 0
    ensures Potential(Run(g, evs)) <= Potential(g)
    ensures Run(g, evs).iconShown ==> g.iconShown && Potential(Run(g, evs)) == Potential(g)
    decreases |evs|
  {
    if |evs| > 0 {
      var g1 := Step(g, evs[0]);
      if evs[0].LoopStep? {
        if Active(g) {
          TickPotential(g, evs[0].stepDraws);
        } else {
          assert g1 == g.(looping := false);
        }
      }
      NoStartTail(evs);
      RunPotential(g1, evs[1..]);
    }
  }

  /** However the player steers the icon, the pass of pipe 0 scores at most one
      point, and none if it was already counted. The pass lasts up to and
      including the loop step that recycles pipe 0, which may still score. */
  lemma {:induction false} AtMostOnePointPerPass(g: Game, evs: seq<Event>)
    requires ValidTrace(g, evs) && NoStart(evs)
    requires g.points >= 0 && |g.pipes| > 0
    requires 7 * ActiveSteps(g, evs) <= g.pipes[0].x + 82
    ensures Run(g, evs).points <= g.points + 1
    ensures g.hasPassed ==> Run(g, evs).points <= g.points
    ensures ActiveSteps(g, evs) == 0 ==> Run(g, evs).points == g.points
    decreases |evs|
  {
    if |evs| > 0 {
      var g1 := Step(g, evs[0]);
      NoStartTail(evs);
      if evs[0].LoopStep? {
        var d := evs[0].stepDraws;
        if !Active(g) {
          assert g1 == g.(looping := false);
          AtMostOnePointPerPass(g1, evs[1..]);
        } else if OffScreen(Pipes.Update(g.pipes[0])) {
          TickScoring(g, d);
          assert Advanced(g.pipes[0], g1.pipes[0], d[0]);
          AtMostOnePointPerPass(g1, evs[1..]);
        } else {
          TickPotential(g, d);
          AtMostOnePointPerPass(g1, evs[1..]);
        }
      } else {
        AtMostOnePointPerPass(g1, evs[1..]);
      }
    }
  }

  /** A step in which the icon clears pipe 0 and survives brings the score up
      to the potential: the pass is counted now if it was not counted before. */
  lemma ClearingRealizesPotential(g: Game, d: seq<int>)
    requires ValidDraws(g.pipes, d)
    requires g.points >= 0 && |g.pipes| > 0
    requires Active(g) && Cleared(Pipes.Update(g.pipes[0]), SyncedY(g))
    ensures Tick(g, d).running ==> Tick(g, d).points == Potential(g)
  {
    TickScoring(g, d);
  }
}
