/** How recycling a pipe depends on where it sits in the pool: the new place is
    computed from the pool as it stands at that moment of the step, when the
    pipes before it have already moved and the ones after it have not. */
module Recycling {

  import Pipes
  import opened Session

  /** The largest x is the one that is at least every other and at least -1. */
  lemma RightmostIs(pipes: seq<Pipes.Pipe>, k: nat)
    requires k < |pipes| && pipes[k].x >= -1
    requires forall j :: 0 <= j < |pipes| ==> pipes[j].x <= pipes[k].x
    ensures Rightmost(pipes) == pipes[k].x
  {
  }

  /** Pipe 0 recycled while pipe 2 leads: pipe 2 has not moved yet, so pipe 0
      lands 400 right of pipe 2's old place, and 407 right of where pipe 2 ends the step. */
  lemma FirstSlotRecycledAheadOfUnmoved(s: Pool, y: int, draws: seq<int>)
    requires ValidDraws(s.pipes, draws) && |s.pipes| == 3
    requires OffScreen(Pipes.Update(s.pipes[0]))
    requires !OffScreen(Pipes.Update(s.pipes[1])) && !OffScreen(Pipes.Update(s.pipes[2]))
    requires s.pipes[1].x <= s.pipes[2].x && s.pipes[2].x >= -1
    ensures UpdatePipes(s, y, draws).pipes[0].x == s.pipes[2].x + 400
    ensures UpdatePipes(s, y, draws).pipes[0].x - UpdatePipes(s, y, draws).pipes[2].x == 407
  {
    var s1 := StepPipe(s, 0, y, draws[0]);
    var moved := s.pipes[0 := Pipes.Update(s.pipes[0])];
    RightmostIs(moved, 2);
    assert s1.pipes[0].x == s.pipes[2].x + 400;
    var r := UpdatePipesFrom(s1, 1, y, draws);
    assert UpdatePipes(s, y, draws) == r;
    assert r.pipes[0] == s1.pipes[0];
    assert Advanced(s1.pipes[2], r.pipes[2], draws[2]);
  }

  /** Pipe 2 recycled while pipe 1 leads: pipe 1 has already moved, so pipe 2
      lands exactly 400 right of where pipe 1 ends the step. */
  lemma LastSlotRecycledAheadOfMoved(s: Pool, y: int, draws: seq<int>)
    requires ValidDraws(s.pipes, draws) && |s.pipes| == 3
    requires OffScreen(Pipes.Update(s.pipes[2]))
    requires !OffScreen(Pipes.Update(s.pipes[0])) && !OffScreen(Pipes.Update(s.pipes[1]))
    requires s.pipes[0].x <= s.pipes[1].x && s.pipes[1].x >= 6
    ensures UpdatePipes(s, y, draws).pipes[2].x - UpdatePipes(s, y, draws).pipes[1].x == 400
  {
    var s1 := StepPipe(s, 0, y, draws[0]);
    var s2 := StepPipe(s1, 1, y, draws[1]);
    assert s2.pipes[1] == Pipes.Update(s.pipes[1]);
    var s3 := StepPipe(s2, 2, y, draws[2]);
    var moved := s2.pipes[2 := Pipes.Update(s2.pipes[2])];
    RightmostIs(moved, 1);
    assert UpdatePipes(s, y, draws) == UpdatePipesFrom(s1, 1, y, draws);
    assert UpdatePipesFrom(s1, 1, y, draws) == UpdatePipesFrom(s2, 2, y, draws);
    assert UpdatePipesFrom(s2, 2, y, draws) == UpdatePipesFrom(s3, 3, y, draws) == s3;
  }
}
