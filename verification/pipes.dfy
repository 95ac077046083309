/** A pipe pair: one obstacle with a top and a bottom half separated by a gap,
    scrolling left at a fixed speed. */
module Pipes {

  import opened JavaMath
  import opened Geometry

  const WIDTH := 75
  const SPEED := 7
  /** The distance Pipe keeps between the gap and either screen edge, on top of the gap itself. */
  const MARGIN := 100

  /** `gapY` is the y at which the top half ends and the gap begins. */
  datatype Pipe = Pipe(x: int, gapY: int, gap: int, screenHeight: int, screenWidth: int)

  function MinGapY(gap: int): int { gap + MARGIN }

  function MaxGapY(screenHeight: int, gap: int): int { screenHeight - gap - MARGIN }

  /** The bound handed to Random.nextInt: the spread of gap positions, widened to 1
      when the screen is too small to hold the gap and both margins. */
  function GapRange(screenHeight: int, gap: int): (n: int)
    ensures n >= 1
    ensures n >= MaxGapY(screenHeight, gap) - MinGapY(gap)
    ensures n == 1 || n == screenHeight - 2 * gap - 200
  {
    Max(1, MaxGapY(screenHeight, gap) - MinGapY(gap))
  }

  /** `r` is a possible result of Random.nextInt(GapRange(...)) for this pipe. */
  predicate ValidDraw(p: Pipe, r: int) {
    0 <= r < GapRange(p.screenHeight, p.gap)
  }

  /** The gap lies where resetPosition can put it. */
  predicate GapPlaced(p: Pipe) {
    MinGapY(p.gap) <= p.gapY < MinGapY(p.gap) + GapRange(p.screenHeight, p.gap)
  }

  /** Moves the pipe to `startX` and draws a new gap position. */
  function ResetPosition(p: Pipe, startX: int, r: int): (q: Pipe)
    requires ValidDraw(p, r)
    ensures q.x == startX
    ensures q.gapY - p.gap - 100 == r
    ensures q.gap == p.gap && q.screenHeight == p.screenHeight && q.screenWidth == p.screenWidth
    ensures GapPlaced(q)
  {
    p.(x := startX, gapY := MinGapY(p.gap) + r)
  }

  /** The constructor: stores the screen and gap, then places the gap by resetPosition. */
  function New(startX: int, screenHeight: int, screenWidth: int, gap: int, r: int): (p: Pipe)
    requires 0 <= r < GapRange(screenHeight, gap)
    ensures p.x == startX && p.screenHeight == screenHeight && p.screenWidth == screenWidth
    ensures p.gap == gap && p.gapY == gap + 100 + r
    ensures GapPlaced(p)
  {
    ResetPosition(Pipe(startX, 0, gap, screenHeight, screenWidth), startX, r)
  }

  /** One scroll step: only x changes. */
  function Update(p: Pipe): (q: Pipe)
    ensures q.x == p.x - 7
    ensures q.gapY == p.gapY && q.gap == p.gap
    ensures q.screenHeight == p.screenHeight && q.screenWidth == p.screenWidth
  {
    p.(x := p.x - SPEED)
  }

  /** The top half: the pipe's column from the top of the screen down to the gap. */
  function TopShape(p: Pipe): (r: Rect)
    ensures forall px, py :: r.Contains(px, py) <==> p.x <= px < p.x + 75 && 0 <= py < p.gapY
  {
    Rect(p.x, 0, p.x + WIDTH, p.gapY)
  }

  /** The bottom half: the pipe's column from the end of the gap down to the screen's bottom. */
  function BottomShape(p: Pipe): (r: Rect)
    ensures forall px, py :: r.Contains(px, py) <==> p.x <= px < p.x + 75 && p.gapY + p.gap <= py < p.screenHeight
  {
    Rect(p.x, p.gapY + p.gap, p.x + WIDTH, p.screenHeight)
  }

  /** The two halves are equally wide, share their left edge, reach the top and
      bottom of the screen, end and start at the two edges of the gap, and are
      exactly `gap` apart, so they never overlap. */
  lemma ShapesFrameGap(p: Pipe)
    ensures TopShape(p).Width() == 75 && BottomShape(p).Width() == 75
    ensures TopShape(p).left == BottomShape(p).left == p.x
    ensures TopShape(p).top == 0 && BottomShape(p).bottom == p.screenHeight
    ensures TopShape(p).bottom == p.gapY && BottomShape(p).top == p.gapY + p.gap
    ensures BottomShape(p).top - TopShape(p).bottom == p.gap
    ensures p.gap > 0 ==> !Intersects(TopShape(p), BottomShape(p))
  {
  }

  /** When the screen leaves room for the margins, the gap ends more than the
      margin above the bottom, so the bottom half is taller than the margin. */
  lemma ValidRangeClearance(p: Pipe)
    requires GapPlaced(p)
    requires MaxGapY(p.screenHeight, p.gap) - MinGapY(p.gap) >= 1
    ensures p.gapY + p.gap < p.screenHeight - 100
    ensures BottomShape(p).Height() > 100
  {
  }

  /** On a screen too small for the margins the gap sits at its lowest start, gap + 100. */
  lemma DegenerateRange(p: Pipe)
    requires GapPlaced(p)
    requires p.screenHeight - 2 * p.gap - 200 <= 1
    ensures p.gapY == p.gap + 100
  {
  }

  /** Scrolling never moves the gap: only ResetPosition does. */
  lemma UpdateKeepsGap(p: Pipe)
    requires GapPlaced(p)
    ensures GapPlaced(Update(p)) && Update(p).gapY == p.gapY
    ensures TopShape(Update(p)) == Rect(p.x - 7, 0, p.x + 68, p.gapY)
  {
  }
}
