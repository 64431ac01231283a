/**
 * The wave displacement of `updateAnimation`
 * (src/components/three/TextRenderer.tsx, lines 163-199).
 *
 * The cycle lasts 0.1 time units per mesh. Mesh i owns the window
 * [i*0.1, i*0.1 + 0.2) of the cycle; inside it the mesh rises and falls on a
 * triangular 0 -> 1 -> 0 profile scaled by twice the font size, outside it the
 * mesh rests at its original height.
 */
module Wave {
  import opened GlyphLayout
  import opened Arith

  /** Delay between the windows of neighbouring meshes. */
  const Stagger: real := 0.1
  /** Length of each mesh's window. */
  const WindowLength: real := 0.2
  /** Peak displacement, as a multiple of the font size. */
  const PeakFactor: real := 2.0

  /** Milliseconds of cycle per mesh (0.1 s). */
  const StaggerMs: nat := 100

  /** Position within the current cycle, in seconds, for `count` meshes at
      wall-clock `nowMs` milliseconds. `time % totalDuration` on a non-negative
      time is the ordinary remainder, which the millisecond clock makes exact. */
  function CycleTime(nowMs: nat, count: nat): (c: real)
    requires count > 0
    ensures 0.0 <= c < count as real * Stagger
  {
    ((nowMs % (count * StaggerMs)) as real) / 1000.0
  }

  predicate InWindow(cycleTime: real, index: nat)
  {
    index as real * Stagger <= cycleTime < index as real * Stagger + WindowLength
  }

  /** How far through its window mesh `index` is, from 0 to 1. */
  function Progress(cycleTime: real, index: nat): real
  {
    (cycleTime - index as real * Stagger) / WindowLength
  }

  /** The triangular profile: up on the first half, down on the second. */
  function Triangle(p: real): (r: real)
    ensures 0.0 <= p <= 1.0 ==> 0.0 <= r <= 1.0
    ensures 0.0 <= p <= 1.0 ==> (r == 1.0 <==> p == 0.5)
    ensures p <= 0.5 ==> r == 2.0 * p
  {
    if p <= 0.5 then p * 2.0 else 2.0 - p * 2.0
  }

  /** Height of mesh `index` at `cycleTime`, from its resting height. */
  function WaveY(originalY: real, cycleTime: real, index: nat, fontSize: real): real
  {
    if InWindow(cycleTime, index) then
      originalY + fontSize * PeakFactor * Triangle(Progress(cycleTime, index))
    else originalY
  }

  /** The mesh after one animation frame moves it to its wave height. */
  function Lift(m: Mesh, cycleTime: real, index: nat, fontSize: real): Mesh
  {
    m.(position := m.position.(y := WaveY(m.originalY, cycleTime, index, fontSize)))
  }

  /** Inside its window a mesh sits at originalY + fontSize*2*p with p in [0, 1]. */
  lemma InsideWindow(originalY: real, cycleTime: real, index: nat, fontSize: real)
    requires InWindow(cycleTime, index)
    ensures 0.0 <= Progress(cycleTime, index) < 1.0
    ensures var p := Triangle(Progress(cycleTime, index));
      0.0 <= p <= 1.0 && WaveY(originalY, cycleTime, index, fontSize) == originalY + fontSize * 2.0 * p
  {
  }

  /** At the midpoint of its window a mesh is at its peak, fontSize*2 above rest. */
  lemma PeakAtMidpoint(originalY: real, index: nat, fontSize: real)
    ensures WaveY(originalY, index as real * Stagger + WindowLength / 2.0, index, fontSize)
            == originalY + fontSize * 2.0
  {
  }

  /** Outside its window a mesh is at its resting height. */
  lemma RestsOutsideWindow(originalY: real, cycleTime: real, index: nat, fontSize: real)
    requires !InWindow(cycleTime, index)
    ensures WaveY(originalY, cycleTime, index, fontSize) == originalY
  {
  }

  /** Only neighbouring meshes are ever raised together. */
  lemma WindowsOverlapOnlyNeighbours(cycleTime: real, i: nat, j: nat)
    requires InWindow(cycleTime, i) && InWindow(cycleTime, j)
    ensures i - 1 <= j <= i + 1
  {
  }

  /** The cycle repeats: one full duration later the cycle position is the same. */
  lemma {:induction false} CycleRepeats(nowMs: nat, count: nat)
    requires count > 0
    ensures CycleTime(nowMs + count * StaggerMs, count) == CycleTime(nowMs, count)
  {
    ModAddDivisor(nowMs, count * StaggerMs);
  }

  /** The window of the last mesh runs past the end of the cycle: the last
      mesh only ever travels the rising half of its profile and never reaches
      its peak before the cycle restarts. */
  lemma LastMeshOnlyRises(nowMs: nat, count: nat, originalY: real, fontSize: real)
    requires count > 0 && fontSize > 0.0
    ensures var c := CycleTime(nowMs, count);
      && (InWindow(c, count - 1) ==> Progress(c, count - 1) < 0.5)
      && WaveY(originalY, c, count - 1, fontSize) < originalY + fontSize * 2.0
  {
    var c := CycleTime(nowMs, count);
    var base := (count - 1) as real * Stagger;
    assert count as real * Stagger == base + Stagger;
    if InWindow(c, count - 1) {
      var d := c - base;
      assert 0.0 <= d < Stagger;
      assert Progress(c, count - 1) == d / WindowLength < 0.5;
      var t := Triangle(d / WindowLength);
      assert t < 1.0;
      ScaleBelow(fontSize * PeakFactor, t);
    }
  }

  /** Scaling a positive amount by a factor below one makes it smaller. */
  lemma ScaleBelow(a: real, t: real)
    requires a > 0.0 && t < 1.0
    ensures a * t < a
  {
    assert a - a * t == a * (1.0 - t);
    assert a * (1.0 - t) > 0.0;
  }
}
