/**
 * The canvas component's state: the particle pool and the time of the last
 * line burst, both updated in place by the frame callback.
 */
module Animator {
  import opened Particle
  import opened Motion

  class TriangleCanvas {
    /** The canvas size, as the resize handler last set it. */
    var width: nat
    var height: nat
    /** `trianglesRef.current` */
    var pool: seq<Triangle>
    /** `lastLineSpawnTime.current` */
    var lastLineSpawnTime: int

    /** Every particle in the pool is well formed. */
    ghost predicate Valid()
      reads this
    {
      forall t :: t in pool ==> WellFormed(t)
    }

    /** A mounted canvas of the given size: an empty pool and no burst yet. */
    constructor (width: nat, height: nat)
      ensures Valid()
      ensures this.width == width && this.height == height
      ensures pool == [] && lastLineSpawnTime == 0
    {
      this.width := width;
      this.height := height;
      pool := [];
      lastLineSpawnTime := 0;
    }

    /**
     * `createFlickeringLine`: appends ten flickering particles on the vertical
     * line at `x * width`, the i-th built from `draws(i)` at height `(height / 10) * i`.
     */
    method CreateFlickeringLine(x: Unit, draws: nat -> FlickerDraws, now: int)
      requires Valid()
      modifies this`pool
      ensures Valid()
      ensures pool == old(pool) + FlickerLine(width, height, Scale(x, width as real), draws, now)
    {
      var lineX := Scale(x, width as real);
      ghost var line := FlickerLine(width, height, lineX, draws, now);
      for i := 0 to TrianglesPerLine
        invariant pool == old(pool) + line[..i]
        invariant Valid()
      {
        assert line[i] == LineMember(width, height, lineX, i, draws(i), now);
        assert line[..i + 1] == line[..i] + [line[i]];
        pool := pool + [LineMember(width, height, lineX, i, draws(i), now)];
      }
      assert line[..TrianglesPerLine] == line;
    }

    /**
     * One frame of `render` at `currentTime`: decide whether a burst is due,
     * drop the expired particles, update the rest, and top the pool up to 55.
     * The burst's timer callbacks run after the frame, so its line is
     * appended last. `lineX` and `lineDraws` are the draws of a burst,
     * `topUp(k)` those of the k-th particle the top-up creates, and
     * `opacityOf` gives a flickering particle's opacity from its age.
     */
    method Render(currentTime: int, lineX: Unit, lineDraws: nat -> FlickerDraws,
                  opacityOf: int -> real, topUp: nat -> TriangleDraws)
      requires Valid()
      modifies this`pool, this`lastLineSpawnTime
      ensures Valid()
      ensures lastLineSpawnTime ==
        if BurstDue(currentTime, old(lastLineSpawnTime)) then currentTime else old(lastLineSpawnTime)
      ensures var burst := if BurstDue(currentTime, old(lastLineSpawnTime))
                           then FlickerLine(width, height, Scale(lineX, width as real), lineDraws, currentTime)
                           else [];
        pool == NextPool(old(pool), burst, currentTime, opacityOf, width, height, topUp)
      ensures |pool| >= MaxTriangles
    {
      var due := currentTime - lastLineSpawnTime > LineSpawnInterval;
      if due {
        lastLineSpawnTime := currentTime;
      }

      var live := Survivors(pool, currentTime);
      UpdateAllWellFormed(live, currentTime, opacityOf, width, height);
      pool := UpdateAll(live, currentTime, opacityOf, width, height);
      TopUp(topUp, currentTime);
      if due {
        CreateFlickeringLine(lineX, lineDraws, currentTime);
      }
    }

    /**
     * The `while` loop at the end of `render`: appends fresh ordinary particles,
     * the k-th built from `draws(k)`, until the pool holds 55.
     */
    method TopUp(draws: nat -> TriangleDraws, now: int)
      requires Valid()
      modifies this`pool
      ensures Valid()
      ensures pool == Replenish(old(pool), width, height, draws, now)
    {
      ghost var target := Replenish(pool, width, height, draws, now);
      ghost var n := |pool|;
      var k := 0;
      while |pool| < MaxTriangles
        invariant k <= Shortfall(n)
        invariant |pool| == n + k
        invariant pool == target[..n + k]
        decreases MaxTriangles - |pool|
      {
        assert target[n + k] == CreateRandomTriangle(width, height, false, draws(k), now);
        assert target[..n + k + 1] == target[..n + k] + [target[n + k]];
        pool := pool + [CreateRandomTriangle(width, height, false, draws(k), now)];
        k := k + 1;
      }
      assert pool == target;
    }
  }
}
