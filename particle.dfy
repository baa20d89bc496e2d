/**
 * The particle record of the triangle canvas, its constants, and the two
 * constructors that give new particles their shape.
 *
 * Every call of `Math.random()` becomes a field of a draws record whose type
 * `Unit` is the half-open interval [0, 1); the wall clock becomes a parameter.
 */
module Particle {

  /** A value drawn from `Math.random()`. */
  type Unit = r: real | 0.0 <= r < 1.0

  datatype Option<T> = None | Some(value: T)

  const MaxTriangles: nat := 55
  const FlickerDuration: int := 2000
  const LineSpawnInterval: int := 5000
  const TrianglesPerLine: nat := 10
  const TrailChance: real := 0.1
  const TrailLength: nat := 5

  const SmallSpeedMultiplier: real := 2.0
  const LargeSpeedMultiplier: real := 0.5
  const MaxSpeed: real := 0.5
  const MaxSpawnDelay: real := 3000.0
  const FlickerSize: real := 50.0
  /** The shortest decimal that rounds to the double `Math.PI`. */
  const Pi: real := 3.141592653589793

  const White: string := "rgb(255, 255, 255)"
  const ColorPalette: seq<string> := [
    "rgb(96, 96, 96)", "rgb(92, 92, 92)", "rgb(99, 99, 99)",
    "rgb(147, 147, 147)", "rgb(193, 193, 193)", White
  ]

  /** One recorded position of a trailing particle. */
  datatype TrailPoint = TrailPoint(x: real, y: real, angle: real)

  /**
   * A particle. The optional fields of the source record are total here:
   * an absent `isFlickering` or `hasTrail` is `false`, an absent trail is `[]`,
   * an absent `flickerStartTime` is `None`.
   */
  datatype Triangle = Triangle(
    size: real,
    centerX: real,
    centerY: real,
    rotationSpeed: real,
    angle: real,
    color: string,
    velocityX: real,
    velocityY: real,
    spawnDelay: real,
    isFlickering: bool,
    flickerStartTime: Option<int>,
    opacity: real,
    hasTrail: bool,
    trail: seq<TrailPoint>)

  /** The random draws `createRandomTriangle` makes, one field per call. */
  datatype TriangleDraws = TriangleDraws(
    size: Unit, x: Unit, y: Unit, color: Unit, rotation: Unit,
    vx: Unit, vy: Unit, delay: Unit, trail: Unit, angle: Unit, opacity: Unit)

  /** The random draws `createRandomFlickerTriangle` makes. */
  datatype FlickerDraws = FlickerDraws(
    opacity: Unit, xCoin: Unit, x: Unit, yCoin: Unit, y: Unit, angle: Unit)

  /**
   * What every particle the canvas ever holds satisfies: a bounded trail,
   * a trail only on a non-flickering particle, an empty trail when there is
   * none, flickering particles at rest, and a size no smaller than 50.
   */
  predicate WellFormed(t: Triangle)
  {
    |t.trail| <= TrailLength &&
    (t.hasTrail ==> !t.isFlickering) &&
    (!t.hasTrail ==> t.trail == []) &&
    (t.isFlickering ==> t.velocityX == 0.0 && t.velocityY == 0.0) &&
    t.size >= FlickerSize
  }

  function Min(a: nat, b: nat): nat
  {
    if a <= b then a else b
  }

  /**
   * The speed multiplier of a particle: large particles (more than half the
   * smaller canvas side) move slower. A zero side makes the source's ratio
   * an IEEE infinity (or NaN for a zero size), which this reproduces.
   */
  function SpeedFactor(size: real, width: nat, height: nat): (f: real)
    ensures f == LargeSpeedMultiplier || f == SmallSpeedMultiplier
  {
    var m := Min(width, height) as real;
    if m == 0.0 then
      (if size > 0.0 then LargeSpeedMultiplier else SmallSpeedMultiplier)
    else if size / m > 0.5 then LargeSpeedMultiplier
    else SmallSpeedMultiplier
  }

  /** The speed factor compares the size with half the smaller side, without a division. */
  lemma SpeedFactorThreshold(size: real, width: nat, height: nat)
    ensures SpeedFactor(size, width, height) ==
            if size > Min(width, height) as real / 2.0 then LargeSpeedMultiplier
            else SmallSpeedMultiplier
  {
    var m := Min(width, height) as real;
    if m > 0.0 {
      HalfThreshold(size, m);
    }
  }

  /** `size / m > 0.5` holds exactly when `size > m / 2`, for a positive `m`. */
  lemma HalfThreshold(size: real, m: real)
    requires m > 0.0
    ensures size / m > 0.5 <==> size > m / 2.0
  {
    var q := size / m;
    assert size == q * m;
    if q > 0.5 {
      ProductSign(q - 0.5, m);
      assert (q - 0.5) * m == size - m / 2.0;
    } else {
      ProductSign(0.5 - q, m);
      assert (0.5 - q) * m == m / 2.0 - size;
    }
  }

  lemma ProductSign(a: real, b: real)
    requires a >= 0.0 && b >= 0.0
    ensures a * b >= 0.0
    ensures a > 0.0 && b > 0.0 ==> a * b > 0.0
  {}

  /** `Math.random() * extent`: within [0, extent], and below `extent` when it is positive. */
  function Scale(r: Unit, extent: real): (p: real)
    requires extent >= 0.0
    ensures 0.0 <= p <= extent
    ensures extent > 0.0 ==> p < extent
  {
    ProductSign(r, extent);
    ProductSign(1.0 - r, extent);
    assert extent - r * extent == (1.0 - r) * extent;
    r * extent
  }

  /** `(Math.random() - 0.5) * k`: within [-k/2, k/2) for a positive `k`. */
  function Centered(r: Unit, k: real): (p: real)
    requires k > 0.0
    ensures -k / 2.0 <= p < k / 2.0
  {
    var q := Scale(r, k);
    assert (r - 0.5) * k == r * k - k / 2.0;
    (r - 0.5) * k
  }

  /** The palette entry that a draw picks: the draw scaled to the palette's length, rounded down, used as an index. */
  function PaletteColor(r: Unit): (c: string)
    ensures c in ColorPalette
  {
    var i := Scale(r, |ColorPalette| as real).Floor;
    ColorPalette[i]
  }

  /**
   * `createRandomTriangle(width, height, isFlickering)`; `now` stands for the
   * `Date.now()` the constructor reads for a flickering particle.
   */
  function CreateRandomTriangle(width: nat, height: nat, isFlickering: bool,
                                d: TriangleDraws, now: int): (t: Triangle)
    ensures WellFormed(t)
    ensures t.isFlickering == isFlickering
    ensures isFlickering ==>
      t.size == FlickerSize && t.velocityX == 0.0 && t.velocityY == 0.0 &&
      t.color == White && !t.hasTrail && t.flickerStartTime == Some(now)
    ensures !isFlickering ==>
      FlickerSize <= t.size <= FlickerSize + 0.6 * Min(width, height) as real &&
      (Min(width, height) > 0 ==> t.size < FlickerSize + 0.6 * Min(width, height) as real) &&
      t.flickerStartTime == None && t.opacity == 1.0
    ensures t.color in ColorPalette
    ensures t.hasTrail <==> !isFlickering && d.trail < TrailChance
    ensures t.trail == []
    ensures 0.0 <= t.centerX <= width as real && 0.0 <= t.centerY <= height as real
    ensures 0.0 <= t.spawnDelay < MaxSpawnDelay
    ensures var f := SpeedFactor(t.size, width, height);
      -1.5 * MaxSpeed * f <= t.velocityX <= 1.5 * MaxSpeed * f &&
      -1.5 * MaxSpeed * f <= t.velocityY <= 1.5 * MaxSpeed * f &&
      -0.005 * f <= t.rotationSpeed < 0.005 * f
  {
    var m := Min(width, height) as real;
    var size := if isFlickering then FlickerSize else Scale(d.size, m * 0.6) + FlickerSize;
    var f := SpeedFactor(size, width, height);
    Triangle(
      size := size,
      centerX := Scale(d.x, width as real),
      centerY := Scale(d.y, height as real),
      rotationSpeed := Centered(d.rotation, 0.01 * f),
      angle := d.angle * Pi * 2.0,
      color := if isFlickering then White else PaletteColor(d.color),
      velocityX := if isFlickering then 0.0 else Centered(d.vx, 3.0 * MaxSpeed * f),
      velocityY := if isFlickering then 0.0 else Centered(d.vy, 3.0 * MaxSpeed * f),
      spawnDelay := Scale(d.delay, MaxSpawnDelay),
      isFlickering := isFlickering,
      flickerStartTime := if isFlickering then Some(now) else None,
      opacity := if isFlickering then d.opacity else 1.0,
      hasTrail := !isFlickering && d.trail < TrailChance,
      trail := [])
  }

  /**
   * `createRandomFlickerTriangle(width, height)`: a white, stationary, non-rotating
   * particle of size 50 that starts flickering at `now`, placed at a random
   * point or on the left or bottom edge.
   */
  function CreateRandomFlickerTriangle(width: nat, height: nat, d: FlickerDraws,
                                       now: int): (t: Triangle)
    ensures WellFormed(t)
    ensures t.isFlickering && t.flickerStartTime == Some(now)
    ensures t.size == FlickerSize && t.color == White
    ensures t.velocityX == 0.0 && t.velocityY == 0.0 && t.rotationSpeed == 0.0
    ensures t.spawnDelay == 0.0 && !t.hasTrail && t.trail == []
    ensures 0.0 <= t.opacity < 1.0
    ensures 0.0 <= t.centerX <= width as real && 0.0 <= t.centerY <= height as real
    ensures d.xCoin <= 0.5 ==> t.centerX == 0.0
    ensures d.yCoin <= 0.5 ==> t.centerY == height as real
  {
    Triangle(
      size := FlickerSize,
      centerX := if d.xCoin > 0.5 then Scale(d.x, width as real) else 0.0,
      centerY := if d.yCoin > 0.5 then Scale(d.y, height as real) else height as real,
      rotationSpeed := 0.0,
      angle := d.angle * Pi * 2.0,
      color := White,
      velocityX := 0.0,
      velocityY := 0.0,
      spawnDelay := 0.0,
      isFlickering := true,
      flickerStartTime := Some(now),
      opacity := d.opacity,
      hasTrail := false,
      trail := [])
  }
}
