/**
 * The terrain-map generator's constants, its `Region` record, the
 * coastline threshold and the mountain step that lifts a region's
 * direct neighbours.
 *
 * Every grid the pipeline resizes comes back from the image resizer as
 * bytes, so byte grids are arrays of the subset type `byte`; the
 * floating-point grids are arrays of `real`.
 */
module WorldGen {
  type byte = x: int | 0 <= x < 256

  const MAP_WIDTH: real := 2.0
  const MAP_HEIGHT: real := 1.0

  const IMAGE_WIDTH: nat := 1024
  const IMAGE_HEIGHT: nat := IMAGE_WIDTH / 2
  const NGRID_X: nat := 1024
  const NGRID_Y: nat := NGRID_X / 2

  // Biome codes.
  const OCEAN := 0
  const BARE := 1
  const TROPICAL_RAINFOREST := 2
  const TROPICAL_SEASONAL_FOREST := 3
  const SAVANNAH := 4
  const DESERT := 5
  const TEMPERATE_RAINFOREST := 6
  const TEMPERATE_FOREST := 7
  const WOODLAND := 8
  const GRASSLAND := 9
  const TAIGA := 10
  const TUNDRA := 11
  const SNOW := 12

  const SHADOW_STRENGTH := 2

  predicate IsBiome(b: int) {
    OCEAN <= b <= SNOW
  }

  /** One Voronoi cell of the map. */
  class Region {
    var coords: (real, real)
    var vertices: seq<(real, real)>
    var elevation: real
    var vertexElevations: seq<real>
    var water: bool
    var biome: int
    var neighbours: seq<Region>
    var visited: bool

    /** A fresh region: below sea level, one zero per vertex, bare land, no neighbours. */
    constructor (coords: (real, real), vertices: seq<(real, real)>)
      ensures this.coords == coords && this.vertices == vertices
      ensures elevation == -1.0
      ensures |vertexElevations| == |vertices|
      ensures forall k :: 0 <= k < |vertexElevations| ==> vertexElevations[k] == 0.0
      ensures !water && biome == BARE && !visited
      ensures neighbours == []
    {
      this.coords := coords;
      this.vertices := vertices;
      elevation := -1.0;
      vertexElevations := seq(|vertices|, _ => 0.0);
      water := false;
      biome := BARE;
      neighbours := [];
      visited := false;
    }
  }

  // ---------------------------------------------------------------------
  // Coastline

  /** A cell after `data[data < waterLevel] = 0` and then `data[data > 0] = 1`. */
  function CoastValue(v: real, waterLevel: real): (r: real)
    ensures r == 1.0 <==> v >= waterLevel && v > 0.0
    ensures waterLevel > 0.0 ==> (r == 0.0 || r == 1.0) && (r == 0.0 <==> v < waterLevel)
  {
    var low := if v < waterLevel then 0.0 else v;
    if low > 0.0 then 1.0 else low
  }

  /** First masked assignment of the threshold: cells below the water level become 0. */
  method ZeroBelow(data: array2<real>, waterLevel: real)
    modifies data
    ensures forall i, j :: 0 <= i < data.Length0 && 0 <= j < data.Length1 ==>
      data[i, j] == (if old(data[i, j]) < waterLevel then 0.0 else old(data[i, j]))
  {
    for i := 0 to data.Length0
      invariant forall r, c :: 0 <= r < i && 0 <= c < data.Length1 ==>
        data[r, c] == (if old(data[r, c]) < waterLevel then 0.0 else old(data[r, c]))
      invariant forall r, c :: i <= r < data.Length0 && 0 <= c < data.Length1 ==>
        data[r, c] == old(data[r, c])
    {
      for j := 0 to data.Length1
        invariant forall r, c :: 0 <= r < i && 0 <= c < data.Length1 ==>
          data[r, c] == (if old(data[r, c]) < waterLevel then 0.0 else old(data[r, c]))
        invariant forall c :: 0 <= c < j ==>
          data[i, c] == (if old(data[i, c]) < waterLevel then 0.0 else old(data[i, c]))
        invariant forall c :: j <= c < data.Length1 ==> data[i, c] == old(data[i, c])
        invariant forall r, c :: i < r < data.Length0 && 0 <= c < data.Length1 ==>
          data[r, c] == old(data[r, c])
      {
        if data[i, j] < waterLevel {
          data[i, j] := 0.0;
        }
      }
    }
  }

  /** Second masked assignment of the threshold: positive cells become 1. */
  method OneAbove(data: array2<real>)
    modifies data
    ensures forall i, j :: 0 <= i < data.Length0 && 0 <= j < data.Length1 ==>
      data[i, j] == (if old(data[i, j]) > 0.0 then 1.0 else old(data[i, j]))
  {
    for i := 0 to data.Length0
      invariant forall r, c :: 0 <= r < i && 0 <= c < data.Length1 ==>
        data[r, c] == (if old(data[r, c]) > 0.0 then 1.0 else old(data[r, c]))
      invariant forall r, c :: i <= r < data.Length0 && 0 <= c < data.Length1 ==>
        data[r, c] == old(data[r, c])
    {
      for j := 0 to data.Length1
        invariant forall r, c :: 0 <= r < i && 0 <= c < data.Length1 ==>
          data[r, c] == (if old(data[r, c]) > 0.0 then 1.0 else old(data[r, c]))
        invariant forall c :: 0 <= c < j ==>
          data[i, c] == (if old(data[i, c]) > 0.0 then 1.0 else old(data[i, c]))
        invariant forall c :: j <= c < data.Length1 ==> data[i, c] == old(data[i, c])
        invariant forall r, c :: i < r < data.Length0 && 0 <= c < data.Length1 ==>
          data[r, c] == old(data[r, c])
      {
        if data[i, j] > 0.0 {
          data[i, j] := 1.0;
        }
      }
    }
  }

  /** The coastline threshold: every cell becomes its `CoastValue`. */
  method Threshold(data: array2<real>, waterLevel: real)
    modifies data
    ensures forall i, j :: 0 <= i < data.Length0 && 0 <= j < data.Length1 ==>
      data[i, j] == CoastValue(old(data[i, j]), waterLevel)
  {
    ZeroBelow(data, waterLevel);
    OneAbove(data);
  }

  /** `coastline * elevation`, cell by cell, into a new grid. */
  method Mask(coastline: array2<real>, elevation: array2<real>) returns (out: array2<real>)
    requires coastline.Length0 == elevation.Length0 && coastline.Length1 == elevation.Length1
    ensures fresh(out)
    ensures out.Length0 == elevation.Length0 && out.Length1 == elevation.Length1
    ensures forall i, j :: 0 <= i < out.Length0 && 0 <= j < out.Length1 ==>
      out[i, j] == coastline[i, j] * elevation[i, j]
  {
    out := new real[elevation.Length0, elevation.Length1];
    for i := 0 to out.Length0
      invariant forall r, c :: 0 <= r < i && 0 <= c < out.Length1 ==>
        out[r, c] == coastline[r, c] * elevation[r, c]
    {
      for j := 0 to out.Length1
        invariant forall r, c :: 0 <= r < i && 0 <= c < out.Length1 ==>
          out[r, c] == coastline[r, c] * elevation[r, c]
        invariant forall c :: 0 <= c < j ==> out[i, c] == coastline[i, c] * elevation[i, c]
      {
        out[i, j] := coastline[i, j] * elevation[i, j];
      }
    }
  }

  /** With a positive water level, masking keeps land elevation and zeroes the sea. */
  lemma MaskedCell(v: real, waterLevel: real, e: real)
    requires waterLevel > 0.0
    ensures v < waterLevel ==> CoastValue(v, waterLevel) * e == 0.0
    ensures v >= waterLevel ==> CoastValue(v, waterLevel) * e == e
  {
  }

  // ---------------------------------------------------------------------
  // Mountains

  function Abs(x: real): (r: real)
    ensures r >= 0.0 && (r == x || r == -x)
  {
    if x < 0.0 then -x else x
  }

  /** `|dir . (to - from)|`: how well a neighbour lines up with the ridge direction. */
  function Closeness(dir: (real, real), from: (real, real), to: (real, real)): real {
    Abs(dir.0 * (to.0 - from.0) + dir.1 * (to.1 - from.1))
  }

  /**
   * A neighbour's new elevation: the ridge continues (`e + noise`) when the
   * uniform draw falls below `closeness * det`, otherwise it drops off
   * (`dropoff * e + noise`); either way it is capped at 1.
   */
  function MountainElevation(e: real, closeness: real, det: real, dropoff: real,
                             noiseVar: real, uniform: real): (r: real)
    ensures r <= 1.0
    ensures r == 1.0 || r == e + noiseVar || r == dropoff * e + noiseVar
  {
    var raised := if uniform < closeness * det then e + noiseVar else dropoff * e + noiseVar;
    if raised > 1.0 then 1.0 else raised
  }

  /** A neighbour at right angles to the ridge direction always drops off. */
  lemma PerpendicularDropsOff(e: real, det: real, dropoff: real, noiseVar: real, uniform: real)
    requires 0.0 <= uniform
    requires dropoff * e + noiseVar <= 1.0
    ensures MountainElevation(e, 0.0, det, dropoff, noiseVar, uniform) == dropoff * e + noiseVar
  {
  }

  /** A neighbour whose continuation probability reaches 1 always continues the ridge. */
  lemma AlignedContinues(e: real, closeness: real, det: real, dropoff: real, noiseVar: real, uniform: real)
    requires uniform < 1.0 <= closeness * det
    requires e + noiseVar <= 1.0
    ensures MountainElevation(e, closeness, det, dropoff, noiseVar, uniform) == e + noiseVar
  {
  }

  /**
   * One iteration of the mountain step: `other`'s new elevation from the
   * elevation `e` and the coordinates `from` of the region being raised.
   */
  method RaiseNeighbour(other: Region, e: real, from: (real, real), dir: (real, real), det: real,
                        dropoff: real, noiseVar: real, uniform: real)
    modifies other`elevation
    ensures other.elevation ==
      MountainElevation(e, Closeness(dir, from, other.coords), det, dropoff, noiseVar, uniform)
  {
    var closeness := Closeness(dir, from, other.coords);
    var mountainProb := closeness * det;
    if uniform < mountainProb {
      other.elevation := e + noiseVar;
    } else {
      other.elevation := dropoff * e + noiseVar;
    }
    if other.elevation > 1.0 {
      other.elevation := 1.0;
    }
  }

  /** No later position of `s` (below `n`) holds the region at position `k`. */
  predicate LastOccurrence(s: seq<Region>, k: nat, n: nat)
    requires k < n <= |s|
  {
    forall p :: k < p < n ==> s[p] != s[k]
  }

  /** The coordinates of the regions of `rs`, as values. */
  ghost function CoordsOf(rs: seq<Region>): (cs: seq<(real, real)>)
    reads rs
    ensures |cs| == |rs|
    ensures forall i :: 0 <= i < |rs| ==> cs[i] == rs[i].coords
  {
    if rs == [] then [] else CoordsOf(rs[..|rs| - 1]) + [rs[|rs| - 1].coords]
  }

  /**
   * The elevations the mountain step gives to neighbours at coordinates
   * `cs`, the k-th with the k-th draws.
   */
  ghost function Targets(e: real, from: (real, real), dir: (real, real), det: real, dropoff: real, noise: real,
                         normals: nat -> real, uniforms: nat -> real, cs: seq<(real, real)>): (t: seq<real>)
    ensures |t| == |cs|
  {
    if cs == [] then []
    else
      var k := |cs| - 1;
      Targets(e, from, dir, det, dropoff, noise, normals, uniforms, cs[..k])
        + [MountainElevation(e, Closeness(dir, from, cs[k]), det, dropoff, noise * normals(k), uniforms(k))]
  }

  lemma {:induction false} TargetAt(e: real, from: (real, real), dir: (real, real), det: real, dropoff: real,
                                    noise: real, normals: nat -> real, uniforms: nat -> real,
                                    cs: seq<(real, real)>, m: nat)
    requires m < |cs|
    ensures Targets(e, from, dir, det, dropoff, noise, normals, uniforms, cs)[m] ==
      MountainElevation(e, Closeness(dir, from, cs[m]), det, dropoff, noise * normals(m), uniforms(m))
  {
    var k := |cs| - 1;
    if m < k {
      TargetAt(e, from, dir, det, dropoff, noise, normals, uniforms, cs[..k], m);
    }
  }

  /**
   * Sets the elevation of each direct neighbour of `region` from the
   * ridge direction `dir`.  The k-th neighbour uses the k-th normal and
   * uniform draw; a neighbour listed twice keeps its last assignment.
   * Only neighbours' elevations change.
   */
  method GenerateMountains(region: Region, dir: (real, real), det: real, dropoff: real, noise: real,
                           normals: nat -> real, uniforms: nat -> real)
    requires region !in region.neighbours
    modifies region.neighbours`elevation
    ensures region.elevation == old(region.elevation)
    ensures forall k :: 0 <= k < |region.neighbours| && LastOccurrence(region.neighbours, k, |region.neighbours|) ==>
      region.neighbours[k].elevation ==
        MountainElevation(old(region.elevation),
                          Closeness(dir, old(region.coords), old(region.neighbours[k].coords)),
                          det, dropoff, noise * normals(k), uniforms(k))
  {
    var regions := region.neighbours;
    var e, from := region.elevation, region.coords;
    ghost var cs := CoordsOf(regions);
    ghost var targets := Targets(e, from, dir, det, dropoff, noise, normals, uniforms, cs);
    for k := 0 to |regions|
      invariant region.elevation == e
      invariant forall m :: 0 <= m < k && LastOccurrence(regions, m, k) ==> regions[m].elevation == targets[m]
    {
      var other := regions[k];
      TargetAt(e, from, dir, det, dropoff, noise, normals, uniforms, cs, k);
      assert other.coords == cs[k];
      label before:
      RaiseNeighbour(other, e, from, dir, det, dropoff, noise * normals(k), uniforms(k));
      forall m | 0 <= m < k + 1 && LastOccurrence(regions, m, k + 1)
        ensures regions[m].elevation == targets[m]
      {
        if m < k {
          assert regions[k] != regions[m];
          assert LastOccurrence(regions, m, k);
          assert regions[m].elevation == old@before(regions[m].elevation);
        }
      }
    }
    forall k | 0 <= k < |regions|
      ensures targets[k] ==
        MountainElevation(e, Closeness(dir, from, cs[k]), det, dropoff, noise * normals(k), uniforms(k))
    {
      TargetAt(e, from, dir, det, dropoff, noise, normals, uniforms, cs, k);
    }
  }
}
