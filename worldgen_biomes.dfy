/**
 * The biome stage of the terrain-map generator.  The resized moisture
 * and temperature grids are bytes; each is binned against fixed edges
 * the way `np.digitize` bins increasing edges (the bin is the number of
 * edges at most the value, minus one), the bins are clamped, and the
 * pair picks an entry of a 3 x 5 table.  Cells at elevation exactly 0
 * are then forced to OCEAN.
 */
module WorldGenBiomes {
  import opened WorldGen

  const MOISTURE_EDGES: seq<int> := [0, 100, 170, 230, 255]
  const TEMPERATURE_EDGES: seq<int> := [0, 90, 130, 255]
  const MOISTURE_CAP := 4
  const TEMPERATURE_CAP := 2

  /** Rows are temperature bins (cold to hot), columns moisture bins (dry to wet). */
  const BIOMES: seq<seq<int>> := [
    [BARE, TUNDRA, TAIGA, SNOW, OCEAN],
    [GRASSLAND, WOODLAND, TEMPERATE_FOREST, TEMPERATE_RAINFOREST, OCEAN],
    [DESERT, SAVANNAH, TROPICAL_SEASONAL_FOREST, TROPICAL_RAINFOREST, OCEAN]
  ]

  predicate Increasing(edges: seq<int>) {
    forall a, b :: 0 <= a < b < |edges| ==> edges[a] < edges[b]
  }

  /** The number of edges that are at most `x`. */
  function Digitize(edges: seq<int>, x: int): (n: nat)
    ensures n <= |edges|
  {
    if edges == [] then 0
    else (if edges[0] <= x then 1 else 0) + Digitize(edges[1..], x)
  }

  /** Below every edge of an increasing list, no edge is counted. */
  lemma {:induction false} DigitizeBelow(edges: seq<int>, x: int)
    requires Increasing(edges)
    requires edges != [] ==> x < edges[0]
    ensures Digitize(edges, x) == 0
  {
    if edges != [] {
      var rest := edges[1..];
      assert rest != [] ==> rest[0] == edges[1];
      DigitizeBelow(rest, x);
    }
  }

  /**
   * For increasing edges, `Digitize` is the bin `n` with
   * `edges[n-1] <= x < edges[n]` (an absent edge counts as unbounded).
   */
  lemma {:induction false} DigitizeBrackets(edges: seq<int>, x: int)
    requires Increasing(edges)
    ensures var n := Digitize(edges, x);
      (n == 0 || edges[n - 1] <= x) && (n == |edges| || x < edges[n])
  {
    if edges != [] {
      var rest := edges[1..];
      if edges[0] <= x {
        DigitizeBrackets(rest, x);
        var m := Digitize(rest, x);
        assert Digitize(edges, x) == m + 1;
        assert m > 0 ==> rest[m - 1] == edges[m];
        assert m < |rest| ==> rest[m] == edges[m + 1];
      } else {
        DigitizeBelow(rest, x);
      }
    }
  }

  /** `np.digitize(x, edges) - 1`, then values above `cap` replaced by `cap`. */
  function Bin(edges: seq<int>, cap: int, x: int): int {
    var b := Digitize(edges, x) - 1;
    if b > cap then cap else b
  }

  /** The moisture bin of a byte lies in 0..4 and is 4 exactly for 255. */
  lemma MoistureBinRange(x: byte)
    ensures 0 <= Bin(MOISTURE_EDGES, MOISTURE_CAP, x) <= 4
    ensures Bin(MOISTURE_EDGES, MOISTURE_CAP, x) == 4 <==> x == 255
  {
    DigitizeBrackets(MOISTURE_EDGES, x);
  }

  /** The temperature bin of a byte lies in 0..2 and is 2 exactly from 130 up. */
  lemma TemperatureBinRange(x: byte)
    ensures 0 <= Bin(TEMPERATURE_EDGES, TEMPERATURE_CAP, x) <= 2
    ensures Bin(TEMPERATURE_EDGES, TEMPERATURE_CAP, x) == 2 <==> x >= 130
  {
    DigitizeBrackets(TEMPERATURE_EDGES, x);
  }

  /** The biome of one cell. */
  function Classify(temperature: byte, moisture: byte, elevation: real): (b: int)
    ensures IsBiome(b)
    ensures b == OCEAN <==> elevation == 0.0 || moisture == 255
  {
    MoistureBinRange(moisture);
    TemperatureBinRange(temperature);
    if elevation == 0.0 then OCEAN
    else BIOMES[Bin(TEMPERATURE_EDGES, TEMPERATURE_CAP, temperature)][Bin(MOISTURE_EDGES, MOISTURE_CAP, moisture)]
  }

  /** Hot, dry land (temperature byte from 130, moisture byte below 100) is desert. */
  lemma HotDryIsDesert(temperature: byte, moisture: byte, elevation: real)
    requires elevation != 0.0 && temperature >= 130 && moisture < 100
    ensures Classify(temperature, moisture, elevation) == DESERT
  {
    MoistureBinRange(moisture);
    TemperatureBinRange(temperature);
    DigitizeBrackets(MOISTURE_EDGES, moisture);
  }

  /** `np.digitize(a, edges) - 1` over a whole grid, into a new grid. */
  method DigitizeGrid(a: array2<byte>, edges: seq<int>) returns (bins: array2<int>)
    ensures fresh(bins)
    ensures bins.Length0 == a.Length0 && bins.Length1 == a.Length1
    ensures forall i, j :: 0 <= i < a.Length0 && 0 <= j < a.Length1 ==>
      bins[i, j] == Digitize(edges, a[i, j]) - 1
  {
    bins := new int[a.Length0, a.Length1];
    for i := 0 to a.Length0
      invariant forall r, c :: 0 <= r < i && 0 <= c < a.Length1 ==>
        bins[r, c] == Digitize(edges, a[r, c]) - 1
    {
      for j := 0 to a.Length1
        invariant forall r, c :: 0 <= r < i && 0 <= c < a.Length1 ==>
          bins[r, c] == Digitize(edges, a[r, c]) - 1
        invariant forall c :: 0 <= c < j ==> bins[i, c] == Digitize(edges, a[i, c]) - 1
      {
        bins[i, j] := Digitize(edges, a[i, j]) - 1;
      }
    }
  }

  /** The masked assignment `bins[bins > cap] = cap`. */
  method ClampAbove(bins: array2<int>, cap: int)
    modifies bins
    ensures forall i, j :: 0 <= i < bins.Length0 && 0 <= j < bins.Length1 ==>
      bins[i, j] == (if old(bins[i, j]) > cap then cap else old(bins[i, j]))
  {
    for i := 0 to bins.Length0
      invariant forall r, c :: 0 <= r < i && 0 <= c < bins.Length1 ==>
        bins[r, c] == (if old(bins[r, c]) > cap then cap else old(bins[r, c]))
      invariant forall r, c :: i <= r < bins.Length0 && 0 <= c < bins.Length1 ==>
        bins[r, c] == old(bins[r, c])
    {
      for j := 0 to bins.Length1
        invariant forall r, c :: 0 <= r < i && 0 <= c < bins.Length1 ==>
          bins[r, c] == (if old(bins[r, c]) > cap then cap else old(bins[r, c]))
        invariant forall c :: 0 <= c < j ==>
          bins[i, c] == (if old(bins[i, c]) > cap then cap else old(bins[i, c]))
        invariant forall c :: j <= c < bins.Length1 ==> bins[i, c] == old(bins[i, c])
        invariant forall r, c :: i < r < bins.Length0 && 0 <= c < bins.Length1 ==>
          bins[r, c] == old(bins[r, c])
      {
        if bins[i, j] > cap {
          bins[i, j] := cap;
        }
      }
    }
  }

  /** A byte grid's bins: digitised, then clamped. */
  method BinGrid(a: array2<byte>, edges: seq<int>, cap: int) returns (bins: array2<int>)
    ensures fresh(bins)
    ensures bins.Length0 == a.Length0 && bins.Length1 == a.Length1
    ensures forall i, j :: 0 <= i < a.Length0 && 0 <= j < a.Length1 ==> bins[i, j] == Bin(edges, cap, a[i, j])
  {
    bins := DigitizeGrid(a, edges);
    ClampAbove(bins, cap);
  }

  /** `img[i, j] = biomes[temp[i, j]][moisture[i, j]]` for every cell. */
  method LookUp(tBins: array2<int>, mBins: array2<int>) returns (img: array2<int>)
    requires tBins.Length0 == mBins.Length0 && tBins.Length1 == mBins.Length1
    requires forall i, j :: 0 <= i < tBins.Length0 && 0 <= j < tBins.Length1 ==>
      0 <= tBins[i, j] < |BIOMES| && 0 <= mBins[i, j] < |BIOMES[0]|
    ensures fresh(img)
    ensures img.Length0 == tBins.Length0 && img.Length1 == tBins.Length1
    ensures forall i, j :: 0 <= i < img.Length0 && 0 <= j < img.Length1 ==>
      img[i, j] == BIOMES[tBins[i, j]][mBins[i, j]]
  {
    img := new int[tBins.Length0, tBins.Length1];
    for i := 0 to img.Length0
      invariant forall r, c :: 0 <= r < i && 0 <= c < img.Length1 ==>
        img[r, c] == BIOMES[tBins[r, c]][mBins[r, c]]
    {
      for j := 0 to img.Length1
        invariant forall r, c :: 0 <= r < i && 0 <= c < img.Length1 ==>
          img[r, c] == BIOMES[tBins[r, c]][mBins[r, c]]
        invariant forall c :: 0 <= c < j ==> img[i, c] == BIOMES[tBins[i, c]][mBins[i, c]]
      {
        img[i, j] := BIOMES[tBins[i, j]][mBins[i, j]];
      }
    }
  }

  /** The masked assignment `img[elevation == 0] = OCEAN`. */
  method OceanWhereFlat(img: array2<int>, elevation: array2<real>)
    requires img.Length0 == elevation.Length0 && img.Length1 == elevation.Length1
    modifies img
    ensures forall i, j :: 0 <= i < img.Length0 && 0 <= j < img.Length1 ==>
      img[i, j] == (if elevation[i, j] == 0.0 then OCEAN else old(img[i, j]))
  {
    for i := 0 to img.Length0
      invariant forall r, c :: 0 <= r < i && 0 <= c < img.Length1 ==>
        img[r, c] == (if elevation[r, c] == 0.0 then OCEAN else old(img[r, c]))
      invariant forall r, c :: i <= r < img.Length0 && 0 <= c < img.Length1 ==>
        img[r, c] == old(img[r, c])
    {
      for j := 0 to img.Length1
        invariant forall r, c :: 0 <= r < i && 0 <= c < img.Length1 ==>
          img[r, c] == (if elevation[r, c] == 0.0 then OCEAN else old(img[r, c]))
        invariant forall c :: 0 <= c < j ==>
          img[i, c] == (if elevation[i, c] == 0.0 then OCEAN else old(img[i, c]))
        invariant forall c :: j <= c < img.Length1 ==> img[i, c] == old(img[i, c])
        invariant forall r, c :: i < r < img.Length0 && 0 <= c < img.Length1 ==>
          img[r, c] == old(img[r, c])
      {
        if elevation[i, j] == 0.0 {
          img[i, j] := OCEAN;
        }
      }
    }
  }

  /** The biome map: every cell classified from its temperature, moisture and elevation. */
  method GenerateBiomes(moisture: array2<byte>, temperature: array2<byte>, elevation: array2<real>)
    returns (img: array2<int>)
    requires moisture.Length0 == temperature.Length0 == elevation.Length0
    requires moisture.Length1 == temperature.Length1 == elevation.Length1
    ensures fresh(img)
    ensures img.Length0 == elevation.Length0 && img.Length1 == elevation.Length1
    ensures forall i, j :: 0 <= i < img.Length0 && 0 <= j < img.Length1 ==>
      img[i, j] == Classify(temperature[i, j], moisture[i, j], elevation[i, j])
  {
    var mBins := BinGrid(moisture, MOISTURE_EDGES, MOISTURE_CAP);
    var tBins := BinGrid(temperature, TEMPERATURE_EDGES, TEMPERATURE_CAP);
    forall i, j | 0 <= i < tBins.Length0 && 0 <= j < tBins.Length1
      ensures 0 <= tBins[i, j] < |BIOMES| && 0 <= mBins[i, j] < |BIOMES[0]|
    {
      MoistureBinRange(moisture[i, j]);
      TemperatureBinRange(temperature[i, j]);
    }
    img := LookUp(tBins, mBins);
    OceanWhereFlat(img, elevation);
  }
}
