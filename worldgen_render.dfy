/**
 * The rendering stage of the terrain-map generator: each biome cell is
 * painted with its colour, every channel is dithered by two noise draws
 * in 0..19 whose guards keep the unsigned 8-bit arithmetic from wrapping,
 * and pixels lying in the shadow of the cell three rows up and three
 * columns left are halved.
 *
 * The image is an H x W x 3 array of bytes.  The source tiles each noise
 * grid and the shadow mask across the three channels; here they are
 * H x W grids applied to all three channels, which is what the tiling
 * amounts to.
 */
module WorldGenRender {
  import opened WorldGen

  const LIGHT_VECTOR: (int, int) := (3, 3)

  /** The RGB colour of each biome. */
  function Colour(b: int): (c: seq<byte>)
    requires IsBiome(b)
    ensures |c| == 3
  {
    if b == OCEAN then [0, 0, 153]
    else if b == BARE then [50, 50, 50]
    else if b == TROPICAL_RAINFOREST then [0, 153, 0]
    else if b == TROPICAL_SEASONAL_FOREST then [102, 153, 0]
    else if b == SAVANNAH then [255, 255, 153]
    else if b == DESERT then [255, 255, 102]
    else if b == TEMPERATE_RAINFOREST then [51, 153, 51]
    else if b == TEMPERATE_FOREST then [0, 102, 0]
    else if b == WOODLAND then [51, 102, 0]
    else if b == GRASSLAND then [255, 204, 0]
    else if b == TAIGA then [0, 51, 0]
    else if b == TUNDRA then [102, 51, 0]
    else [255, 255, 255]
  }

  /** No two biomes share a colour, so the undithered image determines the biome map. */
  lemma ColoursDistinct(a: int, b: int)
    requires IsBiome(a) && IsBiome(b) && a != b
    ensures Colour(a) != Colour(b)
  {
    var ca, cb := Colour(a), Colour(b);
    assert ca[0] != cb[0] || ca[1] != cb[1] || ca[2] != cb[2];
  }

  /**
   * One dithered channel.  `noise1` is dropped where adding it would pass
   * 255 and `noise2` where subtracting it would pass 0 (both guards look
   * at the undithered value); the two updates then run in 8-bit unsigned
   * arithmetic.
   */
  function Dithered(base: byte, noise1: int, noise2: int): (r: byte)
    ensures 0 <= noise1 < 20 && 0 <= noise2 < 20 ==>
      base - 19 <= r <= base + 19 &&
      r == base + (if base > 255 - noise1 then 0 else noise1) - (if base < noise2 then 0 else noise2)
  {
    var kept1 := if base > 255 - noise1 then 0 else noise1;
    var kept2 := if base < noise2 then 0 else noise2;
    var raised := (base + kept1) % 256;
    (raised - kept2) % 256
  }

  /** Whether pixel (i, j) lies in the shadow cast by the cell LIGHT_VECTOR up and to the left. */
  predicate Shadowed(elevation: array2<real>, i: int, j: int)
    reads elevation
    requires 0 <= i < elevation.Length0 && 0 <= j < elevation.Length1
  {
    i > LIGHT_VECTOR.0 && i < elevation.Length0 + LIGHT_VECTOR.0 &&
    j > LIGHT_VECTOR.1 && j < elevation.Length1 + LIGHT_VECTOR.1 &&
    elevation[i - LIGHT_VECTOR.0, j - LIGHT_VECTOR.0] > elevation[i, j] && elevation[i, j] > 0.0
  }

  /** Shadows fall only on land, never in the first three rows or columns. */
  lemma ShadowedExactly(elevation: array2<real>, i: int, j: int)
    requires 0 <= i < elevation.Length0 && 0 <= j < elevation.Length1
    ensures Shadowed(elevation, i, j) <==>
      i > 3 && j > 3 && elevation[i - 3, j - 3] > elevation[i, j] && elevation[i, j] > 0.0
  {
  }

  /** `final_image[i, j, :] = biome_colours[biomes[i, j]]` for every cell. */
  method ColourImage(biomes: array2<int>) returns (img: array3<byte>)
    requires forall i, j :: 0 <= i < biomes.Length0 && 0 <= j < biomes.Length1 ==> IsBiome(biomes[i, j])
    ensures fresh(img)
    ensures img.Length0 == biomes.Length0 && img.Length1 == biomes.Length1 && img.Length2 == 3
    ensures forall i, j, c :: 0 <= i < img.Length0 && 0 <= j < img.Length1 && 0 <= c < 3 ==>
      img[i, j, c] == Colour(biomes[i, j])[c]
  {
    img := new byte[biomes.Length0, biomes.Length1, 3];
    for i := 0 to img.Length0
      invariant forall r, s, c :: 0 <= r < i && 0 <= s < img.Length1 && 0 <= c < 3 ==>
        img[r, s, c] == Colour(biomes[r, s])[c]
    {
      for j := 0 to img.Length1
        invariant forall r, s, c :: 0 <= r < i && 0 <= s < img.Length1 && 0 <= c < 3 ==>
          img[r, s, c] == Colour(biomes[r, s])[c]
        invariant forall s, c :: 0 <= s < j && 0 <= c < 3 ==> img[i, s, c] == Colour(biomes[i, s])[c]
      {
        var colour := Colour(biomes[i, j]);
        img[i, j, 0] := colour[0];
        img[i, j, 1] := colour[1];
        img[i, j, 2] := colour[2];
      }
    }
  }

  /** Dithers the three channels of pixel (i, j). */
  method DitherPixel(img: array3<byte>, noise1: array2<int>, noise2: array2<int>, i: int, j: int)
    requires img.Length2 == 3
    requires 0 <= i < img.Length0 && 0 <= j < img.Length1
    requires i < noise1.Length0 && j < noise1.Length1 && i < noise2.Length0 && j < noise2.Length1
    modifies img
    ensures forall c :: 0 <= c < 3 ==> img[i, j, c] == Dithered(old(img[i, j, c]), noise1[i, j], noise2[i, j])
    ensures forall r, s, c :: 0 <= r < img.Length0 && 0 <= s < img.Length1 && 0 <= c < 3 && (r != i || s != j) ==>
      img[r, s, c] == old(img[r, s, c])
  {
    img[i, j, 0] := Dithered(img[i, j, 0], noise1[i, j], noise2[i, j]);
    img[i, j, 1] := Dithered(img[i, j, 1], noise1[i, j], noise2[i, j]);
    img[i, j, 2] := Dithered(img[i, j, 2], noise1[i, j], noise2[i, j]);
  }

  /** Dithers row `i`. */
  method DitherRow(img: array3<byte>, noise1: array2<int>, noise2: array2<int>, i: int)
    requires img.Length2 == 3
    requires 0 <= i < img.Length0
    requires noise1.Length0 == noise2.Length0 == img.Length0 && noise1.Length1 == noise2.Length1 == img.Length1
    modifies img
    ensures forall s, c :: 0 <= s < img.Length1 && 0 <= c < 3 ==>
      img[i, s, c] == Dithered(old(img[i, s, c]), noise1[i, s], noise2[i, s])
    ensures forall r, s, c :: 0 <= r < img.Length0 && r != i && 0 <= s < img.Length1 && 0 <= c < 3 ==>
      img[r, s, c] == old(img[r, s, c])
  {
    for j := 0 to img.Length1
      invariant forall s, c :: 0 <= s < j && 0 <= c < 3 ==>
        img[i, s, c] == Dithered(old(img[i, s, c]), noise1[i, s], noise2[i, s])
      invariant forall r, s, c :: 0 <= r < img.Length0 && 0 <= s < img.Length1 && 0 <= c < 3 && (r != i || s >= j) ==>
        img[r, s, c] == old(img[r, s, c])
    {
      DitherPixel(img, noise1, noise2, i, j);
    }
  }

  /** The dithering pass over the whole image. */
  method Dither(img: array3<byte>, noise1: array2<int>, noise2: array2<int>)
    requires img.Length2 == 3
    requires noise1.Length0 == noise2.Length0 == img.Length0 && noise1.Length1 == noise2.Length1 == img.Length1
    modifies img
    ensures forall i, j, c :: 0 <= i < img.Length0 && 0 <= j < img.Length1 && 0 <= c < 3 ==>
      img[i, j, c] == Dithered(old(img[i, j, c]), noise1[i, j], noise2[i, j])
  {
    for i := 0 to img.Length0
      invariant forall r, s, c :: 0 <= r < i && 0 <= s < img.Length1 && 0 <= c < 3 ==>
        img[r, s, c] == Dithered(old(img[r, s, c]), noise1[r, s], noise2[r, s])
      invariant forall r, s, c :: i <= r < img.Length0 && 0 <= s < img.Length1 && 0 <= c < 3 ==>
        img[r, s, c] == old(img[r, s, c])
    {
      DitherRow(img, noise1, noise2, i);
    }
  }

  /** The shadow mask: 1 on shadowed pixels, 0 elsewhere. */
  method ComputeShadows(elevation: array2<real>) returns (shadows: array2<int>)
    ensures fresh(shadows)
    ensures shadows.Length0 == elevation.Length0 && shadows.Length1 == elevation.Length1
    ensures forall i, j :: 0 <= i < shadows.Length0 && 0 <= j < shadows.Length1 ==>
      shadows[i, j] == (if Shadowed(elevation, i, j) then 1 else 0)
  {
    shadows := new int[elevation.Length0, elevation.Length1]((_, _) => 0);
    for i := 0 to shadows.Length0
      invariant forall r, c :: 0 <= r < i && 0 <= c < shadows.Length1 ==>
        shadows[r, c] == (if Shadowed(elevation, r, c) then 1 else 0)
      invariant forall r, c :: i <= r < shadows.Length0 && 0 <= c < shadows.Length1 ==> shadows[r, c] == 0
    {
      for j := 0 to shadows.Length1
        invariant forall r, c :: 0 <= r < i && 0 <= c < shadows.Length1 ==>
          shadows[r, c] == (if Shadowed(elevation, r, c) then 1 else 0)
        invariant forall c :: 0 <= c < j ==> shadows[i, c] == (if Shadowed(elevation, i, c) then 1 else 0)
        invariant forall r, c :: i <= r < shadows.Length0 && 0 <= c < shadows.Length1 && (r > i || c >= j) ==>
          shadows[r, c] == 0
      {
        if i > LIGHT_VECTOR.0 && i < shadows.Length0 + LIGHT_VECTOR.0 &&
           j > LIGHT_VECTOR.1 && j < shadows.Length1 + LIGHT_VECTOR.1
        {
          if elevation[i - LIGHT_VECTOR.0, j - LIGHT_VECTOR.0] > elevation[i, j] && elevation[i, j] > 0.0 {
            shadows[i, j] := 1;
          }
        }
      }
    }
  }

  /** Halves the three channels of pixel (i, j) when the mask marks it. */
  method ShadePixel(img: array3<byte>, shadows: array2<int>, i: int, j: int)
    requires img.Length2 == 3
    requires 0 <= i < img.Length0 && 0 <= j < img.Length1 && i < shadows.Length0 && j < shadows.Length1
    modifies img
    ensures forall c :: 0 <= c < 3 ==>
      img[i, j, c] == (if shadows[i, j] == 1 then old(img[i, j, c]) / SHADOW_STRENGTH else old(img[i, j, c]))
    ensures forall r, s, c :: 0 <= r < img.Length0 && 0 <= s < img.Length1 && 0 <= c < 3 && (r != i || s != j) ==>
      img[r, s, c] == old(img[r, s, c])
  {
    if shadows[i, j] == 1 {
      img[i, j, 0] := img[i, j, 0] / SHADOW_STRENGTH;
      img[i, j, 1] := img[i, j, 1] / SHADOW_STRENGTH;
      img[i, j, 2] := img[i, j, 2] / SHADOW_STRENGTH;
    }
  }

  /** The masked assignment `final_image[shadows == 1] /= SHADOW_STRENGTH`, row `i`. */
  method ShadeRow(img: array3<byte>, shadows: array2<int>, i: int)
    requires img.Length2 == 3
    requires 0 <= i < img.Length0
    requires shadows.Length0 == img.Length0 && shadows.Length1 == img.Length1
    modifies img
    ensures forall s, c :: 0 <= s < img.Length1 && 0 <= c < 3 ==>
      img[i, s, c] == (if shadows[i, s] == 1 then old(img[i, s, c]) / SHADOW_STRENGTH else old(img[i, s, c]))
    ensures forall r, s, c :: 0 <= r < img.Length0 && r != i && 0 <= s < img.Length1 && 0 <= c < 3 ==>
      img[r, s, c] == old(img[r, s, c])
  {
    for j := 0 to img.Length1
      invariant forall s, c :: 0 <= s < j && 0 <= c < 3 ==>
        img[i, s, c] == (if shadows[i, s] == 1 then old(img[i, s, c]) / SHADOW_STRENGTH else old(img[i, s, c]))
      invariant forall r, s, c :: 0 <= r < img.Length0 && 0 <= s < img.Length1 && 0 <= c < 3 && (r != i || s >= j) ==>
        img[r, s, c] == old(img[r, s, c])
    {
      ShadePixel(img, shadows, i, j);
    }
  }

  /** The masked assignment `final_image[shadows == 1] /= SHADOW_STRENGTH`. */
  method ApplyShadows(img: array3<byte>, shadows: array2<int>)
    requires img.Length2 == 3
    requires shadows.Length0 == img.Length0 && shadows.Length1 == img.Length1
    modifies img
    ensures forall i, j, c :: 0 <= i < img.Length0 && 0 <= j < img.Length1 && 0 <= c < 3 ==>
      img[i, j, c] == (if shadows[i, j] == 1 then old(img[i, j, c]) / SHADOW_STRENGTH else old(img[i, j, c]))
  {
    for i := 0 to img.Length0
      invariant forall r, s, c :: 0 <= r < i && 0 <= s < img.Length1 && 0 <= c < 3 ==>
        img[r, s, c] == (if shadows[r, s] == 1 then old(img[r, s, c]) / SHADOW_STRENGTH else old(img[r, s, c]))
      invariant forall r, s, c :: i <= r < img.Length0 && 0 <= s < img.Length1 && 0 <= c < 3 ==>
        img[r, s, c] == old(img[r, s, c])
    {
      ShadeRow(img, shadows, i);
    }
  }

  /** The final value of channel `c` of pixel (i, j). */
  function Pixel(elevation: array2<real>, biomes: array2<int>, noise1: array2<int>, noise2: array2<int>,
                 i: int, j: int, c: int): byte
    reads elevation, biomes, noise1, noise2
    requires 0 <= i < elevation.Length0 && 0 <= j < elevation.Length1 && 0 <= c < 3
    requires i < biomes.Length0 && j < biomes.Length1 && IsBiome(biomes[i, j])
    requires i < noise1.Length0 && j < noise1.Length1 && i < noise2.Length0 && j < noise2.Length1
  {
    var d := Dithered(Colour(biomes[i, j])[c], noise1[i, j], noise2[i, j]);
    if Shadowed(elevation, i, j) then d / SHADOW_STRENGTH else d
  }

  /**
   * With noise in 0..19, a pixel stays within 19 of its biome colour, or
   * is half of such a value when shadowed.
   */
  lemma PixelRange(elevation: array2<real>, biomes: array2<int>, noise1: array2<int>, noise2: array2<int>,
                   i: int, j: int, c: int)
    requires 0 <= i < elevation.Length0 && 0 <= j < elevation.Length1 && 0 <= c < 3
    requires i < biomes.Length0 && j < biomes.Length1 && IsBiome(biomes[i, j])
    requires i < noise1.Length0 && j < noise1.Length1 && i < noise2.Length0 && j < noise2.Length1
    requires 0 <= noise1[i, j] < 20 && 0 <= noise2[i, j] < 20
    ensures var base := Colour(biomes[i, j])[c];
      !Shadowed(elevation, i, j) ==> base - 19 <= Pixel(elevation, biomes, noise1, noise2, i, j, c) <= base + 19
    ensures var base := Colour(biomes[i, j])[c];
      Shadowed(elevation, i, j) ==> (base - 19) / 2 <= Pixel(elevation, biomes, noise1, noise2, i, j, c) <= (base + 19) / 2
  {
  }

  /** The rendered map: colour, dither, then shade. */
  method RenderImage(elevation: array2<real>, biomes: array2<int>, noise1: array2<int>, noise2: array2<int>)
    returns (img: array3<byte>)
    requires biomes.Length0 == elevation.Length0 && biomes.Length1 == elevation.Length1
    requires noise1.Length0 == noise2.Length0 == elevation.Length0
    requires noise1.Length1 == noise2.Length1 == elevation.Length1
    requires forall i, j :: 0 <= i < biomes.Length0 && 0 <= j < biomes.Length1 ==> IsBiome(biomes[i, j])
    ensures fresh(img)
    ensures img.Length0 == elevation.Length0 && img.Length1 == elevation.Length1 && img.Length2 == 3
    ensures forall i, j, c :: 0 <= i < img.Length0 && 0 <= j < img.Length1 && 0 <= c < 3 ==>
      img[i, j, c] == Pixel(elevation, biomes, noise1, noise2, i, j, c)
  {
    img := ColourImage(biomes);
    Dither(img, noise1, noise2);
    var shadows := ComputeShadows(elevation);
    ApplyShadows(img, shadows);
  }
}
