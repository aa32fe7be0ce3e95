/** The per-pixel zone overlay: the if/elif ladder that gives each depth
    sample a colour, and the nested loops that paint it. */
module Zones {
  import opened Frames
  import opened Ladder

  /** Orange as Final.py and 4.py write it, and as 3.py writes it. */
  const ORANGE := Colour(0, 165, 255)
  const ORANGE_3 := Colour(0, 128, 255)

  /** 3.py reads the depth frame at `int(x / depth_scale_factor)`. */
  const DEPTH_SCALE_FACTOR: real := 1.0

  /** The zone of one sample under the half-open ladder, or None (black). */
  function ZoneOf(d: real): (z: Option<nat>)
    ensures z.None? <==> d <= 0.0 || d >= DISTANCE_THRESHOLDS[3]
    ensures z.Some? ==> z.value < |DISTANCE_THRESHOLDS| && 0.0 < d < DISTANCE_THRESHOLDS[z.value]
    ensures z.Some? && z.value > 0 ==> DISTANCE_THRESHOLDS[z.value - 1] <= d
  {
    if 0.0 < d < DISTANCE_THRESHOLDS[0] then Some(0)
    else if DISTANCE_THRESHOLDS[0] <= d < DISTANCE_THRESHOLDS[1] then Some(1)
    else if DISTANCE_THRESHOLDS[1] <= d < DISTANCE_THRESHOLDS[2] then Some(2)
    else if DISTANCE_THRESHOLDS[2] <= d < DISTANCE_THRESHOLDS[3] then Some(3)
    else None
  }

  /** The if/elif chain picks the same tier as walking the ladder nearest
      first, which is how the alarm reads it. */
  lemma {:induction false} ZoneIsNearestTier(d: real)
    ensures ZoneOf(d) == if d > 0.0 then NearestTier(DISTANCE_THRESHOLDS, Finite(d), 0) else None
  {
    if d > 0.0 {
      var z := ZoneOf(d);
      var n := NearestTier(DISTANCE_THRESHOLDS, Finite(d), 0);
      ThresholdsAscending();
      if z.Some? {
        NearestTierIsHalfOpen(DISTANCE_THRESHOLDS, d, z.value);
      } else if n.Some? {
        NearestTierIsHalfOpen(DISTANCE_THRESHOLDS, d, n.value);
      }
    }
  }

  /** Exactly one half-open interval holds each sample in (0, 2.0): a sample
      has zone `k` if and only if it lies in `[t[k-1], t[k])`. */
  lemma ZoneIsExact(d: real, k: nat)
    requires k < |DISTANCE_THRESHOLDS|
    ensures ZoneOf(d) == Some(k) <==>
              (if k == 0 then 0.0 < d else DISTANCE_THRESHOLDS[k - 1] <= d) && d < DISTANCE_THRESHOLDS[k]
  {
    if d > 0.0 {
      ZoneIsNearestTier(d);
      ThresholdsAscending();
      NearestTierIsHalfOpen(DISTANCE_THRESHOLDS, d, k);
    }
  }

  /** The colour painted for a tier: red, orange, yellow, green. */
  function TierColour(k: nat, orange: Colour): Colour
  {
    if k == 0 then RED
    else if k == 1 then orange
    else if k == 2 then YELLOW
    else GREEN
  }

  /** The overlay colour of Final.py and 4.py: black when there is no zone. */
  function OverlayColour(d: real): (c: Colour)
    ensures c == BLACK <==> ZoneOf(d).None?
  {
    match ZoneOf(d)
    case None => BLACK
    case Some(k) => TierColour(k, ORANGE)
  }

  /** `int(x / scale)` for a non-negative pixel index. */
  function SourceIndex(x: nat, scale: real): (r: nat)
    requires scale > 0.0
    ensures scale == 1.0 ==> r == x
  {
    var q := (x as real) / scale;
    assert q >= 0.0;
    q.Floor
  }

  /** Final.py:94-107 and 4.py:78-92: the overlay starts black and every
      pixel is painted with its zone colour. */
  method DrawZoneOverlay(f: Frame, overlay: array2<Colour>)
    requires f.Valid() && overlay.Length0 == f.height && overlay.Length1 == f.width
    modifies overlay
    ensures forall y, x :: 0 <= y < f.height && 0 <= x < f.width ==>
              overlay[y, x] == OverlayColour(f.rows[y][x])
  {
    var y := 0;
    while y < f.height
      invariant 0 <= y <= f.height
      invariant forall y', x' :: 0 <= y' < y && 0 <= x' < f.width ==>
                  overlay[y', x'] == OverlayColour(f.rows[y'][x'])
    {
      var x := 0;
      while x < f.width
        invariant 0 <= x <= f.width
        invariant forall y', x' :: 0 <= y' < y && 0 <= x' < f.width ==>
                    overlay[y', x'] == OverlayColour(f.rows[y'][x'])
        invariant forall x' :: 0 <= x' < x ==> overlay[y, x'] == OverlayColour(f.rows[y][x'])
      {
        overlay[y, x] := OverlayColour(f.At(x, y));
        x := x + 1;
      }
      y := y + 1;
    }
  }

  /** 3.py:75-85: pixels with a zone are painted in place on the colour
      image; all other pixels keep their camera colour. */
  method MarkZones(f: Frame, image: array2<Colour>)
    requires f.Valid() && image.Length0 == f.height && image.Length1 == f.width
    modifies image
    ensures forall y, x :: 0 <= y < f.height && 0 <= x < f.width ==>
              image[y, x] == match ZoneOf(f.rows[y][x])
                             case None => old(image[y, x])
                             case Some(k) => TierColour(k, ORANGE_3)
  {
    var y := 0;
    while y < f.height
      invariant 0 <= y <= f.height
      invariant forall y', x' :: 0 <= y' < y && 0 <= x' < f.width ==>
                  image[y', x'] == match ZoneOf(f.rows[y'][x'])
                                   case None => old(image[y', x'])
                                   case Some(k) => TierColour(k, ORANGE_3)
      invariant forall y', x' :: y <= y' < f.height && 0 <= x' < f.width ==>
                  image[y', x'] == old(image[y', x'])
    {
      var x := 0;
      while x < f.width
        invariant 0 <= x <= f.width
        invariant forall y', x' :: 0 <= y' < y && 0 <= x' < f.width ==>
                    image[y', x'] == match ZoneOf(f.rows[y'][x'])
                                     case None => old(image[y', x'])
                                     case Some(k) => TierColour(k, ORANGE_3)
        invariant forall x' :: 0 <= x' < x ==>
                    image[y, x'] == match ZoneOf(f.rows[y][x'])
                                    case None => old(image[y, x'])
                                    case Some(k) => TierColour(k, ORANGE_3)
        invariant forall y', x' :: (y < y' < f.height && 0 <= x' < f.width) || (y' == y && x <= x' < f.width) ==>
                    image[y', x'] == old(image[y', x'])
      {
        var d := f.At(SourceIndex(x, DEPTH_SCALE_FACTOR), SourceIndex(y, DEPTH_SCALE_FACTOR));
        var z := ZoneOf(d);
        if z.Some? {
          image[y, x] := TierColour(z.value, ORANGE_3);
        }
        x := x + 1;
      }
      y := y + 1;
    }
  }
}
