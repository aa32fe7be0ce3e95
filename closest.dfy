/** The closest valid distance of a frame: the minimum over strictly positive
    samples, `+inf` when there is none. */
module Closest {
  import opened Frames
  import opened Zones

  predicate Rectangular(rows: seq<seq<real>>, w: nat) {
    forall y :: 0 <= y < |rows| ==> |rows[y]| == w
  }

  /** The flat list built row by row at Final.py:87, before the reshape. */
  function Samples(rows: seq<seq<real>>): seq<real>
  {
    if rows == [] then [] else Samples(rows[..|rows| - 1]) + rows[|rows| - 1]
  }

  /** After the reshape to H x W, `distances[y][x]` is `get_distance(x, y)`. */
  lemma {:induction false} SampleAt(rows: seq<seq<real>>, w: nat, y: nat, x: nat)
    requires Rectangular(rows, w) && y < |rows| && x < w
    ensures |Samples(rows)| == |rows| * w
    ensures y * w + x < |Samples(rows)| && Samples(rows)[y * w + x] == rows[y][x]
  {
    var last := |rows| - 1;
    var init := rows[..last];
    if y < last {
      SampleAt(init, w, y, x);
    } else {
      SamplesLength(init, w);
      assert y * w == last * w;
    }
  }

  lemma {:induction false} SamplesLength(rows: seq<seq<real>>, w: nat)
    requires Rectangular(rows, w)
    ensures |Samples(rows)| == |rows| * w
  {
    if rows != [] {
      var init := rows[..|rows| - 1];
      assert Rectangular(init, w);
      SamplesLength(init, w);
      MulStep(|init|, w);
    }
  }

  lemma MulStep(n: nat, w: nat)
    ensures n * w + w == (n + 1) * w
  {
  }

  /** Every entry of the flat list comes from some pixel of the grid. */
  lemma {:induction false} SampleOrigin(rows: seq<seq<real>>, w: nat, k: nat)
    requires Rectangular(rows, w) && k < |Samples(rows)|
    ensures exists y, x :: 0 <= y < |rows| && 0 <= x < w && Samples(rows)[k] == rows[y][x]
  {
    var last := |rows| - 1;
    var init := rows[..last];
    if k < |Samples(init)| {
      SampleOrigin(init, w, k);
      var y, x :| 0 <= y < |init| && 0 <= x < w && Samples(init)[k] == init[y][x];
      assert Samples(rows)[k] == rows[y][x];
    } else {
      var x := k - |Samples(init)|;
      assert Samples(rows)[k] == rows[last][x];
    }
  }

  /** `closest_distance`: scanning left to right, a sample replaces the
      current minimum when it is positive and strictly smaller. */
  function MinPositive(s: seq<real>): (r: Distance)
    ensures r.Infinity? <==> forall i :: 0 <= i < |s| ==> s[i] <= 0.0
    ensures r.Finite? ==> r.metres > 0.0 && exists i :: 0 <= i < |s| && s[i] == r.metres
    ensures r.Finite? ==> forall i :: 0 <= i < |s| && s[i] > 0.0 ==> r.metres <= s[i]
  {
    if s == [] then Infinity
    else
      var prev := MinPositive(s[..|s| - 1]);
      var d := s[|s| - 1];
      if d > 0.0 && prev.Above(d) then Finite(d) else prev
  }

  /** Final.py:87-88: the closest valid distance of a frame, characterised
      over the grid itself. */
  function ClosestDistance(f: Frame): (r: Distance)
    requires f.Valid()
    ensures r.Infinity? <==> forall y, x :: 0 <= y < f.height && 0 <= x < f.width ==> f.rows[y][x] <= 0.0
    ensures r.Finite? ==> r.metres > 0.0
    ensures r.Finite? ==> exists y, x :: 0 <= y < f.height && 0 <= x < f.width && f.rows[y][x] == r.metres
    ensures r.Finite? ==> forall y, x :: 0 <= y < f.height && 0 <= x < f.width && f.rows[y][x] > 0.0 ==>
              r.metres <= f.rows[y][x]
  {
    OverGrid(f);
    MinPositive(Samples(f.rows))
  }

  lemma OverGrid(f: Frame)
    requires f.Valid()
    ensures var r := MinPositive(Samples(f.rows));
            && (r.Infinity? <==> forall y, x :: 0 <= y < f.height && 0 <= x < f.width ==> f.rows[y][x] <= 0.0)
            && (r.Finite? ==> exists y, x :: 0 <= y < f.height && 0 <= x < f.width && f.rows[y][x] == r.metres)
            && (r.Finite? ==> forall y, x :: 0 <= y < f.height && 0 <= x < f.width && f.rows[y][x] > 0.0 ==>
                  r.metres <= f.rows[y][x])
  {
    var s := Samples(f.rows);
    var r := MinPositive(s);
    forall y, x | 0 <= y < f.height && 0 <= x < f.width
      ensures Sampled(s, f.rows[y][x])
    {
      SampleAt(f.rows, f.width, y, x);
    }
    if r.Finite? {
      var i :| 0 <= i < |s| && s[i] == r.metres;
      SampleOrigin(f.rows, f.width, i);
    }
  }

  /** `v` occurs in the list `s`. */
  ghost predicate Sampled(s: seq<real>, v: real) {
    exists i :: 0 <= i < |s| && s[i] == v
  }

  /** Two distances with the grid characterisation above are equal. */
  lemma ClosestIsUnique(f: Frame, c: Distance)
    requires f.Valid()
    requires c.Infinity? <==> forall y, x :: 0 <= y < f.height && 0 <= x < f.width ==> f.rows[y][x] <= 0.0
    requires c.Finite? ==> exists y, x :: 0 <= y < f.height && 0 <= x < f.width && f.rows[y][x] == c.metres
    requires c.Finite? ==> forall y, x :: 0 <= y < f.height && 0 <= x < f.width && f.rows[y][x] > 0.0 ==>
               c.metres <= f.rows[y][x]
    requires c.Finite? ==> c.metres > 0.0
    ensures c == ClosestDistance(f)
  {
    var r := ClosestDistance(f);
    if c.Finite? {
      var y, x :| 0 <= y < f.height && 0 <= x < f.width && f.rows[y][x] == c.metres;
      assert r.metres <= c.metres;
      var y', x' :| 0 <= y' < f.height && 0 <= x' < f.width && f.rows[y'][x'] == r.metres;
      assert c.metres <= r.metres;
    }
  }

  /** `(y', x')` comes strictly before `(y, x)` in row-major scan order. */
  predicate ScannedBefore(y': int, x': int, y: int, x: int) {
    y' < y || (y' == y && x' < x)
  }

  /** What the scan of 3.py:98-103 knows after visiting every pixel before
      `(y, x)`: the running minimum over them and the first place it occurs. */
  ghost predicate ScanSummary(f: Frame, y: nat, x: nat, closest: Distance, position: Option<Pos>)
    requires f.Valid()
  {
    && (closest.Infinity? <==>
          forall y', x' :: 0 <= y' < f.height && 0 <= x' < f.width && ScannedBefore(y', x', y, x) ==>
            f.rows[y'][x'] <= 0.0)
    && (position.None? <==> closest.Infinity?)
    && (position.Some? ==>
          var p := position.value;
          && f.InBounds(p.x, p.y) && ScannedBefore(p.y, p.x, y, x)
          && f.rows[p.y][p.x] > 0.0 && closest == Finite(f.rows[p.y][p.x])
          && (forall y', x' ::
                0 <= y' < f.height && 0 <= x' < f.width && ScannedBefore(y', x', y, x) && f.rows[y'][x'] > 0.0 ==>
                  closest.metres <= f.rows[y'][x'])
          && (forall y', x' :: 0 <= y' < f.height && 0 <= x' < f.width && ScannedBefore(y', x', p.y, p.x) ==>
                f.rows[y'][x'] <= 0.0 || f.rows[y'][x'] > closest.metres))
  }

  /** 3.py:95-103: the row-major scan for the closest valid distance and the
      position where it first occurs. */
  method ScanClosest(f: Frame) returns (closest: Distance, position: Option<Pos>)
    requires f.Valid()
    ensures closest == ClosestDistance(f)
    ensures position.None? <==> closest.Infinity?
    ensures position.Some? ==> f.InBounds(position.value.x, position.value.y)
    ensures position.Some? ==> closest == Finite(f.rows[position.value.y][position.value.x])
    ensures position.Some? ==>
              forall y, x :: 0 <= y < f.height && 0 <= x < f.width && ScannedBefore(y, x, position.value.y, position.value.x) ==>
                f.rows[y][x] <= 0.0 || f.rows[y][x] > closest.metres
  {
    closest, position := Infinity, None;
    var y := 0;
    while y < f.height
      invariant 0 <= y <= f.height
      invariant ScanSummary(f, y, 0, closest, position)
    {
      var x := 0;
      while x < f.width
        invariant 0 <= x <= f.width
        invariant ScanSummary(f, y, x, closest, position)
      {
        var d := f.At(SourceIndex(x, DEPTH_SCALE_FACTOR), SourceIndex(y, DEPTH_SCALE_FACTOR));
        if d > 0.0 && closest.Above(d) {
          closest, position := Finite(d), Some(Pos(x, y));
        }
        x := x + 1;
      }
      y := y + 1;
    }
    ClosestIsUnique(f, closest);
  }
}
