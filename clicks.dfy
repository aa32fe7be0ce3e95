/** Clicks queued by the mouse callback, the labels drawn for recent ones and
    the CSV rows written for all of them. */
module Clicks {
  import opened Frames

  /** `cv2.EVENT_LBUTTONDOWN`. */
  const EVENT_LBUTTONDOWN: int := 1

  /** A click is labelled while it is at most this many seconds old. */
  const LABEL_TTL: real := 3.0

  /** A queued click: its pixel and, in Final.py and faster.py, its
      `time.time()` in seconds; 4.py queues bare `(x, y)` pairs (`at` is None). */
  datatype Click = Click(x: int, y: int, at: Option<real>)

  /** A distance read at a pixel: an on-screen label or a CSV row
      `X, Y, Distance (m)`. */
  datatype Reading = Reading(x: int, y: int, distance: real)

  predicate AllInFrame(clicks: seq<Click>, f: Frame) {
    forall c :: c in clicks ==> f.InBounds(c.x, c.y)
  }

  /** The current frame's distance at a click. */
  function ReadingAt(f: Frame, c: Click): Reading
    requires f.Valid() && f.InBounds(c.x, c.y)
  {
    Reading(c.x, c.y, f.At(c.x, c.y))
  }

  /** The click is recent enough to be labelled at `now`. */
  predicate Live(c: Click, now: real) {
    c.at.Some? && now - c.at.value <= LABEL_TTL
  }

  /** How many queued clicks are live at `now`. */
  function LiveCount(clicks: seq<Click>, now: real): (n: nat)
    ensures n <= |clicks|
  {
    if clicks == [] then 0
    else LiveCount(clicks[..|clicks| - 1], now) + if Live(clicks[|clicks| - 1], now) then 1 else 0
  }

  /** The labels drawn at `now`, in queue order: one per live click. */
  function LiveLabels(clicks: seq<Click>, f: Frame, now: real): (labels: seq<Reading>)
    requires f.Valid() && AllInFrame(clicks, f)
    ensures |labels| == LiveCount(clicks, now) <= |clicks|
    ensures forall l :: l in labels ==> exists c :: c in clicks && Live(c, now) && l == ReadingAt(f, c)
    ensures forall c :: c in clicks && Live(c, now) ==> ReadingAt(f, c) in labels
  {
    if clicks == [] then []
    else
      var init := clicks[..|clicks| - 1];
      var c := clicks[|clicks| - 1];
      assert forall c' :: c' in init ==> c' in clicks;
      LiveLabels(init, f, now) + if Live(c, now) then [ReadingAt(f, c)] else []
  }

  /** The rows written for the queue, one per click in queue order, each with
      the current frame's distance. */
  function Resolve(clicks: seq<Click>, f: Frame): (rows: seq<Reading>)
    requires f.Valid() && AllInFrame(clicks, f)
    ensures |rows| == |clicks|
    ensures forall i :: 0 <= i < |clicks| ==> rows[i] == ReadingAt(f, clicks[i])
  {
    if clicks == [] then []
    else
      var init := clicks[..|clicks| - 1];
      assert forall c' :: c' in init ==> c' in clicks;
      Resolve(init, f) + [ReadingAt(f, clicks[|clicks| - 1])]
  }

  /** A click at `t = 0 s` is labelled, with the distance of the frame in
      hand, at 2.9 s and no longer at 3.5 s. */
  lemma LabelExpiry(f: Frame)
    requires f.Valid() && f.InBounds(100, 50)
    ensures LiveLabels([Click(100, 50, Some(0.0))], f, 2.9) == [Reading(100, 50, f.At(100, 50))]
    ensures LiveLabels([Click(100, 50, Some(0.0))], f, 3.5) == []
  {
    assert [Click(100, 50, Some(0.0))][..0] == [];
  }
}
