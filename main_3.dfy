/** The loop of 3.py: zones painted in place, the closest distance found with
    its position, the nearest-tier alarm, and a CSV row written per click. */
module Main3 {
  import opened Frames
  import opened Zones
  import opened Closest
  import opened Alarm
  import opened Clicks

  class Script3 {
    /** `last_alert_time`, in milliseconds (3.py:21). */
    var lastAlertTime: real
    /** The rows written below the header `X, Y, Distance (m)`. */
    var csvRows: seq<Reading>

    constructor ()
      ensures lastAlertTime == 0.0 && csvRows == []
    {
      lastAlertTime, csvRows := 0.0, [];
    }

    /** 3.py:116-127: a left-button press writes one row at once, with the
        distance of the frame in hand; other events write nothing. */
    method MouseCallback(f: Frame, event: int, x: int, y: int)
      requires f.Valid()
      requires event == EVENT_LBUTTONDOWN ==> f.InBounds(x, y)
      modifies this`csvRows
      ensures event == EVENT_LBUTTONDOWN ==> csvRows == old(csvRows) + [Reading(x, y, f.rows[y][x])]
      ensures event != EVENT_LBUTTONDOWN ==> csvRows == old(csvRows)
    {
      if event == EVENT_LBUTTONDOWN {
        var d := f.At(SourceIndex(x, DEPTH_SCALE_FACTOR), SourceIndex(y, DEPTH_SCALE_FACTOR));
        csvRows := csvRows + [Reading(x, y, d)];
      }
    }

    /** 3.py:56-113, one frame: paint the zones, scan for the closest valid
        distance, then run the tier loop that stops at the nearest tier. */
    method Tick(f: Frame, image: array2<Colour>, now: real) returns (closest: Distance, position: Option<Pos>)
      requires f.Valid() && image.Length0 == f.height && image.Length1 == f.width
      modifies this`lastAlertTime, image
      ensures forall y, x :: 0 <= y < f.height && 0 <= x < f.width ==>
                image[y, x] == match ZoneOf(f.rows[y][x])
                               case None => old(image[y, x])
                               case Some(k) => TierColour(k, ORANGE_3)
      ensures closest == ClosestDistance(f)
      ensures position.None? <==> closest.Infinity?
      ensures position.Some? ==> f.InBounds(position.value.x, position.value.y)
      ensures position.Some? ==> closest == Finite(f.rows[position.value.y][position.value.x])
      ensures position.Some? ==>
                forall y, x :: 0 <= y < f.height && 0 <= x < f.width && ScannedBefore(y, x, position.value.y, position.value.x) ==>
                  f.rows[y][x] <= 0.0 || f.rows[y][x] > closest.metres
      ensures lastAlertTime == NearestTierAlarm(CONFIG_3, closest, old(lastAlertTime), now)
    {
      MarkZones(f, image);
      closest, position := ScanClosest(f);
      var triggered;
      lastAlertTime, triggered := AlarmLoop(CONFIG_3, closest, lastAlertTime, now);
    }
  }
}
