/** The main loops of Final.py, faster.py and 4.py: one shared last alert
    time, the click queue filled by the mouse callback, and the CSV rows
    written after each frame. */
module FinalMain {
  import opened Frames
  import opened Zones
  import opened Closest
  import opened Alarm
  import opened Clicks

  class Session {
    /** The window and the aligned frames are `width` x `height` (640 x 480). */
    const width: nat
    const height: nat

    /** `last_alert_time`, in milliseconds. */
    var lastAlertTime: real
    /** `click_data`. */
    var clickData: seq<Click>
    /** The rows written below the header `X, Y, Distance (m)`. */
    var csvRows: seq<Reading>

    /** Every queued click lies in the window, hence in the frame. */
    ghost predicate Valid()
      reads this
    {
      forall c :: c in clickData ==> 0 <= c.x < width && 0 <= c.y < height
    }

    predicate Fits(f: Frame)
      reads this
    {
      f.Valid() && f.width == width && f.height == height
    }

    /** Final.py:62,67-69: no alert yet, an empty queue, only the header written. */
    constructor (width: nat, height: nat)
      ensures Valid() && this.width == width && this.height == height
      ensures lastAlertTime == 0.0 && clickData == [] && csvRows == []
    {
      this.width, this.height := width, height;
      lastAlertTime, clickData, csvRows := 0.0, [], [];
    }

    /** Final.py:41-43 (faster.py:40-42): a left-button press queues the
        click with its time in seconds; every other event is ignored. */
    method MouseCallback(event: int, x: int, y: int, now: real)
      requires Valid()
      requires event == EVENT_LBUTTONDOWN ==> 0 <= x < width && 0 <= y < height
      modifies this`clickData
      ensures Valid()
      ensures clickData == old(clickData) + if event == EVENT_LBUTTONDOWN then [Click(x, y, Some(now))] else []
    {
      if event == EVENT_LBUTTONDOWN {
        clickData := clickData + [Click(x, y, Some(now))];
      }
    }

    /** 4.py:40-42: the same, queueing a bare `(x, y)`. */
    method MouseCallbackUnstamped(event: int, x: int, y: int)
      requires Valid()
      requires event == EVENT_LBUTTONDOWN ==> 0 <= x < width && 0 <= y < height
      modifies this`clickData
      ensures Valid()
      ensures clickData == old(clickData) + if event == EVENT_LBUTTONDOWN then [Click(x, y, None)] else []
    {
      if event == EVENT_LBUTTONDOWN {
        clickData := clickData + [Click(x, y, None)];
      }
    }

    /** Final.py:87-91 (faster.py:68-72, 4.py:71-75): the closest valid
        distance of the frame is fed to `check_alerts`. */
    method UpdateAlarm(f: Frame, now: real)
      requires Fits(f)
      modifies this`lastAlertTime
      ensures lastAlertTime == CheckAlerts(FINAL_CONFIG, ClosestDistance(f), old(lastAlertTime), now)
      ensures lastAlertTime == now || lastAlertTime == old(lastAlertTime)
    {
      lastAlertTime := CheckAlerts(FINAL_CONFIG, ClosestDistance(f), lastAlertTime, now);
    }

    /** Final.py:115-121 (faster.py:75-81): a label with the current frame's
        distance for each queued click at most three seconds old. */
    method Labels(f: Frame, now: real) returns (labels: seq<Reading>)
      requires Valid() && Fits(f)
      ensures labels == LiveLabels(clickData, f, now)
    {
      labels := [];
      var i := 0;
      while i < |clickData|
        invariant 0 <= i <= |clickData|
        invariant AllInFrame(clickData[..i], f)
        invariant labels == LiveLabels(clickData[..i], f, now)
      {
        var c := clickData[i];
        assert clickData[..i + 1] == clickData[..i] + [c];
        if Live(c, now) {
          labels := labels + [ReadingAt(f, c)];
        }
        i := i + 1;
      }
      assert clickData[..i] == clickData;
    }

    /** Final.py:129-134 (faster.py:89-94, 4.py:104-109): one row per queued
        click, of any age, in queue order, then the queue is emptied. */
    method WriteAndClear(f: Frame)
      requires Valid() && Fits(f)
      modifies this`clickData, this`csvRows
      ensures Valid() && clickData == []
      ensures AllInFrame(old(clickData), f)
      ensures csvRows == old(csvRows) + Resolve(old(clickData), f)
    {
      var i := 0;
      while i < |clickData|
        invariant 0 <= i <= |clickData|
        invariant clickData == old(clickData)
        invariant AllInFrame(clickData[..i], f)
        invariant csvRows == old(csvRows) + Resolve(clickData[..i], f)
      {
        var c := clickData[i];
        assert clickData[..i + 1] == clickData[..i] + [c];
        csvRows := csvRows + [ReadingAt(f, c)];
        i := i + 1;
      }
      assert clickData[..i] == clickData;
      clickData := [];
    }

    /** One pass of Final.py's loop body (73-134): alarm, zone overlay,
        labels, rows. `alarmNow` is in milliseconds, `labelNow` in seconds. */
    method FinalTick(f: Frame, overlay: array2<Colour>, alarmNow: real, labelNow: real)
      returns (labels: seq<Reading>)
      requires Valid() && Fits(f) && overlay.Length0 == height && overlay.Length1 == width
      modifies this`lastAlertTime, this`clickData, this`csvRows, overlay
      ensures Valid() && clickData == []
      ensures lastAlertTime == CheckAlerts(FINAL_CONFIG, ClosestDistance(f), old(lastAlertTime), alarmNow)
      ensures forall y, x :: 0 <= y < height && 0 <= x < width ==> overlay[y, x] == OverlayColour(f.rows[y][x])
      ensures AllInFrame(old(clickData), f)
      ensures labels == LiveLabels(old(clickData), f, labelNow)
      ensures csvRows == old(csvRows) + Resolve(old(clickData), f)
    {
      UpdateAlarm(f, alarmNow);
      DrawZoneOverlay(f, overlay);
      labels := Labels(f, labelNow);
      WriteAndClear(f);
    }

    /** faster.py's loop body (57-94): Final.py's without the zone overlay. */
    method FasterTick(f: Frame, alarmNow: real, labelNow: real) returns (labels: seq<Reading>)
      requires Valid() && Fits(f)
      modifies this`lastAlertTime, this`clickData, this`csvRows
      ensures Valid() && clickData == []
      ensures lastAlertTime == CheckAlerts(FINAL_CONFIG, ClosestDistance(f), old(lastAlertTime), alarmNow)
      ensures AllInFrame(old(clickData), f)
      ensures labels == LiveLabels(old(clickData), f, labelNow)
      ensures csvRows == old(csvRows) + Resolve(old(clickData), f)
    {
      UpdateAlarm(f, alarmNow);
      labels := Labels(f, labelNow);
      WriteAndClear(f);
    }

    /** 4.py's loop body (57-109): alarm, zone overlay and rows, no labels. */
    method Tick4(f: Frame, overlay: array2<Colour>, alarmNow: real)
      requires Valid() && Fits(f) && overlay.Length0 == height && overlay.Length1 == width
      modifies this`lastAlertTime, this`clickData, this`csvRows, overlay
      ensures Valid() && clickData == []
      ensures lastAlertTime == CheckAlerts(FINAL_CONFIG, ClosestDistance(f), old(lastAlertTime), alarmNow)
      ensures forall y, x :: 0 <= y < height && 0 <= x < width ==> overlay[y, x] == OverlayColour(f.rows[y][x])
      ensures AllInFrame(old(clickData), f)
      ensures csvRows == old(csvRows) + Resolve(old(clickData), f)
    {
      UpdateAlarm(f, alarmNow);
      DrawZoneOverlay(f, overlay);
      WriteAndClear(f);
    }
  }
}
