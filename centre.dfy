/** The single-threshold scripts 1.1.py and 2.py: near pixels painted red,
    and an alarm on the centre pixel whose cooldown a slider sets. */
module Centre {
  import opened Frames
  import opened Zones
  import opened Alarm

  const ALERT_DISTANCE: real := 0.5
  /** The slider's initial value and its maximum, in milliseconds. */
  const DEFAULT_FREQUENCY_MS: int := 1000
  const MAX_FREQUENCY_MS: int := 5000

  /** 1.1.py:57 and 72: a reading in metres is near when `0 < d < 0.5`. */
  predicate Near(d: real) {
    d < ALERT_DISTANCE && d > 0.0
  }

  /** The single threshold covers exactly the two nearest zones of the ladder. */
  lemma NearIsTwoInnerZones(d: real)
    ensures Near(d) <==> ZoneOf(d) == Some(0) || ZoneOf(d) == Some(1)
  {
    ZoneIsExact(d, 0);
    ZoneIsExact(d, 1);
  }

  /** 2.py:51: the mask `raw / 1000 < 0.5 and raw > 0` on raw depth units. */
  function NearRaw(raw: int): (near: bool)
    ensures near <==> 0 < raw < 500
  {
    (raw as real) / 1000.0 < ALERT_DISTANCE && raw > 0
  }

  /** With the default depth unit of a millimetre, the raw mask of 2.py and
      the metre test of 1.1.py agree. */
  lemma NearRawIsNear(raw: int)
    ensures NearRaw(raw) <==> Near((raw as real) / 1000.0)
  {
  }

  /** 1.1.py:72-73: the centre alarm fires for a valid near reading once the
      cooldown has been exceeded. */
  predicate GuardedFires(centre: real, last: real, now: real, frequency: int) {
    centre < ALERT_DISTANCE && centre > 0.0 && now - last > frequency as real
  }

  /** 2.py:62: the same without the `> 0` test, and no alarm without a reading. */
  predicate UnguardedFires(centre: Option<real>, last: real, now: real, frequency: int) {
    centre.Some? && centre.value < ALERT_DISTANCE && now - last > frequency as real
  }

  /** `check_alerts` with a one-tier configuration: the threshold and the
      slider's cooldown. */
  function SingleTier(frequency: int): (c: Config)
    ensures c.Ascending() && |c.thresholds| == 1
  {
    Config([ALERT_DISTANCE], [frequency as real])
  }

  /** For any cooldown the slider allows, both centre alarms are
      `check_alerts` on a one-tier ladder; 1.1.py additionally rejects
      invalid (zero) readings. */
  lemma {:induction false} CentreAlarmsAreSingleTier(centre: real, last: real, now: real, frequency: int)
    requires 0 <= frequency
    ensures GuardedFires(centre, last, now, frequency) <==>
              centre > 0.0 && CheckAlerts(SingleTier(frequency), Finite(centre), last, now) != last
    ensures UnguardedFires(Some(centre), last, now, frequency) <==>
              CheckAlerts(SingleTier(frequency), Finite(centre), last, now) != last
  {
    var c := SingleTier(frequency);
    if centre < ALERT_DISTANCE && now - last > frequency as real {
      assert Qualifies(c, Finite(centre), last, now, 0);
    } else {
      assert !Qualifies(c, Finite(centre), last, now, 0);
    }
  }

  /** An invalid centre reading (0) never fires 1.1.py's alarm but fires
      2.py's as soon as the cooldown is exceeded. */
  lemma ZeroCentre(last: real, now: real, frequency: int)
    ensures !GuardedFires(0.0, last, now, frequency)
    ensures UnguardedFires(Some(0.0), last, now, frequency) <==> now - last > frequency as real
  {
  }

  /** 2.py:43-45: the centre of the resized image is read from the depth
      frame only when it lies inside the frame. */
  function CentreDistance(f: Frame, resizedWidth: nat, resizedHeight: nat): (r: Option<real>)
    requires f.Valid()
    ensures r.None? <==> !f.InBounds(resizedWidth / 2, resizedHeight / 2)
    ensures r.Some? ==> r.value == f.rows[resizedHeight / 2][resizedWidth / 2]
  {
    var cx, cy := resizedWidth / 2, resizedHeight / 2;
    if 0 <= cx < f.width && 0 <= cy < f.height then Some(f.At(cx, cy)) else None
  }

  /** 2.py:23-24,40: the depth frame is 640 x 480 but the image is resized to
      the 1280 x 720 colour stream, so x = 640 is out of range, there is never
      a centre reading and the alarm never fires. */
  lemma MismatchedStreamsSilenceAlarm(f: Frame, last: real, now: real, frequency: int)
    requires f.Valid() && f.width == 640 && f.height == 480
    ensures CentreDistance(f, 1280, 720).None?
    ensures !UnguardedFires(CentreDistance(f, 1280, 720), last, now, frequency)
  {
  }

  /** 1.1.py:54-59: every near pixel is painted red in place; no other pixel
      changes. */
  method MarkNear(f: Frame, image: array2<Colour>)
    requires f.Valid() && image.Length0 == f.height && image.Length1 == f.width
    modifies image
    ensures forall y, x :: 0 <= y < f.height && 0 <= x < f.width ==>
              image[y, x] == if Near(f.rows[y][x]) then RED else old(image[y, x])
  {
    var y := 0;
    while y < f.height
      invariant 0 <= y <= f.height
      invariant forall y', x' :: 0 <= y' < f.height && 0 <= x' < f.width ==>
                  image[y', x'] == if y' < y && Near(f.rows[y'][x']) then RED else old(image[y', x'])
    {
      var x := 0;
      while x < f.width
        invariant 0 <= x <= f.width
        invariant forall y', x' :: 0 <= y' < f.height && 0 <= x' < f.width ==>
                    image[y', x'] == if (y' < y || (y' == y && x' < x)) && Near(f.rows[y'][x'])
                                     then RED else old(image[y', x'])
      {
        var d := f.At(x, y);
        if d < ALERT_DISTANCE && d > 0.0 {
          image[y, x] := RED;
        }
        x := x + 1;
      }
      y := y + 1;
    }
  }

  /** 2.py:51-52: `color_image[mask] = red`, the mask taken over the raw depth
      image resized to the colour image. */
  method MarkNearRaw(raw: seq<seq<int>>, image: array2<Colour>)
    requires |raw| == image.Length0 && forall y :: 0 <= y < |raw| ==> |raw[y]| == image.Length1
    modifies image
    ensures forall y, x :: 0 <= y < image.Length0 && 0 <= x < image.Length1 ==>
              image[y, x] == if NearRaw(raw[y][x]) then RED else old(image[y, x])
  {
    forall y, x | 0 <= y < image.Length0 && 0 <= x < image.Length1 && NearRaw(raw[y][x]) {
      image[y, x] := RED;
    }
  }

  /** The slider-controlled cooldown and the last alert time of 1.1.py and 2.py. */
  class CentreAlarm {
    /** `alert_frequency_ms`. */
    var alertFrequencyMs: int
    /** `last_alert_time`, in milliseconds. */
    var lastAlertTime: real

    /** The slider keeps the cooldown within 0..5000 ms. */
    ghost predicate Valid()
      reads this
    {
      0 <= alertFrequencyMs <= MAX_FREQUENCY_MS
    }

    /** 1.1.py:11-12,20 (2.py:9-10,18). */
    constructor ()
      ensures Valid() && alertFrequencyMs == DEFAULT_FREQUENCY_MS && lastAlertTime == 0.0
    {
      alertFrequencyMs, lastAlertTime := DEFAULT_FREQUENCY_MS, 0.0;
    }

    /** 1.1.py:15-17 (2.py:13-15): the slider callback sets the cooldown to
        the slider's value, which OpenCV keeps within 0..5000. */
    method UpdateFrequency(val: int)
      requires 0 <= val <= MAX_FREQUENCY_MS
      modifies this`alertFrequencyMs
      ensures Valid() && alertFrequencyMs == val
    {
      alertFrequencyMs := val;
    }

    /** 1.1.py:62,71-77: sample the centre pixel and sound the alarm when it
        is near and the cooldown has been exceeded. */
    method CheckCentre(f: Frame, now: real) returns (fired: bool)
      requires Valid() && f.Valid() && f.width > 0 && f.height > 0
      modifies this`lastAlertTime
      ensures Valid()
      ensures fired == GuardedFires(f.rows[f.height / 2][f.width / 2], old(lastAlertTime), now, alertFrequencyMs)
      ensures lastAlertTime == if fired then now else old(lastAlertTime)
    {
      var centre := f.At(f.width / 2, f.height / 2);
      fired := false;
      if centre < ALERT_DISTANCE && centre > 0.0 {
        if now - lastAlertTime > alertFrequencyMs as real {
          fired := true;
          lastAlertTime := now;
        }
      }
    }

    /** 2.py:43-45,61-65: the bounds-checked centre reading and the alarm
        without the `> 0` test. */
    method CheckCentreBounded(f: Frame, resizedWidth: nat, resizedHeight: nat, now: real) returns (fired: bool)
      requires Valid() && f.Valid()
      modifies this`lastAlertTime
      ensures Valid()
      ensures fired == UnguardedFires(CentreDistance(f, resizedWidth, resizedHeight), old(lastAlertTime), now, alertFrequencyMs)
      ensures lastAlertTime == if fired then now else old(lastAlertTime)
    {
      var centre := CentreDistance(f, resizedWidth, resizedHeight);
      fired := centre.Some? && centre.value < ALERT_DISTANCE && now - lastAlertTime > alertFrequencyMs as real;
      if fired {
        lastAlertTime := now;
      }
    }
  }
}
