# Proximity alert and distance query, modelled in Dafny

The repository holds six RealSense/OpenCV scripts (`rbe/Final/Final.py`,
`rbe/Final/faster.py`, `rbe/Test/4.py`, `rbe/Test/3.py`, `rbe/Test/1.1.py`,
`rbe/Test/2.py`). Each reads a depth frame every tick, colours pixels by
distance, sounds a debounced alarm when something is close, and logs the
distance at pixels the operator clicks. This project models the sequential
logic beneath the camera, window and audio calls:

- **Zone ladder** (`Ladder`, `Zones`): thresholds `[0.3, 0.5, 1.0, 2.0]` m.
  Each sample falls into one half-open tier, or into none when it is `<= 0`
  (invalid) or `>= 2.0`. The overlay is painted by nested loops over an
  `array2<Colour>`: Final.py and 4.py paint every pixel, with black for "no
  zone". 3.py paints in place, only pixels that have a zone, and uses a
  different orange.
- **Closest valid distance** (`Closest`): the minimum over strictly positive
  samples, or `+inf` (`Distance.Infinity`). 3.py's row-major scan also
  returns the position where the minimum first occurs.
- **Alarm debouncer** (`Alarm`): a single `last_alert_time` shared by all
  tiers. `check_alerts` walks the tiers nearest first and carries on past a
  containing tier that is still cooling down. 3.py stops at the first
  containing tier. The two agree whenever the cooldowns ascend, and both of
  the repository's configurations ascend.
- **Click queue** (`Clicks`, `FinalMain`): the mouse callback queues
  `(x, y, t)` on a left-button press. Each frame, a click at most 3 s old gets
  a label. Then every queued click is written as one CSV row with the current
  frame's distance, and the queue is cleared. 3.py writes its row
  immediately from the callback (`Main3`).
- **Centre alarm** (`Centre`): 1.1.py and 2.py use one 0.5 m threshold on the
  centre pixel, with a cooldown set by a 0..5000 ms slider.

A frame is a `Frame` value (`rows[y][x]` is `get_distance(x, y)` in metres).
The clocks are parameters (`now`): milliseconds for the alarm
(`time.time() * 1000`) and seconds for clicks (`time.time()`). Distances are
`real`.

Four properties of the code shape the model:
- One `last_alert_time` is shared by all tiers (rbe/Final/Final.py:62,91).
  An alert of any tier restarts every tier's cooldown.
- `check_alerts` has no `break` after a containing tier that is still
  cooling down (rbe/Final/Final.py:32-38). The walk goes on to farther tiers.
  3.py does break (rbe/Test/3.py:112).
- The click queue is written out and emptied on every frame
  (rbe/Final/Final.py:129-134). So each click is labelled in at most one
  frame, even though the label test allows 3 seconds
  (rbe/Final/Final.py:119).
- Clicked coordinates are not checked against the frame
  (rbe/Final/Final.py:41-43). The model requires them to lie inside it,
  because the window shows an image the same size as the frame.

## Model

| member | source | states |
|---|---|---|
| Ladder.NearestTier | rbe/Final/Final.py:32-33 | the first tier whose threshold lies above the distance; none of the tiers before it contains the distance, and None means no tier does |
| Ladder.NearestTierIsHalfOpen | rbe/Final/Final.py:98-105 | on an ascending ladder, a positive distance has nearest tier k exactly when t[k-1] <= d < t[k], with t[-1] = 0 |
| Ladder.BeyondLastThreshold | rbe/Final/Final.py:32-39 | a distance at or beyond the last threshold, +inf included, lies in no tier |
| Ladder.ThresholdsAscending | rbe/Final/Final.py:9 | the thresholds 0.3, 0.5, 1.0, 2.0 strictly ascend |
| Zones.ZoneOf | rbe/Final/Final.py:97-105 | no zone exactly when d <= 0 or d >= 2.0; zone k implies 0 < d < t[k] and t[k-1] <= d |
| Zones.ZoneIsExact | rbe/Test/4.py:81-89 | zone k if and only if d lies in tier k's half-open interval, so at most one branch of the chain matches |
| Zones.ZoneIsNearestTier | rbe/Final/Final.py:98-105 | the if/elif chain gives the same tier as the alarm's nearest-first walk for positive samples, and no zone otherwise |
| Zones.OverlayColour | rbe/Final/Final.py:97-105 | a pixel is black exactly when its sample has no zone |
| Zones.SourceIndex | rbe/Test/3.py:77 | with scale factor 1.0, `int(x / scale)` is x, so pixel (x, y) reads frame (x, y) |
| Zones.DrawZoneOverlay | rbe/Final/Final.py:94-107 | after the nested loops, every overlay pixel holds the colour of its own sample's zone |
| Zones.MarkZones | rbe/Test/3.py:75-85 | pixels with a zone get that zone's colour (with 3.py's orange); every other pixel keeps its previous colour |
| Closest.SampleAt | rbe/Final/Final.py:87 | the flat list has W*H entries, and entry y*W+x is get_distance(x, y), so the reshape is faithful |
| Closest.SampleOrigin | rbe/Final/Final.py:87 | every entry of the flat list is some pixel's sample |
| Closest.MinPositive | rbe/Final/Final.py:88 | +inf exactly when no entry is positive; otherwise a positive value that occurs in the list and is at most every positive entry |
| Closest.ClosestDistance | rbe/Final/Final.py:87-88 | the same characterisation stated over the grid: +inf exactly when no pixel is positive, else the minimum of the positive pixels |
| Closest.ScanClosest | rbe/Test/3.py:95-103 | the scan returns the closest distance of the frame; the position is None exactly when it is +inf, and otherwise the minimum sits there and no earlier pixel in row-major order holds a positive value that small |
| Alarm.FirstQualifying | rbe/Final/Final.py:32-35 | the first tier that contains the distance and whose cooldown is strictly exceeded; no earlier tier qualifies, and None means no tier does |
| Alarm.CheckAlerts | rbe/Final/Final.py:31-39 | the result is `now` or the old time; it is `now` if some tier qualifies, and the old time if none does |
| Alarm.NearestTierAlarm | rbe/Test/3.py:106-111 | the result is `now` or the old time. It is the old time when no tier contains the distance. Otherwise the nearest containing tier decides alone: `now` exactly when that tier's cooldown is exceeded |
| Alarm.AlarmLoop | rbe/Test/3.py:105-113 | the tier loop with `break` yields the nearest-tier decision, and `alarm_triggered` is set exactly when some tier contains the distance |
| Alarm.ContinueMatchesBreak | rbe/Final/Final.py:31-39 | with ascending cooldowns, check_alerts decides as the nearest-tier rule: a farther tier never fires while the nearest containing one cools down |
| Alarm.ContinueDiffersFromBreak | rbe/Test/3.py:106-113 | with cooldowns that do not ascend, walking on past a cooling tier fires where breaking does not |
| Alarm.NoAlertBeyondLadder | rbe/Final/Final.py:32-39 | a closest distance >= 2.0, or +inf, leaves the last alert time unchanged |
| Alarm.SilentWithinShortestCooldown | rbe/Final/Final.py:62-91 | because one time is shared by all tiers, no tier fires within the nearest tier's cooldown of the last alert |
| Alarm.ConfigsAscending | rbe/Test/3.py:15-18 | both configurations (Final.py's and 3.py's) have ascending thresholds and cooldowns |
| Alarm.DebounceTrace | rbe/Final/Final.py:10 | at a steady 0.9 m, the alert fires at 3000 ms, stays silent at 5000 ms and fires again at 6000 ms |
| Clicks.LiveLabels | rbe/Final/Final.py:115-121 | one label per click at most 3 s old, so never more labels than clicks. Every label is the current distance at such a click, and every such click is labelled |
| Clicks.Resolve | rbe/Final/Final.py:129-133 | one row per queued click, in queue order, each with the current frame's distance at that click |
| Clicks.LabelExpiry | rbe/Final/faster.py:75-81 | a click at t = 0 is labelled at 2.9 s and not at 3.5 s |
| FinalMain.Session.constructor | rbe/Final/Final.py:62-69 | no alert yet (time 0), an empty queue, no rows beyond the header |
| FinalMain.Session.MouseCallback | rbe/Final/Final.py:41-43 | a left-button press appends exactly one `(x, y, now)`; any other event leaves the queue unchanged |
| FinalMain.Session.MouseCallbackUnstamped | rbe/Test/4.py:40-42 | a left-button press appends exactly one `(x, y)`; any other event leaves the queue unchanged |
| FinalMain.Session.UpdateAlarm | rbe/Final/Final.py:87-91 | the new last alert time is check_alerts of the frame's closest distance, hence `now` or unchanged |
| FinalMain.Session.Labels | rbe/Final/Final.py:115-121 | the labels drawn are exactly the live labels of the queue |
| FinalMain.Session.WriteAndClear | rbe/Final/Final.py:129-134 | the rows gain one row per queued click of any age, in order, and the queue is then empty |
| FinalMain.Session.FinalTick | rbe/Final/Final.py:73-134 | one frame: the alarm update, the full zone overlay, labels for live clicks, one row per click, an empty queue |
| FinalMain.Session.FasterTick | rbe/Final/faster.py:57-94 | one frame of faster.py: the same without the overlay |
| FinalMain.Session.Tick4 | rbe/Test/4.py:57-109 | one frame of 4.py: alarm update, full overlay, one row per click, empty queue, no labels |
| Main3.Script3.constructor | rbe/Test/3.py:21-27 | no alert yet (time 0) and no rows beyond the header |
| Main3.Script3.MouseCallback | rbe/Test/3.py:116-127 | a left click writes exactly one row `(x, y, distance)`; other events write nothing |
| Main3.Script3.Tick | rbe/Test/3.py:56-113 | one frame of 3.py: zones painted in place; the closest distance; the position where it first occurs in row-major order; the nearest-tier alarm under 3.py's cooldowns |
| Centre.NearIsTwoInnerZones | rbe/Test/1.1.py:57 | `0 < d < 0.5` holds exactly for the two nearest zones of the ladder |
| Centre.NearRaw | rbe/Test/2.py:51 | the mask `raw / 1000 < 0.5 and raw > 0` holds exactly when 0 < raw < 500 |
| Centre.NearRawIsNear | rbe/Test/2.py:51 | in millimetre units the raw mask agrees with 1.1.py's test in metres |
| Centre.CentreAlarmsAreSingleTier | rbe/Test/1.1.py:72-73 | for any non-negative cooldown, 1.1.py's alarm is check_alerts on the single tier [0.5] for positive readings, and 2.py's alarm is that with no positivity test |
| Centre.ZeroCentre | rbe/Test/2.py:62 | an invalid reading of 0 never fires 1.1.py's alarm but fires 2.py's once the cooldown is exceeded |
| Centre.CentreDistance | rbe/Test/2.py:43-45 | None exactly when the resized image's centre lies outside the depth frame; otherwise the sample there |
| Centre.MismatchedStreamsSilenceAlarm | rbe/Test/2.py:40-45 | with a 640x480 depth frame and a 1280x720 image, there is never a centre reading and the alarm never fires |
| Centre.MarkNear | rbe/Test/1.1.py:54-59 | a pixel turns red exactly when its sample is in (0, 0.5); all other pixels are unchanged |
| Centre.MarkNearRaw | rbe/Test/2.py:51-52 | a pixel turns red exactly when its raw value passes the mask; all other pixels are unchanged |
| Centre.CentreAlarm.constructor | rbe/Test/1.1.py:11-12 | cooldown 1000 ms, last alert time 0 |
| Centre.CentreAlarm.UpdateFrequency | rbe/Test/1.1.py:15-17 | the cooldown becomes the slider value, which stays within 0..5000 |
| Centre.CentreAlarm.CheckCentre | rbe/Test/1.1.py:62-77 | fires exactly when the centre sample at (W//2, H//2) is in (0, 0.5) and the cooldown is exceeded; the time becomes `now` when it fires and is unchanged otherwise |
| Centre.CentreAlarm.CheckCentreBounded | rbe/Test/2.py:43-65 | fires exactly when a bounds-checked centre reading exists, is below 0.5 and the cooldown is exceeded; the time becomes `now` when it fires and is unchanged otherwise |

## Left out

- Camera I/O: starting the RealSense pipeline, aligning frames and `wait_for_frames`. A frame is a given `Frame` value, and the tick that is skipped when a frame is missing is not modelled.
- Rendering: `applyColorMap`, `addWeighted` blending, `putText`, the legend and the window. Labels are returned as values. The radius-1 `cv2.circle` also colours neighbouring pixels; the model paints only the pixel itself.
- Audio (`winsound.Beep`, pygame) and the `print` calls. An alarm is a changed last alert time, or `fired` for the centre alarms.
- The CSV file: opening it, the header row and flushing. Rows are appended to a sequence.
- Clock reads: `time.time()` is a parameter. Final.py reads the clock separately for the alarm (milliseconds) and for labels (seconds), so ticks take two times.
- Alarm.CheckAlerts: `check_alerts` reads the clock anew for each containing tier (rbe/Final/Final.py:34). The model uses one `now` for the whole call, because the gap between those reads is not modelled.
- Window, slider and keyboard handling. Mouse callbacks are calls made between ticks. 3.py's callback reads the latest frame, so the model passes that frame in. Slider values are assumed to stay in 0..5000.
- 2.py's `cv2.resize` interpolation of the depth image. The raw grid is taken already resized to the colour image.
- Floating-point rounding and the `round`/`:.2f` formatting. Distances and times are exact reals.
- rbe/Test/1.0.py and rbe/Test/0.1.py: camera and window only, with no logic beyond I/O.
- Centre.CentreAlarmsAreSingleTier: stated only for non-negative cooldowns (the slider's range). With a negative cooldown and `now == last`, the alarm "fires" without changing the time.
