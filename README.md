# smfanctl: drive-temperature fan control, modelled in Dafny

smfanctl keeps the hard drives of a Supermicro server near a target
temperature by adjusting the PWM duty cycle of two fan zones. Every 15
seconds it reads each zone's drive temperatures into a Reading (minimum,
maximum, average, count), then runs one step of the zone controller. That
step measures how far the average has moved since the last correction and
turns that into a correction of 0 to 3 points. When the hottest drive is
more than 5 degrees off the target, it forces a one-point correction
towards the target. It refuses any correction that would push against the
hottest drive, clamps to the 34..100 range the fans accept, and asks the
board to apply the new value.

The model has four modules:

- `Text` (text.dfy): Python's `str.split()` and `int()`, as the readers use them.
- `Readings` (readings.dfy): the `Reading` record and the drive-by-drive fold
  both readers perform. It also holds the fallback reading used when nothing
  was read, and the reference definitions (sum, minimum, maximum) the fold is
  proved against.
- `Samplers` (samplers.dfy): `readArecaTemps` and `readSmartTemps` as loops
  over the decoded backend output. The Areca loop pops lines off the end. The
  hddtemp loop steps through the `|`-separated fields five at a time.
- `ZoneControl` (zone.dfy): the `Zone` class, whose `ControlZone` method
  updates `ticks`, `lastTemp` and `pwm` in place. It is proved equal to the
  pure specification `Control`, which carries the controller's per-poll
  guarantees. `Run` and its lemma cover any sequence of polls.

The actuator (`setPwm`) is an input: `ControlZone` receives whether the
call would succeed. It returns the value it hands to the actuator, or `None`
when it does not call it.

Points worth knowing about the code as written, all of which the model
keeps:

- When no drive is read, the reading is the constant 60/60/60 with count 1
  (smfanctl.py:107-111, 136-140), whatever the zone's target.
- A poll changes only `pwm`, `lastTemp` and `ticks` (smfanctl.py:145-205).
- `lastTemp` is overwritten when a correction passes the veto
  (smfanctl.py:190, 193), before the actuator is called (smfanctl.py:200).
  So a correction the actuator refuses is not commanded again on an
  unchanged reading, unless the hottest drive is more than 5 degrees off
  target (`FailedChangeNotRetried`).
- A zone counts as never polled while `lastTemp > 0` fails
  (smfanctl.py:150), so an average of 0 or below is never used as a
  reference.

## Model

| member | source | states |
|---|---|---|
| `Text.Fields` | smfanctl.py:94 | `line.split()` yields non-empty, whitespace-free fields |
| `Text.FieldsOfJoin` | smfanctl.py:94 | `line.split()` gives back exactly the words of a line, in order: splitting the space-joined words `ws` yields `ws` |
| `Text.FieldsSkipSpace` | smfanctl.py:94 | `line.split()` ignores any run of leading whitespace, however long: `(sp + s).split() == s.split()` for all-whitespace `sp` |
| `Text.FieldsOfWord` | smfanctl.py:94 | a non-empty, whitespace-free word `w` followed by whitespace or by the end of the line is the next field: `(w + s).split() == [w] + s.split()`; with `Text.FieldsSkipSpace` this fixes `split()` on every line, including the column-padded drive lines of the Areca report |
| `Text.ParseDecimal` | smfanctl.py:99 | the `int()` model reads back every decimal spelling: `int(str(n)) == n` |
| `Readings.Aggregate` | smfanctl.py:105-111 | a finished reading always has `count >= 1`, so the controller's `1/count` is defined |
| `Readings.AccumulatedTracks` | smfanctl.py:100-103 | folding drive by drive keeps the count, the running sum, the minimum and the maximum of the temperatures seen |
| `Readings.AggregateSummarizes` | smfanctl.py:100-111 | no temperatures gives 60/60/60 with count 1; otherwise count is the number of drives, min and max are drives' temperatures bounding every drive, avg is the exact mean, and `min <= avg <= max` |
| `Samplers.ReadArecaTemps` | smfanctl.py:85-114 | the Areca reader returns the aggregate of exactly the temperatures `ArecaTemps` selects |
| `Samplers.ArecaStopsAtShortLine` | smfanctl.py:91-97 | nothing above the last drive line with fewer than five fields is read |
| `Samplers.ArecaReadsEveryDrive` | smfanctl.py:91-103 | with no short drive line, the temperatures read are every `HDD` line's fifth field, bottom to top |
| `Samplers.ReadSmartTemps` | smfanctl.py:116-143 | the hddtemp reader returns the aggregate of exactly the temperatures `SmartTemps` selects |
| `Samplers.SmartTempsAt` | smfanctl.py:124-132 | the hddtemp temperatures are exactly the fields at 3, 8, 13, ..., one for each such index, in order |
| `ZoneControl.Magnitude` | smfanctl.py:162-179 | the correction size is 0..3; it is 0 exactly when the change is at most `1/count`, at least 2 exactly above `2/count`, and 3 exactly above `4/count` |
| `ZoneControl.Clamp` | smfanctl.py:197 | the clamped value lies in the limits; it is the input when the input is within them, the upper limit when the input is above, and the lower limit when the input is below (or when the limits are crossed, as `max(lo, min(v, hi))` gives) |
| `ZoneControl.Control` | smfanctl.py:145-205 | one tick per poll. The first poll records the average and, near target, changes nothing. The actuator is called only with a different, in-range value, and only its success commits. From within limits, pwm stays within them and moves by at most 3. The veto holds in both directions. Inside the dead band nothing but `ticks` changes. More than 5 degrees off target commands exactly one point towards it (nothing when pwm is already at that limit) and records the average. Even when the actuator fails, a command is never an increase while the hottest drive is below target nor a decrease while it is above. Within 5 degrees of target, a rise of the average by more than `1/count` since `lastTemp` with the hottest drive at or above target records the average and commands `pwm + Magnitude(rise)` capped at the upper limit (none if already there); a fall mirrors this downwards; a rise with the hottest drive below target, or a fall with it above, is vetoed and leaves `lastTemp` and `pwm` untouched |
| `ZoneControl.RunStaysInRange` | smfanctl.py:211-214 | over any sequence of polls pwm stays within the zone's limits, moves by at most 3·n over n polls, and ticks advance once per poll |
| `ZoneControl.FailedChangeNotRetried` | smfanctl.py:189-205 | a refused average-driven correction leaves pwm unchanged but records the average, so the same reading commands nothing next time |
| `ZoneControl.Zone.constructor` | smfanctl.py:44-52 | a new zone has the given id, start pwm and target, limits 34 and 100, `lastTemp` 0 and `ticks` 0 |
| `ZoneControl.Zone.ControlZone` | smfanctl.py:145-205 | the in-place update leaves the zone in exactly the state `Control` gives and returns the actuator command; ticks grow by one and in-range pwm stays in range |

## Left out

- Running `./areca-hwinfo`, `nc localhost 7634` and `./ipmi-fanctl`, and UTF-8 decoding of their output: the readers take the decoded lines (Areca) or the `|`-split fields (hddtemp), and the actuator's success is a parameter.
- ipmi-fanctl.cpp and areca-hwinfo.cpp: privilege handling, command formatting and `system()` calls only.
- The startup `setPwm` calls, the two zone instances and the `while True` / `sleep(15)` loop: `Run` captures the effect of repeated polls on one zone without timing.
- `print` logging.
- The unused `slope` constructor argument and field.
- `int()` failures on non-numeric fields (such as hddtemp's `SLP`/`UNK`) raise an exception in the source. Here the readers instead require the fields they convert to be numerals (`ArecaParsable`, `SmartParsable`).
- `Text.ParseInt`: does not accept the underscores or non-ASCII digits that Python's `int()` also accepts.
- `Text.IsSpace`: covers Python's whitespace only up to U+00FF, not the wider Unicode whitespace `str.split()` also splits on.
- `Readings.AggregateSummarizes`: the average is exact real division, not IEEE-754 double division, so the source's average can differ in the last bits.
- `ZoneControl.Control`: because the average and `1/count` are exact here, decisions at the `1/count` threshold can differ from the source's. With three drives whose sum goes from 108 to 109 (one drive warms by one degree), the source computes a change of 0.3333333333333357 against a threshold of 0.3333333333333333 and corrects by one point; the model sees a change of exactly 1/3, which is not above the threshold, and corrects nothing. Which side the rounding falls on depends on the temperatures. In the source this also contradicts its own comment (smfanctl.py:164-168) that the temperature must change by more than one drive-degree before anything is corrected.
- `ZoneControl.Magnitude`: the thresholds `1/count`, `2/count` and `4/count` are exact, so the rounding effect just described applies to the choice of 1, 2 or 3 as well.
- `ZoneControl.Control`: the per-poll bounds (at most 3 points, veto, dead band, override) are stated for a pwm that starts within the limits. Starting outside them, the clamp alone can move pwm further, as in the source.
