# Parking reminder app, modelled in Dafny

The app has one screen, `MainActivity`. On it the user saves the spot where they parked, from the last GPS fix. They can navigate back to it later. They can also pick a street-cleaning day and hour, and the app turns that choice into a calendar reminder. This project models two parts of that screen:

- **The reminder rule** (`getParkingTime`), module `ParkingTime`, in `parking_time.dfy`. The day spinner's position becomes a target weekday (`mCurrDay + 1`, Sunday = 1). The time spinner's position becomes a target hour (`mCurrTime + 6`). A three-way branch picks how many days to roll the calendar forward. The result is the weekday after the roll, the target hour and minute 0. `Calendar.roll(DAY_OF_WEEK, n)` is modelled on the weekday alone, as `(w - 1 + n) mod 7 + 1`. The current weekday and hour are a `Clock` parameter.
- **The screen's state**, class `ParkingActivity.MainActivity`, in `main_activity.dfy`. Its fields are the spinner selections, the last fix, the saved spot, the notes text, the save button's enabled flag and label, and the lifecycle phase. Its methods are the callbacks that update those fields. `onPause` and `onResume` write and read the preference store. The store is a `map` from key to a long or string value, held by `Preferences.PreferenceStore` in `preferences.dfy`.
- **Java integer widths**, module `JavaInt`, in `java_int.dfy`. The selections are Java `long`s (`Int64`). The code casts them to `int` (`Int32`) before adding to them, so both the cast and the addition wrap explicitly.

The main result is `IncrementDayIsNextOccurrence`. When both weekdays are in 1..7, the day increment is the smallest number of days `d >= 0` that lands on the target weekday, where `d = 0` is allowed only if the target hour has not passed today. That increment is at most 7. It also matches an independent definition, a day-by-day search (`FirstOccurrenceFrom`, `IncrementDayIsFirstOccurrence`). `IncrementDayIsEarliestTargetMoment` covers every day count, past or future. The moments on the target weekday at the target hour, and not before the current hour, are exactly the increment plus whole weeks. `ReminderWithinNextWeek` follows from these. Take the moment the increment names: that many days ahead, at the target hour. Counted in hours from the start of the current hour, that moment is never in the past and is less than one week ahead. All of these lemmas are about that moment, not about the date the code returns. The code reaches its date with `cal.roll(Calendar.DAY_OF_WEEK, incrementDay)`, which stays inside the current week. On a Friday with target Monday, for example, the increment is 3, but the rolled calendar lands on the Monday of the same week, four days back.

On the class side, `Valid()` holds after every callback. After a resume, the save button is enabled exactly when it shows the "save" label, and only when a fix has arrived. `onResume` disables the button. `onLocationChanged` is the only callback that enables it.

Three behaviours a reader may not expect:

- The code fixes only the reminder's weekday, hour and minute. Because `roll` does not carry into the week, nothing makes the returned date lie in the future.
- Day spinner position p becomes weekday p + 1, whatever the spinner lists. The spinner's entries live in a resource file that is not part of this model.
- The increment is 0 when the target hour equals the current hour. The moment it names, minute 0 of the current hour, can then be up to 59 minutes before now. The "not in the past" statements above are counted from the start of the current hour.

## Model

| member | source | states |
|---|---|---|
| JavaInt.Wrap32 | src/com/tbliss/parkingapp/MainActivity.java:211-212 | the 32-bit result is congruent to its argument mod 2^32, and equals it when the argument fits in an `int` |
| JavaInt.LongToInt | src/com/tbliss/parkingapp/MainActivity.java:211-212 | the `(int)` cast of a `long` keeps the value mod 2^32, and keeps it exactly when it fits |
| JavaInt.AddInt | src/com/tbliss/parkingapp/MainActivity.java:211-212 | Java `int` addition is the sum mod 2^32, and the exact sum when no overflow occurs |
| ParkingTime.ParkingDay | src/com/tbliss/parkingapp/MainActivity.java:211 | the target weekday is the day selection plus one when no cast or overflow interferes; selections 0..6 give weekdays 1..7 |
| ParkingTime.ParkingHour | src/com/tbliss/parkingapp/MainActivity.java:212 | the target hour is the time selection plus six when nothing wraps; selections 0..17 give hours 0..23 |
| ParkingTime.IncrementDay | src/com/tbliss/parkingapp/MainActivity.java:213-222 | for a current weekday in 1..7, the increment fits a Java `int`, so the subtractions never overflow |
| ParkingTime.Roll | src/com/tbliss/parkingapp/MainActivity.java:226 | rolling the weekday by n days gives a weekday in 1..7 that is congruent mod 7 to the old weekday plus n |
| ParkingTime.GetParkingTime | src/com/tbliss/parkingapp/MainActivity.java:206-232 | the reminder's minute is 0 and its hour is the target hour; its weekday is the current weekday rolled by the increment; for day selections 0..6 that weekday is selection + 1 and the increment is in 0..7 |
| ParkingTime.RollWithinWeek | src/com/tbliss/parkingapp/MainActivity.java:226 | rolling by 0..6 days adds the days, minus 7 if the sum passes Saturday |
| ParkingTime.IncrementDayIsNextOccurrence | src/com/tbliss/parkingapp/MainActivity.java:210-226 | for both weekdays in 1..7, the increment is in 0..7 and lands on the target weekday; it is 0 only if the target hour has not passed; no smaller non-negative increment qualifies |
| ParkingTime.FirstOccurrenceFrom | src/com/tbliss/parkingapp/MainActivity.java:213-226 | a day-by-day search from day d: the result is in d..7; below 7 it lands on the target weekday, and is 0 only if the target hour has not passed; no earlier day from d on qualifies |
| ParkingTime.IncrementDayIsFirstOccurrence | src/com/tbliss/parkingapp/MainActivity.java:213-226 | for both weekdays in 1..7, the three-way branch gives the same increment as the search from today |
| ParkingTime.RollSameWhenWeeksApart | src/com/tbliss/parkingapp/MainActivity.java:226 | two rolls of one weekday agree if and only if their amounts differ by a multiple of 7 |
| ParkingTime.IncrementDayIsEarliestTargetMoment | src/com/tbliss/parkingapp/MainActivity.java:209-228 | for valid weekdays and hours, over every whole number of days d, past or future: d days ahead at the target hour is on the target weekday and not before the current hour if and only if d is the increment plus a whole number of weeks |
| ParkingTime.IncrementDayCases | src/com/tbliss/parkingapp/MainActivity.java:214-221 | same weekday: increment 0 if and only if the target hour has not passed, 7 if and only if it has; later weekday: the difference, in 1..6; earlier weekday: the difference plus 7, in 1..6 |
| ParkingTime.ReminderWithinNextWeek | src/com/tbliss/parkingapp/MainActivity.java:209-228 | for valid selections, increment × 24 + target hour − current hour lies in [0, 168): the moment the increment names, that many days ahead at the target hour, is at or after the start of the current hour and less than a week ahead (the rolled calendar's date is not claimed to be this moment) |
| ParkingTime.ParkingDayIsWeekdayIff | src/com/tbliss/parkingapp/MainActivity.java:211 | the target is a weekday if and only if the day selection's low 32 bits, read unsigned, are 0..6 |
| ParkingTime.ParkingDayWrapExamples | src/com/tbliss/parkingapp/MainActivity.java:211 | a day selection of 2^32 wraps onto weekday 1; 2^31 − 1 names no weekday |
| ParkingTime.ParkingDayWrapsAtIntMax | src/com/tbliss/parkingapp/MainActivity.java:211 | a day selection of 2^31 − 1 wraps to the target weekday −2^31 |
| Preferences.GetLong | src/com/tbliss/parkingapp/MainActivity.java:100-101 | `getLong(key, default)`: the stored long when the key is present, the default when it is absent; a key holding a string is excluded, since the source would throw |
| Preferences.GetString | src/com/tbliss/parkingapp/MainActivity.java:105-110 | `getString(key, default)`: the stored string when the key is present, the default when it is absent; a key holding a long is excluded, since the source would throw |
| Preferences.Saved | src/com/tbliss/parkingapp/MainActivity.java:80-86 | the editor's five puts: the keys are the old keys plus time, day, lat, lon and notes, and those five hold the written long and string values |
| Preferences.SavedReadsBack | src/com/tbliss/parkingapp/MainActivity.java:80-86 | after the editor's puts are committed, the store is well-typed and reads back each written time, day, coordinate text and notes; every other key is untouched |
| Preferences.EmptyStoreDefaults | src/com/tbliss/parkingapp/MainActivity.java:99-111 | an empty store reads as time 0, day 0, coordinates "0.0" and notes "" |
| Preferences.PreferenceStore.constructor | src/com/tbliss/parkingapp/MainActivity.java:99 | the store starts with the given entries |
| Preferences.PreferenceStore.Commit | src/com/tbliss/parkingapp/MainActivity.java:80-86 | the new entries are the old ones with the five keys overwritten |
| ParkingActivity.MainActivity.Valid | src/com/tbliss/parkingapp/MainActivity.java:96-97 | the invariant every callback keeps: the store is readable; once resumed, the save button is enabled exactly when it shows the save label, and only after a fix has arrived (lines 236-238 being the only place that enables it) |
| ParkingActivity.MainActivity.constructor | src/com/tbliss/parkingapp/MainActivity.java:45-73 | `onCreate`: selections 0, no fix, saved spot 0; the button and notes come from the layout; the phase is "created" |
| ParkingActivity.MainActivity.OnPause | src/com/tbliss/parkingapp/MainActivity.java:76-89 | the store becomes the saved image of time, day, coordinate texts and notes; the screen state is unchanged; the phase becomes "paused" |
| ParkingActivity.MainActivity.OnResume | src/com/tbliss/parkingapp/MainActivity.java:92-112 | the button is disabled with the waiting label; time, day, saved spot and notes are read from the store with the source's defaults; the fix is kept |
| ParkingActivity.MainActivity.SetTime | src/com/tbliss/parkingapp/MainActivity.java:114-118 | sets the time selection and nothing else |
| ParkingActivity.MainActivity.SetDay | src/com/tbliss/parkingapp/MainActivity.java:120-124 | sets the day selection and nothing else |
| ParkingActivity.MainActivity.OnItemSelected | src/com/tbliss/parkingapp/MainActivity.java:152-162 | the time spinner sets only the time selection; the day spinner sets only the day selection; any other view changes nothing |
| ParkingActivity.MainActivity.SaveParking | src/com/tbliss/parkingapp/MainActivity.java:169-177 | the enabled button guarantees a fix; its latitude and longitude become the saved spot and nothing else changes |
| ParkingActivity.MainActivity.GetParkingLocation | src/com/tbliss/parkingapp/MainActivity.java:182-188 | the navigation destination is the saved spot |
| ParkingActivity.MainActivity.ClearEditText | src/com/tbliss/parkingapp/MainActivity.java:190-192 | the notes become empty and nothing else changes |
| ParkingActivity.MainActivity.SetCalendarReminder | src/com/tbliss/parkingapp/MainActivity.java:197-204 | the event has the street-cleaning title and the notes as its description, and starts at the reminder for the current selections (minute 0, on weekday selection + 1) |
| ParkingActivity.MainActivity.OnLocationChanged | src/com/tbliss/parkingapp/MainActivity.java:234-239 | stores the fix and enables the button with the save label |
| ParkingActivity.PauseThenResume | src/com/tbliss/parkingapp/MainActivity.java:76-112 | a pause followed by a resume restores time, day and notes unchanged; the saved spot becomes the parse of its own text; the button is disabled |
| ParkingActivity.FirstResume | src/com/tbliss/parkingapp/MainActivity.java:63-112 | creating the screen and resuming it on an empty store gives time 0, day 0, empty notes, the parse of "0.0" for the spot, no fix and a disabled button |
| ParkingActivity.SaveThenNavigate | src/com/tbliss/parkingapp/MainActivity.java:169-188 | after a fix arrives, saving and then navigating leads to that fix |

## Left out

- Location updates (`requestLocationUpdates`, `removeUpdates`, lines 88 and 95) are platform calls. The subscription appears only as the lifecycle phase. `OnLocationChanged` is called only while the screen is resumed.
- Latitude and longitude are `double`s in the source. Here they are an abstract `Coordinate` with no arithmetic. `"" + double` and `Double.parseDouble` (lines 83-84, 107-108) are foreign calls, passed in as the function parameters `toText` and `parse`. The model does not claim that parsing a coordinate's own text gives the coordinate back.
- The store's internals and `commit()` (lines 80-86) are not modelled. The store is a map, and committing replaces five keys.
- A `getLong` or `getString` on a key that holds the other kind of value throws in the source. The model rules this out: `Valid()` requires the store to be well-typed. Only `onPause` writes the store, and it keeps it well-typed.
- The maps URI and its hard-coded start address (line 184), and the `Intent` launches for maps and the calendar (lines 186-187, 198-203), are foreign calls. `GetParkingLocation` and `SetCalendarReminder` return what would be handed over.
- `java.util.Calendar` internals (`getInstance`, `roll`, `set`, `getTimeInMillis`, lines 207 and 226-230) are not modelled. Only the weekday, hour and minute outcome is.
- ParkingTime.GetParkingTime: does not compute a timestamp. So it does not claim the reminder lies in the future, which the source does not guarantee either (see above).
- The code does not range-check that `mCurrTime + 6` is a valid hour, and neither does the model. A lenient calendar would carry an out-of-range hour into the date, and the model does not capture that.
- These are UI and logging only, and not modelled: spinner and adapter setup, `setSelection` on the spinners, menu inflation, `Toast` and `Log` calls (lines 116-117, 122-123, 126-150, 155, 170-171, 176, 223-225), and `onNothingSelected` and the provider callbacks (lines 164, 241-245), which do nothing.
- Typing into the notes box is the widget's own behaviour and is not modelled. `notes` changes only through `onResume` and `clearEditText`.
- Dereferencing `mCurrLoc` before any fix has arrived would throw in the source. In the model, `SaveParking` requires the save button to be enabled, because the button is the callback's only caller.
