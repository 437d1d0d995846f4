/** The parking screen: its spinner selections, the last location fix, the
    saved parking spot, the notes box and the save button, and the
    callbacks the platform and the user drive it with. */
module ParkingActivity {
  import opened JavaInt
  import opened ParkingTime
  import opened Preferences

  datatype Option<T> = None | Some(value: T)

  /** A coordinate stands for the platform's `double`; the model does no
      arithmetic on it. */
  type Coordinate = int

  datatype Location = Location(latitude: Coordinate, longitude: Coordinate)

  /** The view whose selection changed. */
  datatype Source = TimeSpinner | DaySpinner | OtherView(viewId: int)

  /** The two texts the save button shows. */
  datatype ButtonLabel = WaitingForLocation | SaveParkingLabel

  /** Where the activity is in its lifecycle, as the platform drives it. */
  datatype Phase = Created | Resumed | Paused

  /** The calendar entry the reminder button asks the calendar to insert. */
  datatype CalendarEvent = CalendarEvent(title: string, description: string, begin: Reminder)

  const REMINDER_TITLE: string := "Move car for street cleaning"

  class MainActivity {
    var mCurrTime: Int64
    var mCurrDay: Int64
    var mCurrLoc: Option<Location>
    var mSavedLat: Coordinate
    var mSavedLon: Coordinate
    /** The text of the notes box. */
    var notes: string
    var saveEnabled: bool
    var saveLabel: ButtonLabel
    var phase: Phase
    const prefs: PreferenceStore

    /** Once the activity has been resumed, the save button is enabled
        exactly when it reads "save", and only if a location fix exists. */
    ghost predicate Valid()
      reads this, prefs
    {
      WellTyped(prefs.entries) &&
      (phase != Created ==>
         (saveEnabled <==> saveLabel == SaveParkingLabel) &&
         (saveEnabled ==> mCurrLoc.Some?))
    }

    /** `onCreate`: the fields start at Java's defaults; the button and the
        notes box start as the layout declares them. */
    constructor (store: PreferenceStore, layoutEnabled: bool, layoutLabel: ButtonLabel, layoutNotes: string)
      requires WellTyped(store.entries)
      ensures Valid() && phase == Created && prefs == store
      ensures mCurrTime == 0 && mCurrDay == 0 && mCurrLoc == None
      ensures mSavedLat == 0 && mSavedLon == 0
      ensures notes == layoutNotes && saveEnabled == layoutEnabled && saveLabel == layoutLabel
    {
      mCurrTime, mCurrDay, mCurrLoc := 0, 0, None;
      mSavedLat, mSavedLon := 0, 0;
      notes, saveEnabled, saveLabel := layoutNotes, layoutEnabled, layoutLabel;
      phase := Created;
      prefs := store;
    }

    /** `onPause`: writes the selections, the saved spot (as text) and the
        notes to the store; nothing of the activity's own state changes.
        `toText` is the platform's `"" + double`. */
    method OnPause(toText: Coordinate -> string)
      requires Valid() && phase == Resumed
      modifies this, prefs
      ensures Valid() && phase == Paused
      ensures prefs.entries == Saved(old(prefs.entries), mCurrTime, mCurrDay, toText(mSavedLat), toText(mSavedLon), notes)
      ensures mCurrTime == old(mCurrTime) && mCurrDay == old(mCurrDay) && mCurrLoc == old(mCurrLoc)
      ensures mSavedLat == old(mSavedLat) && mSavedLon == old(mSavedLon) && notes == old(notes)
      ensures saveEnabled == old(saveEnabled) && saveLabel == old(saveLabel)
    {
      prefs.Commit(mCurrTime, mCurrDay, toText(mSavedLat), toText(mSavedLon), notes);
      SavedReadsBack(old(prefs.entries), mCurrTime, mCurrDay, toText(mSavedLat), toText(mSavedLon), notes);
      phase := Paused;
    }

    /** `onResume`: disables the save button until a fix arrives and reads
        the selections, the saved spot and the notes back from the store,
        with their defaults for missing keys. `parse` is the platform's
        `Double.parseDouble`. */
    method OnResume(parse: string -> Coordinate)
      requires Valid() && phase != Resumed
      modifies this
      ensures Valid() && phase == Resumed
      ensures !saveEnabled && saveLabel == WaitingForLocation
      ensures mCurrTime == GetLong(prefs.entries, TIME_KEY, 0)
      ensures mCurrDay == GetLong(prefs.entries, DAY_KEY, 0)
      ensures mSavedLat == parse(GetString(prefs.entries, LAT_KEY, "0.0"))
      ensures mSavedLon == parse(GetString(prefs.entries, LON_KEY, "0.0"))
      ensures notes == GetString(prefs.entries, NOTES_KEY, "")
      ensures mCurrLoc == old(mCurrLoc)
    {
      phase := Resumed;
      saveEnabled, saveLabel := false, WaitingForLocation;
      var time := GetLong(prefs.entries, TIME_KEY, 0);
      var day := GetLong(prefs.entries, DAY_KEY, 0);
      SetTime(time);
      SetDay(day);
      mSavedLat := parse(GetString(prefs.entries, LAT_KEY, "0.0"));
      mSavedLon := parse(GetString(prefs.entries, LON_KEY, "0.0"));
      notes := GetString(prefs.entries, NOTES_KEY, "");
    }

    /** `setTime`: the time selection and nothing else. */
    method SetTime(time: Int64)
      modifies this`mCurrTime
      ensures mCurrTime == time
    {
      mCurrTime := time;
    }

    /** `setDay`: the day selection and nothing else. */
    method SetDay(day: Int64)
      modifies this`mCurrDay
      ensures mCurrDay == day
    {
      mCurrDay := day;
    }

    /** `onItemSelected`: records the selected id in the field of the
        spinner that fired; a selection in any other view changes nothing. */
    method OnItemSelected(source: Source, id: Int64)
      requires Valid() && phase == Resumed
      modifies this`mCurrTime, this`mCurrDay
      ensures Valid()
      ensures source == TimeSpinner ==> mCurrTime == id && mCurrDay == old(mCurrDay)
      ensures source == DaySpinner ==> mCurrDay == id && mCurrTime == old(mCurrTime)
      ensures source.OtherView? ==> mCurrTime == old(mCurrTime) && mCurrDay == old(mCurrDay)
    {
      match source
      case TimeSpinner => mCurrTime := id;
      case DaySpinner => mCurrDay := id;
      case OtherView(_) =>
    }

    /** `saveParking`, the save button's callback: the button is clickable
        only while enabled, so a fix exists, and its coordinates become the
        saved spot. */
    method SaveParking()
      requires Valid() && phase == Resumed && saveEnabled
      modifies this`mSavedLat, this`mSavedLon
      ensures Valid()
      ensures mCurrLoc.Some?
      ensures mSavedLat == mCurrLoc.value.latitude && mSavedLon == mCurrLoc.value.longitude
    {
      mSavedLat := mCurrLoc.value.latitude;
      mSavedLon := mCurrLoc.value.longitude;
    }

    /** `getParkingLocation`: the destination handed to the maps
        application is the saved spot. */
    method GetParkingLocation() returns (destination: Location)
      ensures destination.latitude == mSavedLat && destination.longitude == mSavedLon
    {
      destination := Location(mSavedLat, mSavedLon);
    }

    /** `clearEditText`: empties the notes box. */
    method ClearEditText()
      requires Valid() && phase == Resumed
      modifies this`notes
      ensures Valid() && notes == ""
    {
      notes := "";
    }

    /** `setCalendarReminder`: an event titled for street cleaning, described
        by the notes, starting at the reminder on the selected weekday. */
    method SetCalendarReminder(now: Clock) returns (event: CalendarEvent)
      requires ValidClock(now)
      ensures event.title == REMINDER_TITLE && event.description == notes
      ensures event.begin == GetParkingTime(now, mCurrDay, mCurrTime)
      ensures event.begin.minute == 0
      ensures 0 <= mCurrDay <= 6 ==> event.begin.weekday == mCurrDay as int + 1
    {
      event := CalendarEvent(REMINDER_TITLE, notes, GetParkingTime(now, mCurrDay, mCurrTime));
    }

    /** `onLocationChanged`: keeps the fix and enables the save button. */
    method OnLocationChanged(location: Location)
      requires Valid() && phase == Resumed
      modifies this`mCurrLoc, this`saveEnabled, this`saveLabel
      ensures Valid()
      ensures mCurrLoc == Some(location) && saveEnabled && saveLabel == SaveParkingLabel
    {
      mCurrLoc := Some(location);
      saveEnabled, saveLabel := true, SaveParkingLabel;
    }
  }

  /** A pause followed by a resume gives back the selections and the notes
      unchanged, the saved spot as parsed from its own text, and a disabled
      save button. */
  method PauseThenResume(activity: MainActivity, toText: Coordinate -> string, parse: string -> Coordinate)
    requires activity.Valid() && activity.phase == Resumed
    modifies activity, activity.prefs
    ensures activity.Valid() && activity.phase == Resumed
    ensures activity.mCurrTime == old(activity.mCurrTime) && activity.mCurrDay == old(activity.mCurrDay)
    ensures activity.notes == old(activity.notes)
    ensures activity.mSavedLat == parse(toText(old(activity.mSavedLat)))
    ensures activity.mSavedLon == parse(toText(old(activity.mSavedLon)))
    ensures activity.mCurrLoc == old(activity.mCurrLoc) && !activity.saveEnabled
  {
    activity.OnPause(toText);
    SavedReadsBack(old(activity.prefs.entries), old(activity.mCurrTime), old(activity.mCurrDay),
                   toText(old(activity.mSavedLat)), toText(old(activity.mSavedLon)), old(activity.notes));
    activity.OnResume(parse);
  }

  /** The first resume on an empty store selects time 0 and day 0, empties
      the notes and parses "0.0" for the saved spot. */
  method FirstResume(store: PreferenceStore, layoutEnabled: bool, layoutLabel: ButtonLabel, layoutNotes: string,
                     parse: string -> Coordinate) returns (activity: MainActivity)
    requires store.entries == map[]
    ensures activity.Valid() && activity.phase == Resumed && activity.prefs == store
    ensures activity.mCurrTime == 0 && activity.mCurrDay == 0 && activity.notes == ""
    ensures activity.mSavedLat == parse("0.0") && activity.mSavedLon == parse("0.0")
    ensures activity.mCurrLoc == None && !activity.saveEnabled
  {
    EmptyStoreDefaults();
    activity := new MainActivity(store, layoutEnabled, layoutLabel, layoutNotes);
    activity.OnResume(parse);
  }

  /** Saving and then navigating leads to the location that arrived last. */
  method SaveThenNavigate(activity: MainActivity, location: Location) returns (destination: Location)
    requires activity.Valid() && activity.phase == Resumed
    modifies activity
    ensures activity.Valid() && destination == location
  {
    activity.OnLocationChanged(location);
    activity.SaveParking();
    destination := activity.GetParkingLocation();
  }
}
