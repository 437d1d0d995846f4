/** The activity's private preference store: a map from key to a long or a
    string value that survives between pauses and resumes of the activity,
    together with the five entries the activity writes and reads back. */
module Preferences {
  import opened JavaInt

  datatype Value = LongValue(asLong: Int64) | StringValue(asString: string)

  type Store = map<string, Value>

  const TIME_KEY: string := "time"
  const DAY_KEY: string := "day"
  const LAT_KEY: string := "lat"
  const LON_KEY: string := "lon"
  const NOTES_KEY: string := "notes"

  /** Reading `key` as a long does not fail on a value of the wrong kind. */
  predicate HoldsLong(m: Store, key: string) {
    key in m ==> m[key].LongValue?
  }

  predicate HoldsString(m: Store, key: string) {
    key in m ==> m[key].StringValue?
  }

  /** Every entry the activity reads holds the kind of value it reads it as. */
  predicate WellTyped(m: Store) {
    HoldsLong(m, TIME_KEY) && HoldsLong(m, DAY_KEY) &&
    HoldsString(m, LAT_KEY) && HoldsString(m, LON_KEY) && HoldsString(m, NOTES_KEY)
  }

  /** `getLong(key, default)`: the stored long, or the default when the
      key is absent. */
  function GetLong(m: Store, key: string, default: Int64): (r: Int64)
    requires HoldsLong(m, key)
    ensures key in m ==> m[key] == LongValue(r)
    ensures key !in m ==> r == default
  {
    if key in m then m[key].asLong else default
  }

  /** `getString(key, default)`: the stored string, or the default when
      the key is absent. */
  function GetString(m: Store, key: string, default: string): (r: string)
    requires HoldsString(m, key)
    ensures key in m ==> m[key] == StringValue(r)
    ensures key !in m ==> r == default
  {
    if key in m then m[key].asString else default
  }

  /** The store after the editor's five puts are committed. */
  function Saved(m: Store, time: Int64, day: Int64, lat: string, lon: string, notes: string): (s: Store)
    ensures s.Keys == m.Keys + {TIME_KEY, DAY_KEY, LAT_KEY, LON_KEY, NOTES_KEY}
    ensures s[TIME_KEY] == LongValue(time) && s[DAY_KEY] == LongValue(day)
    ensures s[LAT_KEY] == StringValue(lat) && s[LON_KEY] == StringValue(lon) && s[NOTES_KEY] == StringValue(notes)
  {
    m[TIME_KEY := LongValue(time)][DAY_KEY := LongValue(day)]
     [LAT_KEY := StringValue(lat)][LON_KEY := StringValue(lon)][NOTES_KEY := StringValue(notes)]
  }

  /** Saving keeps the store readable, reads back each value it wrote, and
      leaves every other key as it was. */
  lemma SavedReadsBack(m: Store, time: Int64, day: Int64, lat: string, lon: string, notes: string)
    ensures var s := Saved(m, time, day, lat, lon, notes);
      WellTyped(s) &&
      GetLong(s, TIME_KEY, 0) == time && GetLong(s, DAY_KEY, 0) == day &&
      GetString(s, LAT_KEY, "0.0") == lat && GetString(s, LON_KEY, "0.0") == lon &&
      GetString(s, NOTES_KEY, "") == notes &&
      forall k :: k !in {TIME_KEY, DAY_KEY, LAT_KEY, LON_KEY, NOTES_KEY} ==>
        (k in s <==> k in m) && (k in m ==> s[k] == m[k])
  {
  }

  /** An empty store reads as the defaults: time and day 0, coordinates
      "0.0", notes empty. */
  lemma EmptyStoreDefaults()
    ensures var m: Store := map[];
      WellTyped(m) &&
      GetLong(m, TIME_KEY, 0) == 0 && GetLong(m, DAY_KEY, 0) == 0 &&
      GetString(m, LAT_KEY, "0.0") == "0.0" && GetString(m, LON_KEY, "0.0") == "0.0" &&
      GetString(m, NOTES_KEY, "") == ""
  {
  }

  /** The store object the activity obtains with `getPreferences`. */
  class PreferenceStore {
    var entries: Store

    constructor (initial: Store)
      ensures entries == initial
    {
      entries := initial;
    }

    /** An editor with `putLong` of time and day and `putString` of the
        coordinate texts and the notes, followed by `commit`. */
    method Commit(time: Int64, day: Int64, lat: string, lon: string, notes: string)
      modifies this
      ensures entries == Saved(old(entries), time, day, lat, lon, notes)
    {
      entries := Saved(entries, time, day, lat, lon, notes);
    }
  }
}
