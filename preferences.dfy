/** The shared-preference store both components read, the constants of
    `PreferenceKeys` (whose values are not part of this model, so they are carried as a
    record), and the string resources the two components show as toasts. */
module Preferences {
  import opened KotlinText

  /** The preference keys the two components react to; `Other` is any other key. */
  datatype PrefKey = PollInterval | Buffers | MaxLogs | Theme | UseBlackTheme | Other(name: string)

  /** A snapshot of the default shared preferences. A stored string set is held as the
      sequence in which the store's set iterates it; it never repeats an element. */
  datatype Prefs = Prefs(strings: map<PrefKey, string>, stringSets: map<PrefKey, seq<string>>)
  {
    /** `getString(key, default)`. */
    function GetString(key: PrefKey, default: string): string {
      if key in strings then strings[key] else default
    }

    /** `getStringSet(key, default)`. */
    function GetStringSet(key: PrefKey, default: seq<string>): seq<string> {
      if key in stringSets then stringSets[key] else default
    }

    /** `edit { putStringSet(key, value) }`. */
    function PutStringSet(key: PrefKey, value: seq<string>): (r: Prefs)
      ensures forall d :: r.GetStringSet(key, d) == value
      ensures r.strings == strings
      ensures forall k, d :: k != key ==> r.GetStringSet(k, d) == GetStringSet(k, d)
    {
      this.(stringSets := stringSets[key := value])
    }
  }

  /** The `PreferenceKeys` constants: the defaults of the logcat settings and the stored
      values that stand for the automatic and the dark theme. */
  datatype PreferenceConstants = PreferenceConstants(
    defaultPollInterval: string,
    defaultMaxLogs: string,
    defaultBuffers: seq<string>,
    defaultTheme: string,
    themeAuto: string,
    themeDark: string)

  // A stored buffer value is the decimal position of a buffer in the platform's list of
  // buffers.

  /** The value reads as an Int that indexes the available buffers. */
  predicate IsIndex(value: string, availableBuffers: seq<string>) {
    ToInt(value).Some? && 0 <= ToInt(value).value < |availableBuffers|
  }

  predicate ValidIndices(values: seq<string>, availableBuffers: seq<string>) {
    forall i :: 0 <= i < |values| ==> IsIndex(values[i], availableBuffers)
  }

  /** `availableBuffers[e.toInt()]`. */
  function BufferName(availableBuffers: seq<string>, value: string): string
    requires IsIndex(value, availableBuffers)
  {
    availableBuffers[ToInt(value).value]
  }

  /** The string resources shown as toasts. */
  datatype Message =
    | ValueMustBeGreaterThan0
    | ValueMustBeAPositiveInteger
    | CannotBeLessThan1000
    | NotAValidNumber
    | RestartingLogcat
}
