# LogcatReader: settings screen and capture service

A model of two pieces of the LogcatReader Android app, written in Dafny.

- **The settings screen** (`SettingsFragment`) sets up each preference from the shared-preference store. Its change listeners accept or reject user edits:
  - the poll interval must trim and parse as a positive Long;
  - the buffer selection must be non-empty;
  - the max-logs count must trim and parse as an Int, differ from the value read at setup, and be at least 1000.

  The screen also shows summaries (the buffer summary is the chosen names, sorted and joined by ", "), offers the entry values "0".."n-1", and enables the black-theme switch only under the automatic or dark theme.
- **The capture service** (`LogcatService`) does four things:
  - it seeds the default buffers into the store;
  - it builds and starts its capture session (`Logcat`) from the stored settings;
  - it mirrors later preference changes into the session: a poll interval is applied in place, new buffers restart the session, and a new capacity stops it, sets the capacity and starts it again;
  - it chooses the actions of its foreground notification.

Layout:

- `kotlin_text.dfy` (module `KotlinText`) models the Kotlin/JVM library behaviour the code relies on:
  - `trim()`, using the JVM definition of whitespace;
  - `toInt()` and `toLong()`: optional sign, ASCII decimal digits, 32-bit and 64-bit range checks; a NumberFormatException is `None`;
  - `Int.toString()` and `toLowerCase()`.
- `kotlin_collections.dfy` (module `KotlinCollections`) models `String.compareTo`, `sorted()` and `joinToString`.
- `preferences.dfy` (module `Preferences`) holds the store, the preference keys, the `PreferenceKeys` constants (as a record, because their values are not part of this model) and the toast messages.
- `settings_fragment.dfy` (module `Settings`) holds the pure accept/reject decisions and the summary, plus the class `SettingsFragment` whose listeners update the summaries and append toasts and restarts to an event log.
- `logcat_service.dfy` (module `Services`) holds the session as an abstract record plus the class `LogcatService`. The class records every step it takes in an ordered effect log: building the session, each call on it, each toast, and setting `restartedLogcat`.

Notes on the model:

- A stored value that the source would fail on is a precondition, because the source throws there and does not recover. Examples are a buffer value that does not index the platform's buffers, a theme value that is not an index, or a stored count that does not parse.
- A Kotlin `Set<String>` is modelled as the sequence in which it iterates. `Settings.ToSummaryOfSet` shows that the summary does not depend on that order.
- Initialisation always sets the session's buffers from the stored (or default) values, even when either buffer list is empty (LogcatService.kt:195-196). The seeding step is the only one that checks the two lists.
- The poll-interval summary shown at setup is the stored text plus " ms", untrimmed (app/src/main/java/com/dp/logcatapp/fragments/settings/SettingsFragment.kt:71-73). After an accepted edit, the summary is the trimmed text plus " ms".
- The max-logs listener compares against the count read at setup, and no accepted edit ever updates it. After changing the count from 5000 to 2000, entering 5000 again is therefore refused without a toast.

## Model

| member | source | states |
|---|---|---|
| KotlinText.Trim | app/src/main/java/com/dp/logcatapp/fragments/settings/SettingsFragment.kt:77 | `trim()` keeps a contiguous middle part of the text: no longer than the input, with no whitespace at either end, and only whitespace after it |
| KotlinText.TrimPadded | app/src/main/java/com/dp/logcatapp/fragments/settings/SettingsFragment.kt:77 | trimming whitespace-only padding around text that neither starts nor ends with whitespace gives back exactly that text |
| KotlinText.TrimIdempotent | app/src/main/java/com/dp/logcatapp/fragments/settings/SettingsFragment.kt:138 | trimming twice is trimming once |
| KotlinText.TrimDigits | app/src/main/java/com/dp/logcatapp/fragments/settings/SettingsFragment.kt:138 | a run of digits has nothing to trim |
| KotlinText.ParseInRange | app/src/main/java/com/dp/logcatapp/fragments/settings/SettingsFragment.kt:78 | a parse succeeds only inside the range and then agrees with the decimal syntax; every syntactically valid value inside the range is accepted |
| KotlinText.ToInt | app/src/main/java/com/dp/logcatapp/fragments/settings/SettingsFragment.kt:138 | `toInt()` yields only values between -2^31 and 2^31-1 |
| KotlinText.ToLong | app/src/main/java/com/dp/logcatapp/fragments/settings/SettingsFragment.kt:78 | `toLong()` yields only values between -2^63 and 2^63-1 |
| KotlinText.ParseRejectsNonDigit | app/src/main/java/com/dp/logcatapp/fragments/settings/SettingsFragment.kt:86-89 | a non-digit anywhere after the optional sign makes the parse throw |
| KotlinText.NatToString | app/src/main/java/com/dp/logcatapp/fragments/settings/SettingsFragment.kt:107 | `Int.toString()` of a non-negative value is a non-empty digit string with no leading zero whose decimal value is the number |
| KotlinText.NatToStringToInt | app/src/main/java/com/dp/logcatapp/fragments/settings/SettingsFragment.kt:105-109 | `toInt()` reads back every non-negative Int that `toString()` wrote |
| KotlinText.ParseSigned | app/src/main/java/com/dp/logcatapp/fragments/settings/SettingsFragment.kt:78 | an optional "-" or "+" followed by any run of digits, leading zeros included, parses to its signed value |
| KotlinText.TrimmedNumber | app/src/main/java/com/dp/logcatapp/fragments/settings/SettingsFragment.kt:77-78 | a signed digit run padded with any whitespace trims to the sign and digits, which parse to their signed value |
| KotlinText.Lower | app/src/main/java/com/dp/logcatapp/services/LogcatService.kt:179 | `toLowerCase()` keeps the length, leaves no upper-case ASCII letter, turns each upper-case letter into its lower-case letter and keeps every other character in place |
| KotlinText.LowerIdempotent | app/src/main/java/com/dp/logcatapp/services/LogcatService.kt:179 | lower-casing twice is lower-casing once |
| KotlinCollections.StrLessEqReflexive | app/src/main/java/com/dp/logcatapp/fragments/settings/SettingsFragment.kt:100 | the string order used by `sorted()` is reflexive |
| KotlinCollections.StrLessEqTotal | app/src/main/java/com/dp/logcatapp/fragments/settings/SettingsFragment.kt:100 | any two strings are comparable |
| KotlinCollections.StrLessEqAntisymmetric | app/src/main/java/com/dp/logcatapp/fragments/settings/SettingsFragment.kt:100 | strings ordered both ways are equal |
| KotlinCollections.StrLessEqTransitive | app/src/main/java/com/dp/logcatapp/fragments/settings/SettingsFragment.kt:100 | the order is transitive |
| KotlinCollections.SortCorrect | app/src/main/java/com/dp/logcatapp/fragments/settings/SettingsFragment.kt:100 | `sorted()` returns a permutation of its input in ascending order |
| KotlinCollections.SortedUnique | app/src/main/java/com/dp/logcatapp/fragments/settings/SettingsFragment.kt:100 | two ascending lists with the same elements are equal, so any correct sort gives the same result |
| KotlinCollections.SortPermutationInvariant | app/src/main/java/com/dp/logcatapp/fragments/settings/SettingsFragment.kt:99-100 | the sorted list depends only on the multiset of its input |
| KotlinCollections.SameSetPermutation | app/src/main/java/com/dp/logcatapp/fragments/settings/SettingsFragment.kt:98 | two repeat-free iterations of the same set are permutations of each other |
| KotlinCollections.MapPermute | app/src/main/java/com/dp/logcatapp/fragments/settings/SettingsFragment.kt:99 | mapping two permutations of a list gives two permutations of the mapped list |
| KotlinCollections.JoinLength | app/src/main/java/com/dp/logcatapp/fragments/settings/SettingsFragment.kt:101 | the joined string is as long as all the parts together plus one separator per gap |
| KotlinCollections.JoinPartAt | app/src/main/java/com/dp/logcatapp/fragments/settings/SettingsFragment.kt:101 | every part appears unchanged, in order, right after the parts before it and one separator for each of them, and the separator follows every part but the last; with JoinLength this determines the joined string |
| KotlinCollections.JoinAppend | app/src/main/java/com/dp/logcatapp/fragments/settings/SettingsFragment.kt:101 | joining two non-empty lists is joining each and putting the separator between them |
| Preferences.Prefs.PutStringSet | app/src/main/java/com/dp/logcatapp/services/LogcatService.kt:55-57 | after writing a string set, the key reads back the written set whatever default is given; the strings are unchanged, and every other key reads back as before for every default, so no key is added or dropped |
| Settings.PollIntervalVerdict | app/src/main/java/com/dp/logcatapp/fragments/settings/SettingsFragment.kt:75-90 | a poll-interval edit is accepted iff the trimmed text parses as a Long greater than 0; a parsed value of 0 or less gets "value must be greater than 0"; unparseable text gets "value must be a positive integer"; a toast is shown exactly on rejection |
| Settings.PollIntervalAcceptsPositive | app/src/main/java/com/dp/logcatapp/fragments/settings/SettingsFragment.kt:76-85 | every positive Long, written with any whitespace padding, an optional sign and any leading zeros, is accepted, and the summary shows its trimmed text followed by " ms" |
| Settings.PollIntervalRejectsNonPositive | app/src/main/java/com/dp/logcatapp/fragments/settings/SettingsFragment.kt:76-82 | zero and every negative Long, however written ("0", " 0 ", "+0", "00", "-5"), are refused with "value must be greater than 0" |
| Settings.PollIntervalRejectsOverflow | app/src/main/java/com/dp/logcatapp/fragments/settings/SettingsFragment.kt:76-89 | a number outside the Long range, however written, is refused with "value must be a positive integer" |
| Settings.PollIntervalRejectsNonNumeric | app/src/main/java/com/dp/logcatapp/fragments/settings/SettingsFragment.kt:86-89 | text with a stray character is refused with "value must be a positive integer" |
| Settings.ToSummaryContents | app/src/main/java/com/dp/logcatapp/fragments/settings/SettingsFragment.kt:98-102 | the summary is the ", "-join of any ascending arrangement of the chosen buffers' names, repetitions included |
| Settings.BufferNamesPermute | app/src/main/java/com/dp/logcatapp/fragments/settings/SettingsFragment.kt:99 | reordering the chosen values permutes the mapped names |
| Settings.ToSummaryOrderIndependent | app/src/main/java/com/dp/logcatapp/fragments/settings/SettingsFragment.kt:98-102 | the summary depends only on which values were chosen, not on their order |
| Settings.ToSummaryOfSet | app/src/main/java/com/dp/logcatapp/fragments/settings/SettingsFragment.kt:98-102 | two iterations of the same chosen set give the same summary |
| Settings.EntryValues | app/src/main/java/com/dp/logcatapp/fragments/settings/SettingsFragment.kt:105-109 | the entry values are "0" to "n-1" in order, one per buffer, and each reads back as its own position |
| Settings.MaxLogsVerdict | app/src/main/java/com/dp/logcatapp/fragments/settings/SettingsFragment.kt:135-153 | a max-logs edit is accepted iff the trimmed text parses as an Int that differs from the setup value and is at least 1000; equal to the setup value is refused silently; any other Int below 1000 gets "cannot be less than 1000"; unparseable text gets "not a valid number"; acceptance shows no toast |
| Settings.MaxLogsAcceptsInRange | app/src/main/java/com/dp/logcatapp/fragments/settings/SettingsFragment.kt:138-148 | any Int from 1000 up that differs from the setup value, however written, is accepted without a toast |
| Settings.MaxLogsRejectsSmall | app/src/main/java/com/dp/logcatapp/fragments/settings/SettingsFragment.kt:138-146 | any Int below 1000 other than the setup value, however written (" 500 ", "0999", "-5"), is refused with "cannot be less than 1000" |
| Settings.MaxLogsRejectsOverflow | app/src/main/java/com/dp/logcatapp/fragments/settings/SettingsFragment.kt:138-152 | a number outside the Int range, however written, is "not a valid number" |
| Settings.MaxLogsFrom5000 | app/src/main/java/com/dp/logcatapp/fragments/settings/SettingsFragment.kt:129-153 | starting from 5000: 5000 is refused silently, 500 with "cannot be less than 1000", and 2000 is accepted |
| Settings.SettingsFragment.constructor | app/src/main/java/com/dp/logcatapp/fragments/settings/SettingsFragment.kt:25-28 | setting up the screen enables the black-theme switch iff the stored theme is AUTO or DARK, shows the stored theme's name and the poll summary, shows the buffer preference iff both buffer lists are non-empty (with its entries, entry values and summary), and reads the max-logs count from the store |
| Settings.SettingsFragment.SetupAppearanceCategory | app/src/main/java/com/dp/logcatapp/fragments/settings/SettingsFragment.kt:32-47 | the black-theme switch is enabled iff the stored theme is AUTO or DARK, and the theme summary is the name at the stored index |
| Settings.SettingsFragment.OnThemeChange | app/src/main/java/com/dp/logcatapp/fragments/settings/SettingsFragment.kt:49-54 | a theme change is always accepted, shows the new theme's name and restarts the app once |
| Settings.SettingsFragment.OnUseBlackThemeChange | app/src/main/java/com/dp/logcatapp/fragments/settings/SettingsFragment.kt:56-62 | a black-theme change is always accepted and restarts the app exactly when the dark theme is on |
| Settings.SettingsFragment.SetupLogcatCategory | app/src/main/java/com/dp/logcatapp/fragments/settings/SettingsFragment.kt:65-132 | the poll summary is the stored text plus " ms"; the buffer preference is shown iff neither the platform's buffer list nor the default list is empty, and then its entries are the platform's buffers with entry values "0".."n-1" and its summary is that of the stored choice; the max-logs count is the stored one |
| Settings.SettingsFragment.OnPollIntervalChange | app/src/main/java/com/dp/logcatapp/fragments/settings/SettingsFragment.kt:75-90 | acceptance follows the poll-interval rule; an acceptance sets the summary to the trimmed text plus " ms" and shows no toast; a rejection keeps the summary and shows exactly one toast |
| Settings.SettingsFragment.OnBuffersChange | app/src/main/java/com/dp/logcatapp/fragments/settings/SettingsFragment.kt:113-124 | a selection is accepted iff it is non-empty; an accepted one sets the summary to its summary; an empty one leaves the summary unchanged and shows nothing |
| Settings.SettingsFragment.OnMaxLogsChange | app/src/main/java/com/dp/logcatapp/fragments/settings/SettingsFragment.kt:129-153 | acceptance and toast follow the max-logs rule against the count read at setup, and that count is never updated |
| Services.NotificationActions | app/src/main/java/com/dp/logcatapp/services/LogcatService.kt:84-112 | the notification always offers "exit" first, and offers "stop recording" iff asked |
| Services.BufferSetContents | app/src/main/java/com/dp/logcatapp/services/LogcatService.kt:179 | the session's buffers are exactly the lower-cased names at the stored positions: no more names than stored values, and none only when nothing is stored |
| Services.BufferSetOfPositions | app/src/main/java/com/dp/logcatapp/services/LogcatService.kt:195-196 | stored values that read as buffer positions (as every entry value the settings screen offers does) give the session exactly the lower-cased names at those positions |
| Services.SeededPrefs | app/src/main/java/com/dp/logcatapp/services/LogcatService.kt:49-60 | the defaults are written iff both lists are non-empty and no non-empty set is stored; otherwise the store is unchanged; every other key, and the seeded key under any default, reads back as stated, so nothing else is ever touched |
| Services.LogcatService.constructor | app/src/main/java/com/dp/logcatapp/services/LogcatService.kt:32-38 | a new service has no session, all flags cleared, no notification and an empty effect log |
| Services.LogcatService.OnCreate | app/src/main/java/com/dp/logcatapp/services/LogcatService.kt:40-47 | creation seeds the defaults, then builds the session with the stored capacity, sets the stored poll interval and the mapped stored buffers, and starts it exactly once |
| Services.LogcatService.OnBasePostSuperCreate | app/src/main/java/com/dp/logcatapp/services/LogcatService.kt:49-60 | the store afterwards is the seeded store |
| Services.LogcatService.InitLogcat | app/src/main/java/com/dp/logcatapp/services/LogcatService.kt:183-198 | the session has the parsed capacity, the parsed poll interval and the mapped buffers, and is running; the log shows creation, then the poll interval, the buffers and a single start |
| Services.LogcatService.StartSession | app/src/main/java/com/dp/logcatapp/services/LogcatService.kt:192-197 | the new session has the given capacity, poll interval and buffers and is running; the log shows creation, the poll interval, the buffers and one start, in that order |
| Services.LogcatService.RestartWithCapacity | app/src/main/java/com/dp/logcatapp/services/LogcatService.kt:161-166 | one toast, then stop, the flag, the new capacity and start, in that order; the session ends up running with the new capacity and its poll interval and buffers unchanged |
| Services.LogcatService.OnStartCommand | app/src/main/java/com/dp/logcatapp/services/LogcatService.kt:62-65 | the service posts a notification whose "stop recording" action follows the `recording` field, and asks to be sticky |
| Services.LogcatService.UpdateNotification | app/src/main/java/com/dp/logcatapp/services/LogcatService.kt:67-70 | the posted notification offers "stop recording" iff asked |
| Services.LogcatService.OnDestroy | app/src/main/java/com/dp/logcatapp/services/LogcatService.kt:139-146 | the session is closed and no longer running, and nothing else about it changes |
| Services.LogcatService.OnSharedPreferenceChanged | app/src/main/java/com/dp/logcatapp/services/LogcatService.kt:148-169 | a poll-interval change only sets the session's poll interval, with no restart, flag or toast. A max-logs change shows one toast, then calls stop, sets the flag, sets the capacity and calls start, leaving the session running with the poll interval and buffers unchanged. A buffer change behaves as in `handleBufferUpdate`. Any other key changes nothing |
| Services.LogcatService.HandleBufferUpdate | app/src/main/java/com/dp/logcatapp/services/LogcatService.kt:171-181 | a buffer change shows one toast, sets the flag, gives the session exactly the mapped buffers and restarts it once, leaving capacity and poll interval unchanged |

## Left out

- Digits: `Integer.parseInt` also accepts non-ASCII Unicode decimal digits. `KotlinText.ParseDecimal` accepts ASCII digits only.
- KotlinText.Lower: only the ASCII letters A-Z are lower-cased. Java's `toLowerCase()` uses the default locale and the Unicode case tables. It also lower-cases non-ASCII letters, and under a Turkish or Azerbaijani locale it maps "I" to dotless "ı". The model fixes a locale without such rules and leaves the Unicode tables out.
- KotlinCollections.StrLessEq: characters are compared as Unicode scalar values. `String.compareTo` compares UTF-16 code units, which can order characters outside the Basic Multilingual Plane differently.
- The max-logs summary formatted by the locale's `NumberFormat` (SettingsFragment.kt:134) is not modelled, because it depends on the locale.
- The About category (SettingsFragment.kt:156-172) is not modelled: it shows the version name and launches an external activity.
- Notification construction is not modelled, apart from the choice of actions: intents, icons, colours, the channel and the SDK-version branches (LogcatService.kt:42-44, 72-135, 143-145).
- `BaseService` is not part of this model. That covers its `onCreate`, its `onSharedPreferenceChanged` (LogcatService.kt:149) and its listener registration. The model assumes `onBasePostSuperCreate` runs before `initLogcat`.
- The binder (LogcatService.kt:32, 137, 200-202) is not modelled: it only hands out the service.
- The `Logcat` capture engine is not part of this model. The session is an abstract record, and each call's effect on that record is the one its name promises. The session's own default poll interval and buffers are `None`.
- `recording` and `paused` are written by other classes. The model keeps them as fields and reads `recording` in `onStartCommand`.
- Toasts and `restartApp` are entries in an event log and are not displayed. `isDarkThemeOn()` is a parameter.
- The framework stores an accepted preference value after the listener returns. That write is not part of the screen's model: its store is the snapshot it was set up from.
- Crashes: the inputs on which the source throws (see "Notes on the model") are excluded by preconditions, so the crashes themselves are not modelled. The `activity!!` null checks are left out for the same reason.
- Concurrency is not modelled: all callbacks run one after another on the main thread.
