/** The settings screen: how each preference is set up from the store, and the
    accept-or-reject rule of every change listener together with the summary and the
    toasts it leaves behind. The About category is not part of this model. */
module Settings {
  import opened KotlinText
  import opened KotlinCollections
  import opened Preferences

  /** What the screen does beyond its own widgets: a toast, or a restart of the app. */
  datatype Event = Toast(message: Message) | RestartApp

  /** The answer of a change listener, and the toast it shows, if any. */
  datatype Verdict = Verdict(accepted: bool, toast: Option<Message>)

  function Shown(toast: Option<Message>): seq<Event> {
    match toast
    case Some(m) => [Toast(m)]
    case None => []
  }

  // ------------------------------------------------------------------ appearance

  /** The black-theme switch is usable only under the automatic or the dark theme. */
  predicate BlackThemeEnabled(theme: string, k: PreferenceConstants) {
    theme == k.themeAuto || theme == k.themeDark
  }

  /** A stored theme value is an index into the theme names. */
  predicate IsThemeIndex(value: string, themeEntries: seq<string>) {
    ToInt(value).Some? && 0 <= ToInt(value).value < |themeEntries|
  }

  // ------------------------------------------------------------------ poll interval

  /** The poll-interval listener: the trimmed text must read as a Long and be positive. */
  function PollIntervalVerdict(newValue: string): (v: Verdict)
    ensures v.accepted <==> ToLong(Trim(newValue)).Some? && ToLong(Trim(newValue)).value > 0
    ensures v.accepted <==> v.toast == None
    ensures ToLong(Trim(newValue)).None? ==> v == Verdict(false, Some(ValueMustBeAPositiveInteger))
    ensures ToLong(Trim(newValue)).Some? && ToLong(Trim(newValue)).value <= 0 ==>
      v == Verdict(false, Some(ValueMustBeGreaterThan0))
  {
    match ToLong(Trim(newValue))
    case None => Verdict(false, Some(ValueMustBeAPositiveInteger))
    case Some(num) =>
      if num <= 0 then Verdict(false, Some(ValueMustBeGreaterThan0)) else Verdict(true, None)
  }

  // The lemmas below take the edited text as whitespace, an optional sign, a run of digits
  // (leading zeros allowed) and whitespace again.

  /** Every positive Long, however written, is accepted and shown as its trimmed text
      followed by " ms". */
  lemma PollIntervalAcceptsPositive(pre: string, sign: string, digits: string, post: string)
    requires AllWhitespace(pre) && AllWhitespace(post)
    requires sign == "" || sign == "-" || sign == "+"
    requires digits != [] && AllDigits(digits)
    requires 0 < SignedValue(sign, digits) <= LONG_MAX
    ensures PollIntervalVerdict(pre + sign + digits + post) == Verdict(true, None)
    ensures Trim(pre + sign + digits + post) + " ms" == sign + digits + " ms"
  {
    TrimmedNumber(pre, sign, digits, post);
  }

  /** Zero and every negative Long, however written ("0", " 0 ", "+0", "00", "-5"), are
      rejected with "value must be greater than 0". */
  lemma PollIntervalRejectsNonPositive(pre: string, sign: string, digits: string, post: string)
    requires AllWhitespace(pre) && AllWhitespace(post)
    requires sign == "" || sign == "-" || sign == "+"
    requires digits != [] && AllDigits(digits)
    requires LONG_MIN <= SignedValue(sign, digits) <= 0
    ensures PollIntervalVerdict(pre + sign + digits + post) == Verdict(false, Some(ValueMustBeGreaterThan0))
  {
    TrimmedNumber(pre, sign, digits, post);
  }

  /** A number outside the Long range fails to parse, so it is rejected as not being a
      positive integer rather than as not being greater than 0. */
  lemma PollIntervalRejectsOverflow(pre: string, sign: string, digits: string, post: string)
    requires AllWhitespace(pre) && AllWhitespace(post)
    requires sign == "" || sign == "-" || sign == "+"
    requires digits != [] && AllDigits(digits)
    requires SignedValue(sign, digits) < LONG_MIN || LONG_MAX < SignedValue(sign, digits)
    ensures PollIntervalVerdict(pre + sign + digits + post) == Verdict(false, Some(ValueMustBeAPositiveInteger))
  {
    TrimmedNumber(pre, sign, digits, post);
  }

  /** Text with a stray character inside it is rejected as not being a positive integer. */
  lemma PollIntervalRejectsNonNumeric(newValue: string, k: nat)
    requires k < |Trim(newValue)| && !IsDigit(Trim(newValue)[k])
    requires k > 0 || (Trim(newValue)[0] != '-' && Trim(newValue)[0] != '+')
    ensures PollIntervalVerdict(newValue) == Verdict(false, Some(ValueMustBeAPositiveInteger))
  {
    ParseRejectsNonDigit(Trim(newValue), k);
  }

  // ------------------------------------------------------------------ buffers

  /** The buffer preference is shown only when the platform lists buffers and there are
      default buffers. */
  predicate BuffersSupported(availableBuffers: seq<string>, defaultBuffers: seq<string>) {
    |availableBuffers| > 0 && |defaultBuffers| > 0
  }

  /** `values.map { e -> availableBuffers[e.toInt()] }`. */
  function BufferNames(availableBuffers: seq<string>, values: seq<string>): (names: seq<string>)
    requires ValidIndices(values, availableBuffers)
  {
    seq(|values|, i requires 0 <= i < |values| => BufferName(availableBuffers, values[i]))
  }

  /** `toSummary`: the chosen buffers' names, in ascending order, joined by ", ". */
  function ToSummary(availableBuffers: seq<string>, values: seq<string>): string
    requires ValidIndices(values, availableBuffers)
  {
    JoinToString(Sort(BufferNames(availableBuffers, values)), ", ")
  }

  /** The summary is the ", "-join of the chosen buffers' names (with repetitions) in
      ascending order: of any ascending arrangement of them, since there is only one. */
  lemma ToSummaryContents(availableBuffers: seq<string>, values: seq<string>, names: seq<string>)
    requires ValidIndices(values, availableBuffers)
    requires Sorted(names) && multiset(names) == multiset(BufferNames(availableBuffers, values))
    ensures ToSummary(availableBuffers, values) == JoinToString(names, ", ")
  {
    SortCorrect(BufferNames(availableBuffers, values));
    SortedUnique(Sort(BufferNames(availableBuffers, values)), names);
  }

  /** Reordering the chosen values reorders their names the same way. */
  lemma BufferNamesPermute(availableBuffers: seq<string>, a: seq<string>, b: seq<string>)
    requires ValidIndices(a, availableBuffers) && ValidIndices(b, availableBuffers)
    requires multiset(a) == multiset(b)
    ensures multiset(BufferNames(availableBuffers, a)) == multiset(BufferNames(availableBuffers, b))
  {
    var name := x => if IsIndex(x, availableBuffers) then BufferName(availableBuffers, x) else "";
    MapPermute(name, a, b);
    assert BufferNames(availableBuffers, a) == Map(name, a);
    assert BufferNames(availableBuffers, b) == Map(name, b);
  }

  /** The summary depends only on which values were chosen, not on the order in which
      the chosen set happens to iterate them. */
  lemma ToSummaryOrderIndependent(availableBuffers: seq<string>, a: seq<string>, b: seq<string>)
    requires ValidIndices(a, availableBuffers) && ValidIndices(b, availableBuffers)
    requires multiset(a) == multiset(b)
    ensures ToSummary(availableBuffers, a) == ToSummary(availableBuffers, b)
  {
    BufferNamesPermute(availableBuffers, a, b);
    SortPermutationInvariant(BufferNames(availableBuffers, a), BufferNames(availableBuffers, b));
  }

  /** Two iterations of the same chosen set give the same summary. */
  lemma ToSummaryOfSet(availableBuffers: seq<string>, a: seq<string>, b: seq<string>)
    requires ValidIndices(a, availableBuffers) && ValidIndices(b, availableBuffers)
    requires Distinct(a) && Distinct(b)
    requires forall x :: x in a <==> x in b
    ensures ToSummary(availableBuffers, a) == ToSummary(availableBuffers, b)
  {
    SameSetPermutation(a, b);
    ToSummaryOrderIndependent(availableBuffers, a, b);
  }

  /** The values offered for the buffers, "0" up to the number of buffers less one, each
      of which reads back as its own position. */
  method EntryValues(n: nat) returns (values: seq<string>)
    requires n <= INT_MAX
    ensures |values| == n
    ensures forall i :: 0 <= i < n ==> values[i] == NatToString(i)
    ensures forall i :: 0 <= i < n ==> ToInt(values[i]) == Some(i)
  {
    values := [];
    for i := 0 to n
      invariant |values| == i
      invariant forall j :: 0 <= j < i ==> values[j] == NatToString(j)
    {
      values := values + [NatToString(i)];
    }
    forall i | 0 <= i < n
      ensures ToInt(values[i]) == Some(i)
    {
      NatToStringToInt(i);
    }
  }

  // ------------------------------------------------------------------ max logs

  /** The max-logs listener: the trimmed text must read as an Int, differ from the value
      read when the screen was set up, and be at least 1000. */
  function MaxLogsVerdict(newValue: string, setupMaxLogs: int): (v: Verdict)
    ensures v.accepted <==>
      ToInt(Trim(newValue)).Some? && ToInt(Trim(newValue)).value != setupMaxLogs &&
      ToInt(Trim(newValue)).value >= 1000
    ensures v.accepted ==> v.toast == None
    ensures ToInt(Trim(newValue)) == Some(setupMaxLogs) ==> v == Verdict(false, None)
    ensures (ToInt(Trim(newValue)).Some? && ToInt(Trim(newValue)).value != setupMaxLogs &&
             ToInt(Trim(newValue)).value < 1000) ==> v == Verdict(false, Some(CannotBeLessThan1000))
    ensures ToInt(Trim(newValue)).None? ==> v == Verdict(false, Some(NotAValidNumber))
  {
    match ToInt(Trim(newValue))
    case None => Verdict(false, Some(NotAValidNumber))
    case Some(n) =>
      if n == setupMaxLogs then Verdict(false, None)
      else if n < 1000 then Verdict(false, Some(CannotBeLessThan1000))
      else Verdict(true, None)
  }

  /** A value that differs from the one read at setup and lies between 1000 and the
      largest Int, however written, is accepted without a toast. */
  lemma MaxLogsAcceptsInRange(pre: string, sign: string, digits: string, post: string, setupMaxLogs: int)
    requires AllWhitespace(pre) && AllWhitespace(post)
    requires sign == "" || sign == "-" || sign == "+"
    requires digits != [] && AllDigits(digits)
    requires 1000 <= SignedValue(sign, digits) <= INT_MAX && SignedValue(sign, digits) != setupMaxLogs
    ensures MaxLogsVerdict(pre + sign + digits + post, setupMaxLogs) == Verdict(true, None)
  {
    TrimmedNumber(pre, sign, digits, post);
  }

  /** Any Int below 1000 other than the one read at setup, however written (" 500 ",
      "0999", "-5"), is refused with "cannot be less than 1000". */
  lemma MaxLogsRejectsSmall(pre: string, sign: string, digits: string, post: string, setupMaxLogs: int)
    requires AllWhitespace(pre) && AllWhitespace(post)
    requires sign == "" || sign == "-" || sign == "+"
    requires digits != [] && AllDigits(digits)
    requires INT_MIN <= SignedValue(sign, digits) < 1000 && SignedValue(sign, digits) != setupMaxLogs
    ensures MaxLogsVerdict(pre + sign + digits + post, setupMaxLogs) == Verdict(false, Some(CannotBeLessThan1000))
  {
    TrimmedNumber(pre, sign, digits, post);
  }

  /** A number outside the Int range is "not a valid number". */
  lemma MaxLogsRejectsOverflow(pre: string, sign: string, digits: string, post: string, setupMaxLogs: int)
    requires AllWhitespace(pre) && AllWhitespace(post)
    requires sign == "" || sign == "-" || sign == "+"
    requires digits != [] && AllDigits(digits)
    requires SignedValue(sign, digits) < INT_MIN || INT_MAX < SignedValue(sign, digits)
    ensures MaxLogsVerdict(pre + sign + digits + post, setupMaxLogs) == Verdict(false, Some(NotAValidNumber))
  {
    TrimmedNumber(pre, sign, digits, post);
  }

  /** The three counts typed in `MaxLogsFrom5000`, as the text `Int.toString()` writes. */
  lemma TypedCounts()
    ensures NatToString(5000) == "5000"
    ensures NatToString(500) == "500"
    ensures NatToString(2000) == "2000"
  {
    assert NatToString(5) == "5";
    assert NatToString(2) == "2";
    assert NatToString(50) == "50";
    assert NatToString(20) == "20";
    assert NatToString(500) == "500";
    assert NatToString(200) == "200";
  }

  /** Starting from 5000: entering 5000 again is refused silently, 500 is refused with
      "cannot be less than 1000", 2000 is accepted. The typed texts are written as
      `NatToString(n)`; `TypedCounts` shows they are "5000", "500" and "2000". */
  lemma MaxLogsFrom5000()
    ensures MaxLogsVerdict(NatToString(5000), 5000) == Verdict(false, None)
    ensures MaxLogsVerdict(NatToString(500), 5000) == Verdict(false, Some(CannotBeLessThan1000))
    ensures MaxLogsVerdict(NatToString(2000), 5000) == Verdict(true, None)
  {
    TrimDigits(NatToString(5000));
    NatToStringToInt(5000);
    TrimDigits(NatToString(500));
    NatToStringToInt(500);
    TrimDigits(NatToString(2000));
    NatToStringToInt(2000);
  }

  // ------------------------------------------------------------------ the screen

  /** What setting up the screen reads from the store must be readable: the stored theme
      indexes the theme names, the stored max-logs count trims to an Int, and when the
      buffer preference is shown, every stored (or default) buffer value indexes the
      platform's buffers. */
  predicate SetupReadable(k: PreferenceConstants, availableBuffers: seq<string>,
                          themeEntries: seq<string>, prefs: Prefs)
  {
    IsThemeIndex(prefs.GetString(Theme, k.defaultTheme), themeEntries) &&
    ToInt(Trim(prefs.GetString(MaxLogs, k.defaultMaxLogs))).Some? &&
    |availableBuffers| <= INT_MAX &&
    (BuffersSupported(availableBuffers, k.defaultBuffers) ==>
       ValidIndices(prefs.GetStringSet(Buffers, k.defaultBuffers), availableBuffers))
  }

  class SettingsFragment {
    const constants: PreferenceConstants
    const availableBuffers: seq<string>
    const themeEntries: seq<string>
    const prefs: Prefs

    var blackThemeEnabled: bool
    var themeSummary: string
    var pollIntervalSummary: string
    var buffersVisible: bool
    var bufferEntries: seq<string>
    var bufferEntryValues: seq<string>
    var buffersSummary: string
    /** The max-logs count read once at setup; the listener compares against it. */
    var maxLogs: int
    var events: seq<Event>

    /** `onCreatePreferences`: the appearance and the logcat categories are set up from
        the store. */
    constructor (constants: PreferenceConstants, availableBuffers: seq<string>,
                 themeEntries: seq<string>, prefs: Prefs)
      requires SetupReadable(constants, availableBuffers, themeEntries, prefs)
      ensures this.constants == constants && this.availableBuffers == availableBuffers
      ensures this.themeEntries == themeEntries && this.prefs == prefs
      ensures blackThemeEnabled <==>
        prefs.GetString(Theme, constants.defaultTheme) in {constants.themeAuto, constants.themeDark}
      ensures themeSummary == themeEntries[ToInt(prefs.GetString(Theme, constants.defaultTheme)).value]
      ensures pollIntervalSummary == prefs.GetString(PollInterval, constants.defaultPollInterval) + " ms"
      ensures buffersVisible <==> availableBuffers != [] && constants.defaultBuffers != []
      ensures buffersVisible ==>
        bufferEntries == availableBuffers &&
        |bufferEntryValues| == |availableBuffers| &&
        (forall i :: 0 <= i < |availableBuffers| ==> bufferEntryValues[i] == NatToString(i)) &&
        (forall i :: 0 <= i < |availableBuffers| ==> ToInt(bufferEntryValues[i]) == Some(i)) &&
        buffersSummary == ToSummary(availableBuffers, prefs.GetStringSet(Buffers, constants.defaultBuffers))
      ensures maxLogs == ToInt(Trim(prefs.GetString(MaxLogs, constants.defaultMaxLogs))).value
      ensures events == []
    {
      this.constants := constants;
      this.availableBuffers := availableBuffers;
      this.themeEntries := themeEntries;
      this.prefs := prefs;
      blackThemeEnabled, themeSummary, pollIntervalSummary := false, "", "";
      buffersVisible, bufferEntries, bufferEntryValues, buffersSummary := true, [], [], "";
      maxLogs, events := 0, [];
      new;
      SetupAppearanceCategory();
      SetupLogcatCategory();
    }

    /** `setupAppearanceCategory`: the black-theme switch and the theme summary. */
    method SetupAppearanceCategory()
      requires IsThemeIndex(prefs.GetString(Theme, constants.defaultTheme), themeEntries)
      modifies this`blackThemeEnabled, this`themeSummary
      ensures blackThemeEnabled <==>
        prefs.GetString(Theme, constants.defaultTheme) in {constants.themeAuto, constants.themeDark}
      ensures themeSummary == themeEntries[ToInt(prefs.GetString(Theme, constants.defaultTheme)).value]
    {
      var currTheme := prefs.GetString(Theme, constants.defaultTheme);
      blackThemeEnabled := BlackThemeEnabled(currTheme, constants);
      themeSummary := themeEntries[ToInt(currTheme).value];
    }

    /** The theme listener: always accepted; the summary shows the new theme's name and
        the app restarts. */
    method OnThemeChange(newValue: string) returns (accepted: bool)
      requires IsThemeIndex(newValue, themeEntries)
      modifies this`themeSummary, this`events
      ensures accepted
      ensures themeSummary == themeEntries[ToInt(newValue).value]
      ensures events == old(events) + [RestartApp]
    {
      themeSummary := themeEntries[ToInt(newValue).value];
      events := events + [RestartApp];
      accepted := true;
    }

    /** The black-theme listener: always accepted; the app restarts only when the dark
        theme is in effect. */
    method OnUseBlackThemeChange(darkThemeOn: bool) returns (accepted: bool)
      modifies this`events
      ensures accepted
      ensures events == old(events) + (if darkThemeOn then [RestartApp] else [])
    {
      if darkThemeOn {
        events := events + [RestartApp];
      }
      accepted := true;
    }

    /** `setupLogcatCategory`: the three logcat preferences' summaries and choices. */
    method SetupLogcatCategory()
      requires ToInt(Trim(prefs.GetString(MaxLogs, constants.defaultMaxLogs))).Some?
      requires |availableBuffers| <= INT_MAX
      requires BuffersSupported(availableBuffers, constants.defaultBuffers) ==>
        ValidIndices(prefs.GetStringSet(Buffers, constants.defaultBuffers), availableBuffers)
      modifies this`pollIntervalSummary, this`buffersVisible, this`bufferEntries
      modifies this`bufferEntryValues, this`buffersSummary, this`maxLogs
      ensures pollIntervalSummary == prefs.GetString(PollInterval, constants.defaultPollInterval) + " ms"
      ensures buffersVisible <==> availableBuffers != [] && constants.defaultBuffers != []
      ensures buffersVisible ==>
        bufferEntries == availableBuffers &&
        |bufferEntryValues| == |availableBuffers| &&
        (forall i :: 0 <= i < |availableBuffers| ==> bufferEntryValues[i] == NatToString(i)) &&
        (forall i :: 0 <= i < |availableBuffers| ==> ToInt(bufferEntryValues[i]) == Some(i)) &&
        buffersSummary == ToSummary(availableBuffers, prefs.GetStringSet(Buffers, constants.defaultBuffers))
      ensures !buffersVisible ==>
        bufferEntries == old(bufferEntries) && bufferEntryValues == old(bufferEntryValues) &&
        buffersSummary == old(buffersSummary)
      ensures maxLogs == ToInt(Trim(prefs.GetString(MaxLogs, constants.defaultMaxLogs))).value
    {
      pollIntervalSummary := prefs.GetString(PollInterval, constants.defaultPollInterval) + " ms";
      if BuffersSupported(availableBuffers, constants.defaultBuffers) {
        var bufferValues := prefs.GetStringSet(Buffers, constants.defaultBuffers);
        bufferEntries := availableBuffers;
        bufferEntryValues := EntryValues(|availableBuffers|);
        buffersSummary := ToSummary(availableBuffers, bufferValues);
        buffersVisible := true;
      } else {
        buffersVisible := false;
      }
      maxLogs := ToInt(Trim(prefs.GetString(MaxLogs, constants.defaultMaxLogs))).value;
    }

    /** The poll-interval listener: on acceptance the summary becomes the trimmed text
        followed by " ms"; a rejection leaves it and shows one toast. */
    method OnPollIntervalChange(newValue: string) returns (accepted: bool)
      modifies this`pollIntervalSummary, this`events
      ensures accepted == PollIntervalVerdict(newValue).accepted
      ensures pollIntervalSummary == if accepted then Trim(newValue) + " ms" else old(pollIntervalSummary)
      ensures events == old(events) + Shown(PollIntervalVerdict(newValue).toast)
      ensures accepted ==> events == old(events)
      ensures !accepted ==> |events| == |old(events)| + 1
    {
      var v := PollIntervalVerdict(newValue);
      if v.accepted {
        pollIntervalSummary := Trim(newValue) + " ms";
      }
      events := events + Shown(v.toast);
      accepted := v.accepted;
    }

    /** The buffers listener: an empty choice is refused silently; any other choice is
        accepted and summarised. */
    method OnBuffersChange(values: seq<string>) returns (accepted: bool)
      requires buffersVisible
      requires ValidIndices(values, availableBuffers)
      modifies this`buffersSummary
      ensures accepted <==> values != []
      ensures buffersSummary == if accepted then ToSummary(availableBuffers, values) else old(buffersSummary)
    {
      if values == [] {
        accepted := false;
      } else {
        buffersSummary := ToSummary(availableBuffers, values);
        accepted := true;
      }
    }

    /** The max-logs listener; it compares with the count read at setup, which it never
        updates. */
    method OnMaxLogsChange(newValue: string) returns (accepted: bool)
      modifies this`events
      ensures accepted == MaxLogsVerdict(newValue, maxLogs).accepted
      ensures events == old(events) + Shown(MaxLogsVerdict(newValue, maxLogs).toast)
      ensures maxLogs == old(maxLogs)
    {
      var v := MaxLogsVerdict(newValue, maxLogs);
      events := events + Shown(v.toast);
      accepted := v.accepted;
    }
  }
}
