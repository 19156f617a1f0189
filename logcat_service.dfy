/** The foreground service that owns the capture session: it seeds the default buffers,
    builds and starts the session from the stored settings, mirrors later changes of the
    poll interval, the buffers and the max-logs count into the session, and chooses the
    actions of its notification. */
module Services {
  import opened KotlinText
  import opened Preferences

  /** `Service.START_STICKY`. */
  const START_STICKY: int := 1

  /** A call the service makes on its capture session. */
  datatype Call =
    | SetPollInterval(ms: int)
    | SetBuffers(names: set<string>)
    | SetMaxLogsCount(count: int)
    | Start
    | Stop
    | Restart
    | Close

  /** The capture session (`Logcat`, whose code is not part of this model) as its caller
      sees it. `None` for the poll interval or the buffers is the session's own default. */
  datatype Logcat = Logcat(
    maxLogs: int,
    pollInterval: Option<int>,
    buffers: Option<set<string>>,
    running: bool,
    closed: bool)

  /** `Logcat(maxLogs)`: a session that is neither running nor closed. */
  function NewLogcat(maxLogs: int): Logcat {
    Logcat(maxLogs, None, None, false, false)
  }

  /** What one call does to the session's observable state. */
  function Apply(l: Logcat, c: Call): Logcat {
    match c
    case SetPollInterval(ms) => l.(pollInterval := Some(ms))
    case SetBuffers(names) => l.(buffers := Some(names))
    case SetMaxLogsCount(n) => l.(maxLogs := n)
    case Start => l.(running := true)
    case Stop => l.(running := false)
    case Restart => l.(running := true)
    case Close => l.(running := false, closed := true)
  }

  /** One step the service takes, in the order it takes them: building the session, a
      call on it, a toast, or setting the `restartedLogcat` flag. */
  datatype Effect = Created(maxLogs: int) | Called(call: Call) | ShowToast(message: Message) | MarkRestarted

  datatype NotificationAction = Exit | StopRecording

  /** The notification's actions: always "exit", then "stop recording" exactly when asked. */
  function NotificationActions(addStopRecordingAction: bool): (actions: seq<NotificationAction>)
    ensures 1 <= |actions| <= 2 && actions[0] == Exit
    ensures StopRecording in actions <==> addStopRecordingAction
    ensures Exit !in actions[1..]
  {
    if addStopRecordingAction then [Exit, StopRecording] else [Exit]
  }

  /** `bufferValues.map { e -> buffers[e.toInt()].toLowerCase() }.toSet()`. */
  function BufferSet(availableBuffers: seq<string>, values: seq<string>): set<string>
    requires ValidIndices(values, availableBuffers)
  {
    if values == [] then {}
    else
      assert ValidIndices(values[1..], availableBuffers) by {
        assert forall i :: 1 <= i < |values| ==> values[i] == values[1..][i - 1];
      }
      {Lower(BufferName(availableBuffers, values[0]))} + BufferSet(availableBuffers, values[1..])
  }

  /** The session's buffers are exactly the lower-cased names at the stored positions:
      no more than there are stored values, and none only when none are stored. */
  lemma BufferSetContents(availableBuffers: seq<string>, values: seq<string>)
    requires ValidIndices(values, availableBuffers)
    ensures BufferSet(availableBuffers, values) ==
      set i | 0 <= i < |values| :: Lower(BufferName(availableBuffers, values[i]))
    ensures |BufferSet(availableBuffers, values)| <= |values|
    ensures BufferSet(availableBuffers, values) == {} <==> values == []
  {
    BufferSetImage(availableBuffers, values);
    BufferSetSize(availableBuffers, values);
  }

  lemma {:induction false} BufferSetSize(availableBuffers: seq<string>, values: seq<string>)
    requires ValidIndices(values, availableBuffers)
    ensures |BufferSet(availableBuffers, values)| <= |values|
    ensures BufferSet(availableBuffers, values) == {} <==> values == []
  {
    if values != [] {
      var tail := values[1..];
      assert ValidIndices(tail, availableBuffers) by {
        assert forall i :: 1 <= i < |values| ==> values[i] == tail[i - 1];
      }
      BufferSetSize(availableBuffers, tail);
      var first := Lower(BufferName(availableBuffers, values[0]));
      assert first in BufferSet(availableBuffers, values);
    }
  }

  lemma {:induction false} BufferSetImage(availableBuffers: seq<string>, values: seq<string>)
    requires ValidIndices(values, availableBuffers)
    ensures BufferSet(availableBuffers, values) ==
      set i | 0 <= i < |values| :: Lower(BufferName(availableBuffers, values[i]))
  {
    if values != [] {
      var tail := values[1..];
      assert ValidIndices(tail, availableBuffers) by {
        assert forall i :: 1 <= i < |values| ==> values[i] == tail[i - 1];
      }
      BufferSetImage(availableBuffers, tail);
      var first := Lower(BufferName(availableBuffers, values[0]));
      var image := set i | 0 <= i < |values| :: Lower(BufferName(availableBuffers, values[i]));
      var tailImage := set i | 0 <= i < |tail| :: Lower(BufferName(availableBuffers, tail[i]));
      forall n | n in image
        ensures n in {first} + tailImage
      {
        var i :| 0 <= i < |values| && n == Lower(BufferName(availableBuffers, values[i]));
        if i > 0 {
          assert values[i] == tail[i - 1];
        }
      }
      forall n | n in tailImage
        ensures n in image
      {
        var i :| 0 <= i < |tail| && n == Lower(BufferName(availableBuffers, tail[i]));
        assert tail[i] == values[i + 1];
      }
      assert first in image;
    }
  }

  /** The service reads back the values the settings screen offers (each reads as its own
      position, see `Settings.EntryValues`): choosing the buffers at some positions gives
      the session exactly those buffers' lower-cased names. */
  lemma BufferSetOfPositions(availableBuffers: seq<string>, values: seq<string>, positions: seq<nat>)
    requires |values| == |positions|
    requires forall j :: 0 <= j < |values| ==> positions[j] < |availableBuffers|
    requires forall j :: 0 <= j < |values| ==> ToInt(values[j]) == Some(positions[j])
    ensures ValidIndices(values, availableBuffers)
    ensures BufferSet(availableBuffers, values) ==
      set j | 0 <= j < |positions| :: Lower(availableBuffers[positions[j]])
  {
    BufferSetContents(availableBuffers, values);
    var image := set j | 0 <= j < |values| :: Lower(BufferName(availableBuffers, values[j]));
    var expected := set j | 0 <= j < |positions| :: Lower(availableBuffers[positions[j]]);
    assert image == expected by {
      forall n | n in image
        ensures n in expected
      {
        var j :| 0 <= j < |values| && n == Lower(BufferName(availableBuffers, values[j]));
      }
      forall n | n in expected
        ensures n in image
      {
        var j :| 0 <= j < |positions| && n == Lower(availableBuffers[positions[j]]);
        assert n == Lower(BufferName(availableBuffers, values[j]));
      }
    }
  }

  /** Seeding the default buffers (`onBasePostSuperCreate`): they are written only when
      the platform has buffers, there are defaults, and nothing non-empty is stored. */
  function SeededPrefs(prefs: Prefs, defaultBuffers: seq<string>, availableBuffers: seq<string>): (r: Prefs)
    ensures defaultBuffers != [] && availableBuffers != [] && prefs.GetStringSet(Buffers, []) == [] ==>
      forall d :: r.GetStringSet(Buffers, d) == defaultBuffers
    ensures prefs.GetStringSet(Buffers, []) != [] ==> r == prefs
    ensures defaultBuffers == [] || availableBuffers == [] ==> r == prefs
    ensures r.strings == prefs.strings
    ensures forall k, d :: k != Buffers ==> r.GetStringSet(k, d) == prefs.GetStringSet(k, d)
  {
    if |defaultBuffers| > 0 && |availableBuffers| > 0 && prefs.GetStringSet(Buffers, []) == [] then
      prefs.PutStringSet(Buffers, defaultBuffers)
    else
      prefs
  }

  class LogcatService {
    const constants: PreferenceConstants
    const availableBuffers: seq<string>
    /** The default shared preferences. */
    var prefs: Prefs
    /** `lateinit var logcat`: `None` until the service is created. */
    var logcat: Option<Logcat>
    var restartedLogcat: bool
    var paused: bool
    var recording: bool
    /** The actions of the notification last posted, if any. */
    var notification: Option<seq<NotificationAction>>
    var effects: seq<Effect>

    constructor (constants: PreferenceConstants, availableBuffers: seq<string>, prefs: Prefs)
      ensures this.constants == constants && this.availableBuffers == availableBuffers
      ensures this.prefs == prefs && logcat == None
      ensures !restartedLogcat && !paused && !recording
      ensures notification == None && effects == []
    {
      this.constants := constants;
      this.availableBuffers := availableBuffers;
      this.prefs := prefs;
      logcat := None;
      restartedLogcat, paused, recording := false, false, false;
      notification := None;
      effects := [];
    }

    /** The stored settings that `initLogcat` reads can be read: the poll interval trims
        to a Long, the max-logs count to an Int, and every buffer value indexes the
        platform's buffers. */
    predicate InitReadable(p: Prefs)
      reads this
    {
      ToLong(Trim(p.GetString(PollInterval, constants.defaultPollInterval))).Some? &&
      ToInt(Trim(p.GetString(MaxLogs, constants.defaultMaxLogs))).Some? &&
      ValidIndices(p.GetStringSet(Buffers, constants.defaultBuffers), availableBuffers)
    }

    /** `onCreate`: seed the default buffers, then build and start the session. */
    method OnCreate()
      requires InitReadable(SeededPrefs(prefs, constants.defaultBuffers, availableBuffers))
      modifies this`prefs, this`logcat, this`effects
      ensures prefs == SeededPrefs(old(prefs), constants.defaultBuffers, availableBuffers)
      ensures var maxLogs := ToInt(Trim(prefs.GetString(MaxLogs, constants.defaultMaxLogs))).value;
              var poll := ToLong(Trim(prefs.GetString(PollInterval, constants.defaultPollInterval))).value;
              var names := BufferSet(availableBuffers, prefs.GetStringSet(Buffers, constants.defaultBuffers));
              logcat == Some(Logcat(maxLogs, Some(poll), Some(names), true, false)) &&
              effects == old(effects) + [Created(maxLogs), Called(SetPollInterval(poll)),
                                         Called(SetBuffers(names)), Called(Start)]
    {
      OnBasePostSuperCreate();
      InitLogcat();
    }

    /** `onBasePostSuperCreate`. */
    method OnBasePostSuperCreate()
      modifies this`prefs
      ensures prefs == SeededPrefs(old(prefs), constants.defaultBuffers, availableBuffers)
    {
      if |constants.defaultBuffers| > 0 && |availableBuffers| > 0 {
        var buffers := prefs.GetStringSet(Buffers, []);
        if buffers == [] {
          prefs := prefs.PutStringSet(Buffers, constants.defaultBuffers);
        }
      }
    }

    /** `initLogcat`: the session is built with the stored capacity, given the stored poll
        interval and buffers, and started once. */
    method InitLogcat()
      requires InitReadable(prefs)
      modifies this`logcat, this`effects
      ensures var maxLogs := ToInt(Trim(prefs.GetString(MaxLogs, constants.defaultMaxLogs))).value;
              var poll := ToLong(Trim(prefs.GetString(PollInterval, constants.defaultPollInterval))).value;
              var names := BufferSet(availableBuffers, prefs.GetStringSet(Buffers, constants.defaultBuffers));
              logcat == Some(Logcat(maxLogs, Some(poll), Some(names), true, false)) &&
              effects == old(effects) + [Created(maxLogs), Called(SetPollInterval(poll)),
                                         Called(SetBuffers(names)), Called(Start)]
    {
      var bufferValues := prefs.GetStringSet(Buffers, constants.defaultBuffers);
      var pollInterval := ToLong(Trim(prefs.GetString(PollInterval, constants.defaultPollInterval))).value;
      var maxLogs := ToInt(Trim(prefs.GetString(MaxLogs, constants.defaultMaxLogs))).value;
      StartSession(maxLogs, pollInterval, BufferSet(availableBuffers, bufferValues));
    }

    /** The second half of `initLogcat`: build the session, configure it and start it. */
    method StartSession(maxLogs: int, pollInterval: int, names: set<string>)
      modifies this`logcat, this`effects
      ensures logcat == Some(Logcat(maxLogs, Some(pollInterval), Some(names), true, false))
      ensures effects == old(effects) + [Created(maxLogs), Called(SetPollInterval(pollInterval)),
                                         Called(SetBuffers(names)), Called(Start)]
    {
      logcat := Some(NewLogcat(maxLogs));
      effects := effects + [Created(maxLogs)];
      Invoke(SetPollInterval(pollInterval));
      Invoke(SetBuffers(names));
      Invoke(Start);
    }

    /** One call on the session, recorded in the order it is made. */
    method Invoke(c: Call)
      requires logcat.Some?
      modifies this`logcat, this`effects
      ensures logcat == Some(Apply(old(logcat).value, c))
      ensures effects == old(effects) + [Called(c)]
    {
      logcat := Some(Apply(logcat.value, c));
      effects := effects + [Called(c)];
    }

    /** `onStartCommand`: go to the foreground with a notification that offers "stop
        recording" exactly while recording. */
    method OnStartCommand() returns (result: int)
      modifies this`notification
      ensures notification == Some(NotificationActions(recording))
      ensures result == START_STICKY
    {
      notification := Some(NotificationActions(recording));
      result := START_STICKY;
    }

    /** `updateNotification`. */
    method UpdateNotification(showStopRecording: bool)
      modifies this`notification
      ensures notification == Some(NotificationActions(showStopRecording))
    {
      notification := Some(NotificationActions(showStopRecording));
    }

    /** `onDestroy`: the session is closed. */
    method OnDestroy()
      requires logcat.Some?
      modifies this`logcat, this`effects
      ensures logcat == Some(old(logcat).value.(running := false, closed := true))
      ensures effects == old(effects) + [Called(Close)]
    {
      Invoke(Close);
    }

    /** The changed setting can be read: for each of the three keys the service acts on,
        the value it parses. */
    predicate ChangeReadable(sp: Prefs, key: PrefKey)
      reads this
    {
      match key
      case PollInterval => ToLong(Trim(sp.GetString(PollInterval, constants.defaultPollInterval))).Some?
      case MaxLogs => ToInt(Trim(sp.GetString(MaxLogs, constants.defaultMaxLogs))).Some?
      case Buffers => ValidIndices(sp.GetStringSet(Buffers, constants.defaultBuffers), availableBuffers)
      case _ => true
    }

    /** `onSharedPreferenceChanged`: a new poll interval is applied in place; new buffers
        and a new max-logs count restart the session after one toast; every other key is
        ignored. */
    method OnSharedPreferenceChanged(sp: Prefs, key: PrefKey)
      requires logcat.Some?
      requires ChangeReadable(sp, key)
      modifies this`logcat, this`restartedLogcat, this`effects
      ensures key == PollInterval ==>
        var ms := ToLong(Trim(sp.GetString(PollInterval, constants.defaultPollInterval))).value;
        logcat == Some(old(logcat).value.(pollInterval := Some(ms))) &&
        restartedLogcat == old(restartedLogcat) &&
        effects == old(effects) + [Called(SetPollInterval(ms))]
      ensures key == MaxLogs ==>
        var n := ToInt(Trim(sp.GetString(MaxLogs, constants.defaultMaxLogs))).value;
        logcat == Some(old(logcat).value.(maxLogs := n, running := true)) &&
        restartedLogcat &&
        effects == old(effects) + [ShowToast(RestartingLogcat), Called(Stop), MarkRestarted,
                                   Called(SetMaxLogsCount(n)), Called(Start)]
      ensures key == Buffers ==>
        var names := BufferSet(availableBuffers, sp.GetStringSet(Buffers, constants.defaultBuffers));
        logcat == Some(old(logcat).value.(buffers := Some(names), running := true)) &&
        restartedLogcat &&
        effects == old(effects) + [ShowToast(RestartingLogcat), MarkRestarted,
                                   Called(SetBuffers(names)), Called(Restart)]
      ensures key != PollInterval && key != MaxLogs && key != Buffers ==>
        logcat == old(logcat) && restartedLogcat == old(restartedLogcat) && effects == old(effects)
    {
      match key
      case PollInterval =>
        var pollInterval := ToLong(Trim(sp.GetString(PollInterval, constants.defaultPollInterval))).value;
        Invoke(SetPollInterval(pollInterval));
      case Buffers =>
        HandleBufferUpdate(sp);
      case MaxLogs =>
        var newCapacity := ToInt(Trim(sp.GetString(MaxLogs, constants.defaultMaxLogs))).value;
        RestartWithCapacity(newCapacity);
      case _ =>
    }

    /** The max-logs branch once the new capacity is read: one toast, then stop, the flag,
        the new capacity and start. */
    method RestartWithCapacity(newCapacity: int)
      requires logcat.Some?
      modifies this`logcat, this`restartedLogcat, this`effects
      ensures logcat == Some(old(logcat).value.(maxLogs := newCapacity, running := true))
      ensures restartedLogcat
      ensures effects == old(effects) + [ShowToast(RestartingLogcat), Called(Stop), MarkRestarted,
                                         Called(SetMaxLogsCount(newCapacity)), Called(Start)]
    {
      effects := effects + [ShowToast(RestartingLogcat)];
      Invoke(Stop);
      restartedLogcat := true;
      effects := effects + [MarkRestarted];
      Invoke(SetMaxLogsCount(newCapacity));
      Invoke(Start);
    }

    /** `handleBufferUpdate`: one toast, the flag, the new buffers, one restart. */
    method HandleBufferUpdate(sp: Prefs)
      requires logcat.Some?
      requires ValidIndices(sp.GetStringSet(Buffers, constants.defaultBuffers), availableBuffers)
      modifies this`logcat, this`restartedLogcat, this`effects
      ensures var names := BufferSet(availableBuffers, sp.GetStringSet(Buffers, constants.defaultBuffers));
        logcat == Some(old(logcat).value.(buffers := Some(names), running := true)) &&
        restartedLogcat &&
        effects == old(effects) + [ShowToast(RestartingLogcat), MarkRestarted,
                                   Called(SetBuffers(names)), Called(Restart)]
    {
      var bufferValues := sp.GetStringSet(Buffers, constants.defaultBuffers);
      effects := effects + [ShowToast(RestartingLogcat)];
      restartedLogcat := true;
      effects := effects + [MarkRestarted];
      Invoke(SetBuffers(BufferSet(availableBuffers, bufferValues)));
      Invoke(Restart);
    }
  }
}
