/** `CallbackModule`: the `babelfish_log` notification callback. Each task event is mapped to a
    category and a log level, the task result is shaped into a data text, the message template is
    filled in, and the message goes to the per-host logger. */
module Callback {
  import opened Text
  import opened Values
  import opened Json

  // ----- the event table (lines 192-214) -----

  /** The `v2_*` task events the callback listens to. */
  datatype Event =
    | RunnerOnFailed
    | RunnerOnOk
    | RunnerOnSkipped
    | RunnerOnUnreachable
    | RunnerOnAsyncFailed
    | PlaybookOnImportForHost
    | PlaybookOnNotImportForHost

  /** The numeric levels of Python's `logging` module. */
  const INFO := 20
  const WARNING := 30
  const ERROR := 40

  /** The (category, level) each event handler passes to `log`. */
  function Route(e: Event): (r: (string, int))
    ensures r.1 in {INFO, WARNING, ERROR}
  {
    match e
    case RunnerOnFailed => ("FAILED", ERROR)
    case RunnerOnOk => ("OK", INFO)
    case RunnerOnSkipped => ("SKIPPED", INFO)
    case RunnerOnUnreachable => ("UNREACHABLE", WARNING)
    case RunnerOnAsyncFailed => ("ASYNC_FAILED", ERROR)
    case PlaybookOnImportForHost => ("IMPORTED", INFO)
    case PlaybookOnNotImportForHost => ("NOTIMPORTED", INFO)
  }

  /** Reads the event back from the category a message carries. */
  function EventOfCategory(category: string): (r: Option<Event>)
    ensures r.Some? ==> Route(r.value).0 == category
  {
    match category
    case "FAILED" => Some(RunnerOnFailed)
    case "OK" => Some(RunnerOnOk)
    case "SKIPPED" => Some(RunnerOnSkipped)
    case "UNREACHABLE" => Some(RunnerOnUnreachable)
    case "ASYNC_FAILED" => Some(RunnerOnAsyncFailed)
    case "IMPORTED" => Some(PlaybookOnImportForHost)
    case "NOTIMPORTED" => Some(PlaybookOnNotImportForHost)
    case _ => None
  }

  /** Every event has its own category, so the category in a message names the event. */
  lemma CategoryNamesEvent(e: Event)
    ensures EventOfCategory(Route(e).0) == Some(e)
  {
  }

  /** Only the two failure events log at ERROR, only an unreachable host at WARNING; no category can
      be mistaken for the message separator. */
  lemma EventLevels(e: Event)
    ensures Route(e).1 == ERROR <==> e == RunnerOnFailed || e == RunnerOnAsyncFailed
    ensures Route(e).1 == WARNING <==> e == RunnerOnUnreachable
    ensures SepFree(Route(e).0)
  {
    match e
    case RunnerOnFailed => SpaceFreeIsSepFree("FAILED");
    case RunnerOnOk => SpaceFreeIsSepFree("OK");
    case RunnerOnSkipped => SpaceFreeIsSepFree("SKIPPED");
    case RunnerOnUnreachable => SpaceFreeIsSepFree("UNREACHABLE");
    case RunnerOnAsyncFailed => SpaceFreeIsSepFree("ASYNC_FAILED");
    case PlaybookOnImportForHost => SpaceFreeIsSepFree("IMPORTED");
    case PlaybookOnNotImportForHost => SpaceFreeIsSepFree("NOTIMPORTED");
  }

  // ----- shaping the data (lines 161-172) -----

  /** What `log` reads from an Ansible task result: the host name `_host.get_name()` returns, the
      task's name and action, and the `_result` payload. */
  datatype TaskResult = TaskResult(host: string, taskName: string, taskAction: string, payload: Value)

  const VERBOSE_OVERRIDE := "_ansible_verbose_override"
  const INVOCATION := "invocation"

  /** The `data` that goes into the message. A mapping carrying VERBOSE_OVERRIDE gives "omitted";
      any other mapping, less its `invocation` entry, goes through `formatData` (the `_format_data`
      that line 170 calls), and a non-null invocation is prefixed as its one-line JSON and " => ", with
      a trailing space; any other payload is written through `str`. */
  function DataText(payload: Value, formatData: Value -> Result<string>): (r: Result<string>)
    ensures r.Err? ==> payload.Dict? && r == formatData(Dict(Remove(payload.entries, INVOCATION)))
  {
    if !payload.Dict? then Ok(PyStr(payload))
    else if HasKey(payload.entries, VERBOSE_OVERRIDE) then Ok("omitted")
    else
      var invocation := Get(payload.entries, INVOCATION);
      match formatData(Dict(Remove(payload.entries, INVOCATION)))
      case Err(err) => Err(err)
      case Ok(d) =>
        if invocation.Some? && !invocation.value.Null? then Ok(Dumps(invocation.value, Compact) + " => " + d + " ")
        else Ok(d)
  }

  /** Lines 161-172: copy the mapping, pop `invocation` off the copy, format the rest. */
  method ShapeData(payload: Value, formatData: Value -> Result<string>) returns (r: Result<string>)
    ensures r == DataText(payload, formatData)
    ensures payload.Dict? && HasKey(payload.entries, VERBOSE_OVERRIDE) ==> r == Ok("omitted")
  {
    if !payload.Dict? {
      return Ok(PyStr(payload));
    }
    if HasKey(payload.entries, VERBOSE_OVERRIDE) {
      return Ok("omitted");
    }
    var data := payload.entries;
    var invocation := Get(data, INVOCATION);
    data := Remove(data, INVOCATION);
    var formatted := formatData(Dict(data));
    if formatted.Err? {
      return Err(formatted.error);
    }
    if invocation.Some? && !invocation.value.Null? {
      r := Ok(Dumps(invocation.value, Compact) + " => " + formatted.value + " ");
    } else {
      r := Ok(formatted.value);
    }
  }

  /** The invocation never reaches the formatter: setting it to any value leaves the formatted part
      as it is without one, and only adds the one-line JSON prefix (nothing for a null). */
  lemma InvocationIsSetAside(e: seq<(string, Value)>, v: Value, formatData: Value -> Result<string>)
    requires !HasKey(e, VERBOSE_OVERRIDE)
    ensures var rest := DataText(Dict(Remove(e, INVOCATION)), formatData);
      DataText(Dict(SetKey(e, INVOCATION, v)), formatData) ==
        if rest.Err? || v.Null? then rest else Ok(Dumps(v, Compact) + " => " + rest.value + " ")
    ensures '\n' !in Dumps(v, Compact)
  {
    var e' := SetKey(e, INVOCATION, v);
    var r := Remove(e, INVOCATION);
    assert !HasKey(e', VERBOSE_OVERRIDE) by {
      assert Get(e', VERBOSE_OVERRIDE) == Get(e, VERBOSE_OVERRIDE);
    }
    assert !HasKey(r, VERBOSE_OVERRIDE) by {
      assert Get(r, VERBOSE_OVERRIDE) == Get(e, VERBOSE_OVERRIDE);
    }
    RemoveSetKey(e, INVOCATION, v);
    RemoveAbsent(r, INVOCATION);
    assert Remove(e', INVOCATION) == r == Remove(r, INVOCATION);
    assert Get(e', INVOCATION) == Some(v);
    assert Get(r, INVOCATION) == None;
  }

  // ----- the message (lines 80, 174-183) -----

  /** `%s` of the `playbook` attribute: its file name once a playbook started, else "None". */
  function PlaybookText(playbook: Option<string>): string
  {
    if playbook.Some? then playbook.value else "None"
  }

  /** MSG_FORMAT filled in: six fields separated by " - ", then a blank line. */
  function Compose(now: string, playbook: Option<string>, taskName: string, taskAction: string,
                   category: string, data: string): (r: string)
    ensures |r| >= |now| + 2 && r[..|now|] == now && r[|r| - 2..] == "\n\n"
  {
    var xs := [now, PlaybookText(playbook), taskName, taskAction, category, data];
    assert Join(xs, " - ") == now + " - " + Join(xs[1..], " - ");
    Join(xs, " - ") + "\n\n"
  }

  /** `s` starts with the separator " - ". */
  predicate StartsWithSep(s: string)
  {
    |s| >= 3 && s[0] == ' ' && s[1] == '-' && s[2] == ' '
  }

  /** `s.split(" - ")`: the pieces between leftmost, non-overlapping separators. */
  function SplitFields(s: string): (r: seq<string>)
    ensures |r| >= 1
  {
    if |s| == 0 then [s]
    else if StartsWithSep(s) then [""] + SplitFields(s[3..])
    else var t := SplitFields(s[1..]); [[s[0]] + t[0]] + t[1..]
  }

  /** `a` holds no " - ". */
  predicate NoSep(a: string)
  {
    |a| == 0 || (!StartsWithSep(a) && NoSep(a[1..]))
  }

  /** A field that cannot be confused with the separator: it holds no " - " and does not end in " -". */
  predicate SepFree(a: string)
  {
    NoSep(a) && !(|a| >= 2 && a[|a| - 2] == ' ' && a[|a| - 1] == '-')
  }

  /** A field without spaces is always safe. */
  lemma {:induction false} SpaceFreeIsSepFree(a: string)
    requires ' ' !in a
    ensures SepFree(a)
  {
    if |a| > 0 {
      SpaceFreeIsSepFree(a[1..]);
    }
  }

  lemma {:induction false} SplitAfterField(a: string, b: string)
    requires SepFree(a)
    ensures SplitFields(a + " - " + b) == [a] + SplitFields(b)
  {
    var s := a + " - " + b;
    if |a| == 0 {
      assert s[3..] == b;
    } else {
      assert s[0] == a[0];
      assert !StartsWithSep(s) by {
        if |a| == 1 {
          assert s[1] == ' ' && s[2] == '-';
        } else if |a| == 2 {
          assert s[1] == a[1] && s[2] == ' ';
        } else {
          assert s[1] == a[1] && s[2] == a[2];
        }
      }
      var a' := a[1..];
      assert SepFree(a') by {
        if |a'| >= 2 {
          assert a'[|a'| - 2] == a[|a| - 2] && a'[|a'| - 1] == a[|a| - 1];
        }
      }
      SplitAfterField(a', b);
      assert s[1..] == a' + " - " + b;
      assert a == [a[0]] + a';
    }
  }

  /** Fields joined with " - " split back into themselves when all but the last are safe; the last
      one comes back as its own pieces. */
  lemma {:induction false} SplitJoinedFields(xs: seq<string>, last: string)
    requires forall i :: 0 <= i < |xs| ==> SepFree(xs[i])
    ensures SplitFields(Join(xs + [last], " - ")) == xs + SplitFields(last)
  {
    if |xs| == 0 {
      assert xs + [last] == [last];
    } else {
      var ys := xs + [last];
      var rest := xs[1..];
      assert ys[0] == xs[0] && ys[1..] == rest + [last];
      assert forall i :: 0 <= i < |rest| ==> SepFree(rest[i]) by {
        forall i | 0 <= i < |rest| ensures SepFree(rest[i]) {
          assert rest[i] == xs[i + 1];
        }
      }
      SplitJoinedFields(rest, last);
      var j := Join(rest + [last], " - ");
      assert Join(ys, " - ") == xs[0] + " - " + j;
      SplitAfterField(xs[0], j);
      assert xs == [xs[0]] + rest;
    }
  }

  /** The message splits back into its fields: when none of the first five fields can be mistaken
      for the separator, cutting the message (without its closing blank line) at " - " gives those
      five fields and then the pieces of the data. */
  lemma ComposeSplitsBack(now: string, playbook: Option<string>, taskName: string, taskAction: string,
                          category: string, data: string)
    requires SepFree(now) && SepFree(PlaybookText(playbook)) && SepFree(taskName)
    requires SepFree(taskAction) && SepFree(category)
    ensures var m := Compose(now, playbook, taskName, taskAction, category, data);
      |m| >= 2 && m[|m| - 2..] == "\n\n" &&
      SplitFields(m[..|m| - 2]) == [now, PlaybookText(playbook), taskName, taskAction, category] + SplitFields(data)
  {
    var xs := [now, PlaybookText(playbook), taskName, taskAction, category];
    assert xs + [data] == [now, PlaybookText(playbook), taskName, taskAction, category, data];
    var j := Join(xs + [data], " - ");
    SplitJoinedFields(xs, data);
    assert (j + "\n\n")[..|j|] == j;
  }

  // ----- loggers and the callback state (lines 109-119, 185-189, 207-208) -----

  /** What `_get_logger` receives: a host-name string, or (line 187 as written) the bound method
      `get_name` of the host, which `os.path.join` rejects. */
  datatype HostKey = HostName(host: string) | GetNameMethod(host: string)

  /** One record the file handler for `file` appended: the message and the stream terminator. */
  datatype Line = Line(file: string, text: string)

  /** `'babelfish_log_%s' % host`. */
  function LoggerName(h: string): (r: string)
    ensures |r| == |h| + 14 && r[14..] == h
  {
    "babelfish_log_" + h
  }

  /** The files of the handlers attached to the logger `name`. */
  function FilesOf(handlers: map<string, seq<string>>, name: string): seq<string>
  {
    if name in handlers then handlers[name] else []
  }

  /** What `logger.log(level, msg)` appends: one line per handler, if the level passes the threshold. */
  function Emitted(files: seq<string>, level: int, threshold: int, msg: string): (r: seq<Line>)
    ensures level >= threshold ==> |r| == |files| && forall j :: 0 <= j < |r| ==> r[j] == Line(files[j], msg + "\n")
    ensures level < threshold ==> r == []
  {
    if level >= threshold then seq(|files|, j requires 0 <= j < |files| => Line(files[j], msg + "\n")) else []
  }

  lemma LoggerNameInjective(h1: string, h2: string)
    requires LoggerName(h1) == LoggerName(h2)
    ensures h1 == h2
  {
    assert h1 == LoggerName(h1)[14..];
  }

  /** Each registered host has exactly its own logger, and that logger exactly one handler, writing
      to the host's file. */
  ghost predicate Registry(loggers: map<HostKey, string>, handlers: map<string, seq<string>>)
  {
    && (forall k :: k in loggers ==> k.HostName? && loggers[k] == LoggerName(k.host))
    && (forall h :: HostName(h) in loggers <==> LoggerName(h) in handlers)
    && (forall h :: LoggerName(h) in handlers ==> handlers[LoggerName(h)] == [h])
  }

  /** Registering a new host once keeps the registry sound. */
  lemma RegisterOnce(loggers: map<HostKey, string>, handlers: map<string, seq<string>>, h: string)
    requires Registry(loggers, handlers) && HostName(h) !in loggers
    ensures FilesOf(handlers, LoggerName(h)) == []
    ensures Registry(loggers[HostName(h) := LoggerName(h)], handlers[LoggerName(h) := [h]])
  {
    var loggers', handlers' := loggers[HostName(h) := LoggerName(h)], handlers[LoggerName(h) := [h]];
    forall h' ensures HostName(h') in loggers' <==> LoggerName(h') in handlers' {
      if LoggerName(h') == LoggerName(h) {
        LoggerNameInjective(h', h);
      }
    }
    forall h' | LoggerName(h') in handlers' ensures handlers'[LoggerName(h')] == [h'] {
      if LoggerName(h') == LoggerName(h) {
        LoggerNameInjective(h', h);
      }
    }
  }

  class BabelfishLog {
    /** The `playbook` attribute: the file name of the running playbook, once one started. */
    var playbook: Option<string>
    /** The `loggers` dict: registry key to logger name. */
    var loggers: map<HostKey, string>
    /** `logging`'s loggers by name, each with the files its handlers write to, in attach order. */
    var handlers: map<string, seq<string>>
    /** Everything the file handlers appended, in order. */
    var written: seq<Line>
    /** The effective level of the babelfish loggers (inherited from the root logger). */
    const threshold: int

    /** The registry and the loggers agree as Registry describes. */
    ghost predicate Valid()
      reads this
    {
      Registry(loggers, handlers)
    }

    constructor (threshold: int)
      ensures Valid()
      ensures this.threshold == threshold
      ensures playbook == None && loggers == map[] && handlers == map[] && written == []
    {
      this.threshold := threshold;
      playbook := None;
      loggers := map[];
      handlers := map[];
      written := [];
    }

    /** `v2_playbook_on_start`: remembers the playbook's file name, nothing else. */
    method PlaybookOnStart(fileName: string)
      modifies this`playbook
      ensures playbook == Some(fileName)
    {
      playbook := Some(fileName);
    }

    /** `_get_logger(key)`: a host name gets the logger `babelfish_log_<host>` with one more file
        handler on it and is registered under the key; the bound method fails in `os.path.join`
        before anything is registered. */
    method GetLogger(key: HostKey) returns (r: Result<string>)
      modifies this`loggers, this`handlers
      ensures key.GetNameMethod? ==> r == Err(TypeError) && loggers == old(loggers) && handlers == old(handlers)
      ensures key.HostName? ==>
        && r == Ok(LoggerName(key.host))
        && loggers == old(loggers)[key := LoggerName(key.host)]
        && handlers == old(handlers)[LoggerName(key.host) := FilesOf(old(handlers), LoggerName(key.host)) + [key.host]]
    {
      if key.GetNameMethod? {
        return Err(TypeError);
      }
      var name := LoggerName(key.host);
      handlers := handlers[name := FilesOf(handlers, name) + [key.host]];
      loggers := loggers[key := name];
      r := Ok(name);
    }

    /** `logger.log(level, msg)` on the logger `name`: each of its handlers appends the message. */
    method Emit(name: string, level: int, msg: string)
      modifies this`written
      ensures written == old(written) + Emitted(FilesOf(handlers, name), level, threshold, msg)
    {
      if level < threshold {
        return;
      }
      var files := FilesOf(handlers, name);
      var i := 0;
      while i < |files|
        invariant 0 <= i <= |files|
        invariant written == old(written) + Emitted(files[..i], level, threshold, msg)
      {
        written := written + [Line(files[i], msg + "\n")];
        i := i + 1;
      }
      assert files[..i] == files;
    }

    /** Lines 161-190 with the argument of `_get_logger` given as `key`: shape the data, fill in the
        message, register a logger through `_get_logger(key)` (the `get` default is evaluated first,
        on every call), then look the host name up and log. */
    method LogWith(key: HostKey, result: TaskResult, category: string, level: int, now: string,
                   formatData: Value -> Result<string>) returns (r: Result<string>)
      requires key.host == result.host
      modifies this`loggers, this`handlers, this`written
      ensures DataText(result.payload, formatData).Err? ==>
        r == DataText(result.payload, formatData) && unchanged(this)
      ensures DataText(result.payload, formatData).Ok? && key.GetNameMethod? ==>
        r == Err(TypeError) && unchanged(this)
      ensures DataText(result.payload, formatData).Ok? && key.HostName? ==>
        var msg := Compose(now, playbook, result.taskName, result.taskAction, category, DataText(result.payload, formatData).value);
        var name := LoggerName(result.host);
        && r == Ok(msg)
        && loggers == old(loggers)[key := name]
        && handlers == old(handlers)[name := FilesOf(old(handlers), name) + [result.host]]
        && written == old(written) + Emitted(FilesOf(old(handlers), name) + [result.host], level, threshold, msg)
    {
      var data := ShapeData(result.payload, formatData);
      if data.Err? {
        return Err(data.error);
      }
      var msg := Compose(now, playbook, result.taskName, result.taskAction, category, data.value);
      var fallback := GetLogger(key);
      if fallback.Err? {
        return Err(fallback.error);
      }
      var name := fallback.value;
      if HostName(result.host) in loggers {
        name := loggers[HostName(result.host)];
      }
      Emit(name, level, msg);
      r := Ok(msg);
    }

    /** `log` as written: line 187 hands `_get_logger` the bound method, so every call whose data
        could be shaped fails with a TypeError, and nothing is registered or written. */
    method Log(result: TaskResult, category: string, level: int, now: string,
               formatData: Value -> Result<string>) returns (r: Result<string>)
      modifies this`loggers, this`handlers, this`written
      ensures DataText(result.payload, formatData).Err? ==> r == DataText(result.payload, formatData)
      ensures DataText(result.payload, formatData).Ok? ==> r == Err(TypeError)
      ensures unchanged(this)
    {
      r := LogWith(GetNameMethod(result.host), result, category, level, now, formatData);
    }

    /** `log` with the host name looked up first and a logger created only for a host seen for the
        first time: every message that passes the threshold is appended exactly once, to its host's
        file, and the registry stays valid. */
    method LogAsIntended(result: TaskResult, category: string, level: int, now: string,
                         formatData: Value -> Result<string>) returns (r: Result<string>)
      requires Valid()
      modifies this`loggers, this`handlers, this`written
      ensures Valid()
      ensures DataText(result.payload, formatData).Err? ==>
        r == DataText(result.payload, formatData) && unchanged(this)
      ensures DataText(result.payload, formatData).Ok? ==>
        var msg := Compose(now, playbook, result.taskName, result.taskAction, category, DataText(result.payload, formatData).value);
        && r == Ok(msg)
        && loggers == old(loggers)[HostName(result.host) := LoggerName(result.host)]
        && handlers == (if HostName(result.host) in old(loggers) then old(handlers)
                        else old(handlers)[LoggerName(result.host) := [result.host]])
        && written == old(written) + (if level >= threshold then [Line(result.host, msg + "\n")] else [])
    {
      var data := ShapeData(result.payload, formatData);
      if data.Err? {
        return Err(data.error);
      }
      var msg := Compose(now, playbook, result.taskName, result.taskAction, category, data.value);
      var key := HostName(result.host);
      var name;
      if key in loggers {
        name := loggers[key];
      } else {
        RegisterOnce(loggers, handlers, result.host);
        var created := GetLogger(key);
        name := created.value;
      }
      assert FilesOf(handlers, name) == [result.host];
      Emit(name, level, msg);
      r := Ok(msg);
    }

    /** A `v2_*` event handler: `log` with the event's category and level. */
    method Handle(e: Event, result: TaskResult, now: string, formatData: Value -> Result<string>)
      returns (r: Result<string>)
      modifies this`loggers, this`handlers, this`written
      ensures DataText(result.payload, formatData).Err? ==> r == DataText(result.payload, formatData)
      ensures DataText(result.payload, formatData).Ok? ==> r == Err(TypeError)
      ensures unchanged(this)
    {
      r := Log(result, Route(e).0, Route(e).1, now, formatData);
    }

    /** A `v2_*` handler over the corrected `log`: the event's category and level from the table. */
    method HandleAsIntended(e: Event, result: TaskResult, now: string, formatData: Value -> Result<string>)
      returns (r: Result<string>)
      requires Valid()
      modifies this`loggers, this`handlers, this`written
      ensures Valid()
      ensures DataText(result.payload, formatData).Err? ==>
        r == DataText(result.payload, formatData) && unchanged(this)
      ensures DataText(result.payload, formatData).Ok? ==>
        var msg := Compose(now, playbook, result.taskName, result.taskAction, Route(e).0,
                           DataText(result.payload, formatData).value);
        && r == Ok(msg)
        && loggers == old(loggers)[HostName(result.host) := LoggerName(result.host)]
        && handlers == (if HostName(result.host) in old(loggers) then old(handlers)
                        else old(handlers)[LoggerName(result.host) := [result.host]])
        && written == old(written) + (if Route(e).1 >= threshold then [Line(result.host, msg + "\n")] else [])
    {
      r := LogAsIntended(result, Route(e).0, Route(e).1, now, formatData);
    }
  }

  // ----- scenarios -----

  /** As written: any failed task whose data can be shaped is reported, yet `log` raises a TypeError
      and the host file stays empty. */
  method AsWrittenScenario(result: TaskResult, now: string, formatData: Value -> Result<string>)
    returns (r: Result<string>, lines: seq<Line>)
    requires DataText(result.payload, formatData).Ok?
    ensures r == Err(TypeError) && lines == []
  {
    var callback := new BabelfishLog(WARNING);
    r := callback.Handle(RunnerOnFailed, result, now, formatData);
    lines := callback.written;
  }

  /** With only `get_name()` called: the eager `get` default adds a handler on every call, so any
      result reported twice for the same host, from a fresh callback, is written three times. */
  method EagerLookupScenario(result: TaskResult, category: string, now: string,
                             formatData: Value -> Result<string>) returns (lines: seq<Line>)
    requires DataText(result.payload, formatData).Ok?
    ensures var msg := Compose(now, None, result.taskName, result.taskAction, category,
                               DataText(result.payload, formatData).value);
      lines == [Line(result.host, msg + "\n"), Line(result.host, msg + "\n"), Line(result.host, msg + "\n")]
  {
    var callback := new BabelfishLog(WARNING);
    var key := HostName(result.host);
    var r1 := callback.LogWith(key, result, category, ERROR, now, formatData);
    assert FilesOf(callback.handlers, LoggerName(result.host)) == [result.host];
    var r2 := callback.LogWith(key, result, category, ERROR, now, formatData);
    lines := callback.written;
  }

  /** As intended: a result reported twice for the same host appears twice, once per report; an `ok`
      event in between stays below the default WARNING level. */
  method IntendedScenario(result: TaskResult, now: string, formatData: Value -> Result<string>)
    returns (lines: seq<Line>)
    requires DataText(result.payload, formatData).Ok?
    ensures var msg := Compose(now, None, result.taskName, result.taskAction, Route(RunnerOnFailed).0,
                               DataText(result.payload, formatData).value);
      lines == [Line(result.host, msg + "\n"), Line(result.host, msg + "\n")]
  {
    var callback := new BabelfishLog(WARNING);
    var r1 := callback.HandleAsIntended(RunnerOnFailed, result, now, formatData);
    var r2 := callback.HandleAsIntended(RunnerOnOk, result, now, formatData);
    var r3 := callback.HandleAsIntended(RunnerOnFailed, result, now, formatData);
    lines := callback.written;
  }
}
