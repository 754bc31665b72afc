# babelfish_log in Dafny

`babelfish_log` is an Ansible notification callback. For every task event it receives (a task
failed, succeeded, was skipped, a host was unreachable, an async task failed, a file was or was not
imported for a host) it renders the task result as text, fills in a one-message template
`now - playbook - task name - task action - category - data` followed by a blank line, and logs it
at the event's level to a logger named after the host, whose rotating file handler writes to a file
named after the host.

This project models that core:

- `Values` — the result payload as a closed datatype (`None`, booleans, integers, strings, lists
  and insertion-ordered dicts with string keys), the dict operations the callback uses
  (`k in d`, `d.get`, `d[k] = v`, `pop`) and Python's `str`/`repr`.
- `Text` — `str.split("\n")`, `sep.join`, `str(int)` and the code-point order of strings.
- `Json` — a serialiser standing in for `json.dumps`: `Compact` is `json.dumps(x)`, `Pretty` is
  `json.dumps(x, indent=2, sort_keys=True)` with Python 3 separators and `ensure_ascii` escaping.
- `Formatter` — `_format_output` as the specification function `Format`, and the two list
  branches as the loops they are: `FormatStringList` builds `real_output` by appending,
  `FormatDictList` rewrites the verbose `FIELDS` of each dict of an array in place.
- `Callback` — the event table, the shaping of `data` in `log`, the message template, and the
  class `BabelfishLog` holding `playbook`, the `loggers` registry, the handlers attached to each
  logger and what the handlers wrote.

The code has no no-log suppression, no key whitelist, no invocation-formatting switch and no
configurable time or message format; an empty list is an `IndexError`, not an empty result; a
top-level dict is dumped as it is, so the verbose fields of a dict (as opposed to a list of dicts)
are not re-rendered; and the `invocation` is always written as compact JSON.

## Model

| member | source | states |
|---|---|---|
| Formatter.FieldsDistinct | plugins/callback/babelfish_log.py:57-67 | the nine verbose field names are pairwise different |
| Formatter.Format | plugins/callback/babelfish_log.py:121-159 | `_format_output`: a dict is its sorted indented JSON, an empty list raises `IndexError`, a list whose first element is a dict is the sorted JSON of the list after its dicts' verbose fields were rewritten, any other list is rendered from its strings, anything else is `str`; its contract: only the list branches can raise |
| Formatter.SubstFields | plugins/callback/babelfish_log.py:133-136 | the loop over FIELDS for one dict: each present field, in FIELDS order, is replaced by the string its value renders to, and the first field that fails stops the loop with that exception (its properties are stated by `SubstFieldsFacts`) |
| Formatter.Flatten | plugins/callback/babelfish_log.py:143-149 | `real_output` after the append loop, each step as `FlattenStep` says; nothing is dropped: a successful run holds at least one element per input element |
| Formatter.FlattenStep | plugins/callback/babelfish_log.py:145-149 | one turn of the append loop: a string with a newline adds its pieces, any other string, list or dict is appended as it is unless the `in` test or `split` raises; the output only grows |
| Formatter.FormatOutput | plugins/callback/babelfish_log.py:121-159 | running `_format_output` step by step gives exactly what `Format` specifies, error included |
| Formatter.FormatStringList | plugins/callback/babelfish_log.py:141-156 | the append loops over a list whose first element is not a dict yield the rendering `Format` gives, failing where Python raises |
| Formatter.FormatDictList | plugins/callback/babelfish_log.py:127-138 | on a list whose first element is a dict, the array is rewritten in place exactly as the substitution pass specifies (partially when a field fails) and the result is `Format` of the original list |
| Formatter.RewriteFields | plugins/callback/babelfish_log.py:133-136 | the field loop over one array element rewrites exactly that dict as the substitution pass over FIELDS specifies, leaves every other element alone, and reports the first field that fails |
| Formatter.SubstItems | plugins/callback/babelfish_log.py:131-137 | the pass over the items keeps the list's length |
| Formatter.FlattenFailsFrom | plugins/callback/babelfish_log.py:144-149 | once an element raises, the whole flattening raises the same exception |
| Formatter.FlattenOfStrings | plugins/callback/babelfish_log.py:143-149 | a list of strings flattens to the `split("\n")` pieces of each string, in order |
| Formatter.SplitAllLines | plugins/callback/babelfish_log.py:145-147 | the flattened lines hold no newline, and joined by newlines they equal the original strings joined by newlines |
| Formatter.StringListRendering | plugins/callback/babelfish_log.py:141-156 | lines longer than 75 characters together give a leading newline and the lines one per row, otherwise the lines separated by spaces; the block gives back the original strings and splits into exactly the lines |
| Formatter.TwoStrings | plugins/callback/babelfish_log.py:151-156 | two strings over 75 characters together give `"\n" + a + "\n" + b`, otherwise `a + " " + b`; `["x", "y"]` gives `"x y"` |
| Formatter.TwoStringLines | plugins/callback/babelfish_log.py:143-156 | two newline-free strings flatten to themselves, their concatenation and joins are the plain concatenations |
| Formatter.FlattenKeepsNonStrings | plugins/callback/babelfish_log.py:143-149 | a non-string element survives flattening, so `"".join` then meets it |
| Formatter.StringListAcceptsOnlyStrings | plugins/callback/babelfish_log.py:141-156 | a list whose first element is not a dict renders if and only if all its elements are strings |
| Formatter.SubstFieldsFacts | plugins/callback/babelfish_log.py:133-136 | the pass over FIELDS keeps the dict's keys and order, replaces each present field by its rendering, touches nothing else, and fails exactly when a present field cannot be rendered |
| Formatter.SubstItemsFacts | plugins/callback/babelfish_log.py:131-137 | the pass over the items leaves earlier items alone, rewrites each later dict as above and keeps each non-dict, and fails exactly when some dict has an unrenderable field |
| Formatter.DictListRendering | plugins/callback/babelfish_log.py:127-138 | a list of dicts renders exactly when every present verbose field renders, and then is the sorted JSON of the list with those fields replaced and everything else unchanged |
| Formatter.RewriteIsIdempotent | plugins/callback/babelfish_log.py:132-136 | rewriting an already rewritten dict changes nothing, so a dict met twice through aliasing ends as if rewritten once |
| Formatter.StableFrom | plugins/callback/babelfish_log.py:134-136 | a dict whose present verbose fields are strings passes the field loop unchanged |
| Formatter.DictRendering | plugins/callback/babelfish_log.py:123-124 | a dict is its sorted indented JSON, the same for any insertion order of the same entries |
| Formatter.ScalarRendering | plugins/callback/babelfish_log.py:127-159 | an empty list raises `IndexError`; a string renders as itself; an integer as decimal text that parses back to it |
| Json.Dumps | plugins/callback/babelfish_log.py:124 | `json.dumps` of a payload value through `Encode`: `Compact` is `json.dumps(x)`, `Pretty` adds `indent=2, sort_keys=True`; the compact form never holds a line break |
| Json.SortByKey | plugins/callback/babelfish_log.py:124 | `sort_keys` orders the entries by key (strictly, as dict keys are unique) and keeps them all |
| Json.EntryOrder | plugins/callback/babelfish_log.py:124 | the entries written are the dict's entries, sorted only in the pretty form |
| Json.StrictlyAscendingUnique | plugins/callback/babelfish_log.py:124 | two key-sorted lists of the same entries are equal |
| Json.PrettyIgnoresInsertionOrder | plugins/callback/babelfish_log.py:124 | the pretty JSON of a dict does not depend on insertion order |
| Json.CompactIsOneLine | plugins/callback/babelfish_log.py:172 | `json.dumps` without indent writes no newline |
| Json.Escape | plugins/callback/babelfish_log.py:124 | `ensure_ascii` output is printable ASCII only |
| Values.SetKey | plugins/callback/babelfish_log.py:136 | `d[k] = v`: `k` now maps to `v`, other keys unchanged, an existing key keeps its place, a new one goes last |
| Values.Remove | plugins/callback/babelfish_log.py:169 | the popped dict lacks the key and agrees with the original on every other key; its entries are entries of the original (their order is stated by `RemoveKeepsOrder`) |
| Values.RemoveKeepsOrder | plugins/callback/babelfish_log.py:169 | `pop` on a dict removes exactly the entry under the key and keeps the other entries in their insertion order |
| Values.PyStr | plugins/callback/babelfish_log.py:159 | `str(v)`: a string is itself, anything else its `repr`, which is a single line |
| Values.Repr | plugins/callback/babelfish_log.py:159 | `repr(v)`: containers show their elements' `repr` separated by `", "`, strings are quoted and escaped, so the text never holds a line break |
| Values.RemoveSetKey | plugins/callback/babelfish_log.py:168-170 | whatever `invocation` held, the dict without it is the same |
| Callback.Route | plugins/callback/babelfish_log.py:192-214 | every event is logged at INFO, WARNING or ERROR |
| Callback.EventOfCategory | plugins/callback/babelfish_log.py:192-214 | a category read back names an event that logs under that category |
| Callback.CategoryNamesEvent | plugins/callback/babelfish_log.py:192-214 | each event's category reads back as that event (the table is one-to-one) |
| Callback.EventLevels | plugins/callback/babelfish_log.py:192-205 | exactly the two failure events are ERROR and exactly the unreachable event is WARNING; no category contains the separator |
| Callback.DataText | plugins/callback/babelfish_log.py:161-172 | the data text: `str` of a non-mapping, `omitted` under the verbose override, otherwise the formatted mapping without `invocation`, prefixed by the compact JSON of a non-null invocation; the only error is the formatter's own, passed on unchanged |
| Callback.Compose | plugins/callback/babelfish_log.py:174-183 | the six fields joined by `" - "`: the message starts with the time and ends in a blank line |
| Callback.LoggerName | plugins/callback/babelfish_log.py:110 | `'babelfish_log_%s' % host`: a fixed 14-character prefix followed by the host, which can be read back |
| Callback.Emitted | plugins/callback/babelfish_log.py:190 | `logger.log(level, msg)` on a logger with the given handlers: one line per handler, in the order they were attached, each the message and the stream terminator, when the level passes the threshold; nothing otherwise |
| Callback.ShapeData | plugins/callback/babelfish_log.py:161-172 | copy, pop and format give the data text `DataText` specifies; a payload with `_ansible_verbose_override` gives `omitted` |
| Callback.InvocationIsSetAside | plugins/callback/babelfish_log.py:168-172 | the formatter never sees `invocation`: any invocation value only adds its one-line JSON and `" => "` in front and a space behind, and a null adds nothing |
| Callback.ComposeSplitsBack | plugins/callback/babelfish_log.py:80 | the message ends in a blank line and, when the first five fields hold no separator, splits at `" - "` back into those fields followed by the data |
| Callback.SplitJoinedFields | plugins/callback/babelfish_log.py:80 | fields free of the separator joined with `" - "` split back into themselves, followed by the pieces of the last field |
| Callback.LoggerNameInjective | plugins/callback/babelfish_log.py:110 | different hosts get different logger names |
| Callback.RegisterOnce | plugins/callback/babelfish_log.py:109-119 | registering a host not seen before keeps one logger with one handler per host |
| Callback.BabelfishLog.constructor | plugins/callback/babelfish_log.py:85-87 | no playbook, no loggers, nothing written |
| Callback.BabelfishLog.PlaybookOnStart | plugins/callback/babelfish_log.py:207-208 | `playbook` becomes the file name and nothing else changes |
| Callback.BabelfishLog.GetLogger | plugins/callback/babelfish_log.py:109-119 | a host name gets one more handler on its logger and is registered under the key, other entries untouched; the bound method raises `TypeError` and changes nothing |
| Callback.BabelfishLog.Emit | plugins/callback/babelfish_log.py:190 | `logger.log` appends the message and the stream terminator once per handler when the level passes |
| Callback.BabelfishLog.LogWith | plugins/callback/babelfish_log.py:161-190 | the data and message are composed first, the `get` default registers a logger on every call, and every handler of the host's logger appends the message |
| Callback.BabelfishLog.Log | plugins/callback/babelfish_log.py:161-190 | as written: a shaping error is passed on, otherwise `TypeError`; nothing is registered or written |
| Callback.BabelfishLog.LogAsIntended | plugins/callback/babelfish_log.py:161-190 | corrected: the message is appended exactly once to the host's file when its level passes; a host seen before keeps its handlers, a new host gets a logger with exactly one handler, and the registry stays one logger, one handler per host |
| Callback.BabelfishLog.HandleAsIntended | plugins/callback/babelfish_log.py:192-214 | corrected: each event handler is the corrected `log` with the event's category and level from the table |
| Callback.BabelfishLog.Handle | plugins/callback/babelfish_log.py:192-214 | each event handler is `log` with its category and level, so as written it never writes |
| Callback.AsWrittenScenario | plugins/callback/babelfish_log.py:187 | for any task whose data can be shaped, a reported failure raises `TypeError` and leaves the host file empty |
| Callback.EagerLookupScenario | plugins/callback/babelfish_log.py:185-188 | with `get_name()` called, any result reported twice for the same host from a fresh callback leaves three identical lines in the host's file |
| Callback.IntendedScenario | plugins/callback/babelfish_log.py:185-190 | corrected, through the event table: the same failure reported twice leaves two lines, and an `ok` event in between, at INFO below WARNING, leaves none |

## Left out

- File output: `RotatingFileHandler`, its size-based rollover (`max_bytes`, `backup_count`) and the
  path under `log_folder`; a handler's output is a `Line` (host file name, text) appended to
  `written`.
- `logging` internals beyond what decides the lines: propagation to ancestor loggers and their
  handlers, `logging.disable`, formatters other than the default message-only one. The loggers'
  effective level, inherited from the root logger (WARNING unless configured otherwise), is the
  constructor's `threshold`.
- `set_options`, `get_option`, `os.path.exists` and `makedirs_safe`: option resolution and
  directory creation in the host engine and the filesystem.
- `time.strftime(TIME_FORMAT, time.localtime())`: the clock; `now` is a parameter.
- `_format_data` (called at line 170) is not defined in this file and is not part of this model;
  it is the parameter `formatData`, and `Format` is not substituted for it.
- Exceptions raised by `log` reach the host engine, which reports them; the model returns them as
  `Err` and does not model the engine.
- Floats and payload types other than `None`, `bool`, `int`, `str`, `list` and `dict` with string
  keys; other mapping types are treated as `dict`.
- `repr` escapes only ASCII control characters; Python's escaping of non-printable non-ASCII
  characters is not modelled.
- `json.dumps` is a simplified serialiser: Python 2's `", "` item separator under `indent`,
  non-string keys, and NaN handling are not modelled.
- Aliasing in the dict-list branch: each list element is rewritten from its own value. A dict that
  occurs twice in the list is rewritten twice in Python, the second time from its rewritten state
  (`RewriteIsIdempotent` shows the result is the same), and the rewrite also changes the dict
  objects shared with the caller's `result._result` (the copy at line 168 is shallow); that
  sharing is not modelled.
- `loggers` is a class attribute shared by every instance in Python; here it is a field of one
  `BabelfishLog`.
- The unused arguments `ignore_errors`, `imported_file` and `missing_file`, the `CALLBACK_*`
  constants, `play_timestamp` and the `DOCUMENTATION` text.
- Formatter.SubstItems: its own contract states only the length; the contents are stated by
  `SubstItemsFacts` and `DictListRendering`.

## Findings

| source | as written | input that shows it | evidently intended | confidence | as-written member | corrected member |
|---|---|---|---|---|---|---|
| plugins/callback/babelfish_log.py:187 | `_get_logger` is given the bound method `get_name`, not the host name, so `os.path.join` raises `TypeError` before any handler exists and no event is ever written | `v2_runner_on_failed` for any host, e.g. with payload `{"_ansible_verbose_override": true}` | call `get_name()` and write the line to the host's file | not executed | Callback.AsWrittenScenario | Callback.BabelfishLog.LogAsIntended |
| plugins/callback/babelfish_log.py:185-188 | with `get_name()` called, the `get` default is still evaluated on every call, so each call adds another handler to the host's logger and the n-th message for a host is written n times | any failure reported twice for the same host gives three lines | create a logger only for a host not yet in `loggers` | not executed | Callback.EagerLookupScenario | Callback.BabelfishLog.LogAsIntended |
