# Conversation session store — a Dafny model

This project models the conversation session store of an agent gateway,
written in Go. The store covers four things:

- A `Session` is one conversation's append-only message log. It also holds
  creation and update times and a metadata map.
- The history window `GetHistorySafe` returns a bounded suffix of the log.
  The cut is placed so that it does not separate an assistant's tool calls
  from their results.
- The `Manager` keeps the registry of live sessions and persists each one
  to `<baseDir>/<sanitized key>.jsonl`. A save writes a metadata record,
  then one record per message, to a temporary file, and renames that file
  into place. A load reads the records back.
- The adapter `AgentHelper.UpdateSession` turns agent turn messages into
  session messages, appends them, and can save the session afterwards.

Modules:

- Messages: the entities (`Message`, `ToolCall`, `Media`) and the value
  view of a session (`Transcript`).
- Window: the windowing algorithm as functions on the log (`Settle`,
  `SafeStart`) and its guarantees.
- Paths: `sessionPath` (key sanitising, `filepath.Join`) and the filter
  `List` applies (`filepath.Ext`, `strings.TrimSuffix`).
- Codec: the record format. Records are values rather than JSON text;
  `Encode` is what `Save` writes and `Decode` is how `load` reads.
- Storage: the disk, as a `FileStore` class holding a map from path to
  records. Every call that touches a file may fail nondeterministically.
- Sessions: the `Session` and `Manager` classes, with imperative
  methods proved against the functions above.
- Agent: the `UpdateSession` adapter.

The clock is a parameter (`now`) of every operation that reads it.

## Model

| member | source | states |
|---|---|---|
| Sessions.Session.constructor | session/manager.go:208-214 | a new session for a key has no messages, no metadata, and both times set to `now` |
| Sessions.Session.AddMessage | session/manager.go:49-55 | the log becomes the old log with `msg` appended; `updatedAt` is refreshed; key, creation time and metadata do not change |
| Sessions.Session.Clear | session/manager.go:163-169 | the log becomes empty and `updatedAt` is refreshed; key, creation time and metadata do not change |
| Sessions.Session.GetHistory | session/manager.go:58-74 | returns the whole log when `maxMessages <= 0` or `maxMessages >= len`; otherwise exactly the last `maxMessages` messages, in order |
| Sessions.Session.GetHistorySafe | session/manager.go:78-160 | the result is the suffix of the log from `SafeStart`. It is the whole log when `maxMessages` is not positive or covers it. Otherwise it has at least `maxMessages - 1` messages, and fewer than `maxMessages` exactly when the naive cut lands on an orphan tool message. Unless it is the whole log or follows an orphan tool message, it opens well (see `Window.WellOpened`) |
| Sessions.FindIssuer | session/manager.go:103-119 | the backward search finds a match exactly when an earlier assistant issued the call, and returns the nearest such assistant |
| Sessions.ResultsIncluded | session/manager.go:127-144 | true exactly when every tool call of the assistant at `s` has a result later in the log |
| Sessions.SafeHistoryCoversHistory | session/manager.go:58-160 | the safe window ends with the plain window of the same size. The one exception: when the plain window starts with an orphan tool message, the safe window is the plain window without it |
| Window.LatestIssuer | session/manager.go:104-119 | the index it returns is below `i`, holds an assistant that issued `id`, and has no issuer between it and `i`; when it returns none, no message before `i` issued `id` |
| Window.Settle | session/manager.go:97-154 | the scan from cut `s` ends at most one position to the right of `s` |
| Window.SafeStart | session/manager.go:82-93 | the cut point lies within the log |
| Window.SettleOutcome | session/manager.go:97-154 | the scan moves the cut right exactly when it starts on an orphan tool message. It stops at 0, just past an orphan, or at a message that can open a window: not a tool result, and not an assistant with a missing result |
| Window.SafeWindowSize | session/manager.go:82-154 | the whole log when `maxMessages <= 0` or `maxMessages >= len`. Otherwise at least `maxMessages - 1` messages, and fewer than `maxMessages` exactly when the naive cut lands on an orphan |
| Window.SafeWindowBoundary | session/manager.go:97-159 | unless the cut is 0 or just past an orphan, the window's first message is not a tool result. If it is an assistant, every one of its tool calls is answered inside the window |
| Window.ToolGroupKeptWhole | session/manager.go:97-159 | in `[user A, assistant B(t1), tool C(t1), user D]`, a window of 2 is widened to `[B, C, D]`, and a window of 1 is `[D]` |
| Window.InnerToolResultNotChecked | session/manager.go:97-154 | only the boundary is checked: `[user, assistant(t1), user, tool(t1)]` with window 2 yields `[user, tool(t1)]`, which holds a tool result but not the assistant that issued it |
| Paths.Sanitize | session/manager.go:361-366 | keeps the length, replaces each reserved character (`/ \ : * ? " < > \|`) with `_` and keeps every other character; the result has no reserved character |
| Paths.SanitizeIdempotent | session/manager.go:361-366 | sanitizing a sanitized key changes nothing |
| Paths.SanitizeMerges | session/manager.go:361-366 | distinct keys `a/b` and `a:b` map to the same name `a_b` |
| Paths.TrimSuffix | session/manager.go:297 | strips the suffix when it is present and otherwise returns the string unchanged |
| Paths.JoinPath | session/manager.go:368 | the joined path ends with the file name; an empty or `.` directory gives the name alone, and the root `/` gives `/name` |
| Paths.SessionPath | session/manager.go:359-369 | every session path ends in `.jsonl` |
| Paths.SessionPathOfSanitized | session/manager.go:359-369 | a key and its sanitized form have the same path |
| Paths.SessionPathsCollide | session/manager.go:359-369 | two keys share a session file exactly when their sanitized forms are equal |
| Paths.TempPathIsNoSessionPath | session/manager.go:228-231 | the `.tmp` file of a save is never the file of any session |
| Paths.Ext | session/manager.go:296 | the extension is a suffix of the name |
| Paths.ExtWithin | session/manager.go:296 | the scan from position `i` returns a suffix of the path |
| Paths.ExtIsExtension | session/manager.go:296 | the extension of a name is `.jsonl` exactly when the name ends in `.jsonl` |
| Paths.SessionKeys | session/manager.go:294-300 | at most one key per directory entry |
| Paths.SessionKeysMembers | session/manager.go:294-300 | a key is listed exactly when some non-directory entry is named that key plus `.jsonl` |
| Paths.ListedKeyOfSessionFile | session/manager.go:296-298 | the file of a stored session is listed under the sanitized key, and that key opens the same file again |
| Codec.MessageRecords | session/manager.go:251-255 | one message record per message, in order |
| Codec.Encode | session/manager.go:239-255 | the first record holds both times and the metadata; each following record is the next message |
| Codec.DecodeFrom | session/manager.go:326-353 | a successful decode keeps the key; decoding fails only as `Corrupt` |
| Codec.DecodeFailsOnUndecodable | session/manager.go:328-331 | decoding the records read fails exactly when one of them does not decode; no session is built from records before a bad one |
| Codec.DecodedMessages | session/manager.go:334-352 | every record that is not metadata becomes a message, in file order |
| Codec.DecodeMessageRecords | session/manager.go:344-352 | decoding a run of message records appends exactly those messages |
| Codec.StampOf | session/manager.go:335-340 | a parsed time replaces the stamp, an unparsable string gives the zero time (the parse error is dropped), and a missing or non-string field leaves the stamp as it was |
| Codec.Absorb | session/manager.go:333-352 | an undecodable record fails as `Corrupt`. A message record appends its message. A metadata record leaves the messages alone and keeps the metadata when the record has none. The key never changes |
| Codec.Decode | session/manager.go:316-355 | no records give the fresh session; a success keeps the key; decoding fails exactly when a record does not decode |
| Codec.TruncatedSaveLoadsPrefix | session/manager.go:326-327 | a read that stops after the first `n` records of a saved file loads the saved transcript with only its first `n - 1` messages, or the fresh session when `n = 0` |
| Codec.SavedFileLoadsPrefix | session/manager.go:326-327 | what a load can make of a saved file is the fresh session, or the saved transcript with a prefix of its messages |
| Codec.RoundTrip | session/manager.go:223-263 | loading the records `Save` wrote gives back the same transcript, whatever the clock reads at load time |
| Storage.FileStore.constructor | session/manager.go:181 | the store starts empty, standing for a base directory that `os.MkdirAll` has just created |
| Storage.FileStore.Create | session/manager.go:232 | on success an empty file is at the path; on failure nothing changes |
| Storage.FileStore.Write | session/manager.go:246-255 | on success the record is appended to that file; no other file ever changes |
| Storage.FileStore.Rename | session/manager.go:258 | on success the source's content is at the target and the source is gone; a missing source is `NotExist`; on failure nothing changes |
| Storage.FileStore.Remove | session/manager.go:275 | a missing file is `NotExist` and nothing changes; otherwise the file is removed, or the call fails and nothing changes |
| Storage.FileStore.Open | session/manager.go:310-327 | a missing file is `NotExist`. Otherwise an I/O failure, or the records read, which are a prefix of the file's records: `decoder.More()` can end the loop early without an error |
| Sessions.Manager.constructor | session/manager.go:179-189 | a manager starts with no live sessions |
| Sessions.Manager.Load | session/manager.go:306-356 | no file gives `NotExist`. A success is a new session equal to decoding the records read (a prefix of the file) onto a fresh session. `Corrupt` is returned only when the file holds an undecodable record |
| Sessions.Manager.GetOrCreate | session/manager.go:192-220 | a live session is returned as is. Otherwise the session decoded from the records read is returned, and when no file exists a fresh one always is (this call cannot fail then); either is registered under the key. Any other load failure is returned: an I/O failure, or `Corrupt` for a file holding an undecodable record. `NotExist` never is, and the registry is unchanged on failure |
| Sessions.LookupTwice | session/manager.go:196-199 | a second lookup of a key returns the same session object as the first |
| Sessions.Manager.Save | session/manager.go:223-263 | on success the session's file holds exactly `Encode(session)` and the temporary file is gone. On failure the session's file is as it was. No file other than these two ever changes |
| Sessions.Manager.WriteRecords | session/manager.go:246-255 | on success the file holds its old content followed by the records in order; no other file changes |
| Sessions.Manager.Delete | session/manager.go:266-280 | the key leaves the registry, and the session's file is gone. A missing file is no error. A failed removal is returned and leaves the store unchanged |
| Sessions.Manager.List | session/manager.go:283-303 | a failed directory read is returned; otherwise the result is `SessionKeys` of the listing |
| Agent.Seconds | agent/helper.go:39 | milliseconds become whole seconds truncated toward zero, for negative counts too |
| Agent.ToolCallsOf | agent/helper.go:44-52 | a call is listed exactly when some tool-call block carries its id, name and arguments; never more calls than blocks |
| Agent.ToolCallsOfAppend | agent/helper.go:44-52 | the tool calls keep block order: the calls of a concatenation are the concatenation of the calls |
| Agent.SavesImmediately | agent/helper.go:31-33 | a missing options value means save; otherwise the `SaveImmediately` flag decides |
| Agent.SessionMessageOf | agent/helper.go:36-67 | the role is copied and there is no media. Only an assistant can have tool calls. Only a tool result can carry a `tool_call_id`, or metadata, which then holds `tool_name` alone |
| Agent.ConvertAll | agent/helper.go:35-70 | one session message per agent message, at the same position |
| Agent.ConvertAllAppend | agent/helper.go:35-70 | converting two runs one after the other gives the same messages as converting their concatenation |
| Agent.ConvertMessage | agent/helper.go:36-67 | role and text are copied, and the timestamp is `Seconds` of the extracted milliseconds. Only an assistant gets tool calls, namely `ToolCallsOf` its blocks. A tool result takes `tool_call_id` only when it is a string, and otherwise leaves it empty. Metadata is `{tool_name}` exactly when the tool result carries a string `tool_name`, and is empty otherwise |
| Agent.AgentHelper.constructor | agent/helper.go:17-21 | the helper uses the given manager |
| Agent.AgentHelper.UpdateSession | agent/helper.go:30-80 | the session's log gains `ConvertAll(messages)`, in order. A missing options value means save. Without a save the disk is untouched and there is no error. With one, `Save`'s outcome and error are returned: on failure the session's file is as it was, and no file other than it and its `.tmp` file changes in either case. The appended messages stay in either case |

The code's comments on `GetHistorySafe` (session/manager.go:76-77 and
95-96) promise that the history is never cut inside a tool call. The
code checks only the message at the cut (session/manager.go:97-154), and
the model follows the code. `Window.InnerToolResultNotChecked` shows a
window that holds a tool result without the assistant that issued it.
`Window.SafeWindowBoundary` states what the code does guarantee.

`load` reads records while `decoder.More()` reports more
(session/manager.go:326-327), and `More` reports no error. A read failure
between two records, or a top-level `]` or `}`, ends the loop without
one, and `load` returns a session built from the first records only. The
model's `Storage.FileStore.Open` can return such a prefix.
`Codec.SavedFileLoadsPrefix` shows what a load of a saved file can then
give: the saved transcript with some of its last messages missing. When
`GetOrCreate` caches such a session, the next save writes the shortened
transcript back.

`UpdateSession` returns `Save`'s error unchanged (agent/helper.go:72-76),
and so does `Agent.AgentHelper.UpdateSession`.

## Left out

- Locks (`sync.RWMutex` in `Session` and `Manager`). Every operation runs
  alone, so concurrency is not modelled.
- `NewManager`'s `os.MkdirAll`. Creating the directory and its error are
  outside the model. The `Manager` constructor takes a base directory and a
  `FileStore`.
- JSON bytes. Records are values, so byte-level formatting is not modelled,
  including whether saving twice gives byte-identical files. The
  `map[string]interface{}` values keep only whether they are strings.
  A non-string value (`Other`) stands for the value's JSON reading, not
  for the original Go value: an `int` comes back as a `float64`, and an
  integer above 2^53 loses precision.
- RFC 3339 text. A timestamp field is a parsed time, unparsable text
  (which gives the zero time, because `load` drops the parse error), or
  not a string (the field stays as it was).
- Codec.Encode: a saved metadata map always reads back as a map. Go's
  nil map, which JSON writes as `null`, is the same as the empty map here.
- Sessions.Manager.List: the directory listing (`os.ReadDir`) is a
  parameter rather than being read from the `FileStore`.
- Paths.JoinPath: `filepath.Join`'s cleaning is modelled only for a clean
  base directory: empty, `.`, `/`, or a path without a trailing
  separator, `.` or `..` elements, or repeated separators. Any other
  base directory is not cleaned.
- Storage.FileStore.Write: a failed write leaves arbitrary content in the
  temporary file, and the file handle is not modelled. The temporary file
  that a failed save leaves behind is modelled.
- Time is `now`. Every call reads one clock value, so within one
  `UpdateSession` every message stamps the session with the same time.
- The agent package's `extractTextContent`, `extractTimestamp`,
  `RoleAssistant` and `RoleToolResult` are not part of this model. They
  are parameters (`Agent.AgentDefs`).
- Agent.AgentHelper.UpdateSession: the error log through `logger`/`zap`
  is left out.
- 64-bit integer widths are not modelled. Millisecond timestamps and
  indices are unbounded integers, and dividing an `int64` by 1000 cannot
  overflow.
- Strings are sequences of runes, but Go strings are bytes. `strings.Map`
  turns each invalid UTF-8 byte of a key into U+FFFD, so such a key
  changes even without a reserved character. Paths.Sanitize does not
  model that.
- Time is whole Unix seconds. Go's `time.Now()` keeps nanoseconds in
  `CreatedAt` and `UpdatedAt`, and the RFC 3339 text written by `Save`
  carries them through a round trip. The model has no sub-second part.
- Storage.FileStore.Write: encoding failures that Go decides from the
  value are folded into the nondeterministic write failure. Examples are a
  time whose year is outside 0..9999, rejected by `Time.MarshalJSON`, and
  a metadata value JSON cannot encode. The model does not say which
  sessions always fail to save.
