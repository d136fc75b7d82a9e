/**
 * The entities of session/manager.go: a stored message with its tool calls
 * and media, and the value view of a whole transcript (a `Session`'s
 * fields), which is what the persistence codec reads and writes.
 */
module Messages {

  /** A point in time, in whole seconds since the Unix epoch. */
  type Time = int

  /** Go's zero `time.Time` (0001-01-01T00:00:00Z) in Unix seconds. */
  const ZeroTime: Time := -62135596800

  /**
   * A value of an open `map[string]interface{}`. Only strings are told
   * apart, because the code only ever asks whether a value is a string.
   */
  datatype Value = Text(s: string) | Other(tag: int)

  /** An open string-keyed mapping; Go's nil map is the empty map. */
  type Payload = map<string, Value>

  datatype Media = Media(kind: string, url: string, base64: string, mimeType: string)

  datatype ToolCall = ToolCall(id: string, name: string, params: Payload)

  /** One transcript entry; `role` is one of "user", "assistant", "system", "tool". */
  datatype Message = Message(
    role: string,
    content: string,
    media: seq<Media>,
    timestamp: Time,
    metadata: Payload,
    toolCallId: string,
    toolCalls: seq<ToolCall>)

  const RoleTool: string := "tool"
  const RoleAssistant: string := "assistant"

  /** The fields of a `Session`, as a value. */
  datatype Transcript = Transcript(
    key: string,
    messages: seq<Message>,
    createdAt: Time,
    updatedAt: Time,
    metadata: Payload)

  /** The session a key starts with when nothing is stored for it: empty, stamped `now`. */
  function Fresh(key: string, now: Time): Transcript {
    Transcript(key, [], now, now, map[])
  }

  /** What can go wrong: no such file, any other I/O failure, a record that does not decode. */
  datatype Error = NotExist | IoFailure | Corrupt
}
