/**
 * `AgentHelper.UpdateSession` (agent/helper.go): turns the messages of an
 * agent turn into session messages, appends them to a session in order
 * and, unless told not to, saves the session.
 *
 * The agent package's own message type is only partly visible here: a
 * message has a role, content blocks and a metadata map, and the text
 * and timestamp extractors and the two role constants are supplied by
 * the caller as `AgentDefs`.
 */
module Agent {
  import opened Wrappers
  import opened Messages
  import opened Codec
  import opened Paths
  import opened Storage
  import opened Sessions

  /** One content block of an agent message; only tool-call blocks are looked into. */
  datatype ContentBlock =
    | TextContent(text: string)
    | ToolCallContent(id: string, name: string, arguments: Payload)
    | OtherContent(kind: string)

  datatype AgentMessage = AgentMessage(role: string, content: seq<ContentBlock>, metadata: Payload)

  /**
   * What the agent package defines elsewhere: `extractTextContent`,
   * `extractTimestamp` (milliseconds since the epoch), `RoleAssistant`
   * and `RoleToolResult`.
   */
  datatype AgentDefs = AgentDefs(
    textOf: AgentMessage -> string,
    timestampMsOf: AgentMessage -> int,
    roleAssistant: string,
    roleToolResult: string)

  datatype UpdateSessionOptions = UpdateSessionOptions(saveImmediately: bool)

  /** Whether `UpdateSession` saves: a missing options value means it does. */
  predicate SavesImmediately(opts: Option<UpdateSessionOptions>): (r: bool)
    ensures opts.None? ==> r
    ensures opts.Some? ==> (r <==> opts.value.saveImmediately)
  {
    opts.None? || opts.value.saveImmediately
  }

  /**
   * Whole seconds of a millisecond count, as Go's `int64` division by
   * 1000 gives them: truncated toward zero.
   */
  function Seconds(ms: int): (s: int)
    ensures ms >= 0 ==> 0 <= 1000 * s <= ms < 1000 * s + 1000
    ensures ms < 0 ==> 1000 * s - 1000 < ms <= 1000 * s <= 0
  {
    if ms >= 0 then ms / 1000 else -((-ms) / 1000)
  }

  /** The session tool call a block contributes: one for a tool-call block, none otherwise. */
  function CallsIn(b: ContentBlock): seq<ToolCall> {
    if b.ToolCallContent? then [ToolCall(b.id, b.name, b.arguments)] else []
  }

  /** The tool calls of an assistant's content, one per tool-call block, in block order. */
  function ToolCallsOf(blocks: seq<ContentBlock>): (r: seq<ToolCall>)
    ensures |r| <= |blocks|
    ensures forall c :: c in r <==>
      exists i :: 0 <= i < |blocks| && blocks[i].ToolCallContent? &&
        c == ToolCall(blocks[i].id, blocks[i].name, blocks[i].arguments)
  {
    if blocks == [] then []
    else
      var init := blocks[..|blocks| - 1];
      var last := blocks[|blocks| - 1];
      assert forall i :: 0 <= i < |init| ==> init[i] == blocks[i];
      ToolCallsOf(init) + CallsIn(last)
  }

  /** Tool calls keep the order of their blocks: the calls of a concatenation concatenate. */
  lemma {:induction false} ToolCallsOfAppend(a: seq<ContentBlock>, b: seq<ContentBlock>)
    ensures ToolCallsOf(a + b) == ToolCallsOf(a) + ToolCallsOf(b)
    decreases |b|
  {
    if b == [] {
      assert a + b == a;
    } else {
      var init := b[..|b| - 1];
      assert (a + b)[..|a + b| - 1] == a + init;
      assert (a + b)[|a + b| - 1] == b[|b| - 1];
      ToolCallsOfAppend(a, init);
    }
  }

  /** The string stored under `k`, if `k` is present and holds a string. */
  function StringField(p: Payload, k: string): (r: Option<string>)
    ensures r.Some? <==> k in p && p[k].Text?
    ensures r.Some? ==> p[k] == Text(r.value)
  {
    if k in p && p[k].Text? then Some(p[k].s) else None
  }

  /** The session message `UpdateSession` builds for `msg`. */
  function SessionMessageOf(msg: AgentMessage, defs: AgentDefs): (r: Message)
    ensures r.role == msg.role && r.media == []
    ensures msg.role != defs.roleAssistant ==> r.toolCalls == []
    ensures r.toolCallId != "" ==> msg.role == defs.roleToolResult
    ensures r.metadata != map[] ==> msg.role == defs.roleToolResult && r.metadata.Keys == {"tool_name"}
  {
    var isResult := msg.role == defs.roleToolResult;
    var id := StringField(msg.metadata, "tool_call_id");
    var toolName := StringField(msg.metadata, "tool_name");
    Message(
      msg.role,
      defs.textOf(msg),
      [],
      Seconds(defs.timestampMsOf(msg)),
      if isResult && toolName.Some? then map["tool_name" := Text(toolName.value)] else map[],
      if isResult && id.Some? then id.value else "",
      if msg.role == defs.roleAssistant then ToolCallsOf(msg.content) else [])
  }

  /** The session messages for a run of agent messages: one each, in input order. */
  function ConvertAll(ms: seq<AgentMessage>, defs: AgentDefs): (r: seq<Message>)
    ensures |r| == |ms|
    ensures forall i :: 0 <= i < |ms| ==> r[i] == SessionMessageOf(ms[i], defs)
  {
    if ms == [] then []
    else ConvertAll(ms[..|ms| - 1], defs) + [SessionMessageOf(ms[|ms| - 1], defs)]
  }

  /** Converting two runs one after the other is converting their concatenation. */
  lemma {:induction false} ConvertAllAppend(a: seq<AgentMessage>, b: seq<AgentMessage>, defs: AgentDefs)
    ensures ConvertAll(a + b, defs) == ConvertAll(a, defs) + ConvertAll(b, defs)
    decreases |b|
  {
    if b == [] {
      assert a + b == a;
    } else {
      var init := b[..|b| - 1];
      assert (a + b)[..|a + b| - 1] == a + init;
      assert (a + b)[|a + b| - 1] == b[|b| - 1];
      ConvertAllAppend(a, init, defs);
    }
  }

  /**
   * The body of `UpdateSession`'s loop for one message: role, text and
   * timestamp copied; for an assistant every tool-call block becomes a
   * tool call; for a tool result the string `tool_call_id` and
   * `tool_name` are carried over, and nothing else is.
   */
  method ConvertMessage(msg: AgentMessage, defs: AgentDefs) returns (m: Message)
    ensures m == SessionMessageOf(msg, defs)
    ensures m.role == msg.role && m.content == defs.textOf(msg) && m.media == []
    ensures m.timestamp == Seconds(defs.timestampMsOf(msg))
    ensures msg.role != defs.roleAssistant ==> m.toolCalls == []
    ensures msg.role == defs.roleAssistant ==> m.toolCalls == ToolCallsOf(msg.content)
    ensures msg.role == defs.roleToolResult && StringField(msg.metadata, "tool_call_id").Some? ==>
      m.toolCallId == StringField(msg.metadata, "tool_call_id").value
    ensures msg.role == defs.roleToolResult && StringField(msg.metadata, "tool_name").Some? ==>
      m.metadata == map["tool_name" := msg.metadata["tool_name"]]
    ensures m.toolCallId != "" ==>
      msg.role == defs.roleToolResult && msg.metadata["tool_call_id"] == Text(m.toolCallId)
    ensures m.metadata != map[] ==>
      msg.role == defs.roleToolResult && m.metadata.Keys == {"tool_name"} &&
      m.metadata["tool_name"] == msg.metadata["tool_name"]
  {
    var toolCalls: seq<ToolCall> := [];
    if msg.role == defs.roleAssistant {
      var i := 0;
      while i < |msg.content|
        invariant 0 <= i <= |msg.content|
        invariant toolCalls == ToolCallsOf(msg.content[..i])
      {
        var block := msg.content[i];
        if block.ToolCallContent? {
          toolCalls := toolCalls + [ToolCall(block.id, block.name, block.arguments)];
        }
        assert msg.content[..i + 1][..i] == msg.content[..i];
        i := i + 1;
      }
      assert msg.content[..i] == msg.content;
    }

    var toolCallId := "";
    var metadata: Payload := map[];
    if msg.role == defs.roleToolResult {
      if "tool_call_id" in msg.metadata && msg.metadata["tool_call_id"].Text? {
        toolCallId := msg.metadata["tool_call_id"].s;
      }
      if "tool_name" in msg.metadata && msg.metadata["tool_name"].Text? {
        metadata := metadata["tool_name" := msg.metadata["tool_name"]];
      }
    }
    m := Message(msg.role, defs.textOf(msg), [], Seconds(defs.timestampMsOf(msg)),
                 metadata, toolCallId, toolCalls);
  }

  class AgentHelper {
    const sessionMgr: Manager

    constructor (sessionMgr: Manager)
      ensures this.sessionMgr == sessionMgr
    {
      this.sessionMgr := sessionMgr;
    }

    /**
     * Appends one session message per agent message, in order, then saves
     * the session when the options ask for it (or are missing). A failed
     * save is returned; the appended messages stay in the session.
     */
    method UpdateSession(sess: Session, messages: seq<AgentMessage>, opts: Option<UpdateSessionOptions>,
                         defs: AgentDefs, now: Time) returns (err: Option<Error>)
      modifies sess, sessionMgr.fs
      ensures sess.messages == old(sess.messages) + ConvertAll(messages, defs)
      ensures sess.key == old(sess.key) && sess.createdAt == old(sess.createdAt) &&
              sess.metadata == old(sess.metadata)
      ensures sess.updatedAt == if messages == [] then old(sess.updatedAt) else now
      ensures !SavesImmediately(opts) ==> err.None? && sessionMgr.fs.files == old(sessionMgr.fs.files)
      ensures SavesImmediately(opts) ==>
        var path := SessionPath(sessionMgr.baseDir, sess.key);
        var tmp := path + ".tmp";
        && (err.None? ==>
              sessionMgr.fs.files == (old(sessionMgr.fs.files) - {tmp})[path := Encode(sess.Snapshot())])
        && (err.Some? ==> Lookup(sessionMgr.fs.files, path) == Lookup(old(sessionMgr.fs.files), path))
        && (forall p :: p != tmp && p != path ==>
              Lookup(sessionMgr.fs.files, p) == Lookup(old(sessionMgr.fs.files), p))
    {
      var options := if opts.None? then UpdateSessionOptions(true) else opts.value;
      var i := 0;
      while i < |messages|
        invariant 0 <= i <= |messages|
        invariant sess.messages == old(sess.messages) + ConvertAll(messages[..i], defs)
        invariant sess.key == old(sess.key) && sess.createdAt == old(sess.createdAt) &&
                  sess.metadata == old(sess.metadata)
        invariant sess.updatedAt == if i == 0 then old(sess.updatedAt) else now
        invariant sessionMgr.fs.files == old(sessionMgr.fs.files)
      {
        var sessMsg := ConvertMessage(messages[i], defs);
        sess.AddMessage(sessMsg, now);
        assert messages[..i + 1][..i] == messages[..i];
        i := i + 1;
      }
      assert messages[..i] == messages;

      err := None;
      if options.saveImmediately {
        err := sessionMgr.Save(sess);
      }
    }
  }
}
