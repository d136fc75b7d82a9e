/**
 * The history windowing algorithm of `Session.GetHistorySafe`
 * (session/manager.go), as functions on the message sequence: the loop's
 * cut point is `SafeStart`, and the lemmas below state what the returned
 * suffix is guaranteed to look like.
 */
module Window {
  import opened Wrappers
  import opened Messages

  /** `m` is an assistant message with tool calls, one of which has identifier `id`. */
  predicate Issues(m: Message, id: string) {
    m.role == RoleAssistant && |m.toolCalls| > 0 &&
    exists t :: 0 <= t < |m.toolCalls| && m.toolCalls[t].id == id
  }

  /** `m` is the tool result of the call with identifier `id`. */
  predicate Answers(m: Message, id: string) {
    m.role == RoleTool && m.toolCallId == id
  }

  /** Some message strictly after index `s` is the result of call `id`. */
  predicate AnsweredAfter(msgs: seq<Message>, s: nat, id: string) {
    exists k :: s < k < |msgs| && Answers(msgs[k], id)
  }

  /** The message at `s` is an assistant whose tool results are not all in `msgs[s+1..]`. */
  predicate Dangling(msgs: seq<Message>, s: nat)
    requires s < |msgs|
  {
    msgs[s].role == RoleAssistant && |msgs[s].toolCalls| > 0 &&
    exists t :: 0 <= t < |msgs[s].toolCalls| && !AnsweredAfter(msgs, s, msgs[s].toolCalls[t].id)
  }

  /** The nearest index before `i` holding an assistant that issued call `id`, if any. */
  function LatestIssuer(msgs: seq<Message>, i: nat, id: string): (r: Option<nat>)
    requires i <= |msgs|
    ensures r.Some? ==>
      r.value < i && Issues(msgs[r.value], id) &&
      forall k :: r.value < k < i ==> !Issues(msgs[k], id)
    ensures r.None? ==> forall k :: 0 <= k < i ==> !Issues(msgs[k], id)
  {
    if i == 0 then None
    else if Issues(msgs[i - 1], id) then Some(i - 1)
    else LatestIssuer(msgs, i - 1, id)
  }

  /** A tool message at `i` with no issuing assistant anywhere before it. */
  predicate Orphan(msgs: seq<Message>, i: nat)
    requires i < |msgs|
  {
    msgs[i].role == RoleTool && LatestIssuer(msgs, i, msgs[i].toolCallId).None?
  }

  /**
   * A window may open at `i`: its first message is not a tool result, and
   * if it is an assistant with tool calls, every result lies after it.
   */
  predicate OpensGroup(msgs: seq<Message>, i: nat)
    requires i < |msgs|
  {
    msgs[i].role != RoleTool && !Dangling(msgs, i)
  }

  /**
   * Where the backward scan that starts at cut point `s` stops: a tool
   * message pulls the cut to its issuing assistant, an orphan tool
   * message pushes it one past itself and stops, an assistant with
   * missing results steps it back by one, anything else stops it.
   */
  function Settle(msgs: seq<Message>, s: nat): (r: nat)
    requires s < |msgs|
    ensures r <= s + 1
    decreases s
  {
    if s == 0 then 0
    else if msgs[s].role == RoleTool then
      match LatestIssuer(msgs, s, msgs[s].toolCallId)
      case Some(j) => Settle(msgs, j)
      case None => s + 1
    else if Dangling(msgs, s) then Settle(msgs, s - 1)
    else s
  }

  /** The index at which `GetHistorySafe(maxMessages)` cuts `msgs`. */
  function SafeStart(msgs: seq<Message>, maxMessages: int): (r: nat)
    ensures r <= |msgs|
  {
    if maxMessages <= 0 || maxMessages >= |msgs| then 0
    else Settle(msgs, |msgs| - maxMessages)
  }

  /**
   * The scan moves the cut right only for an orphan at its very start; and
   * it stops at 0, just past an orphan, or where a window may open.
   */
  lemma {:induction false} SettleOutcome(msgs: seq<Message>, s: nat)
    requires s < |msgs|
    ensures Settle(msgs, s) == s + 1 <==> 0 < s && Orphan(msgs, s)
    ensures var r := Settle(msgs, s);
      r == 0 || (r <= s && OpensGroup(msgs, r)) || (0 < r && Orphan(msgs, r - 1))
    decreases s
  {
    if s == 0 {
    } else if msgs[s].role == RoleTool {
      match LatestIssuer(msgs, s, msgs[s].toolCallId)
      case Some(j) =>
        SettleOutcome(msgs, j);
      case None =>
    } else if Dangling(msgs, s) {
      SettleOutcome(msgs, s - 1);
    } else {
    }
  }

  /**
   * Size of the safe window: everything when `maxMessages` is not positive
   * or covers the sequence; otherwise at least `maxMessages - 1` messages,
   * and fewer than `maxMessages` exactly when the naive cut lands on an
   * orphan tool message.
   */
  lemma SafeWindowSize(msgs: seq<Message>, maxMessages: int)
    ensures maxMessages <= 0 || maxMessages >= |msgs| ==> SafeStart(msgs, maxMessages) == 0
    ensures 0 < maxMessages < |msgs| ==>
      var size := |msgs| - SafeStart(msgs, maxMessages);
      size >= maxMessages - 1 &&
      (size < maxMessages <==> Orphan(msgs, |msgs| - maxMessages))
  {
    if 0 < maxMessages < |msgs| {
      SettleOutcome(msgs, |msgs| - maxMessages);
    }
  }

  /**
   * The first message of window `w` is not a tool result, and if it is an
   * assistant, each of its tool calls is answered later in `w`.
   */
  predicate WellOpened(w: seq<Message>) {
    |w| > 0 && w[0].role != RoleTool &&
    (w[0].role == RoleAssistant ==>
      forall t :: 0 <= t < |w[0].toolCalls| ==> AnsweredAfter(w, 0, w[0].toolCalls[t].id))
  }

  /**
   * Boundary guarantee of the safe window: unless it is the whole
   * sequence or the scan skipped an orphan tool message, it opens
   * with a complete tool-call group or a message outside any group.
   */
  lemma SafeWindowBoundary(msgs: seq<Message>, maxMessages: int)
    ensures var r := SafeStart(msgs, maxMessages);
      r == 0 || Orphan(msgs, r - 1) || WellOpened(msgs[r..])
  {
    var r := SafeStart(msgs, maxMessages);
    if 0 < maxMessages < |msgs| && 0 < r && !Orphan(msgs, r - 1) {
      SettleOutcome(msgs, |msgs| - maxMessages);
      var w := msgs[r..];
      assert OpensGroup(msgs, r);
      var m := msgs[r];
      assert w[0] == m;
      if m.role == RoleAssistant {
        assert !Dangling(msgs, r);
        forall t | 0 <= t < |m.toolCalls|
          ensures AnsweredAfter(w, 0, m.toolCalls[t].id)
        {
          assert AnsweredAfter(msgs, r, m.toolCalls[t].id);
          var k :| r < k < |msgs| && Answers(msgs[k], m.toolCalls[t].id);
          assert w[k - r] == msgs[k];
          assert 0 < k - r < |w| && Answers(w[k - r], m.toolCalls[t].id);
        }
      }
      assert WellOpened(w);
    }
  }

  /** A user message. */
  function UserSays(content: string): Message {
    Message("user", content, [], 0, map[], "", [])
  }

  /** An assistant message issuing one tool call `id`. */
  function AssistantCalls(content: string, id: string): Message {
    Message(RoleAssistant, content, [], 0, map[], "", [ToolCall(id, "tool", map[])])
  }

  /** The tool result of call `id`. */
  function ToolReturns(content: string, id: string): Message {
    Message(RoleTool, content, [], 0, map[], id, [])
  }

  /**
   * `[user A, assistant B(t1), tool C(t1), user D]`: a window of two pulls
   * the cut from C back to B and returns `[B, C, D]`; a window of one
   * stops at D.
   */
  lemma ToolGroupKeptWhole()
    ensures var msgs := [UserSays("A"), AssistantCalls("B", "t1"), ToolReturns("C", "t1"), UserSays("D")];
      msgs[SafeStart(msgs, 2)..] == msgs[1..] && msgs[SafeStart(msgs, 1)..] == [UserSays("D")]
  {
    var msgs := [UserSays("A"), AssistantCalls("B", "t1"), ToolReturns("C", "t1"), UserSays("D")];
    assert Issues(msgs[1], "t1") by { assert msgs[1].toolCalls[0].id == "t1"; }
    assert LatestIssuer(msgs, 2, "t1") == Some(1);
    assert AnsweredAfter(msgs, 1, "t1") by { assert Answers(msgs[2], "t1"); }
    assert !Dangling(msgs, 1);
  }

  /**
   * Only the boundary is checked: `[user, assistant(t1), user, tool(t1)]`
   * with a window of two yields `[user, tool(t1)]`, a window holding a
   * tool result whose assistant it leaves out.
   */
  lemma InnerToolResultNotChecked()
    ensures var msgs := [UserSays("a"), AssistantCalls("b", "t1"), UserSays("c"), ToolReturns("d", "t1")];
      var w := msgs[SafeStart(msgs, 2)..];
      w == [UserSays("c"), ToolReturns("d", "t1")] &&
      w[1].role == RoleTool && forall k :: 0 <= k < |w| ==> !Issues(w[k], "t1")
  {
  }
}
