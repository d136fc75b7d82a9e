/**
 * The conversation session store of session/manager.go: the `Session`
 * (an append-only message log with its timestamps and metadata) and the
 * `Manager` (the registry of live sessions and their persistence).
 * Locks are left out: every operation runs alone. The clock is the
 * parameter `now`.
 */
module Sessions {
  import opened Wrappers
  import opened Messages
  import opened Window
  import opened Paths
  import opened Codec
  import opened Storage

  class Session {
    var key: string
    var messages: seq<Message>
    var createdAt: Time
    var updatedAt: Time
    var metadata: Payload

    /** A new, empty session for `key`, stamped `now`. */
    constructor (key: string, now: Time)
      ensures Snapshot() == Fresh(key, now)
    {
      this.key := key;
      messages := [];
      createdAt := now;
      updatedAt := now;
      metadata := map[];
    }

    /** The session's fields as a value. */
    function Snapshot(): Transcript
      reads this
    {
      Transcript(key, messages, createdAt, updatedAt, metadata)
    }

    /** Appends `msg` and refreshes `updatedAt`; nothing else changes. */
    method AddMessage(msg: Message, now: Time)
      modifies this
      ensures messages == old(messages) + [msg]
      ensures updatedAt == now
      ensures key == old(key) && createdAt == old(createdAt) && metadata == old(metadata)
    {
      messages := messages + [msg];
      updatedAt := now;
    }

    /**
     * The last `maxMessages` messages in order, or all of them when
     * `maxMessages` is not positive or covers the log.
     */
    function GetHistory(maxMessages: int): (r: seq<Message>)
      reads this
      ensures |r| == if maxMessages <= 0 || maxMessages >= |messages| then |messages| else maxMessages
      ensures r == messages[|messages| - |r|..]
    {
      if maxMessages <= 0 || maxMessages >= |messages| then messages
      else messages[|messages| - maxMessages..]
    }

    /**
     * A suffix of the log of about `maxMessages` messages whose cut does
     * not fall inside a tool-call group (see module Window).
     */
    method GetHistorySafe(maxMessages: int) returns (r: seq<Message>)
      ensures r == messages[SafeStart(messages, maxMessages)..]
      ensures maxMessages <= 0 || maxMessages >= |messages| ==> r == messages
      ensures 0 < maxMessages < |messages| ==>
        |r| >= maxMessages - 1 && (|r| < maxMessages <==> Orphan(messages, |messages| - maxMessages))
      ensures r == messages || Orphan(messages, |messages| - |r| - 1) || WellOpened(r)
    {
      var msgs := messages;
      SafeWindowSize(msgs, maxMessages);
      SafeWindowBoundary(msgs, maxMessages);
      if maxMessages <= 0 || maxMessages >= |msgs| {
        return msgs;
      }

      var startIdx := |msgs| - maxMessages;
      ghost var target := Settle(msgs, startIdx);
      while startIdx > 0
        invariant 0 <= startIdx < |msgs|
        invariant Settle(msgs, startIdx) == target
        decreases startIdx
      {
        var msg := msgs[startIdx];
        if msg.role == RoleTool {
          var found, j := FindIssuer(msgs, startIdx, msg.toolCallId);
          if !found {
            // an orphan tool message: skip it and stop
            assert target == startIdx + 1;
            startIdx := startIdx + 1;
            break;
          }
          assert target == Settle(msgs, j);
          startIdx := j;
        } else {
          if msg.role == RoleAssistant && |msg.toolCalls| > 0 {
            var allToolsIncluded := ResultsIncluded(msgs, startIdx);
            if !allToolsIncluded {
              assert Dangling(msgs, startIdx);
              startIdx := startIdx - 1;
              continue;
            }
          }
          break;
        }
      }
      assert startIdx == SafeStart(msgs, maxMessages);
      r := msgs[startIdx..];
    }

    /** Empties the log and refreshes `updatedAt`; key, creation time and metadata stay. */
    method Clear(now: Time)
      modifies this
      ensures messages == [] && updatedAt == now
      ensures key == old(key) && createdAt == old(createdAt) && metadata == old(metadata)
    {
      messages := [];
      updatedAt := now;
    }
  }

  /**
   * The inner search of `GetHistorySafe` for a tool message at `s`: scanning
   * leftward from `s - 1`, the first assistant with a tool call `id`.
   */
  method FindIssuer(msgs: seq<Message>, s: nat, id: string) returns (found: bool, j: int)
    requires s <= |msgs|
    ensures found <==> LatestIssuer(msgs, s, id).Some?
    ensures found ==> LatestIssuer(msgs, s, id) == Some(j)
  {
    found := false;
    j := s - 1;
    while j >= 0
      invariant -1 <= j < s
      invariant forall k :: j < k < s ==> !Issues(msgs[k], id)
      decreases j + 1
    {
      if msgs[j].role == RoleAssistant && |msgs[j].toolCalls| > 0 {
        var t := 0;
        while t < |msgs[j].toolCalls|
          invariant 0 <= t <= |msgs[j].toolCalls|
          invariant forall u :: 0 <= u < t ==> msgs[j].toolCalls[u].id != id
        {
          if msgs[j].toolCalls[t].id == id {
            found := true;
            break;
          }
          t := t + 1;
        }
        if found {
          assert Issues(msgs[j], id);
          return;
        }
      }
      j := j - 1;
    }
  }

  /**
   * The inner check of `GetHistorySafe` for an assistant at `s`: does every
   * one of its tool calls have a result after it?
   */
  method ResultsIncluded(msgs: seq<Message>, s: nat) returns (all: bool)
    requires s < |msgs|
    ensures all <==> forall t :: 0 <= t < |msgs[s].toolCalls| ==> AnsweredAfter(msgs, s, msgs[s].toolCalls[t].id)
  {
    var calls := msgs[s].toolCalls;
    all := true;
    var t := 0;
    while t < |calls|
      invariant 0 <= t <= |calls|
      invariant forall u :: 0 <= u < t ==> AnsweredAfter(msgs, s, calls[u].id)
    {
      var found := false;
      var k := s + 1;
      while k < |msgs|
        invariant s < k <= |msgs|
        invariant forall q :: s < q < k ==> !Answers(msgs[q], calls[t].id)
      {
        if msgs[k].role == RoleTool && msgs[k].toolCallId == calls[t].id {
          found := true;
          break;
        }
        k := k + 1;
      }
      if !found {
        assert !AnsweredAfter(msgs, s, calls[t].id);
        return false;
      }
      t := t + 1;
    }
  }

  /**
   * The safe window holds the plain window of the same size, except that it
   * drops the plain window's first message when that is an orphan tool message.
   */
  lemma SafeHistoryCoversHistory(s: Session, maxMessages: int)
    ensures var h := s.GetHistory(maxMessages);
      var w := s.messages[SafeStart(s.messages, maxMessages)..];
      (|w| >= |h| && w[|w| - |h|..] == h) ||
      (0 < maxMessages < |s.messages| && Orphan(s.messages, |s.messages| - maxMessages) && w == h[1..])
  {
    var msgs := s.messages;
    var h := s.GetHistory(maxMessages);
    var start := SafeStart(msgs, maxMessages);
    var w := msgs[start..];
    SafeWindowSize(msgs, maxMessages);
    if maxMessages <= 0 || maxMessages >= |msgs| {
      assert w == msgs == h;
      assert w[|w| - |h|..] == w;
    } else if |w| >= maxMessages {
      assert w[|w| - |h|..] == msgs[|msgs| - maxMessages..];
    } else {
      assert start == |msgs| - maxMessages + 1;
      assert w == h[1..];
    }
  }

  class Manager {
    var sessions: map<string, Session>
    const baseDir: string
    const fs: FileStore

    /** A manager with no live sessions over the store `fs`. */
    constructor (baseDir: string, fs: FileStore)
      ensures sessions == map[] && this.baseDir == baseDir && this.fs == fs
    {
      sessions := map[];
      this.baseDir := baseDir;
      this.fs := fs;
    }

    /**
     * `load`: the session stored for `key`, decoded record by record from
     * the records read; no session when the file is missing, unreadable or
     * a record read does not decode.
     */
    method Load(key: string, now: Time) returns (r: Result<Session, Error>)
      ensures var path := SessionPath(baseDir, key);
        && (path !in fs.files ==> r == Failure(NotExist))
        && (r.Success? ==> fresh(r.value) && path in fs.files &&
                           ReadsAs(key, fs.files[path], now, r.value.Snapshot()))
        && (r.Failure? ==> (r.error == NotExist && path !in fs.files) || r.error == IoFailure ||
                           (r.error == Corrupt && path in fs.files && Undecodable in fs.files[path]))
    {
      var path := SessionPath(baseDir, key);
      var read := fs.Open(path);
      if read.Failure? {
        return Failure(read.error);
      }
      var recs := read.value;
      var session := new Session(key, now);
      var i := 0;
      while i < |recs|
        invariant 0 <= i <= |recs|
        invariant DecodeFrom(session.Snapshot(), recs[i..]) == Decode(key, recs, now)
      {
        assert recs[i..][1..] == recs[i + 1..];
        match recs[i] {
          case Undecodable =>
            assert recs[i] == fs.files[path][i];
            return Failure(Corrupt);
          case MetadataRecord(c, u, md) =>
            session.createdAt := StampOf(c, session.createdAt);
            session.updatedAt := StampOf(u, session.updatedAt);
            if md.Some? {
              session.metadata := md.value;
            }
          case MessageRecord(m) =>
            session.messages := session.messages + [m];
        }
        i := i + 1;
      }
      assert recs == fs.files[path][..|recs|];
      return Success(session);
    }

    /**
     * The live session for `key`; otherwise the stored one, or a fresh
     * empty one when nothing is stored, registered under `key`. Any other
     * load failure is returned and the registry is left as it was.
     */
    method GetOrCreate(key: string, now: Time) returns (r: Result<Session, Error>)
      modifies this
      ensures key in old(sessions) ==> r == Success(old(sessions)[key]) && sessions == old(sessions)
      ensures r.Success? ==> sessions == old(sessions)[key := r.value]
      ensures r.Failure? ==> sessions == old(sessions) && r.error != NotExist
      ensures key !in old(sessions) && SessionPath(baseDir, key) !in fs.files ==> r.Success?
      ensures key !in old(sessions) && r.Success? ==>
        var path := SessionPath(baseDir, key);
        fresh(r.value) && r.value.key == key &&
        (path !in fs.files ==> r.value.Snapshot() == Fresh(key, now)) &&
        (path in fs.files ==> ReadsAs(key, fs.files[path], now, r.value.Snapshot()))
      ensures r.Failure? ==>
        (r.error == IoFailure ||
         (r.error == Corrupt && SessionPath(baseDir, key) in fs.files &&
          Undecodable in fs.files[SessionPath(baseDir, key)]))
    {
      if key in sessions {
        return Success(sessions[key]);
      }
      ghost var path := SessionPath(baseDir, key);
      var loaded := Load(key, now);
      var session: Session;
      if loaded.Failure? {
        if loaded.error != NotExist {
          return Failure(loaded.error);
        }
        assert path !in fs.files;
        session := new Session(key, now);
      } else {
        session := loaded.value;
        assert path in fs.files && ReadsAs(key, fs.files[path], now, session.Snapshot());
      }
      assert session.key == key;
      sessions := sessions[key := session];
      r := Success(session);
    }

    /**
     * Writes the session's records to a temporary file beside its own and
     * renames it into place: on success the file holds exactly
     * `Encode(session)`, on any failure the session's file is untouched.
     */
    method Save(session: Session) returns (err: Option<Error>)
      modifies fs
      ensures var path := SessionPath(baseDir, session.key);
        var tmp := path + ".tmp";
        && (err.None? ==> fs.files == (old(fs.files) - {tmp})[path := Encode(session.Snapshot())])
        && (err.Some? ==> Lookup(fs.files, path) == Lookup(old(fs.files), path))
        && (forall p :: p != tmp && p != path ==> Lookup(fs.files, p) == Lookup(old(fs.files), p))
    {
      var path := SessionPath(baseDir, session.key);
      var tmp := path + ".tmp";
      assert tmp != path by { assert |tmp| == |path| + 4; }
      err := fs.Create(tmp);
      if err.Some? {
        return;
      }
      var recs := Encode(session.Snapshot());
      err := WriteRecords(tmp, recs);
      if err.Some? {
        return;
      }
      assert [] + recs == recs;
      ghost var written := fs.files;
      assert written == old(fs.files)[tmp := recs];
      err := fs.Rename(tmp, path);
      if err.None? {
        RenameOverTemp(old(fs.files), tmp, recs);
      }
    }

    /** The encoder loop of `Save`: each record in turn, appended to the open file at `path`. */
    method WriteRecords(path: string, recs: seq<Record>) returns (err: Option<Error>)
      requires path in fs.files
      modifies fs
      ensures path in fs.files && fs.files == old(fs.files)[path := fs.files[path]]
      ensures err.None? ==> fs.files[path] == old(fs.files)[path] + recs
    {
      err := None;
      assert old(fs.files)[path] + recs[..0] == old(fs.files)[path];
      assert fs.files == old(fs.files);
      assert old(fs.files)[path := old(fs.files)[path]] == old(fs.files);
      var i := 0;
      while i < |recs|
        invariant 0 <= i <= |recs|
        invariant path in fs.files && fs.files == old(fs.files)[path := old(fs.files)[path] + recs[..i]]
      {
        ghost var before := fs.files;
        err := fs.Write(path, recs[i]);
        if err.Some? {
          return;
        }
        assert recs[..i + 1] == recs[..i] + [recs[i]];
        assert fs.files[path] == old(fs.files)[path] + recs[..i + 1];
        assert fs.files == before[path := fs.files[path]];
        i := i + 1;
      }
      assert recs[..i] == recs;
    }

    /**
     * Drops `key` from the registry and deletes its file; a file that does
     * not exist is no error.
     */
    method Delete(key: string) returns (err: Option<Error>)
      modifies this, fs
      ensures sessions == old(sessions) - {key}
      ensures var path := SessionPath(baseDir, key);
        && (err.None? <==> path !in fs.files)
        && (err.None? ==> fs.files == old(fs.files) - {path})
        && (err.Some? ==> err == Some(IoFailure) && fs.files == old(fs.files))
    {
      sessions := sessions - {key};
      var path := SessionPath(baseDir, key);
      err := fs.Remove(path);
      if err == Some(NotExist) {
        err := None;
      }
    }

    /**
     * The keys of the stored sessions, given what reading the base
     * directory returned: the session files' names without `.jsonl`.
     */
    method List(listing: Result<seq<DirEntry>, Error>) returns (r: Result<seq<string>, Error>)
      ensures listing.Failure? ==> r == Failure(listing.error)
      ensures listing.Success? ==> r == Success(SessionKeys(listing.value))
    {
      if listing.Failure? {
        return Failure(listing.error);
      }
      var entries := listing.value;
      var keys: seq<string> := [];
      var i := 0;
      while i < |entries|
        invariant 0 <= i <= |entries|
        invariant keys == SessionKeys(entries[..i])
      {
        var entry := entries[i];
        if !entry.isDir && Ext(entry.name) == Extension {
          keys := keys + [TrimSuffix(entry.name, Extension)];
        }
        assert entries[..i + 1][..i] == entries[..i];
        i := i + 1;
      }
      assert entries[..i] == entries;
      return Success(keys);
    }
  }

  /** Removing a file that was just given content `recs` leaves the store as it was before, minus that file. */
  lemma RenameOverTemp(files: map<string, seq<Record>>, tmp: string, recs: seq<Record>)
    ensures files[tmp := recs] - {tmp} == files - {tmp}
  {
  }

  /** A second lookup of a key returns the session the first one returned. */
  method LookupTwice(m: Manager, key: string, now: Time, later: Time)
    returns (first: Result<Session, Error>, second: Result<Session, Error>)
    modifies m
    ensures first.Success? ==> second == first
  {
    first := m.GetOrCreate(key, now);
    second := m.GetOrCreate(key, later);
  }
}
