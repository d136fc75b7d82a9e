/**
 * The line-record format of a session file (`Manager.Save` and
 * `Manager.load`, session/manager.go): one metadata record, then one
 * record per message. Records are values here, not JSON text.
 */
module Codec {
  import opened Wrappers
  import opened Messages

  /**
   * A timestamp field of a metadata record as `load` finds it: an RFC 3339
   * string that parses, a string that does not, or a missing or
   * non-string value.
   */
  datatype TimeField = Rfc3339(t: Time) | Unparsable | NotText

  /** One decoded line of a session file. */
  datatype Record =
    | MetadataRecord(createdAt: TimeField, updatedAt: TimeField, metadata: Option<Payload>)
    | MessageRecord(msg: Message)
    | Undecodable

  /** The first record `Save` writes for a transcript. */
  function MetadataOf(t: Transcript): Record {
    MetadataRecord(Rfc3339(t.createdAt), Rfc3339(t.updatedAt), Some(t.metadata))
  }

  /** One message record per message, in order. */
  function MessageRecords(msgs: seq<Message>): (r: seq<Record>)
    ensures |r| == |msgs|
    ensures forall i :: 0 <= i < |msgs| ==> r[i] == MessageRecord(msgs[i])
  {
    if msgs == [] then []
    else MessageRecords(msgs[..|msgs| - 1]) + [MessageRecord(msgs[|msgs| - 1])]
  }

  /** The records `Save` writes: the metadata record first, then every message in order. */
  function Encode(t: Transcript): (r: seq<Record>)
    ensures |r| == |t.messages| + 1
    ensures r[0].MetadataRecord? && r[0].metadata == Some(t.metadata)
    ensures r[0].createdAt == Rfc3339(t.createdAt) && r[0].updatedAt == Rfc3339(t.updatedAt)
    ensures forall i :: 0 <= i < |t.messages| ==> r[i + 1] == MessageRecord(t.messages[i])
  {
    [MetadataOf(t)] + MessageRecords(t.messages)
  }

  /**
   * A timestamp as `load` sets it: a parsed time replaces it, a failed
   * parse (whose error is dropped) yields the zero time, anything else
   * leaves it as it was.
   */
  function StampOf(f: TimeField, current: Time): (r: Time)
    ensures f.Rfc3339? ==> r == f.t
    ensures f.Unparsable? ==> r == ZeroTime
    ensures f.NotText? ==> r == current
  {
    match f
    case Rfc3339(t) => t
    case Unparsable => ZeroTime
    case NotText => current
  }

  /** What one record does to the session being loaded. */
  function Absorb(t: Transcript, rec: Record): (r: Result<Transcript, Error>)
    ensures r.Failure? <==> rec.Undecodable?
    ensures r.Failure? ==> r.error == Corrupt
    ensures r.Success? ==> r.value.key == t.key
    ensures rec.MessageRecord? ==> r == Success(t.(messages := t.messages + [rec.msg]))
    ensures rec.MetadataRecord? ==> r.Success? && r.value.messages == t.messages
    ensures rec.MetadataRecord? && rec.metadata.None? ==> r.value.metadata == t.metadata
  {
    match rec
    case Undecodable => Failure(Corrupt)
    case MetadataRecord(c, u, md) =>
      Success(t.(createdAt := StampOf(c, t.createdAt),
                 updatedAt := StampOf(u, t.updatedAt),
                 metadata := if md.Some? then md.value else t.metadata))
    case MessageRecord(m) => Success(t.(messages := t.messages + [m]))
  }

  /** The message records of `recs`, in order. */
  function MessagesIn(recs: seq<Record>): seq<Message> {
    if recs == [] then []
    else (if recs[0].MessageRecord? then [recs[0].msg] else []) + MessagesIn(recs[1..])
  }

  /** The records `recs` applied in order to `t`, stopping at the first that does not decode. */
  function DecodeFrom(t: Transcript, recs: seq<Record>): (r: Result<Transcript, Error>)
    ensures r.Success? ==> r.value.key == t.key
    ensures r.Failure? ==> r.error == Corrupt
    decreases |recs|
  {
    if recs == [] then Success(t)
    else
      match Absorb(t, recs[0])
      case Failure(e) => Failure(e)
      case Success(t') => DecodeFrom(t', recs[1..])
  }

  /** `load`'s reading of a file's records into the session for `key`. */
  function Decode(key: string, recs: seq<Record>, now: Time): (r: Result<Transcript, Error>)
    ensures recs == [] ==> r == Success(Fresh(key, now))
    ensures r.Success? ==> r.value.key == key
    ensures r.Failure? <==> Undecodable in recs
  {
    DecodeFailsOnUndecodable(Fresh(key, now), recs);
    DecodeFrom(Fresh(key, now), recs)
  }

  /**
   * `t` is what `load` can make of a file holding `file`: the decode of
   * the records it read, which are the file's first `n` records for some `n`.
   */
  predicate ReadsAs(key: string, file: seq<Record>, now: Time, t: Transcript) {
    exists n :: 0 <= n <= |file| && Decode(key, file[..n], now) == Success(t)
  }

  /** For the records read, decoding fails exactly when one of them does not decode. */
  lemma {:induction false} DecodeFailsOnUndecodable(t: Transcript, recs: seq<Record>)
    ensures DecodeFrom(t, recs).Failure? <==> Undecodable in recs
    decreases |recs|
  {
    if recs != [] {
      if !recs[0].Undecodable? {
        var t' := Absorb(t, recs[0]).value;
        DecodeFailsOnUndecodable(t', recs[1..]);
        assert recs == [recs[0]] + recs[1..];
      }
    }
  }

  /** Every record that is not metadata becomes a message, in file order. */
  lemma {:induction false} DecodedMessages(t: Transcript, recs: seq<Record>)
    ensures DecodeFrom(t, recs).Success? ==>
      DecodeFrom(t, recs).value.messages == t.messages + MessagesIn(recs)
    decreases |recs|
  {
    if recs != [] && !recs[0].Undecodable? {
      var t' := Absorb(t, recs[0]).value;
      DecodedMessages(t', recs[1..]);
    }
  }

  /** Decoding a run of message records appends exactly those messages. */
  lemma {:induction false} DecodeMessageRecords(t: Transcript, msgs: seq<Message>)
    ensures DecodeFrom(t, MessageRecords(msgs)) == Success(t.(messages := t.messages + msgs))
    decreases |msgs|
  {
    if msgs != [] {
      var recs := MessageRecords(msgs);
      assert recs[0] == MessageRecord(msgs[0]);
      assert recs[1..] == MessageRecords(msgs[1..]);
      var t' := t.(messages := t.messages + [msgs[0]]);
      assert Absorb(t, recs[0]) == Success(t');
      assert DecodeFrom(t, recs) == DecodeFrom(t', recs[1..]);
      DecodeMessageRecords(t', msgs[1..]);
      assert t'.messages + msgs[1..] == t.messages + msgs;
    } else {
      assert t.messages + msgs == t.messages;
    }
  }

  /** The first `k` message records are the records of the first `k` messages. */
  lemma MessageRecordsPrefix(msgs: seq<Message>, k: nat)
    requires k <= |msgs|
    ensures MessageRecords(msgs)[..k] == MessageRecords(msgs[..k])
  {
  }

  /** Round trip: loading what `Save` wrote gives back the same transcript. */
  lemma RoundTrip(t: Transcript, now: Time)
    ensures Decode(t.key, Encode(t), now) == Success(t)
  {
    var recs := Encode(t);
    var start := Transcript(t.key, [], t.createdAt, t.updatedAt, t.metadata);
    assert Absorb(Fresh(t.key, now), recs[0]) == Success(start);
    assert recs[1..] == MessageRecords(t.messages);
    assert Decode(t.key, recs, now) == DecodeFrom(start, recs[1..]);
    DecodeMessageRecords(start, t.messages);
    assert start.(messages := start.messages + t.messages) == t;
  }

  /**
   * A read that stops after the first `n` records of a saved file loads
   * the saved transcript cut to its first `n - 1` messages, or the fresh
   * session when it read nothing.
   */
  lemma TruncatedSaveLoadsPrefix(t: Transcript, n: nat, now: Time)
    requires n <= |Encode(t)|
    ensures n == 0 ==> Decode(t.key, Encode(t)[..n], now) == Success(Fresh(t.key, now))
    ensures 0 < n ==> Decode(t.key, Encode(t)[..n], now) == Success(t.(messages := t.messages[..n - 1]))
  {
    if n == 0 {
      assert Encode(t)[..n] == [];
    } else {
      var cut := t.(messages := t.messages[..n - 1]);
      MessageRecordsPrefix(t.messages, n - 1);
      assert Encode(t)[..n] == [MetadataOf(t)] + MessageRecords(t.messages)[..n - 1];
      assert Encode(t)[..n] == Encode(cut);
      RoundTrip(cut, now);
    }
  }

  /**
   * Whatever `load` makes of a saved file is the fresh session, or the
   * saved transcript with a prefix of its messages: a load can drop the
   * last messages without reporting an error.
   */
  lemma SavedFileLoadsPrefix(t: Transcript, now: Time, loaded: Transcript)
    requires ReadsAs(t.key, Encode(t), now, loaded)
    ensures loaded == Fresh(t.key, now) ||
      (loaded == t.(messages := loaded.messages) && loaded.messages <= t.messages)
  {
    var n :| 0 <= n <= |Encode(t)| && Decode(t.key, Encode(t)[..n], now) == Success(loaded);
    TruncatedSaveLoadsPrefix(t, n, now);
  }
}
