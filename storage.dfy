/**
 * The file system as session/manager.go uses it through package `os`
 * (`Create`, writes through an encoder, `Rename`, `Remove`, `Open`): a map
 * from path to the records a file holds. Any call that touches an existing
 * file may fail; which one does is chosen nondeterministically.
 */
module Storage {
  import opened Wrappers
  import opened Messages
  import opened Codec

  /** The records at `path`, if a file is there. */
  function Lookup(files: map<string, seq<Record>>, path: string): Option<seq<Record>> {
    if path in files then Some(files[path]) else None
  }

  class FileStore {
    var files: map<string, seq<Record>>

    constructor ()
      ensures files == map[]
    {
      files := map[];
    }

    /** `os.Create`: an empty file at `path`, replacing what was there, or no change on failure. */
    method Create(path: string) returns (err: Option<Error>)
      modifies this
      ensures err.None? ==> files == old(files)[path := []]
      ensures err.Some? ==> files == old(files) && err == Some(IoFailure)
    {
      var ok: bool :| true;
      if ok {
        files := files[path := []];
        err := None;
      } else {
        err := Some(IoFailure);
      }
    }

    /**
     * One `Encode` into the open file at `path`: the record is appended,
     * or on failure the file holds anything while no other file changes.
     */
    method Write(path: string, rec: Record) returns (err: Option<Error>)
      requires path in files
      modifies this
      ensures path in files && files == old(files)[path := files[path]]
      ensures err.None? ==> files[path] == old(files)[path] + [rec]
      ensures err.Some? ==> err == Some(IoFailure)
    {
      var ok: bool :| true;
      if ok {
        files := files[path := files[path] + [rec]];
        err := None;
      } else {
        var partial: seq<Record> :| true;
        files := files[path := partial];
        err := Some(IoFailure);
      }
    }

    /** `os.Rename`: the file at `from` moves to `to`, replacing it, or nothing changes. */
    method Rename(from: string, to: string) returns (err: Option<Error>)
      modifies this
      ensures from !in old(files) ==> err == Some(NotExist)
      ensures err.None? ==> from in old(files) && files == (old(files) - {from})[to := old(files)[from]]
      ensures err.Some? ==> files == old(files)
    {
      if from !in files {
        return Some(NotExist);
      }
      var ok: bool :| true;
      if ok {
        files := (files - {from})[to := files[from]];
        err := None;
      } else {
        err := Some(IoFailure);
      }
    }

    /** `os.Remove`: the file at `path` is deleted, or nothing changes. */
    method Remove(path: string) returns (err: Option<Error>)
      modifies this
      ensures path !in old(files) ==> err == Some(NotExist) && files == old(files)
      ensures path in old(files) ==>
        (err.None? && files == old(files) - {path}) || (err == Some(IoFailure) && files == old(files))
    {
      if path !in files {
        return Some(NotExist);
      }
      var ok: bool :| true;
      if ok {
        files := files - {path};
        err := None;
      } else {
        err := Some(IoFailure);
      }
    }

    /**
     * `os.Open` followed by the record-reading loop of `load`: not-exist,
     * an I/O failure, or the records read. `decoder.More()` reports no
     * error, so the loop can also stop early without one: after a read
     * failure between two records, or at a top-level `]` or `}`. The
     * records read are then only a prefix of the file.
     */
    method Open(path: string) returns (r: Result<seq<Record>, Error>)
      ensures path !in files ==> r == Failure(NotExist)
      ensures path in files ==> r == Failure(IoFailure) || (r.Success? && r.value <= files[path])
    {
      if path !in files {
        return Failure(NotExist);
      }
      var ok: bool :| true;
      var n: nat :| n <= |files[path]|;
      r := if ok then Success(files[path][..n]) else Failure(IoFailure);
    }
  }
}
