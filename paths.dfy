/**
 * Where a session is stored (`Manager.sessionPath`) and how the keys are
 * read back from a directory listing (`Manager.List`), session/manager.go.
 * Strings are sequences of runes, as `strings.Map` sees them.
 */
module Paths {

  /** The storage extension of a session file. */
  const Extension: string := ".jsonl"

  /** The characters a key may not carry into a file name. */
  predicate Reserved(c: char) {
    c == '/' || c == '\\' || c == ':' || c == '*' || c == '?' ||
    c == '"' || c == '<' || c == '>' || c == '|'
  }

  /** The file-name-safe form of a key: every reserved character becomes `_`. */
  function Sanitize(key: string): (r: string)
    ensures |r| == |key|
    ensures forall i :: 0 <= i < |key| ==> r[i] == (if Reserved(key[i]) then '_' else key[i])
    ensures forall i :: 0 <= i < |r| ==> !Reserved(r[i])
  {
    if key == [] then []
    else [if Reserved(key[0]) then '_' else key[0]] + Sanitize(key[1..])
  }

  /** Sanitizing is idempotent: a sanitized key is its own sanitized form. */
  lemma SanitizeIdempotent(key: string)
    ensures Sanitize(Sanitize(key)) == Sanitize(key)
  {
  }

  /** Sanitizing is not injective: distinct keys can share one file. */
  lemma SanitizeMerges()
    ensures "a/b" != "a:b" && Sanitize("a/b") == Sanitize("a:b") == "a_b"
  {
  }

  predicate HasSuffix(s: string, suffix: string) {
    |suffix| <= |s| && s[|s| - |suffix|..] == suffix
  }

  /** `strings.TrimSuffix`. */
  function TrimSuffix(s: string, suffix: string): (r: string)
    ensures HasSuffix(s, suffix) ==> r + suffix == s
    ensures !HasSuffix(s, suffix) ==> r == s
  {
    if HasSuffix(s, suffix) then s[..|s| - |suffix|] else s
  }

  /** The name of the file that holds the session with this key. */
  function FileName(key: string): string {
    Sanitize(key) + Extension
  }

  /**
   * `filepath.Join(dir, name)` for a clean directory and a single-element
   * name: an empty or `.` directory adds nothing, and the root adds no
   * second separator.
   */
  function JoinPath(dir: string, name: string): (p: string)
    ensures HasSuffix(p, name)
    ensures dir == "" || dir == "." ==> p == name
    ensures dir == "/" ==> p == "/" + name
  {
    var p := if dir == "" || dir == "." then name else if dir == "/" then "/" + name else dir + "/" + name;
    assert p[|p| - |name|..] == name;
    p
  }

  /** `Manager.sessionPath`: the session's file in the base directory. */
  function SessionPath(baseDir: string, key: string): (p: string)
    ensures HasSuffix(p, Extension)
  {
    var p := JoinPath(baseDir, FileName(key));
    assert HasSuffix(FileName(key), Extension);
    SuffixOfSuffix(p, FileName(key), Extension);
    p
  }

  /** A suffix of a suffix is a suffix. */
  lemma SuffixOfSuffix(s: string, mid: string, suffix: string)
    requires HasSuffix(s, mid) && HasSuffix(mid, suffix)
    ensures HasSuffix(s, suffix)
  {
    assert s[|s| - |suffix|..] == s[|s| - |mid|..][|mid| - |suffix|..];
  }

  /** A key and its sanitized form have the same path. */
  lemma SessionPathOfSanitized(baseDir: string, key: string)
    ensures SessionPath(baseDir, Sanitize(key)) == SessionPath(baseDir, key)
  {
    SanitizeIdempotent(key);
  }

  /**
   * Two keys share a session file exactly when their sanitized forms are
   * equal: different sanitized keys never collide on disk.
   */
  lemma SessionPathsCollide(baseDir: string, k1: string, k2: string)
    ensures SessionPath(baseDir, k1) == SessionPath(baseDir, k2) <==> Sanitize(k1) == Sanitize(k2)
  {
    var n1, n2 := FileName(k1), FileName(k2);
    var p1, p2 := SessionPath(baseDir, k1), SessionPath(baseDir, k2);
    if p1 == p2 {
      if baseDir == "" || baseDir == "." {
        assert n1 == p1 && n2 == p2;
      } else if baseDir == "/" {
        assert p1[1..] == n1;
        assert p2[1..] == n2;
      } else {
        var pre := |baseDir| + 1;
        assert p1[pre..] == n1;
        assert p2[pre..] == n2;
      }
      assert n1 == n2;
      assert Sanitize(k1) == n1[..|n1| - |Extension|];
      assert Sanitize(k2) == n2[..|n2| - |Extension|];
    }
  }

  /** The temporary file a save writes is never any session's file. */
  lemma TempPathIsNoSessionPath(baseDir: string, key: string, other: string)
    ensures SessionPath(baseDir, key) + ".tmp" != SessionPath(baseDir, other)
  {
    var tmp := SessionPath(baseDir, key) + ".tmp";
    var p := SessionPath(baseDir, other);
    assert tmp[|tmp| - 1] == 'p';
    assert p[|p| - 1] == p[|p| - |Extension|..][|Extension| - 1] == 'l';
  }

  /**
   * `filepath.Ext`: the suffix of `path` from the last `.` of its final
   * element, or empty when that element has no dot.
   */
  function Ext(path: string): (r: string)
    ensures HasSuffix(path, r)
  {
    ExtWithin(path, |path|)
  }

  /** The extension found by scanning `path` leftward from just before index `i`. */
  function ExtWithin(path: string, i: nat): (r: string)
    requires i <= |path|
    ensures HasSuffix(path, r)
    decreases i
  {
    if i == 0 || path[i - 1] == '/' then ""
    else if path[i - 1] == '.' then path[i - 1..]
    else ExtWithin(path, i - 1)
  }

  /** A name has extension `.jsonl` exactly when it ends in `.jsonl`. */
  lemma ExtIsExtension(name: string)
    ensures Ext(name) == Extension <==> HasSuffix(name, Extension)
  {
    if HasSuffix(name, Extension) {
      var n := |name|;
      var tail := name[n - 6..];
      assert tail == Extension;
      assert name[n - 1] == tail[5] == 'l';
      assert name[n - 2] == tail[4] == 'n';
      assert name[n - 3] == tail[3] == 'o';
      assert name[n - 4] == tail[2] == 's';
      assert name[n - 5] == tail[1] == 'j';
      assert name[n - 6] == tail[0] == '.';
      assert ExtWithin(name, n - 5) == Extension;
      assert ExtWithin(name, n - 4) == Extension;
      assert ExtWithin(name, n - 3) == Extension;
      assert ExtWithin(name, n - 2) == Extension;
      assert ExtWithin(name, n - 1) == Extension;
      assert ExtWithin(name, n) == Extension;
    }
  }

  /** One entry of a directory listing. */
  datatype DirEntry = DirEntry(name: string, isDir: bool)

  /** The keys `List` reports for `entries`: session files, extension stripped, in listing order. */
  function SessionKeys(entries: seq<DirEntry>): (keys: seq<string>)
    ensures |keys| <= |entries|
  {
    if entries == [] then []
    else
      var e := entries[|entries| - 1];
      SessionKeys(entries[..|entries| - 1]) +
      (if !e.isDir && Ext(e.name) == Extension then [TrimSuffix(e.name, Extension)] else [])
  }

  /** A key is listed exactly when a non-directory entry is named after it plus `.jsonl`. */
  lemma {:induction false} SessionKeysMembers(entries: seq<DirEntry>)
    ensures forall k :: k in SessionKeys(entries) <==>
      exists i :: 0 <= i < |entries| && !entries[i].isDir && entries[i].name == k + Extension
  {
    if entries != [] {
      var init := entries[..|entries| - 1];
      var e := entries[|entries| - 1];
      SessionKeysMembers(init);
      ExtIsExtension(e.name);
      forall k
        ensures k in SessionKeys(entries) <==>
          exists i :: 0 <= i < |entries| && !entries[i].isDir && entries[i].name == k + Extension
      {
        if k in SessionKeys(init) {
          var i :| 0 <= i < |init| && !init[i].isDir && init[i].name == k + Extension;
          assert entries[i] == init[i];
        } else if exists i :: 0 <= i < |entries| && !entries[i].isDir && entries[i].name == k + Extension {
          var i :| 0 <= i < |entries| && !entries[i].isDir && entries[i].name == k + Extension;
          assert i == |init|;
          assert e.name == k + Extension;
          assert e.name[|e.name| - 6..] == Extension;
          assert TrimSuffix(e.name, Extension) == k;
        }
      }
    }
  }

  /**
   * A stored session is listed under its sanitized key, which opens the
   * same file again.
   */
  lemma ListedKeyOfSessionFile(baseDir: string, key: string)
    ensures SessionKeys([DirEntry(FileName(key), false)]) == [Sanitize(key)]
    ensures SessionPath(baseDir, Sanitize(key)) == SessionPath(baseDir, key)
  {
    var name := FileName(key);
    assert name[|name| - 6..] == Extension;
    ExtIsExtension(name);
    assert [DirEntry(name, false)][..0] == [];
    assert TrimSuffix(name, Extension) == Sanitize(key);
    SessionPathOfSanitized(baseDir, key);
  }
}
