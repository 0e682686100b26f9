/**
  The configuration-file maps that every revision keeps: path to the last
  text read from disk. The current agent (agent/agent.go readFiles) writes an
  entry only when the read text differs from what the map holds, where a
  missing entry reads as ""; the older revisions (wp/agent.go and agent.go)
  overwrite the entry of every readable path. Unreadable paths are skipped by
  both.
 */
module ConfigFiles {

  import opened Supervision

  /** `path` can be read and its text is not what `files` shows for it. */
  predicate Differs(files: map<string, string>, path: string, disk: Disk)
  {
    ReadFile(disk, path).Some? && ReadFile(disk, path).value != Get(files, path)
  }

  /** One iteration of the current agent's readFiles loop. */
  function Refresh(files: map<string, string>, path: string, disk: Disk): map<string, string>
  {
    if Differs(files, path, disk) then files[path := ReadFile(disk, path).value] else files
  }

  /** The current agent's readFiles loop over `paths`, in order. */
  function Refreshed(files: map<string, string>, paths: seq<string>, disk: Disk): map<string, string>
    decreases |paths|
  {
    if paths == [] then files
    else Refresh(Refreshed(files, paths[..|paths| - 1], disk), paths[|paths| - 1], disk)
  }

  /**
    After the refresh every configured readable path shows its text on disk
    and every other path shows what it showed before; a key is present after
    the refresh exactly when it was present before or a configured readable
    path brought a text other than "" (so a readable empty file with no entry
    is not inserted).
   */
  lemma {:induction false} RefreshedEntries(files: map<string, string>, paths: seq<string>, disk: Disk)
    ensures forall k :: Get(Refreshed(files, paths, disk), k) ==
              if k in paths && ReadFile(disk, k).Some? then ReadFile(disk, k).value else Get(files, k)
    ensures forall k :: k in Refreshed(files, paths, disk) <==> k in files || (k in paths && Differs(files, k, disk))
    decreases |paths|
  {
    if paths != [] {
      var n := |paths|;
      var front, p := paths[..n - 1], paths[n - 1];
      RefreshedEntries(files, front, disk);
      var before := Refreshed(files, front, disk);
      var after := Refreshed(files, paths, disk);
      assert after == Refresh(before, p, disk);
      assert paths == front + [p];
      forall k
        ensures Get(after, k) == if k in paths && ReadFile(disk, k).Some? then ReadFile(disk, k).value else Get(files, k)
        ensures k in after <==> k in files || (k in paths && Differs(files, k, disk))
      {
        assert k in paths <==> k in front || k == p;
      }
    }
  }

  /**
    readFiles reports a change exactly when some configured path can be read
    and its text is not what the map showed: the map then differs from the
    one it started from, and otherwise it is the same map.
   */
  lemma RefreshChanges(files: map<string, string>, paths: seq<string>, disk: Disk)
    ensures Refreshed(files, paths, disk) != files <==> exists j :: 0 <= j < |paths| && Differs(files, paths[j], disk)
  {
    var after := Refreshed(files, paths, disk);
    RefreshedEntries(files, paths, disk);
    if j :| 0 <= j < |paths| && Differs(files, paths[j], disk) {
      assert Get(after, paths[j]) != Get(files, paths[j]);
    } else {
      forall k | k in paths ensures !Differs(files, k, disk) {
        var j :| 0 <= j < |paths| && paths[j] == k;
      }
      assert after.Keys == files.Keys;
      forall k | k in files ensures after[k] == files[k] {
        assert Get(after, k) == Get(files, k);
      }
    }
  }

  /**
    One more path of the current readFiles loop: it writes only when the
    path's text differs from the map it started from, and when it does not
    write although that text differs, an earlier path already wrote it.
   */
  lemma RefreshStep(files: map<string, string>, paths: seq<string>, i: nat, disk: Disk)
    requires i < |paths|
    ensures Differs(Refreshed(files, paths[..i], disk), paths[i], disk) ==> Differs(files, paths[i], disk)
    ensures Differs(files, paths[i], disk) && !Differs(Refreshed(files, paths[..i], disk), paths[i], disk) ==>
              exists j :: 0 <= j < i && Differs(files, paths[j], disk)
  {
    RefreshedEntries(files, paths[..i], disk);
    var p := paths[i];
    if Differs(files, p, disk) && !Differs(Refreshed(files, paths[..i], disk), p, disk) {
      assert p in paths[..i];
      var j :| 0 <= j < i && paths[..i][j] == p;
      assert paths[j] == p;
    }
  }

  /** One iteration of the older revisions' readFiles loop: overwrite the entry of a readable path. */
  function Load(files: map<string, string>, path: string, disk: Disk): map<string, string>
  {
    if ReadFile(disk, path).Some? then files[path := ReadFile(disk, path).value] else files
  }

  /** The older revisions' readFiles loop over `paths`, in order. */
  function Loaded(files: map<string, string>, paths: seq<string>, disk: Disk): map<string, string>
    decreases |paths|
  {
    if paths == [] then files
    else Load(Loaded(files, paths[..|paths| - 1], disk), paths[|paths| - 1], disk)
  }

  /**
    After the older readFiles every configured readable path has an entry
    holding its text on disk, and every other entry is kept as it was.
   */
  lemma {:induction false} LoadedEntries(files: map<string, string>, paths: seq<string>, disk: Disk)
    ensures forall k :: k in Loaded(files, paths, disk) <==> k in files || (k in paths && ReadFile(disk, k).Some?)
    ensures forall k :: k in Loaded(files, paths, disk) ==>
              Loaded(files, paths, disk)[k] == if k in paths && ReadFile(disk, k).Some? then ReadFile(disk, k).value else files[k]
    decreases |paths|
  {
    if paths != [] {
      var n := |paths|;
      var front, p := paths[..n - 1], paths[n - 1];
      LoadedEntries(files, front, disk);
      var after := Loaded(files, paths, disk);
      assert after == Load(Loaded(files, front, disk), p, disk);
      assert paths == front + [p];
      forall k
        ensures k in after <==> k in files || (k in paths && ReadFile(disk, k).Some?)
        ensures k in after ==> after[k] == if k in paths && ReadFile(disk, k).Some? then ReadFile(disk, k).value else files[k]
      {
        assert k in paths <==> k in front || k == p;
      }
    }
  }

  /**
    The two revisions of readFiles show the same text for every path; they
    differ only in whether a readable empty file gets an entry of its own.
   */
  lemma RefreshedShowsLoaded(files: map<string, string>, paths: seq<string>, disk: Disk)
    ensures forall k :: Get(Refreshed(files, paths, disk), k) == Get(Loaded(files, paths, disk), k)
  {
    RefreshedEntries(files, paths, disk);
    LoadedEntries(files, paths, disk);
  }
}
