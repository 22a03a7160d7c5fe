/** The in-place path edits of posix_translation/path_util.cc, on string values. */
module PathUtil {

  predicate EndsWithSlash(path: string) {
    path != "" && path[|path| - 1] == '/'
  }

  function EnsurePathEndsWithSlash(path: string): (r: string)
    ensures EndsWithSlash(r) && r == if EndsWithSlash(path) then path else path + "/"
  {
    if EndsWithSlash(path) then path else path + "/"
  }

  /** rfind: the last slash before index `limit`, or -1. */
  function LastSlashBefore(path: string, limit: nat): (pos: int)
    requires limit <= |path|
    ensures -1 <= pos < limit
    ensures pos >= 0 ==> path[pos] == '/'
    ensures forall i :: pos < i < limit ==> path[i] != '/'
  {
    if limit == 0 then -1
    else if path[limit - 1] == '/' then limit - 1
    else LastSlashBefore(path, limit - 1)
  }

  predicate NoSlash(s: string) {
    forall i :: 0 <= i < |s| ==> s[i] != '/'
  }

  /** A slash at the end does not count; the root is its own directory, and a single component lies in ".". */
  function GetDirName(path: string): (dir: string)
    ensures dir != "" && (dir == "/" || dir == "." || dir + "/" <= path)
  {
    var length := |path|;
    var pos := LastSlashBefore(path, if length >= 2 && EndsWithSlash(path) then length - 1 else length);
    if pos == 0 then "/" else if pos < 0 then "." else path[..pos]
  }

  /** A slash and a last component, with or without a slash behind it, are what the directory name drops. */
  lemma DirNameOfJoined(dir: string, name: string, tail: string)
    requires NoSlash(name) && (tail == "/" || (tail == "" && (name != "" || dir == "")))
    ensures GetDirName(dir + "/" + name + tail) == if dir == "" then "/" else dir
  {
    hide LastSlashBefore;
    var front := dir + "/" + name;
    var path := front + tail;
    forall i | |dir| < i < |front| ensures path[i] != '/' {
      assert path[i] == name[i - |dir| - 1];
    }
    LastSlashIs(path, |front|, |dir|);
    assert path[..|dir|] == dir;
    if tail == "" {
      assert path == front;
      assert |path| >= 2 && EndsWithSlash(path) ==> name == "" && dir != "";
    } else {
      assert EndsWithSlash(path) && |front| == |path| - 1;
    }
  }

  lemma LastSlashIs(path: string, limit: nat, pos: nat)
    requires pos < limit <= |path| && path[pos] == '/'
    requires forall i :: pos < i < limit ==> path[i] != '/'
    ensures LastSlashBefore(path, limit) == pos
  {
  }

  /** A single component, with or without a slash behind it, lies in the current directory. */
  lemma DirNameOfComponent(name: string, tail: string)
    requires NoSlash(name) && (tail == "" || (tail == "/" && name != ""))
    ensures GetDirName(name + tail) == "."
  {
    var path := name + tail;
    assert forall i :: 0 <= i < |name| ==> path[i] == name[i];
    assert LastSlashBefore(path, |name|) == -1;
  }

  /** Every path is one of these, so the two lemmas say all about directory names. */
  lemma EveryPathIsJoined(path: string) returns (dir: string, name: string, tail: string, single: bool)
    ensures NoSlash(name)
    ensures single ==> path == name + tail && (tail == "" || (tail == "/" && name != ""))
    ensures !single ==> path == dir + "/" + name + tail && (tail == "/" || (tail == "" && (name != "" || dir == "")))
  {
    hide NoSlash;
    var trimmed;
    trimmed, tail := CutTail(path);
    dir, name, single := CutLast(trimmed);
  }

  lemma CutTail(path: string) returns (trimmed: string, tail: string)
    ensures path == trimmed + tail
    ensures (tail == "/" && trimmed != "") || (tail == "" && (|trimmed| < 2 || !EndsWithSlash(trimmed)))
  {
    if |path| >= 2 && EndsWithSlash(path) {
      trimmed, tail := path[..|path| - 1], path[|path| - 1..];
    } else {
      trimmed, tail := path, "";
    }
  }

  lemma CutLast(path: string) returns (dir: string, name: string, single: bool)
    ensures NoSlash(name) && path == if single then name else dir + "/" + name
    ensures !single && name == "" && dir != "" ==> |path| >= 2 && EndsWithSlash(path)
  {
    var pos := LastSlashBefore(path, |path|);
    single, name := pos < 0, path[pos + 1..];
    dir := if single then "" else path[..pos];
  }
}
