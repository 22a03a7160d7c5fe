/** MountPointManager: which file system handles a path. */
module MountPoints {
  import opened Basics
  import opened PathUtil

  type Handler = nat

  const ROOT_UID: nat := 0

  datatype MountPoint = MountPoint(handler: Handler, owner: nat)

  type Mounts = map<string, MountPoint>

  // ----- The lookup

  /** From the directory `dir`, the first mounted directory that the stripping loop comes to. */
  function Climb(m: Mounts, dir: string): (key: Option<string>)
    requires EndsWithSlash(dir)
    ensures key.Some? ==> key.value in m
    decreases |dir|
  {
    if dir in m then
      Some(dir)
    else
      var parent := GetDirName(dir);
      if |parent| > 1 then Climb(m, EnsurePathEndsWithSlash(parent))
      else if parent == "/" && parent in m then Some(parent)
      else None
  }

  /** The mount point that decides for a path. */
  function RouteKey(m: Mounts, path: string): (key: Option<string>)
    ensures key.Some? ==> key.value in m
  {
    if path == "" then None
    else if path in m then Some(path)
    else Climb(m, EnsurePathEndsWithSlash(path))
  }

  // ----- Longest prefix

  /** `key` is a mounted directory that leads `dir`. */
  predicate Leads(m: Mounts, key: string, dir: string) {
    key in m && EndsWithSlash(key) && key <= dir
  }

  /** `key` is the longest mounted directory that leads `dir`. */
  ghost predicate IsLongest(m: Mounts, key: Option<string>, dir: string) {
    match key
    case None => forall k :: !Leads(m, k, dir)
    case Some(key) => Leads(m, key, dir) && forall k :: Leads(m, k, dir) ==> |k| <= |key|
  }

  /** No slash but the first and the last is the second character or follows another slash. */
  ghost predicate Regular(dir: string) {
    forall j :: 1 <= j < |dir| - 1 && dir[j] == '/' ==> j >= 2 && dir[j - 1] != '/'
  }

  /** Absolute paths without empty components are regular. */
  lemma AbsoluteIsRegular(path: string)
    requires path != "" && path[0] == '/'
    requires forall i :: 0 <= i < |path| - 1 && path[i] == '/' ==> path[i + 1] != '/'
    ensures Regular(EnsurePathEndsWithSlash(path))
  {
    var dir := EnsurePathEndsWithSlash(path);
    forall j | 1 <= j < |dir| - 1 && dir[j] == '/' ensures j >= 2 && dir[j - 1] != '/' {
      assert path[j] == dir[j] && path[j - 1] == dir[j - 1];
      assert path[0] == '/' ==> path[0 + 1] != '/';
    }
  }

  /** The directories that lead `dir` are `dir` and those that lead it up to the slash before its last component. */
  lemma LeadingDirs(dir: string, k: string)
    requires EndsWithSlash(dir) && |dir| >= 2 && EndsWithSlash(k) && k <= dir && k != dir
    ensures var j := LastSlashBefore(dir, |dir| - 1); j >= 0 && k <= dir[..j + 1]
  {
    assert k[|k| - 1] == dir[|k| - 1];
  }

  /** What follows the last component of a regular directory is regular again. */
  lemma ParentOfRegular(dir: string)
    requires EndsWithSlash(dir) && |dir| >= 2 && Regular(dir)
    ensures var j, parent := LastSlashBefore(dir, |dir| - 1), GetDirName(dir);
      && (j <= 0 ==> |parent| == 1 && (parent == "/" <==> j == 0))
      && (j == 0 ==> dir[..1] == "/")
      && (j > 0 ==> |parent| > 1 && EnsurePathEndsWithSlash(parent) == dir[..j + 1] && Regular(dir[..j + 1]))
  {
    var j := LastSlashBefore(dir, |dir| - 1);
    if j > 0 {
      assert dir[..j + 1] == dir[..j] + "/";
    } else if j == 0 {
      assert dir[..1] == "/";
    }
  }

  /** What leads a directory that is not mounted leads its parent, if there is one. */
  lemma LeadsParent(m: Mounts, dir: string)
    requires EndsWithSlash(dir) && |dir| >= 2 && dir !in m
    ensures var j := LastSlashBefore(dir, |dir| - 1);
      forall k :: Leads(m, k, dir) <==> j >= 0 && Leads(m, k, dir[..j + 1])
  {
    hide LastSlashBefore;
    var j := LastSlashBefore(dir, |dir| - 1);
    forall k | Leads(m, k, dir) ensures j >= 0 && Leads(m, k, dir[..j + 1]) {
      LeadingDirs(dir, k);
    }
    forall k | j >= 0 && Leads(m, k, dir[..j + 1]) ensures Leads(m, k, dir) {
      assert k <= dir[..j + 1] <= dir;
    }
  }

  lemma LeadsRoot(m: Mounts, k: string)
    ensures Leads(m, k, "/") <==> k == "/" && "/" in m
  {
    if EndsWithSlash(k) && k <= "/" {
      assert |k| == 1 && k == "/";
    }
  }

  /** For a regular directory the stripping loop finds the longest prefix. */
  lemma {:induction false} ClimbIsLongest(m: Mounts, dir: string)
    requires EndsWithSlash(dir) && Regular(dir)
    ensures IsLongest(m, Climb(m, dir), dir)
    decreases |dir|
  {
    if dir in m || dir == "/" {
      RootLongest(m, dir);
    } else {
      ParentOfRegular(dir);
      LeadsParent(m, dir);
      hide Regular, GetDirName, Leads, LastSlashBefore;
      var j := LastSlashBefore(dir, |dir| - 1);
      if j > 0 {
        ClimbIsLongest(m, dir[..j + 1]);
        assert Climb(m, dir) == Climb(m, dir[..j + 1]);
      } else {
        forall k {
          LeadsRoot(m, k);
        }
      }
    }
  }

  lemma RootLongest(m: Mounts, dir: string)
    requires EndsWithSlash(dir) && (dir in m || dir == "/")
    ensures IsLongest(m, Climb(m, dir), dir)
  {
    if dir !in m {
      forall k {
        LeadsRoot(m, k);
      }
    }
  }

  /** The slash at `j` is inner, and the second character or after another slash; no later inner slash is. */
  ghost predicate LastSkipped(dir: string, j: int) {
    && 1 <= j < |dir| - 1 && dir[j] == '/' && (j == 1 || dir[j - 1] == '/')
    && forall i :: j < i < |dir| - 1 && dir[i] == '/' ==> dir[i - 1] != '/'
  }

  lemma {:induction false} LastSkippedExists(dir: string, n: nat) returns (j: int)
    requires n <= |dir| && !Regular(dir)
    requires forall i :: n <= i < |dir| - 1 && dir[i] == '/' ==> i >= 2 && dir[i - 1] != '/'
    ensures LastSkipped(dir, j)
    decreases n
  {
    if 1 <= n - 1 < |dir| - 1 && dir[n - 1] == '/' && (n - 1 == 1 || dir[n - 2] == '/') {
      j := n - 1;
    } else {
      j := LastSkippedExists(dir, n - 1);
    }
  }

  /** The loop never comes to the directory that ends at a skipped slash. */
  lemma {:induction false} ClimbSkips(m: Mounts, dir: string, j: int, d: string)
    requires LastSkipped(dir, j) && m.Keys == {dir[..j + 1]}
    requires EndsWithSlash(d) && d <= dir && |d| != j + 1
    ensures Climb(m, d) == None
    decreases |d|
  {
    if d != "/" {
      var parent, pos := GetDirName(d), LastSlashBefore(d, |d| - 1);
      if |parent| > 1 {
        if |d| <= j || pos > j {
          assert d[pos] == dir[pos] && d[pos - 1] == dir[pos - 1];
          assert EnsurePathEndsWithSlash(parent) <= d;
        } else {
          assert d[j] == dir[j] && d[j - 1] == dir[j - 1] && pos == j;
        }
        ClimbSkips(m, dir, j, EnsurePathEndsWithSlash(parent));
      }
    }
  }

  /** The lookup is longest-prefix match, whatever is mounted, exactly for regular directories. */
  lemma LongestExactlyWhenRegular(dir: string)
    requires EndsWithSlash(dir)
    ensures Regular(dir) <==> forall m: Mounts :: IsLongest(m, Climb(m, dir), dir)
  {
    hide Regular, Climb, GetDirName;
    if Regular(dir) {
      forall m: Mounts ensures IsLongest(m, Climb(m, dir), dir) {
        ClimbIsLongest(m, dir);
      }
    } else {
      var m := NotLongest(dir);
    }
  }

  lemma SkippedKey(dir: string, j: int)
    requires LastSkipped(dir, j)
    ensures 0 <= j && j + 1 < |dir| && EndsWithSlash(dir[..j + 1])
  {
  }

  lemma NotLongest(dir: string) returns (m: Mounts)
    requires EndsWithSlash(dir) && !Regular(dir)
    ensures !IsLongest(m, Climb(m, dir), dir)
  {
    hide Climb, GetDirName, Regular, LastSkipped;
    var j := LastSkippedExists(dir, |dir|);
    SkippedKey(dir, j);
    var key := dir[..j + 1];
    m := map[key := MountPoint(0, ROOT_UID)];
    ClimbSkips(m, dir, j, dir);
    assert Leads(m, key, dir);
  }

  /** Routing an absolute path without empty components: a mount point of that very name decides, and else the deepest
      mounted directory on the way to it. */
  lemma RouteIsDeepest(m: Mounts, path: string)
    requires path != "" && path[0] == '/'
    requires forall i :: 0 <= i < |path| - 1 && path[i] == '/' ==> path[i + 1] != '/'
    ensures if path in m then RouteKey(m, path) == Some(path)
            else IsLongest(m, RouteKey(m, path), EnsurePathEndsWithSlash(path))
  {
    AbsoluteIsRegular(path);
    ClimbIsLongest(m, EnsurePathEndsWithSlash(path));
  }

  // ----- Changing the owner

  /** The map after chown: a path that is not mounted gets the handler that serves it now. */
  function Chowned(m: Mounts, path: string, owner: nat): Mounts
    requires RouteKey(m, path).Some?
  {
    m[path := MountPoint(m[RouteKey(m, path).value].handler, owner)]
  }

  lemma {:induction false} ClimbChowned(m: Mounts, path: string, owner: nat, dir: string)
    requires RouteKey(m, path).Some? && EndsWithSlash(dir)
    ensures var n := Chowned(m, path, owner);
      if Climb(n, dir) == Some(path) then Climb(m, dir).Some? && m[Climb(m, dir).value].handler == n[path].handler
      else Climb(n, dir) == Climb(m, dir)
    decreases |dir|
  {
    var n := Chowned(m, path, owner);
    if dir !in n {
      var parent := GetDirName(dir);
      if |parent| > 1 {
        ClimbChowned(m, path, owner, EnsurePathEndsWithSlash(parent));
      }
    }
  }

  /** Changing an owner is transparent to routing: every path keeps its handler, and only the paths that the mount
      point of `path` decides for get the new owner. */
  lemma ChownIsTransparent(m: Mounts, path: string, owner: nat, q: string)
    requires RouteKey(m, path).Some?
    ensures var n := Chowned(m, path, owner);
      && (RouteKey(n, q).Some? <==> RouteKey(m, q).Some?)
      && (RouteKey(n, q).Some? ==> n[RouteKey(n, q).value].handler == m[RouteKey(m, q).value].handler)
      && (if RouteKey(n, q) == Some(path) then n[path].owner == owner
          else RouteKey(n, q) == RouteKey(m, q)
               && (RouteKey(m, q).Some? ==> n[RouteKey(n, q).value] == m[RouteKey(m, q).value]))
      && RouteKey(n, path) == Some(path)
  {
    if q != "" {
      ClimbChowned(m, path, owner, EnsurePathEndsWithSlash(q));
    }
  }

  class MountPointManager {
    var mounts: Mounts

    constructor ()
      ensures mounts == map[]
    {
      mounts := map[];
    }

    /** Adding a mount point that exists is fatal. */
    method Add(path: string, handler: Handler)
      requires path != "" && path !in mounts
      modifies this
      ensures mounts == old(mounts)[path := MountPoint(handler, ROOT_UID)]
    {
      mounts := mounts[path := MountPoint(handler, ROOT_UID)];
    }

    method Remove(path: string)
      modifies this
      ensures mounts == old(mounts) - {path}
    {
      if path in mounts {
        mounts := mounts - {path};
      }
    }

    /** The handler and the owner of a path; the root owns a path without handler. For the empty path the owner says
        nothing. */
    method GetFileSystemHandler(path: string) returns (handler: Option<Handler>, owner: nat)
      ensures match RouteKey(mounts, path)
        case Some(key) => handler == Some(mounts[key].handler) && owner == mounts[key].owner
        case None => handler == None && (path != "" ==> owner == ROOT_UID)
    {
      owner := *;
      if path == "" {
        return None, owner;
      }
      owner := ROOT_UID;
      if path in mounts {
        return Some(mounts[path].handler), mounts[path].owner;
      }
      var dir := path;
      var more := true;
      while more
        invariant more ==> dir != "" && RouteKey(mounts, path) == Climb(mounts, EnsurePathEndsWithSlash(dir))
        invariant !more ==> RouteKey(mounts, path) == if dir == "/" && dir in mounts then Some(dir) else None
        decreases more, |EnsurePathEndsWithSlash(dir)|
      {
        dir := EnsurePathEndsWithSlash(dir);
        if dir in mounts {
          return Some(mounts[dir].handler), mounts[dir].owner;
        }
        dir := GetDirName(dir);
        more := |dir| > 1;
      }
      if dir == "/" {
        if dir in mounts {
          return Some(mounts[dir].handler), mounts[dir].owner;
        }
      }
      return None, owner;
    }

    /** The path must have a handler. */
    method ChangeOwner(path: string, owner: nat)
      requires RouteKey(mounts, path).Some?
      modifies this
      ensures mounts == Chowned(old(mounts), path, owner)
    {
      if path !in mounts {
        var handler, _ := GetFileSystemHandler(path);
        Add(path, handler.value);
      }
      mounts := mounts[path := mounts[path].(owner := owner)];
    }
  }
}
