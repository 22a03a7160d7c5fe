/** DirectoryManager: a tree of directories, flattened into a map from directory names to lists of entries. */
module DirectoryTree {
  import opened PathUtil

  datatype Type = Regular | Directory | Symlink

  /** The entries of a directory; the name of a subdirectory ends with a slash. */
  type Files = map<string, Type>

  type Dirs = map<string, Files>

  /** What a call returns, unless it runs into a failing assertion. */
  datatype Outcome = Done(value: bool) | Aborted

  // ----- Splitting

  /** The pieces between the slashes, empty ones too. */
  function Split(s: string): (parts: seq<string>)
    ensures parts != [] && forall i :: 0 <= i < |parts| ==> NoSlash(parts[i])
    decreases |s|
  {
    var p := LastSlashBefore(s, |s|);
    if p < 0 then [s] else Split(s[..p]) + [s[p + 1..]]
  }

  function Join(parts: seq<string>): string
    requires parts != []
    decreases |parts|
  {
    if |parts| == 1 then parts[0] else Join(parts[..|parts| - 1]) + "/" + parts[|parts| - 1]
  }

  lemma {:induction false} JoinSplit(s: string)
    ensures Join(Split(s)) == s
    decreases |s|
  {
    var p := LastSlashBefore(s, |s|);
    if p >= 0 {
      JoinSplit(s[..p]);
      SplitLast(s, p);
      hide Split, LastSlashBefore;
      JoinLast(Split(s[..p]), s[p + 1..]);
      assert s == s[..p] + [s[p]] + s[p + 1..];
    }
  }

  lemma SplitLast(s: string, p: nat)
    requires p < |s| && p == LastSlashBefore(s, |s|)
    ensures Split(s) == Split(s[..p]) + [s[p + 1..]]
  {
  }

  lemma JoinLast(parts: seq<string>, last: string)
    requires parts != []
    ensures Join(parts + [last]) == Join(parts) + "/" + last
  {
    assert (parts + [last])[..|parts|] == parts;
  }

  /** A path is its directory and its file name. */
  function SplitPath(pathname: string): (r: (string, string))
    ensures r.0 + r.1 == pathname && NoSlash(r.1) && (r.0 == "" || EndsWithSlash(r.0))
  {
    if pathname == "" then ("", "")
    else if NoSlash(pathname) then ("", pathname)
    else if EndsWithSlash(pathname) then (pathname, "")
    else
      SplitCuts(pathname);
      var paths := Split(pathname);
      (Join(paths[..|paths| - 1]) + "/", paths[|paths| - 1])
  }

  lemma SplitCuts(s: string)
    requires !NoSlash(s)
    ensures var paths := Split(s); |paths| >= 2 && Join(paths[..|paths| - 1]) + "/" + paths[|paths| - 1] == s
  {
    JoinSplit(s);
    var p := LastSlashBefore(s, |s|);
    assert p >= 0;
    assert |Split(s[..p])| >= 1;
  }

  // ----- Directory names

  predicate IsName(s: string) { s != "" && NoSlash(s) }

  /** An absolute directory name without empty components. */
  predicate Clean(d: string) {
    EndsWithSlash(d) && d[0] == '/' && forall i :: 0 < i < |d| && d[i] == '/' ==> d[i - 1] != '/'
  }

  /** `e` is `d` or a directory on the way to it. */
  predicate Leads(e: string, d: string) { EndsWithSlash(e) && e <= d }

  function Parent(d: string): string
    requires d != ""
  {
    d[..LastSlashBefore(d, |d| - 1) + 1]
  }

  function Base(d: string): string
    requires d != ""
  {
    d[LastSlashBefore(d, |d| - 1) + 1..]
  }

  lemma Extend(d: string, name: string)
    requires Clean(d) && IsName(name)
    ensures Clean(d + name + "/") && Parent(d + name + "/") == d && Base(d + name + "/") == name + "/"
    ensures forall e :: Leads(e, d + name + "/") <==> e == d + name + "/" || Leads(e, d)
  {
    var c := d + name + "/";
    assert forall i :: |d| <= i < |c| - 1 ==> c[i] == name[i - |d|];
    assert c[|d| - 1] == '/';
    forall e | Leads(e, c) ensures e == c || Leads(e, d) {
      assert c[|e| - 1] == '/';
      if e != c {
        assert |e| <= |d|;
      }
    }
  }

  /** A clean name but the root is its parent's extension. */
  lemma Shorten(d: string)
    requires Clean(d) && d != "/"
    ensures Clean(Parent(d)) && Parent(d) + Base(d) == d && |Base(d)| >= 2
    ensures EndsWithSlash(Base(d)) && IsName(Base(d)[..|Base(d)| - 1])
  {
    var p := LastSlashBefore(d, |d| - 1);
    assert d[0] == '/' && p >= 0;
    assert d[|d| - 1] == '/' && d[|d| - 2] != '/';
  }

  /** The clean name that MakeDirectories builds from pieces: the empty ones are left out. */
  function Canon(parts: seq<string>): string {
    if parts == [] then "/" else
    var front, last := Canon(parts[..|parts| - 1]), parts[|parts| - 1];
    if last == "" then front else front + last + "/"
  }

  lemma {:induction false} CanonIsClean(parts: seq<string>)
    requires forall i :: 0 <= i < |parts| ==> NoSlash(parts[i])
    ensures Clean(Canon(parts))
    decreases |parts|
  {
    if parts != [] {
      CanonIsClean(parts[..|parts| - 1]);
      if parts[|parts| - 1] != "" {
        Extend(Canon(parts[..|parts| - 1]), parts[|parts| - 1]);
      }
    }
  }

  lemma SplitStep(q: string, name: string)
    requires NoSlash(name)
    ensures Split(q + "/" + name) == Split(q) + [name]
  {
    var t := q + "/" + name;
    assert t[|q|] == '/';
    assert forall i :: |q| < i < |t| ==> t[i] == name[i - |q| - 1];
    assert LastSlashBefore(t, |t|) == |q| && t[..|q|] == q && t[|q| + 1..] == name;
  }

  lemma CanonStep(q: string, name: string)
    requires NoSlash(name)
    ensures Canon(Split(q + "/" + name)) == if name == "" then Canon(Split(q)) else Canon(Split(q)) + name + "/"
  {
    SplitStep(q, name);
    assert (Split(q) + [name])[..|Split(q)|] == Split(q);
  }

  /** Splitting a clean name and putting it together again gives it back. */
  lemma {:induction false} CleanIsCanon(d: string)
    requires Clean(d)
    ensures Canon(Split(d)) == d
    decreases |d|
  {
    hide Split, Canon, Clean, NoSlash;
    if d == "/" {
      assert "" + "/" + "" == d;
      CanonStep("", "");
      CanonOfNothing();
    } else {
      var q, name := CleanParts(d);
      CleanIsCanon(q + "/");
      assert q + "/" + "" == q + "/";
      CanonStep(q, "");
      CanonStep(q, name);
      CanonStep(q + "/" + name, "");
      assert q + "/" + name + "/" + "" == d;
    }
  }

  lemma CleanParts(d: string) returns (q: string, name: string)
    requires Clean(d) && d != "/"
    ensures d == q + "/" + name + "/" && Clean(q + "/") && name != "" && NoSlash(name) && NoSlash("")
  {
    Shorten(d);
    hide Parent, Base, Clean;
    q, name := Parent(d)[..|Parent(d)| - 1], Base(d)[..|Base(d)| - 1];
    assert Parent(d) == q + "/" by {
      EndsIn(Parent(d));
    }
    assert Base(d) == name + "/";
    assert d == (q + "/") + (name + "/");
  }

  lemma EndsIn(d: string)
    requires Clean(d)
    ensures d == d[..|d| - 1] + "/"
  {
  }

  lemma CanonOfNothing()
    ensures Canon(Split("")) == "/"
  {
    assert Canon([""]) == "/";
  }

  lemma {:induction false} SplitAt(a: string, b: string)
    ensures Split(a + "/" + b) == Split(a) + Split(b)
    decreases |b|
  {
    hide Split;
    var p := LastSlashBefore(b, |b|);
    if p < 0 {
      NoSlashes(b);
      SplitStep(a, b);
    } else {
      var front, last := b[..p], b[p + 1..];
      assert b == front + "/" + last;
      SplitAt(a, front);
      SplitStep(front, last);
      SplitStep(a + "/" + front, last);
      assert a + "/" + front + "/" + last == a + "/" + b;
    }
  }

  lemma NoSlashes(s: string)
    requires LastSlashBefore(s, |s|) < 0
    ensures NoSlash(s) && Split(s) == [s]
  {
  }

  lemma {:induction false} CanonSkipsEmpty(a: seq<string>, b: seq<string>)
    ensures Canon(a + [""] + b) == Canon(a + b)
    decreases |b|
  {
    if b == [] {
      assert (a + [""] + b)[..|a|] == a && a + b == a;
    } else {
      var front := b[..|b| - 1];
      CanonSkipsEmpty(a, front);
      assert (a + [""] + b)[..|a| + |b|] == a + [""] + front;
      assert (a + b)[..|a| + |b| - 1] == a + front;
    }
  }

  /** A slash in front, and a second slash between two components, do not change the canonical name. */
  lemma CanonIgnoresSlashes(a: string, b: string)
    ensures Canon(Split("/" + b)) == Canon(Split(b))
    ensures Canon(Split(a + "//" + b)) == Canon(Split(a + "/" + b))
  {
    hide Split, Canon;
    NothingSplits();
    assert "" + "/" + b == "/" + b;
    SplitAt("", b);
    assert a + "/" + ("/" + b) == a + "//" + b;
    SplitAt(a, "/" + b);
    SplitAt(a, b);
    CanonSkipsEmpty([], Split(b));
    assert [] + [""] + Split(b) == [""] + Split(b) && [] + Split(b) == Split(b);
    CanonSkipsEmpty(Split(a), Split(b));
    assert Split(a) + [""] + Split(b) == Split(a) + ([""] + Split(b));
  }

  lemma NothingSplits()
    ensures Split("") == [""]
  {
  }

  // ----- The tree

  /** Names that end with a slash are subdirectories, which have their own entries; the others are files. */
  ghost predicate GoodEntry(m: Dirs, d: string, n: string)
    requires d in m && n in m[d]
  {
    if EndsWithSlash(n) then IsName(n[..|n| - 1]) && d + n in m && m[d][n] == Directory else IsName(n)
  }

  predicate Listed(m: Dirs, d: string) {
    d != "" && Parent(d) in m && Base(d) in m[Parent(d)]
  }

  ghost predicate Tree(m: Dirs) {
    && "/" in m
    && (forall d {:trigger Clean(d)} :: d in m ==> Clean(d))
    && (forall d {:trigger Listed(m, d)} :: d in m && d != "/" ==> Listed(m, d))
    && (forall d, n {:trigger GoodEntry(m, d, n)} :: d in m && n in m[d] ==> GoodEntry(m, d, n))
  }

  /** Every directory on the way to a directory is there. */
  lemma {:induction false} AncestorsExist(m: Dirs, d: string, e: string)
    requires Tree(m) && d in m && Leads(e, d)
    ensures e in m
    decreases |d|
  {
    if e != d {
      assert d != "/" && Clean(d);
      assert Listed(m, d);
      Shorten(d);
      hide Parent, Base, Clean;
      var name := Base(d)[..|Base(d)| - 1];
      assert d == Parent(d) + name + "/";
      Extend(Parent(d), name);
      AncestorsExist(m, Parent(d), e);
    }
  }

  predicate HasDir(m: Dirs, dirname: string) {
    EnsurePathEndsWithSlash(dirname) in m
  }

  predicate HasFile(m: Dirs, pathname: string) {
    !EndsWithSlash(pathname) && SplitPath(pathname).0 in m && SplitPath(pathname).1 in m[SplitPath(pathname).0]
  }

  /** A file named `n` of type `t` is listed under `d`. */
  predicate FileAt(m: Dirs, d: string, n: string, t: Type) {
    !EndsWithSlash(n) && d in m && n in m[d] && m[d][n] == t
  }

  /** A file is listed under this very name. */
  ghost predicate Listing(m: Dirs, pathname: string) {
    exists d, n, t :: FileAt(m, d, n, t) && d + n == pathname
  }

  ghost predicate SameFiles(m: Dirs, m': Dirs) {
    forall d, n, t :: FileAt(m', d, n, t) <==> FileAt(m, d, n, t)
  }

  function Inserted(m: Dirs, d: string, n: string, t: Type): Dirs
    requires d in m
  {
    if n in m[d] then m else m[d := m[d][n := t]]
  }

  function Made(m: Dirs, d: string): Dirs {
    if d in m then m else m[d := map[]]
  }

  /** Listing a subdirectory and giving it its own entries keeps the tree. */
  lemma SubdirectoryKeeps(m: Dirs, d: string, name: string)
    requires Tree(m) && d in m && IsName(name)
    ensures Tree(Made(Inserted(m, d, name + "/", Directory), d + name + "/"))
  {
    hide Clean;
    Extend(d, name);
    var c, n := d + name + "/", name + "/";
    assert d + n == c && n[..|n| - 1] == name && EndsWithSlash(n);
    if c in m {
      assert Listed(m, c);
    } else {
      assert n in m[d] ==> GoodEntry(m, d, n);
      SubdirectoryAdded(m, d, n, m[d := m[d][n := Directory]][c := map[]]);
    }
  }

  lemma SubdirectoryAdded(m: Dirs, d: string, n: string, m': Dirs)
    requires Tree(m) && d in m && EndsWithSlash(n) && IsName(n[..|n| - 1]) && n !in m[d]
    requires d + n !in m && Clean(d + n) && Parent(d + n) == d && Base(d + n) == n
    requires m' == m[d := m[d][n := Directory]][d + n := map[]]
    ensures Tree(m')
  {
    hide Parent, Base, Clean, GoodEntry;
    forall e | e in m' && e != "/" ensures Listed(m', e) {
      if e != d + n {
        assert Listed(m, e);
      }
    }
    forall e, k | e in m' && k in m'[e] ensures GoodEntry(m', e, k) {
      assert e in m;
      if k in m[e] {
        assert GoodEntry(m, e, k);
        EntryStays(m, m', e, k);
      } else {
        assert e == d && k == n;
        NewEntry(m', d, n);
      }
    }
  }

  lemma EntryStays(m: Dirs, m': Dirs, e: string, k: string)
    requires e in m && k in m[e] && GoodEntry(m, e, k)
    requires e in m' && k in m'[e] && m'[e][k] == m[e][k] && (e + k in m ==> e + k in m')
    ensures GoodEntry(m', e, k)
  {
  }

  lemma NewEntry(m: Dirs, d: string, n: string)
    requires EndsWithSlash(n) && IsName(n[..|n| - 1])
    requires d in m && n in m[d] && d + n in m && m[d][n] == Directory
    ensures GoodEntry(m, d, n)
  {
  }

  lemma SubdirectoryMeans(m: Dirs, d: string, name: string)
    requires d in m && IsName(name)
    ensures var m' := Made(Inserted(m, d, name + "/", Directory), d + name + "/");
      SameFiles(m, m') && m'.Keys == m.Keys + {d + name + "/"}
  {
  }

  /** Listing a file, or taking it off the list, keeps the tree. */
  lemma FileChangeKeeps(m: Dirs, d: string, n: string, files: Files)
    requires Tree(m) && d in m && IsName(n)
    requires files - {n} == m[d] - {n}
    ensures Tree(m[d := files])
  {
    hide Listed, Clean, GoodEntry, IsName, EndsWithSlash;
    var m' := m[d := files];
    forall e | e in m' && e != "/" ensures Listed(m', e) {
      assert Listed(m, e) && Clean(e);
      ChangeKeepsListed(m, d, n, files, e);
    }
    forall e, k | e in m' && k in m'[e] ensures GoodEntry(m', e, k) {
      if e == d && k == n {
        FileEntry(m', d, n);
      } else {
        OtherEntries(m[d], files, n, k);
        assert GoodEntry(m, e, k);
        EntryStays(m, m', e, k);
      }
    }
  }

  lemma ChangeKeepsListed(m: Dirs, d: string, n: string, files: Files, e: string)
    requires d in m && IsName(n) && files - {n} == m[d] - {n} && Clean(e) && e != "/" && Listed(m, e)
    ensures Listed(m[d := files], e)
  {
    hide Parent, Clean;
    Shorten(e);
    assert Base(e) != n;
    OtherEntries(m[d], files, n, Base(e));
  }

  lemma OtherEntries(was: Files, now: Files, n: string, k: string)
    requires now - {n} == was - {n}
    ensures k != n ==> (k in now <==> k in was) && (k in now ==> now[k] == was[k])
  {
    assert k in now - {n} <==> k in was - {n};
    assert k in now - {n} ==> (now - {n})[k] == (was - {n})[k];
  }

  lemma FileEntry(m: Dirs, d: string, n: string)
    requires d in m && n in m[d] && IsName(n)
    ensures GoodEntry(m, d, n)
  {
    assert n[|n| - 1] != '/';
  }

  /** Dropping an empty directory from the map and from its parent keeps the tree. */
  lemma DirectoryRemovalKeeps(m: Dirs, c: string)
    requires Tree(m) && c in m && Clean(c) && c != "/" && m[c] == map[]
    ensures var p := Parent(c); p in m && p != c && Base(c) in m[p]
    ensures var p := Parent(c); Tree((m - {c})[p := m[p] - {Base(c)}])
    ensures var p := Parent(c); SameFiles(m, (m - {c})[p := m[p] - {Base(c)}])
  {
    hide GoodEntry, SameFiles;
    assert Listed(m, c);
    Shorten(c);
    hide Parent, Base, Clean, EndsWithSlash;
    DirectoryDropped(m, c, (m - {c})[Parent(c) := m[Parent(c)] - {Base(c)}]);
    FilesStay(m, c, Parent(c), Base(c));
  }

  lemma ListedStays(m: Dirs, c: string, m': Dirs, e: string)
    requires Clean(c) && Clean(e) && c != "/" && e != "/" && e != c && c in m && m[c] == map[]
    requires Listed(m, c) && Listed(m, e) && m' == (m - {c})[Parent(c) := m[Parent(c)] - {Base(c)}]
    ensures Listed(m', e)
  {
    Shorten(e);
    Shorten(c);
    hide Parent, Base, Clean;
  }

  lemma DirectoryDropped(m: Dirs, c: string, m': Dirs)
    requires Tree(m) && c in m && Clean(c) && c != "/" && m[c] == map[]
    requires Listed(m, c) && Parent(c) != c && m' == (m - {c})[Parent(c) := m[Parent(c)] - {Base(c)}]
    ensures Tree(m')
  {
    hide Parent, Base, Clean, GoodEntry, EndsWithSlash;
    forall e | e in m' && e != "/" ensures Listed(m', e) {
      assert Listed(m, e) && Clean(e);
      ListedStays(m, c, m', e);
    }
    forall e, k | e in m' && k in m'[e] ensures GoodEntry(m', e, k) {
      assert GoodEntry(m, e, k);
      if e + k == c {
        Child(m, e, k, c);
      }
      EntryStays(m, m', e, k);
    }
  }

  lemma FilesStay(m: Dirs, c: string, p: string, b: string)
    requires c in m && p in m && p != c && m[c] == map[] && EndsWithSlash(b)
    ensures SameFiles(m, (m - {c})[p := m[p] - {b}])
  {
    hide EndsWithSlash;
  }

  /** The subdirectory that an entry stands for is `c` only if it is the entry of `c` in its parent. */
  lemma Child(m: Dirs, e: string, k: string, c: string)
    requires Tree(m) && e in m && k in m[e] && c in m && c != "/" && e + k == c && Clean(c)
    ensures e == Parent(c) && k == Base(c)
  {
    assert Clean(e) && Clean(c);
    assert GoodEntry(m, e, k);
    hide Parent, Base, Tree;
    assert k != "" && k[|k| - 1] == c[|c| - 1];
    var name := k[..|k| - 1];
    assert k == name + "/" && e + name + "/" == c;
    Extend(e, name);
  }

  /** The directories and the files determine the tree. */
  lemma TreeIsDetermined(m: Dirs, m': Dirs)
    requires Tree(m) && Tree(m') && m.Keys == m'.Keys && SameFiles(m, m')
    ensures m == m'
  {
    forall d | d in m ensures m[d] == m'[d] {
      forall n | n in m[d] ensures n in m'[d] && m'[d][n] == m[d][n] {
        EntryInBoth(m, m', d, n);
      }
      forall n | n in m'[d] ensures n in m[d] {
        EntryInBoth(m', m, d, n);
      }
    }
  }

  lemma EntryInBoth(m: Dirs, m': Dirs, d: string, n: string)
    requires Tree(m) && Tree(m') && m.Keys == m'.Keys && SameFiles(m, m') && d in m && n in m[d]
    ensures n in m'[d] && m'[d][n] == m[d][n]
  {
    assert GoodEntry(m, d, n);
    if EndsWithSlash(n) {
      var c := d + n;
      assert Clean(c) && Clean(d);
      Extend(d, n[..|n| - 1]);
      assert d + n[..|n| - 1] + "/" == c;
      assert n[..|n| - 1] + "/" == n;
      assert Listed(m', c);
      assert GoodEntry(m', d, n);
    } else {
      assert FileAt(m, d, n, m[d][n]);
      assert FileAt(m', d, n, m[d][n]);
    }
  }

  // ----- The operations

  predicate DoubleSlash(path: string) {
    exists i :: 0 < i < |path| && path[i] == '/' && path[i - 1] == '/'
  }

  /** The directory part of an absolute file name is clean exactly when the name has no empty component. */
  lemma CleanDirectory(pathname: string)
    requires pathname != "" && pathname[0] == '/' && !EndsWithSlash(pathname)
    ensures var d := SplitPath(pathname).0;
      && IsName(SplitPath(pathname).1) && !EndsWithSlash(SplitPath(pathname).1)
      && EndsWithSlash(d) && d[0] == '/' && (Clean(d) <==> !DoubleSlash(pathname))
    ensures forall e :: Leads(e, SplitPath(pathname).0) <==> Leads(e, pathname)
  {
  }

  lemma RootIsMade(m: Dirs)
    requires Tree(m)
    ensures "/" in m && forall e :: Leads(e, "/") <==> e == "/"
  {
    assert forall e :: Leads(e, "/") ==> |e| == 1 && e == "/";
  }

  lemma AllAncestorsExist(m: Dirs, d: string)
    requires Tree(m)
    ensures d in m ==> Clean(d) && forall e :: Leads(e, d) ==> e in m
  {
    if d in m {
      assert Clean(d);
      forall e | Leads(e, d) ensures e in m {
        AncestorsExist(m, d, e);
      }
    }
  }

  lemma DirNameIsParent(c: string)
    requires Clean(c) && c != "/"
    ensures EnsurePathEndsWithSlash(GetDirName(c)) == Parent(c) && Parent(c) + Base(c) == c
  {
    var p := LastSlashBefore(c, |c| - 1);
    assert c[0] == '/' && p >= 0;
    hide LastSlashBefore;
    if p > 0 {
      assert c[p - 1] != '/' && c[..p][p - 1] != '/';
      assert c[..p + 1] == c[..p] + [c[p]];
    }
  }

  lemma RootDirName()
    ensures EnsurePathEndsWithSlash(GetDirName("/")) == "/"
  {
    DirNameOfJoined("", "", "");
    assert "" + "/" + "" + "" == "/";
  }

  lemma SlashedRoot(dirname: string)
    requires dirname != "/"
    ensures EnsurePathEndsWithSlash(dirname) == "/" <==> dirname == ""
  {
  }

  lemma KeyIsClean(m: Dirs, d: string)
    requires Tree(m) && d in m
    ensures Clean(d)
  {
  }

  /** StatDirectory finds a directory by its name with or without the slash at the end. */
  lemma StatDirectoryMeaning(m: Dirs, dirname: string)
    requires Tree(m)
    ensures HasDir(m, dirname) <==> exists d :: d in m && (d == dirname || d == dirname + "/")
  {
    if d :| d in m && (d == dirname || d == dirname + "/") {
      KeyIsClean(m, d);
      if EndsWithSlash(dirname) && d == dirname + "/" {
        assert d[|dirname|] == '/' && d[|dirname| - 1] == '/';
      }
    }
  }

  /** StatFile finds what is listed, and nothing else. */
  lemma StatFileMeaning(m: Dirs, d: string, n: string)
    requires Tree(m) && (d == "" || EndsWithSlash(d)) && NoSlash(n)
    ensures HasFile(m, d + n) <==> exists t :: FileAt(m, d, n, t)
  {
    SplitsOneWay(d, n);
    if d in m && n in m[d] {
      assert GoodEntry(m, d, n);
      assert n != "" ==> (d + n)[|d + n| - 1] == n[|n| - 1];
      assert FileAt(m, d, n, m[d][n]);
    }
  }

  lemma SplitsOneWay(d: string, n: string)
    requires (d == "" || EndsWithSlash(d)) && NoSlash(n)
    ensures SplitPath(d + n) == (d, n)
  {
    hide SplitPath;
    var r := SplitPath(d + n);
    CutPlace(d, n);
    CutPlace(r.0, r.1);
    assert r.0 == (r.0 + r.1)[..|r.0|] && d == (d + n)[..|d|];
    assert r.1 == (r.0 + r.1)[|r.0|..] && n == (d + n)[|d|..];
  }

  lemma CutPlace(d: string, n: string)
    requires (d == "" || EndsWithSlash(d)) && NoSlash(n)
    ensures LastSlashBefore(d + n, |d + n|) == |d| - 1
  {
    hide LastSlashBefore;
    var s := d + n;
    assert forall i :: |d| <= i < |s| ==> s[i] == n[i - |d|];
    assert d != "" ==> s[|d| - 1] == '/';
  }

  /** What is listed is found by splitting the name. */
  lemma ListingMeaning(m: Dirs, pathname: string)
    requires Tree(m)
    ensures Listing(m, pathname) <==>
      SplitPath(pathname).0 in m && SplitPath(pathname).1 in m[SplitPath(pathname).0] && !EndsWithSlash(pathname)
  {
    hide SplitPath;
    var d, n := SplitPath(pathname).0, SplitPath(pathname).1;
    if d in m && n in m[d] && !EndsWithSlash(pathname) {
      assert GoodEntry(m, d, n);
      assert FileAt(m, d, n, m[d][n]);
    }
    if d', n', t :| FileAt(m, d', n', t) && d' + n' == pathname {
      assert Clean(d') && GoodEntry(m, d', n');
      SplitsOneWay(d', n');
      assert pathname[|pathname| - 1] == n'[|n'| - 1];
    }
  }

  class DirectoryManager {
    var dirs: Dirs

    constructor ()
      ensures Tree(dirs) && dirs == map["/" := map[]]
    {
      dirs := map["/" := map[]];
    }

    /** Makes the directory and those on the way to it, whatever the name looks like: empty components do not count. */
    method MakeDirectories(dirname: string)
      requires Tree(dirs)
      modifies this
      ensures Tree(dirs) && SameFiles(old(dirs), dirs)
      ensures forall e :: e in dirs <==> e in old(dirs) || Leads(e, Canon(Split(EnsurePathEndsWithSlash(dirname))))
    {
      hide Tree, Clean, Leads, FileAt, EndsWithSlash, EnsurePathEndsWithSlash;
      RootIsMade(dirs);
      var paths := Split(EnsurePathEndsWithSlash(dirname));
      var currentPath := "/";
      for i := 0 to |paths|
        invariant Tree(dirs) && (forall d, n, t :: FileAt(dirs, d, n, t) <==> FileAt(old(dirs), d, n, t))
        invariant currentPath == Canon(paths[..i]) && currentPath in dirs
        invariant forall e :: e in dirs <==> e in old(dirs) || Leads(e, currentPath)
      {
        assert paths[..i + 1][..i] == paths[..i];
        if paths[i] != "" {
          MakeSubdirectory(currentPath, paths[i]);
          currentPath := currentPath + paths[i] + "/";
        }
      }
      assert paths[..|paths|] == paths;
    }

    method MakeSubdirectory(directory: string, name: string)
      requires Tree(dirs) && directory in dirs && IsName(name)
      modifies this
      ensures Tree(dirs) && SameFiles(old(dirs), dirs)
      ensures dirs.Keys == old(dirs).Keys + {directory + name + "/"}
      ensures forall e :: Leads(e, directory + name + "/") <==> e == directory + name + "/" || Leads(e, directory)
    {
      assert Clean(directory);
      Extend(directory, name);
      SubdirectoryKeeps(dirs, directory, name);
      SubdirectoryMeans(dirs, directory, name);
      var _ := AddFileInternal(directory, name + "/", Directory);
      var _ := MakeDirectory(directory + name + "/");
    }

    method MakeDirectory(dirname: string) returns (made: bool)
      modifies this
      ensures dirs == if EndsWithSlash(dirname) then Made(old(dirs), dirname) else old(dirs)
      ensures made <==> EndsWithSlash(dirname) && dirname !in old(dirs)
    {
      if !EndsWithSlash(dirname) {
        return false;
      }
      made := dirname !in dirs;
      if made {
        dirs := dirs[dirname := map[]];
      }
    }

    method AddFileInternal(directory: string, filename: string, t: Type) returns (added: bool)
      requires directory in dirs
      modifies this
      ensures dirs == Inserted(old(dirs), directory, filename, t)
      ensures added <==> filename !in old(dirs)[directory]
    {
      added := filename !in dirs[directory];
      if added {
        dirs := dirs[directory := dirs[directory][filename := t]];
      }
    }

    /** Lists a file, and makes its directory if need be. The assertion that the directory was made fails exactly when
        the path has an empty component. */
    method AddFileWithType(pathname: string, t: Type) returns (r: Outcome)
      requires Tree(dirs)
      modifies this
      ensures var refused :=
          pathname == "" || pathname[0] != '/' || EndsWithSlash(pathname) || pathname + "/" in old(dirs);
        && (refused ==> r == Done(false) && dirs == old(dirs))
        && (r.Aborted? <==> !refused && DoubleSlash(pathname))
        && (!refused && r.Done? ==> Tree(dirs) && (r.value <==> !Listing(old(dirs), pathname)))
        && (!refused && r.Done? ==> forall e :: e in dirs <==> e in old(dirs) || Leads(e, pathname))
        && (!refused && r.Done? ==>
              forall d, n, k :: FileAt(dirs, d, n, k) <==>
                FileAt(old(dirs), d, n, k) || (r.value && (d, n) == SplitPath(pathname) && k == t))
    {
      hide Tree, Clean, Leads, SplitPath, FileAt, EndsWithSlash, DoubleSlash, IsName;
      if pathname == "" || pathname[0] != '/' || EndsWithSlash(pathname) {
        return Done(false);
      }
      if HasDir(dirs, pathname) {
        return Done(false);
      }
      ListingMeaning(dirs, pathname);
      CleanDirectory(pathname);
      var dirAndFile := SplitPath(pathname);
      var directory, file := dirAndFile.0, dirAndFile.1;
      if !HasDir(dirs, directory) {
        MakeFileDirectory(directory);
      } else {
        AllAncestorsExist(dirs, directory);
      }
      if directory !in dirs {
        return Aborted;
      }
      var added := AddFileEntry(directory, file, t);
      return Done(added);
    }

    /** MakeDirectories, for the directory of a file that has none yet. */
    method MakeFileDirectory(directory: string)
      requires Tree(dirs) && EndsWithSlash(directory) && directory !in dirs
      modifies this
      ensures Tree(dirs) && SameFiles(old(dirs), dirs)
      ensures directory in dirs <==> Clean(directory)
      ensures Clean(directory) ==> forall e :: e in dirs <==> e in old(dirs) || Leads(e, directory)
      ensures directory in dirs ==> forall n :: n in dirs[directory] ==> EndsWithSlash(n)
    {
      hide Split, Canon, GoodEntry;
      MakeDirectories(directory);
      if Clean(directory) {
        CleanIsCanon(directory);
        assert Leads(directory, directory);
      }
      forall n | directory in dirs && n in dirs[directory] ensures EndsWithSlash(n) {
        var t := dirs[directory][n];
        assert FileAt(dirs, directory, n, t) <==> FileAt(old(dirs), directory, n, t);
      }
    }

    /** AddFileInternal, for a file. */
    method AddFileEntry(directory: string, file: string, t: Type) returns (added: bool)
      requires Tree(dirs) && directory in dirs && IsName(file)
      modifies this
      ensures Tree(dirs) && dirs.Keys == old(dirs).Keys
      ensures added <==> file !in old(dirs)[directory]
      ensures forall d, n, k :: FileAt(dirs, d, n, k) <==>
        FileAt(old(dirs), d, n, k) || (added && (d, n) == (directory, file) && k == t)
    {
      hide Tree;
      FileChangeKeeps(dirs, directory, file, dirs[directory][file := t]);
      added := AddFileInternal(directory, file, t);
    }

    method RemoveFile(pathname: string) returns (removed: bool)
      requires Tree(dirs)
      modifies this
      ensures Tree(dirs) && dirs.Keys == old(dirs).Keys
      ensures removed <==> Listing(old(dirs), pathname)
      ensures forall d, n, k :: FileAt(dirs, d, n, k) <==> FileAt(old(dirs), d, n, k) && (d, n) != SplitPath(pathname)
    {
      ListingMeaning(dirs, pathname);
      assert forall d :: d in dirs && "" in dirs[d] ==> GoodEntry(dirs, d, "");
      if EndsWithSlash(pathname) {
        return false;
      }
      var dirAndFile := SplitPath(pathname);
      var directory, file := dirAndFile.0, dirAndFile.1;
      if directory !in dirs {
        return false;
      }
      assert Clean(directory);
      FileChangeKeeps(dirs, directory, file, dirs[directory] - {file});
      removed := file in dirs[directory];
      dirs := dirs[directory := dirs[directory] - {file}];
    }

    /** Removes an empty directory but the root. The assertion that its parent lists it fails only for the empty name
        when the root is empty, which the test for the root does not catch. */
    method RemoveDirectory(dirname: string) returns (r: Outcome)
      requires Tree(dirs)
      modifies this
      ensures r.Aborted? <==> dirname == "" && old(dirs)["/"] == map[]
      ensures var c := EnsurePathEndsWithSlash(dirname);
        && (r == Done(true) <==> c != "/" && c in old(dirs) && old(dirs)[c] == map[])
        && (r == Done(true) ==> Tree(dirs) && SameFiles(old(dirs), dirs) && dirs.Keys == old(dirs).Keys - {c})
        && (r == Done(false) ==> dirs == old(dirs))
    {
      hide Parent, Base, Tree, Clean, SameFiles;
      if dirname == "/" {
        return Done(false);
      }
      var dirnameSlash := EnsurePathEndsWithSlash(dirname);
      SlashedRoot(dirname);
      if dirnameSlash !in dirs || dirs[dirnameSlash] != map[] {
        RootIsMade(dirs);
        return Done(false);
      }
      if dirnameSlash != "/" {
        KeyIsClean(dirs, dirnameSlash);
        DirectoryRemovalKeeps(dirs, dirnameSlash);
      }
      r := Unlist(dirnameSlash);
    }

    /** The rest of RemoveDirectory: takes the directory out of the map, and then out of its parent's list. */
    method Unlist(dirname: string) returns (r: Outcome)
      requires Tree(dirs) && dirname in dirs && dirs[dirname] == map[] && dirname != ""
      modifies this
      ensures r == if dirname == "/" then Aborted else Done(true)
      ensures dirname != "/" ==>
        && Parent(dirname) in old(dirs) && Parent(dirname) != dirname
        && dirs == (old(dirs) - {dirname})[Parent(dirname) := old(dirs)[Parent(dirname)] - {Base(dirname)}]
    {
      hide Parent, Base, GetDirName, Tree, Clean, SameFiles, EnsurePathEndsWithSlash;
      if dirname != "/" {
        KeyIsClean(dirs, dirname);
        DirectoryRemovalKeeps(dirs, dirname);
        DirNameIsParent(dirname);
      } else {
        RootDirName();
      }
      var parent := EnsurePathEndsWithSlash(GetDirName(dirname));
      dirs := dirs - {dirname};
      if parent !in dirs {
        return Aborted;
      }
      var name := dirname[|parent|..];
      if name !in dirs[parent] {
        return Aborted;
      }
      dirs := dirs[parent := dirs[parent] - {name}];
      return Done(true);
    }
  }

  /** A path with an empty component: its canonical directory is made, and then the one with two slashes looked up. */
  method AddFileAborts() returns (r: Outcome)
    ensures r.Aborted?
  {
    var manager := new DirectoryManager();
    var path := "/a//b";
    assert path[2] == '/' && path[1] == 'a' && path[3] == '/';
    assert EnsurePathEndsWithSlash(path) == "/a//b/";
    r := manager.AddFileWithType(path, Regular);
  }

  /** The empty name stands for the root, but gets past the test for it. */
  method RemoveDirectoryAborts() returns (r: Outcome)
    ensures r.Aborted?
  {
    var manager := new DirectoryManager();
    r := manager.RemoveDirectory("");
  }
}
