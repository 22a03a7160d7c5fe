/** The table of file descriptors, and the references it holds to file streams. */
module FdTable {

  // ----- The standard library's heap of integers, the least in front

  predicate InOrder(h: seq<int>, i: int)
    requires 0 < i < |h|
  {
    h[(i - 1) / 2] <= h[i]
  }

  predicate IsHeap(h: seq<int>) {
    forall i :: 0 < i < |h| ==> InOrder(h, i)
  }

  /** The heap `h` holds what `s` does. */
  predicate Arranges(h: seq<int>, s: seq<int>) {
    IsHeap(h) && multiset(h) == multiset(s)
  }

  lemma {:induction false} FrontIsLeast(h: seq<int>, i: nat)
    requires IsHeap(h) && i < |h|
    ensures h[0] <= h[i]
    decreases i
  {
    if i > 0 {
      assert InOrder(h, i);
      FrontIsLeast(h, (i - 1) / 2);
    }
  }

  ghost predicate Ascending(s: seq<int>) {
    forall i, j {:trigger s[i], s[j]} :: 0 <= i < j < |s| ==> s[i] <= s[j]
  }

  lemma Append(s: seq<int>, y: int)
    requires Ascending(s) && forall i :: 0 <= i < |s| ==> s[i] <= y
    ensures Ascending(s + [y])
  {
  }

  lemma LastIsMost(s: seq<int>)
    requires Ascending(s) && s != []
    ensures Ascending(s[..|s| - 1]) && forall i :: 0 <= i < |s| ==> s[i] <= s[|s| - 1]
  {
  }

  lemma {:induction false} Insert(s: seq<int>, x: int) returns (r: seq<int>)
    requires Ascending(s)
    ensures Ascending(r) && multiset(r) == multiset(s) + multiset{x}
  {
    hide Ascending;
    if s == [] {
      r := [x];
      Append(s, x);
      assert s + [x] == [x];
      return;
    }
    LastIsMost(s);
    if s[|s| - 1] <= x {
      Append(s, x);
      r := s + [x];
    } else {
      var front, last := s[..|s| - 1], s[|s| - 1];
      assert s == front + [last];
      var q := Insert(front, x);
      forall i | 0 <= i < |q| ensures q[i] <= last {
        assert q[i] in multiset(q);
        assert q[i] == x || q[i] in front;
      }
      Append(q, last);
      r := q + [last];
    }
  }

  lemma {:induction false} HeapExists(s: seq<int>) returns (h: seq<int>)
    ensures Ascending(h) && Arranges(h, s)
  {
    if s == [] {
      h := [];
    } else {
      assert s == s[..|s| - 1] + [s[|s| - 1]];
      h := HeapExists(s[..|s| - 1]);
      h := Insert(h, s[|s| - 1]);
    }
  }

  /** make_heap, push_heap and pop_heap choose how they arrange the heap. */
  method Arrange(s: seq<int>) returns (h: seq<int>)
    ensures Arranges(h, s)
  {
    ghost var w := HeapExists(s);
    h :| Arranges(h, s);
  }

  /** remove and erase. */
  function Without(s: seq<int>, x: int): (r: seq<int>)
    ensures multiset(r) == multiset(s)[x := 0]
  {
    if s == [] then [] else
    assert s == [s[0]] + s[1..];
    if s[0] == x then Without(s[1..], x) else [s[0]] + Without(s[1..], x)
  }

  /** The front of a heap that holds a set is the least of the set. */
  lemma HeapFront(h: seq<int>, s: set<int>)
    requires IsHeap(h) && multiset(h) == multiset(s) && h != []
    ensures h[0] in s && forall k :: k in s ==> h[0] <= k
  {
    assert h[0] in multiset(h);
    forall k | k in s ensures h[0] <= k {
      assert k in multiset(s);
      assert k in h;
      var i :| 0 <= i < |h| && h[i] == k;
      FrontIsLeast(h, i);
    }
  }

  lemma FreeNone(s: set<int>)
    requires multiset([]) == multiset(s)
    ensures s == {}
  {
    assert |s| == |multiset(s)|;
  }

  // ----- File streams

  class FileStream {
    var fileRefCount: nat
    var hadFileRefs: bool
    /** Who is to be told about events, by file. */
    var listeners: seq<nat>
    /** How often each listener was told that the stream was closed. */
    ghost var told: multiset<nat>
    /** How often OnLastFileRef ran. */
    ghost var lastRefs: nat

    constructor ()
      ensures fileRefCount == 0 && !IsClosed() && Valid()
    {
      fileRefCount, hadFileRefs, listeners := 0, false, [];
      told, lastRefs := multiset{}, 0;
    }

    predicate IsClosed()
      reads this
    {
      hadFileRefs && fileRefCount == 0
    }

    /** OnLastFileRef ran once if the stream is closed, and never if it is not. */
    ghost predicate Valid()
      reads this
    {
      (fileRefCount > 0 ==> hadFileRefs) && lastRefs == if IsClosed() then 1 else 0
    }

    method AddFileRef()
      requires Valid() && !IsClosed()
      modifies this`fileRefCount, this`hadFileRefs
      ensures Valid() && fileRefCount == old(fileRefCount) + 1
    {
      fileRefCount := fileRefCount + 1;
      hadFileRefs := true;
    }

    method OnLastFileRef()
      requires listeners == []
      modifies this`lastRefs
      ensures lastRefs == old(lastRefs) + 1
    {
      lastRefs := lastRefs + 1;
    }

    /** When the last reference goes, every listener is told once, and only then OnLastFileRef runs, with no listener
        left. */
    method ReleaseFileRef()
      requires Valid() && !IsClosed() && hadFileRefs && fileRefCount > 0
      modifies this
      ensures Valid() && hadFileRefs && fileRefCount == old(fileRefCount) - 1
      ensures fileRefCount > 0 ==> listeners == old(listeners) && told == old(told)
      ensures fileRefCount == 0 ==> listeners == [] && told == old(told) + multiset(old(listeners))
    {
      fileRefCount := fileRefCount - 1;
      if fileRefCount != 0 {
        return;
      }
      for i := 0 to |listeners|
        invariant listeners == old(listeners) && fileRefCount == 0 && hadFileRefs && lastRefs == 0
        invariant told == old(told) + multiset(listeners[..i])
      {
        assert listeners[..i + 1] == listeners[..i] + [listeners[i]];
        told := told + multiset{listeners[i]};
      }
      assert listeners[..|listeners|] == listeners;
      listeners := [];
      OnLastFileRef();
    }
  }

  // ----- The table

  type Streams = map<int, FileStream?>

  /** The descriptors bound to a stream. */
  function Bound(m: Streams, s: FileStream): set<int> {
    set fd | fd in m && m[fd] == s
  }

  /** The descriptors not in use. */
  function Free(minFd: int, maxFd: int, m: Streams): set<int> {
    set fd | minFd <= fd <= maxFd && fd !in m
  }

  lemma BoundAdded(m: Streams, fd: int, stream: FileStream?, s: FileStream)
    requires fd !in m || m[fd] == null
    ensures |Bound(m[fd := stream], s)| == |Bound(m, s)| + if stream == s then 1 else 0
  {
    var now := Bound(m[fd := stream], s);
    assert now == if stream == s then Bound(m, s) + {fd} else Bound(m, s);
  }

  lemma BoundRemoved(m: Streams, fd: int, s: FileStream)
    requires fd in m
    ensures |Bound(m - {fd}, s)| == |Bound(m, s)| - if m[fd] == s then 1 else 0
  {
    assert Bound(m - {fd}, s) == Bound(m, s) - {fd};
  }

  lemma BoundReplaced(m: Streams, fd: int, stream: FileStream, s: FileStream)
    requires fd in m && m[fd] != stream
    ensures |Bound(m[fd := stream], s)| == |Bound(m, s)| + (if stream == s then 1 else 0) - if m[fd] == s then 1 else 0
  {
    var now := Bound(m[fd := stream], s);
    assert now == if stream == s then Bound(m, s) + {fd} else Bound(m, s) - {fd};
  }

  /** Using a descriptor takes it out of the free ones. */
  lemma FreeAdded(minFd: int, maxFd: int, m: Streams, fd: int, stream: FileStream?)
    ensures multiset(Free(minFd, maxFd, m[fd := stream])) == multiset(Free(minFd, maxFd, m))[fd := 0]
  {
    assert Free(minFd, maxFd, m[fd := stream]) == Free(minFd, maxFd, m) - {fd};
  }

  lemma FreeKept(minFd: int, maxFd: int, m: Streams, fd: int, stream: FileStream?)
    requires fd in m
    ensures Free(minFd, maxFd, m[fd := stream]) == Free(minFd, maxFd, m)
  {
  }

  lemma FreeRemoved(minFd: int, maxFd: int, m: Streams, fd: int)
    requires fd in m && minFd <= fd <= maxFd
    ensures multiset(Free(minFd, maxFd, m - {fd})) == multiset(Free(minFd, maxFd, m)) + multiset{fd}
  {
    assert Free(minFd, maxFd, m - {fd}) == Free(minFd, maxFd, m) + {fd};
  }

  class FdToFileStreamMap {
    const minFd: int
    const maxFd: int
    var streams: Streams
    var unused: seq<int>

    /** The heap holds each descriptor that is not in use, once. */
    ghost predicate Valid()
      reads this
    {
      && minFd <= maxFd && IsHeap(unused)
      && (forall fd :: fd in streams ==> minFd <= fd <= maxFd)
      && multiset(unused) == multiset(Free(minFd, maxFd, streams))
    }

    /** As in a valid table, but the heap may lack a descriptor that is about to be used. */
    ghost predicate ValidBut(fd: int)
      reads this
    {
      && minFd <= maxFd
      && (forall k :: k in streams ==> minFd <= k <= maxFd)
      && (fd in streams ==> Valid())
      && multiset(unused)[fd := 0] == multiset(Free(minFd, maxFd, streams))[fd := 0]
    }

    /** Each stream has as many references as descriptors. */
    ghost predicate Conserved(world: set<FileStream>)
      reads this, world
    {
      && (forall fd :: fd in streams && streams[fd] != null ==> streams[fd] in world)
      && (forall s :: s in world ==> s.Valid() && s.fileRefCount == |Bound(streams, s)|)
    }

    constructor (minFd: int, maxFd: int)
      requires minFd <= maxFd
      ensures Valid() && streams == map[] && this.minFd == minFd && this.maxFd == maxFd
    {
      this.minFd, this.maxFd, streams, unused := minFd, maxFd, map[], [];
      new;
      for fd := minFd to maxFd + 1
        invariant streams == map[] && this.minFd == minFd && this.maxFd == maxFd
        invariant multiset(unused) == multiset(Free(minFd, fd - 1, map[]))
      {
        assert Free(minFd, fd, map[]) == Free(minFd, fd - 1, map[]) + {fd};
        unused := unused + [fd];
      }
      unused := Arrange(unused);
    }

    /** Binds a descriptor of the table that is not bound to a stream; no stream marks it as used. */
    method AddFileStream(fd: int, stream: FileStream?, ghost world: set<FileStream>)
      requires ValidBut(fd) && Conserved(world)
      requires minFd <= fd <= maxFd && (fd in streams ==> streams[fd] == null)
      requires stream != null ==> stream in world && !stream.IsClosed()
      modifies this, stream
      ensures Valid() && Conserved(world)
      ensures streams == old(streams)[fd := stream]
    {
      hide Free, Bound, IsHeap;
      forall s ensures |Bound(streams[fd := stream], s)| == |Bound(streams, s)| + if stream == s then 1 else 0 {
        BoundAdded(streams, fd, stream, s);
      }
      FreeAdded(minFd, maxFd, streams, fd, stream);
      if stream != null {
        stream.AddFileRef();
      }
      if fd !in streams {
        streams := streams[fd := stream];
        EraseUnused(fd);
      } else {
        FreeKept(minFd, maxFd, streams, fd, stream);
        streams := streams[fd := stream];
      }
    }

    method EraseUnused(fd: int)
      modifies this`unused
      ensures IsHeap(unused) && multiset(unused) == old(multiset(unused)[fd := 0])
    {
      unused := Without(unused, fd);
      unused := Arrange(unused);
    }

    method ReplaceFileStream(fd: int, stream: FileStream, ghost world: set<FileStream>)
      requires Valid() && Conserved(world)
      requires fd in streams && streams[fd] != null
      requires stream in world && (stream != streams[fd] ==> !stream.IsClosed())
      modifies this`streams, stream, streams[fd]
      ensures Valid() && Conserved(world)
      ensures streams == old(streams)[fd := stream]
      ensures stream != old(streams[fd]) ==> (old(streams[fd]).IsClosed() <==> Bound(streams, old(streams[fd])) == {})
    {
      var oldStream := streams[fd];
      if stream != oldStream {
        hide Free, Bound, IsHeap;
        forall s ensures |Bound(streams[fd := stream], s)| ==
          |Bound(streams, s)| + (if stream == s then 1 else 0) - if streams[fd] == s then 1 else 0 {
          BoundReplaced(streams, fd, stream, s);
        }
        FreeKept(minFd, maxFd, streams, fd, stream);
        streams := streams[fd := stream];
        stream.AddFileRef();
        oldStream.ReleaseFileRef();
      }
    }

    method RemoveFileStream(fd: int, ghost world: set<FileStream>)
      requires Valid() && Conserved(world) && fd in streams
      modifies this, streams[fd]
      ensures Valid() && Conserved(world)
      ensures streams == old(streams) - {fd}
      ensures old(streams[fd]) != null ==> (old(streams[fd]).IsClosed() <==> Bound(streams, old(streams[fd])) == {})
    {
      forall s ensures |Bound(streams - {fd}, s)| == |Bound(streams, s)| - if streams[fd] == s then 1 else 0 {
        BoundRemoved(streams, fd, s);
      }
      var oldStream := streams[fd];
      streams := streams - {fd};
      FreeRemoved(minFd, maxFd, old(streams), fd);
      unused := Arrange(unused + [fd]);
      if oldStream != null {
        oldStream.ReleaseFileRef();
      }
    }

    /** Claims the least free descriptor. */
    method GetFirstUnusedDescriptor(ghost world: set<FileStream>) returns (fd: int)
      requires Valid() && Conserved(world) && 0 <= minFd
      modifies this
      ensures Valid() && Conserved(world)
      ensures fd == -1 <==> Free(minFd, maxFd, old(streams)) == {}
      ensures fd == -1 ==> streams == old(streams)
      ensures fd != -1 ==> fd in Free(minFd, maxFd, old(streams)) && streams == old(streams)[fd := null]
      ensures fd != -1 ==> forall k :: k in Free(minFd, maxFd, old(streams)) ==> fd <= k
    {
      ghost var free := Free(minFd, maxFd, streams);
      fd := if unused == [] then -1 else unused[0];
      if fd != -1 {
        HeapFront(unused, free);
        var rest := unused[1..];
        assert unused == [fd] + rest;
        unused := Arrange(rest);
        AddFileStream(fd, null, world);
      } else if unused == [] {
        FreeNone(free);
      } else {
        HeapFront(unused, free);
      }
    }

    /** A descriptor's stream is never closed. */
    method GetStream(fd: int, ghost world: set<FileStream>) returns (stream: FileStream?)
      requires Valid() && Conserved(world)
      ensures stream == if fd in streams then streams[fd] else null
      ensures stream != null ==> !stream.IsClosed()
    {
      stream := if fd in streams then streams[fd] else null;
      if stream != null {
        assert fd in Bound(streams, stream);
      }
    }
  }
}
