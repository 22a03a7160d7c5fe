/** ReadonlyFile: a file that is a slice of a big image, read through a read-ahead buffer. */
module ReadonlyFiles {
  import opened Basics

  /** The file is the `size` bytes of the image from `base` on; `max` is the size of the read-ahead. */
  datatype File = File(image: seq<Byte>, base: nat, size: nat, max: nat)

  /** What the pread of the image does when asked: it gives at least one byte, or is interrupted, or gives nothing, or
      fails for another reason. */
  datatype Outcome = Bytes(n: nat) | Interrupted | Nothing | Failed

  datatype Errno = EINTR | EINVAL | EIO

  datatype Reply = Got(data: seq<Byte>) | Err(error: Errno)

  /** The read-ahead buffer, and the place in the file that it starts at. */
  datatype Cache = Cache(buf: seq<Byte>, offset: int)

  datatype Whence = Set | Cur | End | Other

  predicate IsFile(f: File) { f.base + f.size <= |f.image| }

  function Contents(f: File): seq<Byte>
    requires IsFile(f)
  {
    f.image[f.base..f.base + f.size]
  }

  /** The image's byte at place `k` of the file. */
  function ByteAt(f: File, k: int): Byte
    requires IsFile(f) && 0 <= f.base + k && k < f.size
  {
    f.image[f.base + k]
  }

  // ----- The cache

  /** Every byte of the buffer that belongs to the file is the image's. */
  ghost predicate Agrees(f: File, c: Cache)
    requires IsFile(f)
  {
    && (c.buf != [] ==> 0 <= f.base + c.offset)
    && forall i :: 0 <= i < |c.buf| && c.offset + i < f.size ==> c.buf[i] == ByteAt(f, c.offset + i)
  }

  /** The buffer is a piece of the image, and ends where the file does or before. */
  ghost predicate Exact(f: File, c: Cache)
    requires IsFile(f)
  {
    c.buf == [] || (0 <= f.base + c.offset && c.offset + |c.buf| <= f.size &&
                    c.buf == f.image[f.base + c.offset..f.base + c.offset + |c.buf|])
  }

  function Zeros(n: nat): seq<Byte> { seq(n, i => 0) }

  function Resize(s: seq<Byte>, n: nat): seq<Byte> {
    if n <= |s| then s[..n] else s + Zeros(n - |s|)
  }

  /** Growing the buffer to its full size puts zeros where the file has zeros. */
  ghost predicate PaddingAgrees(f: File, c: Cache)
    requires IsFile(f)
  {
    && (|c.buf| < f.max ==> 0 <= f.base + c.offset)
    && forall k :: c.offset + |c.buf| <= k < c.offset + f.max && k < f.size ==> ByteAt(f, k) == 0
  }

  /** As many bytes as the image gives of those asked for, or its failure. */
  ghost predicate Gives(r: Reply, at: int, len: nat, outcome: Outcome) {
    if at < 0 then r == Err(EINVAL) else
    match outcome
    case Bytes(n) => r.Got? && |r.data| == Min(len, Max(n, 1))
    case Interrupted => r == Err(EINTR)
    case Nothing => r == Got([])
    case Failed => r == Err(EIO)
  }

  /** The pread of the image. It fails in front of the image's first byte. */
  function ImagePread(f: File, at: int, len: nat, outcome: Outcome): (r: Reply)
    requires IsFile(f) && at + len <= f.base + f.size
    ensures r.Got? ==> |r.data| <= len && (r.data != [] ==> 0 <= at && r.data == f.image[at..at + |r.data|])
    ensures Gives(r, at, len, outcome)
  {
    if at < 0 then Err(EINVAL) else
    match outcome
    case Bytes(n) => Got(f.image[at..at + Min(if n == 0 then 1 else n, len)])
    case Interrupted => Err(EINTR)
    case Nothing => Got([])
    case Failed => Err(EIO)
  }

  /** How a read is served. */
  datatype Plan = AtEnd | Hit | Direct(at: int, len: nat) | Ahead(at: int, len: nat)

  function ReadSize(f: File, count: nat, offset: int): nat
    requires offset < f.size
  {
    Min(count, f.size - offset)
  }

  function PlanOf(f: File, c: Cache, count: nat, offset: int, ahead: bool): (p: Plan)
    ensures p.Direct? || p.Ahead? ==> p.at + p.len <= f.base + f.size
  {
    if f.size - offset <= 0 then AtEnd else
    var n := ReadSize(f, count, offset);
    if c.offset <= offset < c.offset + |c.buf| && offset + n <= c.offset + |c.buf| then Hit
    else if n >= f.max || !ahead then Direct(f.base + offset, n)
    else AheadPlan(f, offset)
  }

  function AheadPlan(f: File, offset: int): (p: Plan)
    requires offset < f.size
    ensures p.Ahead? && p.at + p.len <= f.base + f.size
  {
    Ahead(f.base + offset, Min(f.max, f.size - offset))
  }

  function CacheAfter(f: File, c: Cache, offset: int, p: Plan, outcome: Outcome): Cache
    requires IsFile(f) && (p.Ahead? ==> p.at + p.len <= f.base + f.size)
  {
    if !p.Ahead? then c else
    match ImagePread(f, p.at, p.len, outcome)
    case Got(data) => if data == [] then c.(buf := Resize(c.buf, f.max)) else Cache(data, offset)
    case Err(e) => if e == EINTR then c.(buf := []) else c.(buf := Resize(c.buf, f.max))
  }

  function FirstOf(r: Reply, n: nat): Reply {
    if r.Got? then Got(r.data[..Min(n, |r.data|)]) else r
  }

  /** What a read gives. */
  function ReplyOf(f: File, c: Cache, count: nat, offset: int, ahead: bool, outcome: Outcome): Reply
    requires IsFile(f)
  {
    var p := PlanOf(f, c, count, offset, ahead);
    match p
    case AtEnd => Got([])
    case Hit => Got(c.buf[offset - c.offset..offset - c.offset + ReadSize(f, count, offset)])
    case Direct(at, len) => ImagePread(f, at, len, outcome)
    case Ahead(at, len) => FirstOf(ImagePread(f, at, len, outcome), ReadSize(f, count, offset))
  }

  /** The buffer has all that is asked for. */
  ghost predicate Covered(f: File, c: Cache, count: nat, offset: int) {
    && offset < f.size && c.offset <= offset < c.offset + |c.buf|
    && offset + Min(count, f.size - offset) <= c.offset + |c.buf|
  }

  /** What a reader is promised. The bytes are those of the image from the file's byte `offset` on. All that is asked
      for and left comes from the buffer if it is there, whatever the image would do; otherwise as much of it as the
      image gives, or the image's failure. */
  ghost predicate Served(f: File, c: Cache, count: nat, offset: int, outcome: Outcome, r: Reply)
    requires IsFile(f)
  {
    && (r.Got? && r.data != [] ==>
          && 0 <= f.base + offset && offset + |r.data| <= f.size && |r.data| <= count
          && r.data == f.image[f.base + offset..f.base + offset + |r.data|])
    && (offset >= f.size ==> r == Got([]))
    && (Covered(f, c, count, offset) ==> r.Got? && |r.data| == Min(count, f.size - offset))
    && (offset < f.size && !Covered(f, c, count, offset) ==>
          if f.base + offset < 0 then r == Err(EINVAL) else
          match outcome
          case Bytes(n) => r.Got? && |r.data| == Min(Min(count, f.size - offset), Max(n, 1))
          case Interrupted => r == Err(EINTR)
          case Nothing => r == Got([])
          case Failed => r == Err(EIO))
  }

  lemma HitBytes(f: File, c: Cache, offset: int, n: nat)
    requires IsFile(f) && Agrees(f, c)
    requires c.offset <= offset < c.offset + |c.buf| && offset + n <= c.offset + |c.buf| && offset + n <= f.size
    ensures 0 <= f.base + offset
    ensures c.buf[offset - c.offset..offset - c.offset + n] == f.image[f.base + offset..f.base + offset + n]
  {
  }

  lemma ServedAlways(f: File, c: Cache, count: nat, offset: int, ahead: bool, outcome: Outcome)
    requires IsFile(f) && Agrees(f, c)
    ensures Served(f, c, count, offset, outcome, ReplyOf(f, c, count, offset, ahead, outcome))
  {
    hide Agrees, ImagePread, FirstOf, Served;
    match PlanOf(f, c, count, offset, ahead)
    case AtEnd => AtEndServed(f, c, count, offset, ahead, outcome);
    case Hit => HitServed(f, c, count, offset, ahead, outcome);
    case Direct(_, _) => DirectServed(f, c, count, offset, ahead, outcome);
    case Ahead(_, _) => AheadServed(f, c, count, offset, ahead, outcome);
  }

  lemma AtEndServed(f: File, c: Cache, count: nat, offset: int, ahead: bool, outcome: Outcome)
    requires IsFile(f) && PlanOf(f, c, count, offset, ahead).AtEnd?
    ensures Served(f, c, count, offset, outcome, Got([]))
  {
  }

  lemma HitServed(f: File, c: Cache, count: nat, offset: int, ahead: bool, outcome: Outcome)
    requires IsFile(f) && Agrees(f, c) && PlanOf(f, c, count, offset, ahead).Hit?
    ensures Served(f, c, count, offset, outcome, ReplyOf(f, c, count, offset, ahead, outcome))
  {
    hide Agrees;
    HitBytes(f, c, offset, ReadSize(f, count, offset));
  }

  lemma DirectServed(f: File, c: Cache, count: nat, offset: int, ahead: bool, outcome: Outcome)
    requires IsFile(f) && PlanOf(f, c, count, offset, ahead).Direct?
    ensures Served(f, c, count, offset, outcome, ReplyOf(f, c, count, offset, ahead, outcome))
  {
    hide ImagePread;
  }

  lemma AheadServed(f: File, c: Cache, count: nat, offset: int, ahead: bool, outcome: Outcome)
    requires IsFile(f) && PlanOf(f, c, count, offset, ahead).Ahead?
    ensures Served(f, c, count, offset, outcome, ReplyOf(f, c, count, offset, ahead, outcome))
  {
    hide ImagePread, FirstOf;
    var p := PlanOf(f, c, count, offset, ahead);
    FirstBytes(f, p.at, p.len, ReadSize(f, count, offset), outcome);
  }

  lemma FirstBytes(f: File, at: int, len: nat, n: nat, outcome: Outcome)
    requires IsFile(f) && at + len <= f.base + f.size
    ensures var r := FirstOf(ImagePread(f, at, len, outcome), n);
      && (r.Got? && r.data != [] ==>
            0 <= at && |r.data| <= len && |r.data| <= n && r.data == f.image[at..at + |r.data|])
      && Gives(r, at, Min(n, len), outcome)
  {
    hide ImagePread;
    var reply := ImagePread(f, at, len, outcome);
    if reply.Got? && reply.data != [] {
      Prefix(f.image, at, |reply.data|, Min(n, |reply.data|));
    }
  }

  lemma Prefix(s: seq<Byte>, at: nat, n: nat, m: nat)
    requires at + n <= |s| && m <= n
    ensures s[at..at + n][..m] == s[at..at + m]
  {
  }

  function PosAfter(f: File, pos: int, offset: int, whence: Whence): int {
    match whence
    case Set => offset
    case Cur => pos + offset
    case End => f.size + offset
    case Other => pos
  }

  class ReadonlyFile {
    const file: File
    var pos: int
    var buf: seq<Byte>
    var bufOffset: int

    ghost function State(): Cache
      reads this
    {
      Cache(buf, bufOffset)
    }

    constructor (file: File)
      requires IsFile(file)
      ensures this.file == file && pos == 0 && State() == Cache([], 0)
    {
      this.file := file;
      pos, buf, bufOffset := 0, [], 0;
    }

    /** Every byte returned is the image's byte at that place of the file, whatever the image's pread does, as long as
        the buffer agrees with the file. */
    method PreadImpl(count: nat, offset: int, canReadAhead: bool, outcome: Outcome) returns (r: Reply)
      requires IsFile(file)
      modifies this`buf, this`bufOffset
      ensures r == ReplyOf(file, old(State()), count, offset, canReadAhead, outcome)
      ensures State() == CacheAfter(file, old(State()), offset, PlanOf(file, old(State()), count, offset, canReadAhead),
                                    outcome)
      ensures Agrees(file, old(State())) ==> Served(file, old(State()), count, offset, outcome, r)
    {
      hide Agrees, Served, PaddingAgrees, ImagePread, FirstOf, Resize;
      if Agrees(file, State()) {
        ServedAlways(file, State(), count, offset, canReadAhead, outcome);
      }
      var readMax := file.size - offset;
      if readMax <= 0 {
        return Got([]);
      }
      var readSize := Min(count, readMax);
      if bufOffset <= offset && offset < bufOffset + |buf| && offset + readSize <= bufOffset + |buf| {
        var offsetInCache := offset - bufOffset;
        return Got(buf[offsetInCache..offsetInCache + readSize]);
      }
      var at := file.base + offset;
      if readSize >= file.max || !canReadAhead {
        r := ImagePread(file, at, readSize, outcome);
        return;
      }
      r := ReadAhead(readSize, offset, outcome);
    }

    /** The rest of PreadImpl, when it reads ahead. */
    method ReadAhead(readSize: nat, offset: int, outcome: Outcome) returns (r: Reply)
      requires IsFile(file) && offset < file.size
      modifies this`buf, this`bufOffset
      ensures State() == CacheAfter(file, old(State()), offset, AheadPlan(file, offset), outcome)
      ensures r == FirstOf(ImagePread(file, file.base + offset, Min(file.max, file.size - offset), outcome), readSize)
    {
      hide ImagePread;
      buf := Resize(buf, file.max);
      r := ImagePread(file, file.base + offset, Min(file.max, file.size - offset), outcome);
      match r {
        case Err(e) =>
          if e == EINTR {
            buf := [];
          }
        case Got(data) =>
          if data != [] {
            buf, bufOffset := data, offset;
            r := Got(data[..Min(readSize, |data|)]);
          }
      }
    }

    method Read(count: nat, outcome: Outcome) returns (r: Reply)
      requires IsFile(file)
      modifies this
      ensures r == ReplyOf(file, old(State()), count, old(pos), true, outcome)
      ensures pos == old(pos) + if r.Got? then |r.data| else 0
      ensures State() == CacheAfter(file, old(State()), old(pos), PlanOf(file, old(State()), count, old(pos), true),
                                    outcome)
      ensures Agrees(file, old(State())) ==> Served(file, old(State()), count, old(pos), outcome, r)
    {
      r := PreadImpl(count, pos, true, outcome);
      if r.Got? && |r.data| > 0 {
        pos := pos + |r.data|;
      }
    }

    method Pread(count: nat, offset: int, outcome: Outcome) returns (r: Reply)
      requires IsFile(file)
      modifies this`buf, this`bufOffset
      ensures r == ReplyOf(file, old(State()), count, offset, false, outcome)
      ensures State() == old(State())
      ensures Agrees(file, old(State())) ==> Served(file, old(State()), count, offset, outcome, r)
    {
      r := PreadImpl(count, offset, false, outcome);
    }

    method Lseek(offset: int, whence: Whence) returns (position: int, r: Reply)
      modifies this`pos
      ensures r == if whence == Other then Err(EINVAL) else Got([])
      ensures whence == Set ==> pos == offset
      ensures whence == Cur ==> pos == old(pos) + offset
      ensures whence == End ==> pos == file.size + offset
      ensures whence == Other ==> pos == old(pos)
      ensures pos == PosAfter(file, old(pos), offset, whence)
      ensures position == if whence == Other then -1 else pos
    {
      match whence {
        case Set => pos := offset;
        case Cur => pos := pos + offset;
        case End => pos := file.size + offset;
        case Other => return -1, Err(EINVAL);
      }
      return pos, Got([]);
    }
  }

  // ----- What the cache keeps

  /** The read goes to the image and may ask it for more than it needs. */
  ghost predicate ReadsAhead(f: File, c: Cache, count: nat, offset: int, ahead: bool) {
    ahead && offset < f.size && !Covered(f, c, count, offset) && Min(count, f.size - offset) < f.max
  }

  /** Only a read-ahead changes the buffer. It then holds as much of the file from its position on as the image gave of
      a full buffer; an interrupt empties it, and any other failure leaves it grown to its full size. */
  lemma BufferAfter(f: File, c: Cache, count: nat, offset: int, ahead: bool, outcome: Outcome)
    requires IsFile(f) && |c.buf| <= f.max
    ensures var c' := CacheAfter(f, c, offset, PlanOf(f, c, count, offset, ahead), outcome);
      if !ReadsAhead(f, c, count, offset, ahead) then c' == c
      else if 0 <= f.base + offset && outcome.Bytes? then
        && c'.offset == offset && |c'.buf| == Min(Max(outcome.n, 1), Min(f.max, f.size - offset))
        && c'.buf == f.image[f.base + offset..f.base + offset + |c'.buf|]
      else if 0 <= f.base + offset && outcome.Interrupted? then c'.buf == []
      else
        && c'.offset == c.offset && |c'.buf| == f.max && c.buf <= c'.buf
        && forall i :: |c.buf| <= i < f.max ==> c'.buf[i] == 0
  {
    hide ImagePread;
    var p := PlanOf(f, c, count, offset, ahead);
    if ReadsAhead(f, c, count, offset, ahead) {
      var r := ImagePread(f, p.at, p.len, outcome);
      assert r.Got? && r.data != [] <==> 0 <= f.base + offset && outcome.Bytes?;
    }
  }

  /** A read leaves an agreeing buffer agreeing in exactly these cases. A read-ahead that gives nothing or fails, other
      than by an interrupt, has grown the buffer already. */
  lemma AgreesExactlyWhen(f: File, c: Cache, count: nat, offset: int, ahead: bool, outcome: Outcome)
    requires IsFile(f) && Agrees(f, c) && |c.buf| <= f.max
    ensures var p := PlanOf(f, c, count, offset, ahead);
      var fails := p.Ahead? && (p.at < 0 || outcome.Nothing? || outcome.Failed?);
      && (Agrees(f, CacheAfter(f, c, offset, p, outcome)) <==> (fails ==> PaddingAgrees(f, c)))
      && |CacheAfter(f, c, offset, p, outcome).buf| <= f.max
  {
    var p := PlanOf(f, c, count, offset, ahead);
    if p.Ahead? && (p.at < 0 || outcome.Nothing? || outcome.Failed?) {
      var after := CacheAfter(f, c, offset, p, outcome);
      assert after.buf == c.buf + Zeros(f.max - |c.buf|);
      if Agrees(f, after) {
        forall k | c.offset + |c.buf| <= k < c.offset + f.max && k < f.size ensures ByteAt(f, k) == 0 {
          assert after.buf[k - c.offset] == 0;
        }
      }
    }
  }

  /** If the image's reads give something or are interrupted, the buffer is always a piece of the file's slice. */
  lemma ExactStays(f: File, c: Cache, count: nat, offset: nat, ahead: bool, outcome: Outcome)
    requires IsFile(f) && Exact(f, c) && (outcome.Bytes? || outcome.Interrupted?)
    ensures Exact(f, CacheAfter(f, c, offset, PlanOf(f, c, count, offset, ahead), outcome))
  {
  }

  lemma ExactAgrees(f: File, c: Cache)
    requires IsFile(f) && Exact(f, c)
    ensures Agrees(f, c)
  {
    forall i | 0 <= i < |c.buf| && c.offset + i < f.size ensures c.buf[i] == ByteAt(f, c.offset + i) {
      assert f.image[f.base + c.offset..f.base + c.offset + |c.buf|][i] == f.image[f.base + c.offset + i];
    }
  }

  /** The image is never asked for bytes behind the file's slice, and for bytes in front of it exactly when the position
      is negative. */
  lemma AskedInside(f: File, c: Cache, count: nat, offset: int, ahead: bool)
    requires IsFile(f)
    ensures var p := PlanOf(f, c, count, offset, ahead);
      p.Direct? || p.Ahead? ==> p.at + p.len <= f.base + f.size && (f.base <= p.at <==> 0 <= offset)
  {
  }

  /** A failed read-ahead does not leave the cache intact: a later read within the file returns a byte that the file
      does not have. */
  lemma FailedReadAhead() returns (f: File, c: Cache)
    ensures IsFile(f) && c == CacheAfter(f, Cache([], 0), 0, PlanOf(f, Cache([], 0), 1, 0, true), Failed)
    ensures var r := ReplyOf(f, c, 1, 0, true, Bytes(1)); r.Got? && |r.data| == 1 && r.data[0] != Contents(f)[0]
  {
    f := File([1, 1, 1, 1], 0, 4, 2);
    c := CacheAfter(f, Cache([], 0), 0, PlanOf(f, Cache([], 0), 1, 0, true), Failed);
    assert c.buf == [0, 0];
  }

  // ----- Runs

  datatype State = State(pos: int, cache: Cache)

  datatype Op =
    | Read(count: nat, outcome: Outcome)
    | Pread(count: nat, offset: int, outcome: Outcome)
    | Lseek(offset: int, whence: Whence)

  /** Where an operation reads, and whether it may read ahead. */
  function OffsetOf(st: State, op: Op): int {
    if op.Pread? then op.offset else st.pos
  }

  function Answer(f: File, st: State, op: Op): Reply
    requires IsFile(f)
  {
    match op
    case Read(count, outcome) => ReplyOf(f, st.cache, count, st.pos, true, outcome)
    case Pread(count, offset, outcome) => ReplyOf(f, st.cache, count, offset, false, outcome)
    case Lseek(offset, whence) => if whence == Other then Err(EINVAL) else Got([])
  }

  function Step(f: File, st: State, op: Op): State
    requires IsFile(f)
  {
    match op
    case Read(count, outcome) =>
      var r := Answer(f, st, op);
      State(st.pos + if r.Got? then |r.data| else 0,
            CacheAfter(f, st.cache, st.pos, PlanOf(f, st.cache, count, st.pos, true), outcome))
    case Pread(_, _, _) => st
    case Lseek(offset, whence) => st.(pos := PosAfter(f, st.pos, offset, whence))
  }

  function Run(f: File, ops: seq<Op>): State
    requires IsFile(f)
    decreases |ops|
  {
    if ops == [] then State(0, Cache([], 0)) else Step(f, Run(f, ops[..|ops| - 1]), ops[|ops| - 1])
  }

  /** The bytes that the reads of a run returned. */
  function Returned(f: File, ops: seq<Op>): seq<Byte>
    requires IsFile(f)
    decreases |ops|
  {
    if ops == [] then [] else
    var r := Answer(f, Run(f, ops[..|ops| - 1]), ops[|ops| - 1]);
    Returned(f, ops[..|ops| - 1]) + if ops[|ops| - 1].Read? && r.Got? then r.data else []
  }

  /** The `i`-th operation starts no read at a negative place, and no pread of the image under it fails other than by an
      interrupt. */
  predicate Usual(f: File, ops: seq<Op>, i: nat)
    requires IsFile(f) && i < |ops|
  {
    0 <= OffsetOf(Run(f, ops[..i]), ops[i]) && (ops[i].Lseek? || ops[i].outcome.Bytes? || ops[i].outcome.Interrupted?)
  }

  /** In every usual run the buffer is always a piece of the file. */
  lemma {:induction false} RunStaysExact(f: File, ops: seq<Op>)
    requires IsFile(f) && forall i :: 0 <= i < |ops| ==> Usual(f, ops, i)
    ensures Exact(f, Run(f, ops).cache)
    decreases |ops|
  {
    if ops != [] {
      var n := |ops| - 1;
      UsualPrefix(f, ops, n);
      RunStaysExact(f, ops[..n]);
      assert Usual(f, ops, n);
      var st := Run(f, ops[..n]);
      if ops[n].Read? {
        ExactStays(f, st.cache, ops[n].count, st.pos, true, ops[n].outcome);
      }
    }
  }

  /** The bytes are the file's from `offset` on, at most `count`, and some unless nothing is asked for or left. */
  ghost predicate Right(f: File, count: nat, offset: nat, outcome: Outcome, data: seq<Byte>)
    requires IsFile(f)
  {
    && |data| <= count
    && (offset < f.size && count > 0 && outcome.Bytes? ==> data != [])
    && (offset >= f.size ==> data == [])
    && (offset < f.size ==> offset + |data| <= f.size && data == Contents(f)[offset..offset + |data|])
  }

  lemma ServedIsRight(f: File, c: Cache, count: nat, offset: nat, ahead: bool, outcome: Outcome, data: seq<Byte>)
    requires IsFile(f) && Served(f, c, count, offset, outcome, Got(data))
    ensures Right(f, count, offset, outcome, data)
  {
    if data != [] {
      assert Contents(f)[offset..offset + |data|] == f.image[f.base + offset..f.base + offset + |data|];
    }
  }

  lemma UsualPrefix(f: File, ops: seq<Op>, n: nat)
    requires IsFile(f) && n <= |ops| && forall k :: 0 <= k < |ops| ==> Usual(f, ops, k)
    ensures forall k :: 0 <= k < n ==> Usual(f, ops[..n], k)
  {
    forall k | 0 <= k < n ensures Usual(f, ops[..n], k) {
      assert Usual(f, ops, k) && ops[..n][..k] == ops[..k];
    }
  }

  /** So each read of a usual run returns the file's bytes from its position on, however it was served. */
  lemma RunReads(f: File, ops: seq<Op>, i: nat)
    requires IsFile(f) && i < |ops| && !ops[i].Lseek? && forall k :: 0 <= k < |ops| ==> Usual(f, ops, k)
    ensures var st := Run(f, ops[..i]);
      var r := Answer(f, st, ops[i]);
      OffsetOf(st, ops[i]) >= 0 && (r.Got? ==> Right(f, ops[i].count, OffsetOf(st, ops[i]), ops[i].outcome, r.data))
  {
    hide Right, Exact, Agrees, Served, ReplyOf, Run;
    UsualPrefix(f, ops, i);
    RunStaysExact(f, ops[..i]);
    var st := Run(f, ops[..i]);
    ExactAgrees(f, st.cache);
    assert Usual(f, ops, i);
    var r := Answer(f, st, ops[i]);
    ServedAlways(f, st.cache, ops[i].count, OffsetOf(st, ops[i]), ops[i].Read?, ops[i].outcome);
    if r.Got? {
      ServedIsRight(f, st.cache, ops[i].count, OffsetOf(st, ops[i]), ops[i].Read?, ops[i].outcome, r.data);
    }
  }

  /** A seek decides where the next read starts: at the offset, so far from the last position, or from the end. */
  lemma SeekThenRead(f: File, ops: seq<Op>, i: nat)
    requires IsFile(f) && i + 1 < |ops| && ops[i].Lseek? && ops[i + 1].Read?
    requires forall k :: 0 <= k < |ops| ==> Usual(f, ops, k)
    ensures var from := match ops[i].whence
        case Set => ops[i].offset
        case Cur => Run(f, ops[..i]).pos + ops[i].offset
        case End => f.size + ops[i].offset
        case Other => Run(f, ops[..i]).pos;
      var r := Answer(f, Run(f, ops[..i + 1]), ops[i + 1]);
      from >= 0 && (r.Got? ==> Right(f, ops[i + 1].count, from, ops[i + 1].outcome, r.data))
  {
    hide Right, ReplyOf, Answer;
    RunReads(f, ops, i + 1);
    assert ops[..i + 1][..i] == ops[..i];
  }

  lemma PrefixGrows(a: seq<Byte>, b: seq<Byte>, s: seq<Byte>)
    requires a <= s && |a| + |b| <= |s| && b == s[|a|..|a| + |b|]
    ensures a + b <= s
  {
  }

  /** Without seeks the reads return the file from its beginning, without a gap or a repetition. */
  lemma {:induction false} ReadsAreSequential(f: File, ops: seq<Op>)
    requires IsFile(f) && forall i :: 0 <= i < |ops| ==> Usual(f, ops, i) && !ops[i].Lseek?
    ensures Run(f, ops).pos == |Returned(f, ops)| && Returned(f, ops) <= Contents(f)
    decreases |ops|
  {
    hide ReplyOf, Answer, CacheAfter, PlanOf;
    if ops != [] {
      var n := |ops| - 1;
      UsualPrefix(f, ops, n);
      ReadsAreSequential(f, ops[..n]);
      RunReads(f, ops, n);
      var st := Run(f, ops[..n]);
      var r := Answer(f, st, ops[n]);
      if ops[n].Read? && r.Got? && r.data != [] {
        PrefixGrows(Returned(f, ops[..n]), r.data, Contents(f));
      }
    }
  }
}
