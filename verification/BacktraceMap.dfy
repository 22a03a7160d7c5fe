/** MemoryMappingBacktraceMap: which stack trace mapped an address. The map takes the first address of an
    interval to the address after its last and the trace. */
module BacktraceMap {
  import opened Basics
  import opened OrderedMap

  type Frames = seq<int>

  datatype Trace = Trace(end: int, frames: Frames)

  type Traces = map<int, Trace>

  /** Intervals do not run backwards and do not overlap. */
  ghost predicate WellFormed(m: Traces) {
    && (forall k :: k in m ==> k <= m[k].end)
    && (forall k, k' :: k in m && k' in m && k < k' ==> m[k].end <= k')
  }

  ghost predicate NonEmpty(m: Traces) {
    forall k :: k in m ==> k < m[k].end
  }

  ghost predicate Covers(m: Traces, k: int, x: int) {
    k in m && k <= x < m[k].end
  }

  /** The lookup: the interval in front of the first one after `x`, if it includes `x`. */
  function TraceAt(m: Traces, x: int): Option<Frames> {
    match Before(m, x + 1)
    case End => None
    case At(k) => if k <= x < m[k].end then Some(m[k].frames) else None
  }

  /** The lookup finds a trace exactly when some interval covers the address. */
  lemma TraceAtMeaning(m: Traces, x: int, frames: Frames)
    requires WellFormed(m)
    ensures TraceAt(m, x) == Some(frames) <==> exists k :: Covers(m, k, x) && m[k].frames == frames
  {
    if k :| Covers(m, k, x) && m[k].frames == frames {
      assert Before(m, x + 1).At?;
      var k' := Before(m, x + 1).key;
      assert k <= k';
    }
  }

  // ----- Cutting [a, b) out of the map

  predicate Meets(m: Traces, a: int, b: int, k: int)
    requires k in m
  {
    k < b && a < m[k].end
  }

  predicate Passed(k: int, it: Position) {
    it.At? ==> k < it.key
  }

  predicate Gone(m: Traces, a: int, b: int, it: Position, k: int)
    requires k in m
  {
    Meets(m, a, b, k) && Passed(k, it)
  }

  /** The interval in front of `it` that reaches past `b`; it can only be the one in front of `b`. */
  function RightSource(m: Traces, a: int, b: int, it: Position): Position {
    var p := Before(m, b);
    if p.At? && Gone(m, a, b, it, p.key) && b < m[p.key].end then p else End
  }

  predicate InCut(m: Traces, a: int, b: int, it: Position, k: int) {
    (k == b && RightSource(m, a, b, it).At?) || (k in m && (Gone(m, a, b, it, k) ==> k < a))
  }

  /** The map once the intervals in front of `it` are cut: what they have on the left of `a` ends there, and what
      one has on the right of `b` starts anew at `b`. */
  function CutUpTo(m: Traces, a: int, b: int, it: Position): Traces {
    map k | k in m.Keys + {b} && InCut(m, a, b, it, k) ::
      if k == b && RightSource(m, a, b, it).At? then m[RightSource(m, a, b, it).key]
      else if Gone(m, a, b, it, k) then m[k].(end := a)
      else m[k]
  }

  function Cut(m: Traces, a: int, b: int): Traces {
    CutUpTo(m, a, b, End)
  }

  /** Every interval left by a cut is what one interval has on one side of [a, b). */
  lemma CutEntry(m: Traces, a: int, b: int, k: int) returns (k0: int)
    requires WellFormed(m) && a <= b && k in Cut(m, a, b)
    ensures k0 in m && k0 <= k && Cut(m, a, b)[k].end <= m[k0].end && Cut(m, a, b)[k].frames == m[k0].frames
    ensures k == k0 || (k == b && Before(m, b) == At(k0))
    ensures Cut(m, a, b)[k].end <= a || b <= k
    ensures k <= Cut(m, a, b)[k].end && (NonEmpty(m) ==> k < Cut(m, a, b)[k].end)
  {
    k0 := if k == b && RightSource(m, a, b, End).At? then Before(m, b).key else k;
  }

  lemma CutWellFormed(m: Traces, a: int, b: int)
    requires WellFormed(m) && a <= b
    ensures WellFormed(Cut(m, a, b))
    ensures NonEmpty(m) ==> NonEmpty(Cut(m, a, b))
  {
    hide Cut;
    forall k | k in Cut(m, a, b) ensures k <= Cut(m, a, b)[k].end && (NonEmpty(m) ==> k < Cut(m, a, b)[k].end) {
      var k0 := CutEntry(m, a, b, k);
    }
    forall k, k' | k in Cut(m, a, b) && k' in Cut(m, a, b) && k < k' ensures Cut(m, a, b)[k].end <= k' {
      var k0 := CutEntry(m, a, b, k);
      var k0' := CutEntry(m, a, b, k');
      assert k0 <= k0';
    }
  }

  /** An address outside [a, b) keeps its interval's trace. */
  lemma CutKeeps(m: Traces, a: int, b: int, k: int, x: int)
    requires WellFormed(m) && a <= b && Covers(m, k, x) && !(a <= x < b)
    ensures exists k' :: Covers(Cut(m, a, b), k', x) && Cut(m, a, b)[k'].frames == m[k].frames
  {
    if Meets(m, a, b, k) && b <= x {
      assert Before(m, b) == At(k);
      assert Covers(Cut(m, a, b), b, x);
    } else {
      assert Covers(Cut(m, a, b), k, x);
    }
  }

  /** Cutting is removal address by address. */
  lemma CutIsPointwise(m: Traces, a: int, b: int, x: int)
    requires WellFormed(m) && a <= b
    ensures TraceAt(Cut(m, a, b), x) == if a <= x < b then None else TraceAt(m, x)
  {
    hide Cut, TraceAt, WellFormed;
    CutWellFormed(m, a, b);
    var here := TraceAt(Cut(m, a, b), x);
    if here.Some? {
      TraceAtMeaning(Cut(m, a, b), x, here.value);
      var k :| Covers(Cut(m, a, b), k, x) && Cut(m, a, b)[k].frames == here.value;
      var k0 := CutEntry(m, a, b, k);
      assert Covers(m, k0, x);
      TraceAtMeaning(m, x, here.value);
    } else if TraceAt(m, x).Some? && !(a <= x < b) {
      var was := TraceAt(m, x).value;
      TraceAtMeaning(m, x, was);
      var k :| Covers(m, k, x) && m[k].frames == was;
      CutKeeps(m, a, b, k, x);
      TraceAtMeaning(Cut(m, a, b), x, was);
    }
  }

  // ----- Mapping a range

  function Mapped(m: Traces, a: int, b: int, frames: Frames): Traces {
    Cut(m, a, b)[a := Trace(b, frames)]
  }

  lemma MappedWellFormed(m: Traces, a: int, b: int, frames: Frames)
    requires WellFormed(m) && a <= b
    ensures WellFormed(Mapped(m, a, b, frames))
    ensures a < b && NonEmpty(m) ==> NonEmpty(Mapped(m, a, b, frames))
  {
    hide Cut;
    CutWellFormed(m, a, b);
    forall k | k in Cut(m, a, b) ensures (k < a ==> Cut(m, a, b)[k].end <= a) && (a < k ==> b <= k) {
      var k0 := CutEntry(m, a, b, k);
    }
  }

  /** Mapping a range covers it with the new trace; of the addresses outside, it can only drop those of an
      interval that would start at `a` again. */
  lemma MappedCovers(m: Traces, a: int, b: int, frames: Frames, k: int, x: int)
    requires WellFormed(m) && a <= b
    ensures Covers(Mapped(m, a, b, frames), k, x) <==> if k == a then a <= x < b else Covers(Cut(m, a, b), k, x)
  {
    hide Cut;
  }

  /** Mapping overwrites the range address by address and moves nothing else; for an empty range this takes that
      its address was not mapped. */
  lemma MappedIsPointwise(m: Traces, a: int, b: int, frames: Frames)
    requires WellFormed(m) && a <= b
    ensures a < b || TraceAt(m, a) == None <==>
      forall x :: TraceAt(Mapped(m, a, b, frames), x) == if a <= x < b then Some(frames) else TraceAt(m, x)
  {
    if a < b || TraceAt(m, a) == None {
      forall x ensures TraceAt(Mapped(m, a, b, frames), x) == if a <= x < b then Some(frames) else TraceAt(m, x) {
        MappedAt(m, a, b, frames, x);
      }
    } else {
      MappedWellFormed(m, a, b, frames);
      assert TraceAt(Mapped(m, a, b, frames), a) == None;
    }
  }

  lemma MappedAt(m: Traces, a: int, b: int, frames: Frames, x: int)
    requires WellFormed(m) && a <= b && (a < b || TraceAt(m, a) == None)
    ensures TraceAt(Mapped(m, a, b, frames), x) == if a <= x < b then Some(frames) else TraceAt(m, x)
  {
    hide Cut, Mapped, WellFormed, TraceAt;
    MappedWellFormed(m, a, b, frames);
    if a <= x < b {
      MappedCovers(m, a, b, frames, a, x);
      assert Covers(Mapped(m, a, b, frames), a, x);
      MappedFrames(m, a, b, frames, a, x);
      TraceAtMeaning(Mapped(m, a, b, frames), x, frames);
    } else {
      CutIsPointwise(m, a, b, x);
      MappedOutside(m, a, b, frames, x);
    }
  }

  lemma MappedFrames(m: Traces, a: int, b: int, frames: Frames, k: int, x: int)
    requires Covers(Mapped(m, a, b, frames), k, x)
    ensures Mapped(m, a, b, frames)[k].frames == if k == a then frames else Cut(m, a, b)[k].frames
  {
    hide Cut;
  }

  /** Outside the range the mapped map looks up what the cut one does. */
  lemma MappedOutside(m: Traces, a: int, b: int, frames: Frames, x: int)
    requires WellFormed(m) && a <= b && (a < b || TraceAt(m, a) == None) && !(a <= x < b)
    ensures TraceAt(Mapped(m, a, b, frames), x) == TraceAt(Cut(m, a, b), x)
  {
    hide Cut, Mapped, WellFormed, TraceAt;
    CutWellFormed(m, a, b);
    MappedWellFormed(m, a, b, frames);
    var n, c := Mapped(m, a, b, frames), Cut(m, a, b);
    if TraceAt(n, x).Some? {
      TraceAtMeaning(n, x, TraceAt(n, x).value);
      var k :| Covers(n, k, x) && n[k].frames == TraceAt(n, x).value;
      MappedCovers(m, a, b, frames, k, x);
      MappedFrames(m, a, b, frames, k, x);
      TraceAtMeaning(c, x, TraceAt(n, x).value);
    } else if TraceAt(c, x).Some? {
      TraceAtMeaning(c, x, TraceAt(c, x).value);
      var k :| Covers(c, k, x) && c[k].frames == TraceAt(c, x).value;
      CutMissesStart(m, a, b, k, x);
      MappedCovers(m, a, b, frames, k, x);
      MappedFrames(m, a, b, frames, k, x);
      TraceAtMeaning(n, x, TraceAt(c, x).value);
    }
  }

  /** What is left outside the range does not start at its beginning. */
  lemma CutMissesStart(m: Traces, a: int, b: int, k: int, x: int)
    requires WellFormed(m) && a <= b && (a < b || TraceAt(m, a) == None)
    requires Covers(Cut(m, a, b), k, x) && !(a <= x < b)
    ensures k != a
  {
    hide Cut, WellFormed, TraceAt;
    if k == a {
      CutWellFormed(m, a, b);
      CutIsPointwise(m, a, b, a);
      assert Covers(Cut(m, a, b), a, a);
      TraceAtMeaning(Cut(m, a, b), a, Cut(m, a, b)[a].frames);
    }
  }

  ghost predicate Sound(m: Traces) {
    WellFormed(m) && NonEmpty(m)
  }

  // ----- The lock is free between unmapping a range and storing its trace

  /** What MapCurrentStackFrame stores after it has unmapped the range. */
  function Stored(m: Traces, a: int, b: int, frames: Frames): Traces {
    m[a := Trace(b, frames)]
  }

  /** Every interval that meets [a, b) starts at `a` and ends in the range. */
  ghost predicate OnlyReplaced(m: Traces, a: int, b: int) {
    forall k :: k in m && Meets(m, a, b, k) ==> k == a && m[k].end <= b
  }

  /** If others have changed the map in between, storing is still overwriting, and keeps the intervals disjoint, exactly
      when the interval that it replaces, if any, is all that they have mapped in the range. */
  lemma StoringExactlyWhen(m: Traces, a: int, b: int, frames: Frames)
    requires Sound(m) && a < b
    ensures OnlyReplaced(m, a, b) <==>
      && WellFormed(Stored(m, a, b, frames))
      && forall x :: TraceAt(Stored(m, a, b, frames), x) == if a <= x < b then Some(frames) else TraceAt(m, x)
  {
    hide TraceAt;
    var n := Stored(m, a, b, frames);
    if OnlyReplaced(m, a, b) {
      forall x ensures TraceAt(n, x) == if a <= x < b then Some(frames) else TraceAt(m, x) {
        StoredAt(m, a, b, frames, x);
      }
    } else if WellFormed(n) {
      var k :| k in m && Meets(m, a, b, k) && !(k == a && m[k].end <= b);
      StoredLoses(m, a, b, frames, k);
    }
  }

  lemma StoredAt(m: Traces, a: int, b: int, frames: Frames, x: int)
    requires Sound(m) && a < b && OnlyReplaced(m, a, b)
    ensures WellFormed(Stored(m, a, b, frames))
    ensures TraceAt(Stored(m, a, b, frames), x) == if a <= x < b then Some(frames) else TraceAt(m, x)
  {
    hide TraceAt;
    var n := Stored(m, a, b, frames);
    StoredCovers(m, a, b, frames, x);
    hide WellFormed, Stored, OnlyReplaced;
    if a <= x < b {
      assert Covers(n, a, x);
      TraceAtMeaning(n, x, frames);
    } else {
      if TraceAt(n, x).Some? {
        TraceAtMeaning(n, x, TraceAt(n, x).value);
        TraceAtMeaning(m, x, TraceAt(n, x).value);
      }
      if TraceAt(m, x).Some? {
        TraceAtMeaning(m, x, TraceAt(m, x).value);
        TraceAtMeaning(n, x, TraceAt(m, x).value);
      }
    }
  }

  lemma StoredCovers(m: Traces, a: int, b: int, frames: Frames, x: int)
    requires Sound(m) && a < b && OnlyReplaced(m, a, b)
    ensures var n := Stored(m, a, b, frames);
      && WellFormed(n) && a in n && n[a].frames == frames
      && forall k :: Covers(n, k, x) <==> if a <= x < b then k == a else Covers(m, k, x)
    ensures var n := Stored(m, a, b, frames);
      !(a <= x < b) ==> forall k :: Covers(n, k, x) ==> n[k].frames == m[k].frames
  {
  }

  lemma StoredLoses(m: Traces, a: int, b: int, frames: Frames, k: int)
    requires Sound(m) && a < b && k in m && Meets(m, a, b, k) && !(k == a && m[k].end <= b)
    requires WellFormed(Stored(m, a, b, frames))
    ensures TraceAt(m, b).Some? && TraceAt(Stored(m, a, b, frames), b) == None
  {
    hide TraceAt;
    var n := Stored(m, a, b, frames);
    assert a in n && n[a].end == b && k in n;
    assert k == a;
    assert Covers(m, a, b);
    TraceAtMeaning(m, b, m[a].frames);
    if TraceAt(n, b).Some? {
      TraceAtMeaning(n, b, TraceAt(n, b).value);
    }
  }

  /** Another thread has mapped [0, 16) when the trace of [0, 8) is stored: the rest of its mapping is lost. */
  lemma StoreLosesTrace() returns (m: Traces)
    ensures Sound(m) && TraceAt(m, 12) == Some([2]) && TraceAt(Stored(m, 0, 8, [1]), 12) == None
  {
    m := map[0 := Trace(16, [2])];
    hide TraceAt;
    assert Covers(m, 0, 12);
    TraceAtMeaning(m, 12, [2]);
    var n := Stored(m, 0, 8, [1]);
    if TraceAt(n, 12).Some? {
      TraceAtMeaning(n, 12, TraceAt(n, 12).value);
    }
  }

  // ----- Whole runs

  datatype Op = Map(addr: nat, length: nat, frames: Frames) | Unmap(addr: nat, length: nat)

  function Step(m: Traces, op: Op): Traces {
    if op.Map? then Mapped(m, op.addr, op.addr + op.length, op.frames) else Cut(m, op.addr, op.addr + op.length)
  }

  function Run(ops: seq<Op>): Traces {
    if ops == [] then map[] else Step(Run(ops[..|ops| - 1]), ops[|ops| - 1])
  }

  /** The trace of the last operation whose range holds `x`. */
  function Latest(ops: seq<Op>, x: int): Option<Frames> {
    if ops == [] then
      None
    else
      var op := ops[|ops| - 1];
      if op.addr <= x < op.addr + op.length then (if op.Map? then Some(op.frames) else None)
      else Latest(ops[..|ops| - 1], x)
  }

  lemma StepMeaning(m: Traces, op: Op, x: int)
    requires Sound(m) && (op.Map? ==> op.length > 0)
    ensures Sound(Step(m, op))
    ensures TraceAt(Step(m, op), x) ==
      if op.addr <= x < op.addr + op.length then (if op.Map? then Some(op.frames) else None) else TraceAt(m, x)
  {
    hide WellFormed, NonEmpty, TraceAt, Cut, Mapped;
    if op.Map? {
      MappedWellFormed(m, op.addr, op.addr + op.length, op.frames);
      MappedAt(m, op.addr, op.addr + op.length, op.frames, x);
    } else {
      CutWellFormed(m, op.addr, op.addr + op.length);
      CutIsPointwise(m, op.addr, op.addr + op.length, x);
    }
  }

  /** After any run, an address looks up what the last operation on it left, and the intervals are disjoint and
      not empty. */
  lemma {:induction false} RunIsLatest(ops: seq<Op>, x: int)
    requires forall i :: 0 <= i < |ops| && ops[i].Map? ==> ops[i].length > 0
    ensures Sound(Run(ops))
    ensures TraceAt(Run(ops), x) == Latest(ops, x)
  {
    if ops != [] {
      RunIsLatest(ops[..|ops| - 1], x);
      StepMeaning(Run(ops[..|ops| - 1]), ops[|ops| - 1], x);
    }
  }

  // ----- The loop that makes the cut

  /** `it` is an interval the loop still has to look at, or the position where it stops. */
  ghost predicate InLoop(m: Traces, b: int, it: Position) {
    it == UpperBound(m, b) || (it.At? && it.key in m && it.key <= b)
  }

  /** `now` is `m` with the intervals in front of `it` cut. */
  ghost predicate Cutting(m: Traces, a: int, b: int, it: Position, now: Traces) {
    WellFormed(m) && a <= b && InLoop(m, b, it) && now == CutUpTo(m, a, b, it)
  }

  /** The first interval that may meet a range from `a` on: one starts at `a`, or the one in front may reach it. */
  function FirstToCut(m: Traces, a: int): Position {
    var start := LowerBound(m, a);
    if start != Begin(m) && start != At(a) then Before(m, a) else start
  }

  lemma LoopStarts(m: Traces, a: int, b: int)
    requires WellFormed(m) && a <= b
    ensures Cutting(m, a, b, FirstToCut(m, a), m)
  {
    hide LowerBound, Before;
    var it := FirstToCut(m, a);
    assert LowerBound(m, a) == Begin(m) ==> forall k :: k in m ==> !(k < a);
    forall k | k in m && Passed(k, it) ensures !Meets(m, a, b, k) {
    }
    NothingCut(m, a, b, it);
  }

  lemma NothingCut(m: Traces, a: int, b: int, it: Position)
    requires forall k :: k in m && Passed(k, it) ==> !Meets(m, a, b, k)
    ensures CutUpTo(m, a, b, it) == m
  {
    hide LowerBound, Before;
  }

  /** From the position of the loop on, the map is still as it was. */
  lemma LoopAhead(m: Traces, a: int, b: int, k: int)
    requires WellFormed(m) && a <= b && k in m && k <= b
    ensures RightSource(m, a, b, At(k)) == End
    ensures var c := CutUpTo(m, a, b, At(k)); forall x :: k <= x ==> (x in c <==> x in m) && (x in m ==> c[x] == m[x])
    ensures UpperBound(CutUpTo(m, a, b, At(k)), k) == UpperBound(m, k)
    ensures InLoop(m, b, UpperBound(m, k))
  {
    hide LowerBound, Before;
    assert RightSource(m, a, b, At(k)) == End;
    SameFrom(CutUpTo(m, a, b, At(k)), m, k, k + 1);
  }

  lemma PassedNext(m: Traces, a: int, b: int, k: int)
    requires k in m
    ensures forall x :: x in m && x != k ==> (Gone(m, a, b, UpperBound(m, k), x) <==> Gone(m, a, b, At(k), x))
    ensures !Gone(m, a, b, At(k), k) && (Gone(m, a, b, UpperBound(m, k), k) <==> Meets(m, a, b, k))
  {
    hide LowerBound, Before;
  }

  /** A cut depends on the position only by the intervals that it has passed. */
  lemma CutSame(m: Traces, a: int, b: int, it: Position, it': Position)
    requires forall k :: k in m ==> (Gone(m, a, b, it, k) <==> Gone(m, a, b, it', k))
    ensures CutUpTo(m, a, b, it) == CutUpTo(m, a, b, it')
  {
    hide LowerBound, Before, Gone;
    var c, c' := CutUpTo(m, a, b, it), CutUpTo(m, a, b, it');
    assert RightSource(m, a, b, it) == RightSource(m, a, b, it');
    hide RightSource;
    forall k ensures k in c <==> k in c' {
      assert InCut(m, a, b, it, k) <==> InCut(m, a, b, it', k);
    }
    forall k | k in c ensures c[k] == c'[k] {
    }
  }

  lemma LoopSkips(m: Traces, a: int, b: int, k: int)
    requires WellFormed(m) && a <= b && k in m && k <= b && !Meets(m, a, b, k)
    ensures CutUpTo(m, a, b, UpperBound(m, k)) == CutUpTo(m, a, b, At(k))
  {
    hide LowerBound, Before, UpperBound, Gone, CutUpTo, WellFormed;
    PassedNext(m, a, b, k);
    CutSame(m, a, b, UpperBound(m, k), At(k));
  }

  lemma LoopCuts(m: Traces, a: int, b: int, k: int)
    requires WellFormed(m) && a <= b && k in m && k <= b && Meets(m, a, b, k)
    ensures CutUpTo(m, a, b, UpperBound(m, k)) == AfterCut(m, a, b, k, CutUpTo(m, a, b, At(k)))
  {
    PassedNext(m, a, b, k);
    LoopAhead(m, a, b, k);
    assert RightSource(m, a, b, UpperBound(m, k)) == if b < m[k].end then At(k) else End by {
      if b < m[k].end {
        assert Before(m, b) == At(k);
      }
    }
    CutsOne(m, a, b, k, At(k), UpperBound(m, k));
  }

  lemma CutsOne(m: Traces, a: int, b: int, k: int, it: Position, next: Position)
    requires k in m && Meets(m, a, b, k) && k <= b
    requires !Gone(m, a, b, it, k) && Gone(m, a, b, next, k)
    requires forall x :: x in m && x != k ==> (Gone(m, a, b, next, x) <==> Gone(m, a, b, it, x))
    requires RightSource(m, a, b, it) == End
    requires RightSource(m, a, b, next) == if b < m[k].end then At(k) else End
    ensures CutUpTo(m, a, b, next) == AfterCut(m, a, b, k, CutUpTo(m, a, b, it))
  {
    hide Meets, Passed, RightSource, Gone, LowerBound, Before;
  }

  /** One step of the loop. */
  lemma LoopStep(m: Traces, a: int, b: int, it: Position, now: Traces)
    requires Cutting(m, a, b, it, now) && it != UpperBound(m, b)
    ensures it.At? && it.key in m && it.key in now && now[it.key] == m[it.key]
    ensures it.key <= b && UpperBound(now, it.key) == UpperBound(m, it.key)
    ensures Cutting(m, a, b, UpperBound(m, it.key),
                    if Meets(m, a, b, it.key) then AfterCut(m, a, b, it.key, now) else now)
  {
    LoopAhead(m, a, b, it.key);
    if Meets(m, a, b, it.key) {
      LoopCuts(m, a, b, it.key);
    } else {
      LoopSkips(m, a, b, it.key);
    }
  }

  /** Erasing the interval at `k` and inserting what is left of it. */
  function AfterCut(m: Traces, a: int, b: int, k: int, c: Traces): Traces
    requires k in m
  {
    var erased := c - {k};
    var left := if k < a then erased[k := m[k].(end := a)] else erased;
    if b < m[k].end then left[b := m[k]] else left
  }

  lemma CutAtEnd(m: Traces, a: int, b: int)
    ensures CutUpTo(m, a, b, UpperBound(m, b)) == Cut(m, a, b)
  {
    hide LowerBound, Before, UpperBound, CutUpTo;
    CutSame(m, a, b, UpperBound(m, b), End);
  }

  lemma LoopEnds(m: Traces, a: int, b: int, now: Traces)
    requires Cutting(m, a, b, UpperBound(m, b), now)
    ensures now == Cut(m, a, b) && WellFormed(now)
  {
    hide CutUpTo, Cut, UpperBound;
    CutAtEnd(m, a, b);
    CutWellFormed(m, a, b);
  }

  class MemoryMappingBacktraceMap {
    var memory: Traces

    ghost predicate Valid()
      reads this
    {
      WellFormed(memory)
    }

    constructor ()
      ensures Valid() && memory == map[]
    {
      memory := map[];
    }

    method Unmap(addr: nat, length: nat)
      requires Valid()
      modifies this
      ensures Valid()
      ensures memory == Cut(old(memory), addr, addr + length)
    {
      hide Cutting, WellFormed, Cut, LowerBound, Before;
      ghost var m := memory;
      LoopStarts(m, addr, addr + length);
      var start := LowerBound(memory, addr);
      // The interval in front may reach into the range, unless one starts at `addr` itself.
      if start != Begin(memory) && start != At(addr) {
        start := Before(memory, addr);
      }
      assert start == FirstToCut(m, addr);
      hide FirstToCut;
      var end := UpperBound(memory, addr + length);
      var i := start;
      while i != end
        invariant Cutting(m, addr, addr + length, i, memory)
        decreases if i.At? && i.key <= addr + length then addr + length + 1 - i.key else 0
      {
        LoopStep(m, addr, addr + length, i, memory);
        var key := i.key;
        var trace := memory[key];
        if addr + length <= key || trace.end <= addr {
          i := UpperBound(memory, key);
          continue;
        }
        var next := UpperBound(memory, key);
        memory := memory - {key};
        if addr > key {
          memory := memory[key := trace.(end := addr)];
        }
        if trace.end > addr + length {
          memory := memory[addr + length := trace];
        }
        i := next;
      }
      LoopEnds(m, addr, addr + length, memory);
    }

    method MapCurrentStackFrame(addr: nat, length: nat, frames: Frames)
      requires Valid()
      modifies this
      ensures Valid()
      ensures memory == Mapped(old(memory), addr, addr + length, frames)
    {
      hide Cut, WellFormed;
      MappedWellFormed(memory, addr, addr + length, frames);
      Unmap(addr, length);
      memory := Stored(memory, addr, addr + length, frames);
    }

    /** The lookup of ConvertBacktraceToJSON. */
    method Lookup(addr: nat) returns (frames: Option<Frames>)
      requires Valid()
      ensures frames == None <==> forall k :: !Covers(memory, k, addr)
      ensures frames.Some? ==> exists k :: Covers(memory, k, addr) && memory[k].frames == frames.value
    {
      var i := UpperBound(memory, addr);
      if i == Begin(memory) {
        return None;
      }
      i := Before(memory, addr + 1);
      assert forall k :: Covers(memory, k, addr) ==> i.At? && k <= i.key;
      if addr < i.key || addr >= memory[i.key].end {
        return None;
      }
      assert Covers(memory, i.key, addr);
      return Some(memory[i.key].frames);
    }
  }
}
