/** Whole runs of additions and removals on the region map. */
module RegionRuns {
  import opened Basics
  import opened OrderedMap
  import opened RegionMap
  import opened RegionWalk

  datatype Op =
    | Add(addr: int, length: nat, offset: int, fixed: bool, stream: Option<Stream>)
    | Remove(addr: int, length: nat)

  /** What callers owe: an even address and an even length. */
  predicate Legal(op: Op) {
    !IsPageEndAddress(op.addr) && op.length % 2 == 0
  }

  function Step(m: Regions, op: Op): Regions {
    match op
    case Add(addr, length, offset, fixed, stream) => AddRange(m, addr, length, offset, fixed, stream).0
    case Remove(addr, length) => RemoveRange(m, addr, length).0
  }

  function Run(m: Regions, ops: seq<Op>): Regions
    decreases ops
  {
    if ops == [] then m else Run(Step(m, ops[0]), ops[1..])
  }

  /** A shared region meets [lo, hi]. */
  ghost predicate MeetsShared(m: Regions, lo: int, hi: int) {
    exists s, e :: IsRegion(m, s, e) && s <= hi && lo <= e && m[s].ref > 1
  }

  /** A removal gets to its end exactly when it meets no shared region, and else to just before the first one. */
  lemma RemovableMeaning(m: Regions, lo: int, hi: int)
    requires WellFormed(m) && RangeShape(lo, hi)
    ensures RemovableUpTo(m, lo, hi).1 <==> !MeetsShared(m, lo, hi)
    ensures RemovableUpTo(m, lo, hi).1 ==> RemovableUpTo(m, lo, hi).0 == hi
    ensures IsPageEndAddress(RemovableUpTo(m, lo, hi).0) && RemovableUpTo(m, lo, hi).0 <= hi
    ensures !RemovableUpTo(m, lo, hi).1 ==> SharedAt(m, lo, hi, RemovableUpTo(m, lo, hi).0 + 1)
  {
    hide WellFormed, LowerBound, Before, SharedEnds;
    var first := LowerBound(SharedEnds(m, hi), lo);
    if first.At? {
      var s := SharedEndMeaning(m, lo, hi, first.key);
      assert SharedAt(m, lo, hi, s);
    } else if MeetsShared(m, lo, hi) {
      var s, e :| IsRegion(m, s, e) && s <= hi && lo <= e && m[s].ref > 1;
      StopsBefore(m, lo, hi, s, e);
    }
  }

  ghost predicate SharedAt(m: Regions, lo: int, hi: int, s: int) {
    exists e :: IsRegion(m, s, e) && s <= hi && lo <= e && m[s].ref > 1
  }

  lemma StopsBefore(m: Regions, lo: int, hi: int, s: int, e: int)
    requires WellFormed(m) && IsRegion(m, s, e) && s <= hi && lo <= e && m[s].ref > 1
    ensures RemovableUpTo(m, lo, hi).0 < s && !RemovableUpTo(m, lo, hi).1
  {
    assert Before(m, e) == At(s);
    assert e in SharedEnds(m, hi);
    var first := LowerBound(SharedEnds(m, hi), lo).key;
    var s' := SharedEndMeaning(m, lo, hi, first);
  }

  /** Removing refines deletion address by address. An exact removal of a shared region changes no cell; any
      other removal unmaps its range up to the first shared region it meets, and moves nothing else. */
  lemma RemoveMeaning(m: Regions, addr: int, length: nat)
    requires WellFormed(m) && !IsPageEndAddress(addr) && length % 2 == 0
    ensures WellFormed(RemoveRange(m, addr, length).0)
    ensures forall a :: CellAt(RemoveRange(m, addr, length).0, a) ==
                        if addr <= a <= RemovedUpTo(m, addr, length) then Unmapped else CellAt(m, a)
    ensures length > 0 && !MeetsShared(m, addr, addr + length - 1) ==> RemovedUpTo(m, addr, length) == addr + length - 1
  {
    hide WellFormed, Carve, RemovableUpTo, Overlaps, CellAt;
    var hi := addr + length - 1;
    if length > 0 && HasRegion(m, addr, hi) && m[addr].ref > 1 {
      assert StartKey(m, addr);
      RecountWellFormed(m, addr, m[addr].ref - 1);
      assert SharedAt(m, addr, hi, addr);
    } else if length > 0 {
      RemovableMeaning(m, addr, hi);
      PartialRemoval(m, addr, length);
      hide RemoveRange, RemovedUpTo, HasRegion;
      CarveToMeaning(m, addr, RemovableUpTo(m, addr, hi).0);
    }
  }

  /** A removal reports success exactly when it dropped a reference, or when the range held something and could
      be removed whole. */
  lemma RemoveSucceeds(m: Regions, addr: int, length: nat)
    requires WellFormed(m) && !IsPageEndAddress(addr) && length % 2 == 0
    ensures RemoveRange(m, addr, length).1 == None <==>
      && length > 0
      && (|| (IsRegion(m, addr, addr + length - 1) && m[addr].ref > 1)
          || (Intersects(m, addr, addr + length - 1) && !MeetsShared(m, addr, addr + length - 1)))
    ensures RemoveRange(m, addr, length).1 == Some(EINVAL) <==> length == 0
  {
    hide WellFormed, Carve, CarveTo, RemovableUpTo, Overlaps, Intersects;
    if length > 0 {
      RemovableMeaning(m, addr, addr + length - 1);
      OverlapMeaning(m, addr, addr + length - 1);
    }
  }

  lemma CarveToMeaning(m: Regions, lo: int, stop: int)
    requires WellFormed(m) && !IsPageEndAddress(lo) && IsPageEndAddress(stop)
    ensures WellFormed(CarveTo(m, lo, stop))
    ensures forall a :: CellAt(CarveTo(m, lo, stop), a) == if lo <= a <= stop then Unmapped else CellAt(m, a)
  {
    if lo <= stop {
      CarveWellFormed(m, lo, stop);
      forall a {
        CarveIsPointwise(m, lo, stop, a);
      }
    }
  }

  lemma StepWellFormed(m: Regions, op: Op)
    requires WellFormed(m) && Legal(op)
    ensures WellFormed(Step(m, op))
  {
    match op
    case Add(addr, length, offset, fixed, stream) => AddMeaning(m, addr, length, offset, fixed, stream);
    case Remove(addr, length) => RemoveMeaning(m, addr, length);
  }

  /** Every run keeps the map well-formed. */
  lemma {:induction false} RunWellFormed(m: Regions, ops: seq<Op>)
    requires WellFormed(m) && forall i :: 0 <= i < |ops| ==> Legal(ops[i])
    ensures WellFormed(Run(m, ops))
    decreases ops
  {
    hide WellFormed, Step;
    if ops != [] {
      StepWellFormed(m, ops[0]);
      RunWellFormed(Step(m, ops[0]), ops[1..]);
    }
  }

  // ----- Reference counts over a run

  /** Adding the range [s, e] for the file `path`, in a way that may share a region. */
  predicate ExactAdd(op: Op, s: int, e: int, path: string) {
    op.Add? && op.addr == s && op.length > 0 && s + op.length - 1 == e && !op.fixed
    && op.stream.Some? && op.stream.value.sameAddress && op.stream.value.pathname == path
  }

  predicate ExactRemove(op: Op, s: int, e: int) {
    op.Remove? && op.addr == s && op.length > 0 && s + op.length - 1 == e
  }

  predicate Apart(op: Op, s: int, e: int) {
    op.length == 0 || op.addr + op.length - 1 < s || e < op.addr
  }

  function BalanceAfter(balance: nat, op: Op, s: int, e: int, path: string): nat {
    if ExactAdd(op, s, e, path) then balance + 1
    else if ExactRemove(op, s, e) && balance > 0 then balance - 1
    else balance
  }

  function Balance(balance: nat, ops: seq<Op>, s: int, e: int, path: string): nat
    decreases ops
  {
    if ops == [] then balance else Balance(BalanceAfter(balance, ops[0], s, e, path), ops[1..], s, e, path)
  }

  /** Operations may be anything while the region is shared. Otherwise, of those that meet it, only a removal of the
      region with one reference and an addition to the empty range have to name it exactly. */
  predicate Orderly(balance: nat, ops: seq<Op>, s: int, e: int, path: string)
    decreases ops
  {
    ops == [] ||
    (&& Legal(ops[0])
     && (|| balance >= 2 || Apart(ops[0], s, e) || ExactAdd(ops[0], s, e, path) || ExactRemove(ops[0], s, e)
         || (ops[0].Add? && balance >= 1) || (ops[0].Remove? && balance == 0))
     && Orderly(BalanceAfter(balance, ops[0], s, e, path), ops[1..], s, e, path))
  }

  /** The range holds the region with `balance` references, or nothing at all when that is zero. */
  ghost predicate Counted(m: Regions, balance: nat, s: int, e: int, path: string) {
    && (balance == 0 ==> !Intersects(m, s, e))
    && (balance > 0 ==>
          && IsRegion(m, s, e) && m[s].ref == balance
          && m[s].stream.Some? && m[s].stream.value.sameAddress && m[s].stream.value.pathname == path)
  }

  lemma CountedCells(m: Regions, balance: nat, s: int, e: int, path: string)
    requires WellFormed(m) && RangeShape(s, e) && Counted(m, balance, s, e, path)
    ensures forall a :: s <= a <= e ==> (CellAt(m, a) == Unmapped <==> balance == 0)
  {
    OverlapMeaning(m, s, e);
    if balance > 0 {
      var e' := RegionStartingAt(m, s);
      RegionsAreDisjoint(m, s, e, s, e');
      forall a | s <= a <= e ensures CellAt(m, a) != Unmapped {
        CellInside(m, s, e, a);
      }
    }
  }

  lemma StepCounted(m: Regions, op: Op, balance: nat, s: int, e: int, path: string)
    requires WellFormed(m) && RangeShape(s, e) && Counted(m, balance, s, e, path)
    requires Orderly(balance, [op], s, e, path)
    ensures WellFormed(Step(m, op))
    ensures Counted(Step(m, op), BalanceAfter(balance, op, s, e, path), s, e, path)
  {
    match op
    case Add(addr, length, offset, fixed, stream) => AddCounted(m, op, balance, s, e, path);
    case Remove(addr, length) => RemoveCounted(m, op, balance, s, e, path);
  }

  lemma AddCounted(m: Regions, op: Op, balance: nat, s: int, e: int, path: string)
    requires WellFormed(m) && RangeShape(s, e) && Counted(m, balance, s, e, path)
    requires op.Add? && Orderly(balance, [op], s, e, path)
    ensures WellFormed(Step(m, op))
    ensures Counted(Step(m, op), BalanceAfter(balance, op, s, e, path), s, e, path)
  {
    hide WellFormed, AddRange;
    var (n, ok) := AddRange(m, op.addr, op.length, op.offset, op.fixed, op.stream);
    var last := op.addr + op.length - 1;
    AddMeaning(m, op.addr, op.length, op.offset, op.fixed, op.stream);
    if ok && Intersects(m, op.addr, last) {
      ShareCounted(m, op, balance, s, e, path);
    } else if ok {
      InsertCounted(m, n, op, balance, s, e, path);
    }
  }

  lemma ShareCounted(m: Regions, op: Op, balance: nat, s: int, e: int, path: string)
    requires WellFormed(m) && RangeShape(s, e) && Counted(m, balance, s, e, path)
    requires op.Add? && op.length > 0 && IsRegion(m, op.addr, op.addr + op.length - 1)
    requires !op.fixed && MayShare(op.stream, m[op.addr].stream)
    ensures Counted(m[op.addr := m[op.addr].(ref := m[op.addr].ref + 1)], BalanceAfter(balance, op, s, e, path),
                    s, e, path)
  {
    assert StartKey(m, op.addr);
    RecountWellFormed(m, op.addr, m[op.addr].ref + 1);
  }

  lemma InsertCounted(m: Regions, n: Regions, op: Op, balance: nat, s: int, e: int, path: string)
    requires WellFormed(n) && RangeShape(s, e) && Counted(m, balance, s, e, path) && WellFormed(m)
    requires op.Add? && op.length > 0 && Legal(op) && !Intersects(m, op.addr, op.addr + op.length - 1)
    requires n == AddRange(m, op.addr, op.length, op.offset, op.fixed, op.stream).0
    requires balance >= 1 || Apart(op, s, e) || ExactAdd(op, s, e, path)
    ensures Counted(n, BalanceAfter(balance, op, s, e, path), s, e, path)
  {
    AddMeaning(m, op.addr, op.length, op.offset, op.fixed, op.stream);
    OverlapMeaning(m, op.addr, op.addr + op.length - 1);
    if balance == 0 {
      OverlapMeaning(m, s, e);
      OverlapMeaning(n, s, e);
    }
  }

  lemma RemoveCounted(m: Regions, op: Op, balance: nat, s: int, e: int, path: string)
    requires WellFormed(m) && RangeShape(s, e) && Counted(m, balance, s, e, path)
    requires op.Remove? && Orderly(balance, [op], s, e, path)
    ensures WellFormed(Step(m, op))
    ensures Counted(Step(m, op), BalanceAfter(balance, op, s, e, path), s, e, path)
  {
    hide LowerBound, Before;
    RemoveMeaning(m, op.addr, op.length);
    var hi := op.addr + op.length - 1;
    if op.length == 0 {
    } else if HasRegion(m, op.addr, hi) && m[op.addr].ref > 1 {
      UnshareCounted(m, op, balance, s, e, path);
    } else {
      CarveCounted(m, op, balance, s, e, path);
    }
  }

  lemma UnshareCounted(m: Regions, op: Op, balance: nat, s: int, e: int, path: string)
    requires WellFormed(m) && RangeShape(s, e) && Counted(m, balance, s, e, path)
    requires op.Remove? && op.length > 0 && IsRegion(m, op.addr, op.addr + op.length - 1) && m[op.addr].ref > 1
    ensures Counted(m[op.addr := m[op.addr].(ref := m[op.addr].ref - 1)], BalanceAfter(balance, op, s, e, path),
                    s, e, path)
  {
    assert StartKey(m, op.addr);
    RecountWellFormed(m, op.addr, m[op.addr].ref - 1);
  }

  lemma CarveCounted(m: Regions, op: Op, balance: nat, s: int, e: int, path: string)
    requires WellFormed(m) && RangeShape(s, e) && Counted(m, balance, s, e, path)
    requires op.Remove? && op.length > 0 && Orderly(balance, [op], s, e, path)
    requires !(HasRegion(m, op.addr, op.addr + op.length - 1) && m[op.addr].ref > 1)
    ensures Counted(Step(m, op), BalanceAfter(balance, op, s, e, path), s, e, path)
  {
    if balance == 0 || ExactRemove(op, s, e) {
      CarvedAway(m, op, balance, s, e, path);
    } else {
      CarvedAround(m, op, balance, s, e, path);
    }
  }

  lemma CarvedAway(m: Regions, op: Op, balance: nat, s: int, e: int, path: string)
    requires WellFormed(m) && RangeShape(s, e) && Counted(m, balance, s, e, path)
    requires op.Remove? && op.length > 0 && Legal(op)
    requires balance == 0 || (ExactRemove(op, s, e) && balance == 1)
    ensures !Intersects(Step(m, op), s, e)
  {
    var hi := op.addr + op.length - 1;
    var n := Step(m, op);
    RemoveMeaning(m, op.addr, op.length);
    hide RemoveRange, RemovedUpTo, WellFormed;
    OverlapMeaning(m, s, e);
    OverlapMeaning(n, s, e);
    if balance == 1 {
      forall s', e' | IsRegion(m, s', e') && s' <= hi && op.addr <= e' ensures m[s'].ref == 1 {
        RegionsAreDisjoint(m, s, e, s', e');
      }
    }
  }

  lemma CarvedAround(m: Regions, op: Op, balance: nat, s: int, e: int, path: string)
    requires WellFormed(m) && RangeShape(s, e) && Counted(m, balance, s, e, path) && balance > 0
    requires op.Remove? && op.length > 0 && Legal(op) && (balance >= 2 || Apart(op, s, e))
    requires !(HasRegion(m, op.addr, op.addr + op.length - 1) && m[op.addr].ref > 1)
    ensures Counted(Step(m, op), balance, s, e, path)
  {
    hide RemoveRange, RemovedUpTo, RemovableUpTo, WellFormed, Carve, HasRegion, Overlaps;
    var hi := op.addr + op.length - 1;
    PartialRemoval(m, op.addr, op.length);
    RemovableMeaning(m, op.addr, hi);
    var stop := RemovableUpTo(m, op.addr, hi).0;
    if s <= hi && op.addr <= e {
      StopsBefore(m, op.addr, hi, s, e);
    }
    if op.addr <= stop {
      CarveKeepsOthers(m, op.addr, stop, s, e);
    }
  }

  /** A range added n times is one region with n references, and it is unmapped exactly by the removal that
      balances the last addition. */
  lemma {:induction false} RunCounted(m: Regions, ops: seq<Op>, balance: nat, s: int, e: int, path: string)
    requires WellFormed(m) && RangeShape(s, e) && Counted(m, balance, s, e, path)
    requires Orderly(balance, ops, s, e, path)
    ensures WellFormed(Run(m, ops))
    ensures Counted(Run(m, ops), Balance(balance, ops, s, e, path), s, e, path)
    ensures forall a :: s <= a <= e ==> (CellAt(Run(m, ops), a) == Unmapped <==> Balance(balance, ops, s, e, path) == 0)
    decreases ops
  {
    if ops == [] {
      CountedCells(m, balance, s, e, path);
    } else {
      StepCounted(m, ops[0], balance, s, e, path);
      RunCounted(Step(m, ops[0]), ops[1..], BalanceAfter(balance, ops[0], s, e, path), s, e, path);
    }
  }
}
