/** The value of `MemoryRegion::map_`: a std::map from addresses to page-map values in which an even
    key is the first address of a region and an odd key its last. This module says what such a map
    means, address by address, and what adding and removing a range does to it. */
module RegionMap {
  import opened Basics
  import opened OrderedMap

  /** A FileStream as far as the map looks at it; `id` is the identity of the object. */
  datatype Stream = Stream(id: nat, inode: nat, pathname: string, sameAddress: bool)

  datatype PageMapValue = PageMapValue(ref: nat, offset: int, stream: Option<Stream>)

  type Regions = map<int, PageMapValue>

  predicate IsPageEndAddress(a: int) {
    a % 2 == 1
  }

  /** What one address is mapped to; `stream` is None for a reserved range without a stream. */
  datatype Cell = Unmapped | MappedTo(stream: Option<Stream>)

  ghost predicate StartKey(m: Regions, s: int) {
    s in m && !IsPageEndAddress(s)
  }

  ghost predicate EndKey(m: Regions, e: int) {
    e in m && IsPageEndAddress(e)
  }

  /** [s, e] is a region: a start key whose successor is the end key e. */
  ghost predicate IsRegion(m: Regions, s: int, e: int) {
    && s in m && !IsPageEndAddress(s)
    && e in m && IsPageEndAddress(e)
    && s < e
    && forall x :: s < x < e ==> x !in m
  }

  /** Both ends of a region carry the same mapping; only the start counts references. */
  ghost predicate Twins(m: Regions, s: int, e: int)
    requires s in m && e in m
  {
    m[s].ref >= 1 && m[e] == m[s].(ref := 1)
  }

  /** Keys alternate start and end, and every pair is a region with one stream. */
  ghost predicate WellFormed(m: Regions) {
    && (forall s {:trigger StartKey(m, s)} :: StartKey(m, s) ==> exists e :: IsRegion(m, s, e) && Twins(m, s, e))
    && (forall e {:trigger EndKey(m, e)} :: EndKey(m, e) ==> exists s :: IsRegion(m, s, e))
  }

  ghost predicate Covers(m: Regions, s: int, e: int, a: int) {
    IsRegion(m, s, e) && s <= a <= e
  }

  /** Reads the cell of an address off the first key at or after it. */
  function CellAt(m: Regions, a: int): Cell {
    match LowerBound(m, a)
    case End => Unmapped
    case At(k) => if IsPageEndAddress(k) || k == a then MappedTo(m[k].stream) else Unmapped
  }

  ghost predicate Intersects(m: Regions, lo: int, hi: int) {
    exists s, e :: IsRegion(m, s, e) && s <= hi && lo <= e
  }

  lemma RegionsAreDisjoint(m: Regions, s: int, e: int, s': int, e': int)
    requires IsRegion(m, s, e) && IsRegion(m, s', e')
    requires s <= e' && s' <= e
    ensures s == s' && e == e'
  {
  }

  lemma CellInside(m: Regions, s: int, e: int, a: int)
    requires Covers(m, s, e, a) && Twins(m, s, e)
    ensures CellAt(m, a) == MappedTo(m[s].stream)
  {
    assert LowerBound(m, a) == At(if a == s then s else e);
  }

  /** The region that ends at an end key. */
  lemma RegionEndingAt(m: Regions, e: int) returns (s: int)
    requires WellFormed(m) && EndKey(m, e)
    ensures IsRegion(m, s, e) && Twins(m, s, e)
  {
    s :| IsRegion(m, s, e);
    assert StartKey(m, s);
    var e' :| IsRegion(m, s, e') && Twins(m, s, e');
    RegionsAreDisjoint(m, s, e, s, e');
  }

  lemma RegionStartingAt(m: Regions, s: int) returns (e: int)
    requires WellFormed(m) && StartKey(m, s)
    ensures IsRegion(m, s, e) && Twins(m, s, e)
  {
    e :| IsRegion(m, s, e) && Twins(m, s, e);
  }

  /** What a cell means: an address is mapped to a stream exactly when some region covers it. */
  lemma CellMeaning(m: Regions, a: int, stream: Option<Stream>)
    requires WellFormed(m)
    ensures CellAt(m, a) == MappedTo(stream) <==> exists s, e :: Covers(m, s, e, a) && m[s].stream == stream
  {
    if s, e :| Covers(m, s, e, a) && m[s].stream == stream {
      var e' := RegionStartingAt(m, s);
      RegionsAreDisjoint(m, s, e, s, e');
      CellInside(m, s, e, a);
    }
    if CellAt(m, a) == MappedTo(stream) {
      var k := LowerBound(m, a).key;
      if IsPageEndAddress(k) {
        assert EndKey(m, k);
        var s := RegionEndingAt(m, k);
        assert Covers(m, s, k, a);
      } else {
        assert StartKey(m, a);
        var e := RegionStartingAt(m, a);
        assert Covers(m, a, e, a);
      }
    }
  }

  // ----- Removing a range

  /** A boundary before the even address `x` would fall inside a region. */
  predicate Cut(m: Regions, x: int) {
    LowerBound(m, x).At? && IsPageEndAddress(LowerBound(m, x).key)
  }

  /** `m` without the addresses [lo, hi]: the keys in the range go, and a region that reaches over a
      border of the range is ended, or started again, at that border. */
  function Carve(m: Regions, lo: int, hi: int): Regions {
    Splice(m, lo, hi, BorderEntry(m, lo, lo - 1), BorderEntry(m, hi + 1, hi + 1))
  }

  function Splice(m: Regions, lo: int, hi: int, left: Regions, right: Regions): Regions {
    (map k | k in m && !(lo <= k <= hi) :: m[k]) + left + right
  }

  /** The entry a cut before `x` leaves at `key`, copied from the end of the region. */
  function BorderEntry(m: Regions, x: int, key: int): Regions {
    if Cut(m, x) then map[key := m[LowerBound(m, x).key]] else map[]
  }

  lemma SpliceKeys(m: Regions, lo: int, hi: int, left: Regions, right: Regions)
    ensures var c := Splice(m, lo, hi, left, right);
      forall k {:trigger k in c} ::
        && (k in c <==> k in right || k in left || (k in m && !(lo <= k <= hi)))
        && (k in c ==> c[k] == if k in right then right[k] else if k in left then left[k] else m[k])
  {
  }

  /** The keys that carving leaves, and what is under them. */
  lemma CarveKeys(m: Regions, lo: int, hi: int)
    ensures var c := Carve(m, lo, hi);
      forall k {:trigger k in c} ::
        && (k in c <==> (k == hi + 1 && Cut(m, hi + 1)) || (k == lo - 1 && Cut(m, lo)) || (k in m && !(lo <= k <= hi)))
        && (k in c ==>
              c[k] == if k == hi + 1 && Cut(m, hi + 1) then m[LowerBound(m, hi + 1).key]
                      else if k == lo - 1 && Cut(m, lo) then m[LowerBound(m, lo).key] else m[k])
  {
    hide Splice, LowerBound;
    SpliceKeys(m, lo, hi, BorderEntry(m, lo, lo - 1), BorderEntry(m, hi + 1, hi + 1));
  }

  ghost predicate RangeShape(lo: int, hi: int) {
    !IsPageEndAddress(lo) && IsPageEndAddress(hi) && lo < hi
  }

  lemma CutIsInside(m: Regions, x: int)
    requires WellFormed(m) && !IsPageEndAddress(x) && Cut(m, x)
    ensures x - 1 !in m && x !in m
  {
    assert EndKey(m, LowerBound(m, x).key);
    var s := RegionEndingAt(m, LowerBound(m, x).key);
  }

  lemma CarveStart(m: Regions, lo: int, hi: int, s: int)
    requires WellFormed(m) && RangeShape(lo, hi)
    requires StartKey(Carve(m, lo, hi), s)
    ensures exists e :: IsRegion(Carve(m, lo, hi), s, e) && Twins(Carve(m, lo, hi), s, e)
  {
    hide LowerBound, Before, Carve;
    CarveKeys(m, lo, hi);
    var c := Carve(m, lo, hi);
    if s == hi + 1 && Cut(m, hi + 1) {
      var e := LowerBound(m, hi + 1).key;
      assert EndKey(m, e);
      var s0 := RegionEndingAt(m, e);
      assert IsRegion(c, s, e) && Twins(c, s, e);
    } else {
      assert StartKey(m, s);
      var e := RegionStartingAt(m, s);
      if s < lo <= e {
        assert LowerBound(m, lo) == At(e);
        assert IsRegion(c, s, lo - 1) && Twins(c, s, lo - 1);
      } else {
        if Cut(m, lo) {
          CutIsInside(m, lo);
        }
        assert IsRegion(c, s, e) && Twins(c, s, e);
      }
    }
  }

  lemma CarveEnd(m: Regions, lo: int, hi: int, e: int)
    requires WellFormed(m) && RangeShape(lo, hi)
    requires EndKey(Carve(m, lo, hi), e)
    ensures exists s :: IsRegion(Carve(m, lo, hi), s, e)
  {
    hide LowerBound, Before, Carve;
    CarveKeys(m, lo, hi);
    var c := Carve(m, lo, hi);
    if e == lo - 1 && Cut(m, lo) {
      var e0 := LowerBound(m, lo).key;
      assert EndKey(m, e0);
      var s := RegionEndingAt(m, e0);
      assert IsRegion(c, s, e);
    } else {
      assert EndKey(m, e);
      var s := RegionEndingAt(m, e);
      if s <= hi < e {
        assert LowerBound(m, hi + 1) == At(e);
        assert IsRegion(c, hi + 1, e);
      } else {
        assert IsRegion(c, s, e);
      }
    }
  }

  /** Carving keeps the map well-formed. */
  lemma CarveWellFormed(m: Regions, lo: int, hi: int)
    requires WellFormed(m) && RangeShape(lo, hi)
    ensures WellFormed(Carve(m, lo, hi))
  {
    var c := Carve(m, lo, hi);
    forall s {:trigger StartKey(c, s)} | StartKey(c, s)
      ensures exists e :: IsRegion(c, s, e) && Twins(c, s, e)
    {
      CarveStart(m, lo, hi, s);
    }
    forall e {:trigger EndKey(c, e)} | EndKey(c, e)
      ensures exists s :: IsRegion(c, s, e)
    {
      CarveEnd(m, lo, hi, e);
    }
  }

  /** After carving, an end key above the range closes a region that starts above the range. */
  lemma StartAbove(m: Regions, lo: int, hi: int, k: int) returns (s: int)
    requires WellFormed(m) && RangeShape(lo, hi)
    requires hi < k && EndKey(m, k)
    ensures hi < s < k && s in Carve(m, lo, hi)
  {
    hide LowerBound, Before, Carve;
    CarveKeys(m, lo, hi);
    s := RegionEndingAt(m, k);
    if s <= hi {
      assert LowerBound(m, hi + 1) == At(k);
      s := hi + 1;
    }
  }

  lemma CarveBelow(m: Regions, lo: int, hi: int, a: int)
    requires WellFormed(m) && RangeShape(lo, hi) && a < lo
    ensures CellAt(Carve(m, lo, hi), a) == CellAt(m, a)
  {
    hide LowerBound, Before, Carve;
    CarveKeys(m, lo, hi);
    var c := Carve(m, lo, hi);
    var k, k0 := LowerBound(c, a), LowerBound(m, a);
    if Cut(m, lo) {
      CutIsInside(m, lo);
      assert lo - 1 in c;
    }
    if k0.At? && k0.key < lo {
      assert k0.key in c;
      assert k == k0;
    } else if k0.At? && IsPageEndAddress(k0.key) {
      assert LowerBound(m, lo) == k0;
      assert k == At(lo - 1);
    } else if k.At? && k.key > hi && EndKey(m, k.key) {
      var s := StartAbove(m, lo, hi, k.key);
    }
  }

  lemma CarveAbove(m: Regions, lo: int, hi: int, a: int)
    requires WellFormed(m) && RangeShape(lo, hi) && hi < a
    ensures CellAt(Carve(m, lo, hi), a) == CellAt(m, a)
  {
    hide LowerBound, Before, Carve;
    CarveKeys(m, lo, hi);
    var c := Carve(m, lo, hi);
    var k, k0 := LowerBound(c, a), LowerBound(m, a);
    if Cut(m, hi + 1) {
      CutIsInside(m, hi + 1);
    }
    if k0.At? {
      assert k0.key in c;
    }
  }

  /** Carving is deletion address by address: nothing in the range stays mapped, nothing else moves. */
  lemma CarveIsPointwise(m: Regions, lo: int, hi: int, a: int)
    requires WellFormed(m) && RangeShape(lo, hi)
    ensures CellAt(Carve(m, lo, hi), a) == if lo <= a <= hi then Unmapped else CellAt(m, a)
  {
    if a < lo {
      CarveBelow(m, lo, hi, a);
    } else if hi < a {
      CarveAbove(m, lo, hi, a);
    } else {
      var k := LowerBound(Carve(m, lo, hi), a);
      if k.At? && EndKey(m, k.key) {
        var s := StartAbove(m, lo, hi, k.key);
      }
    }
  }

  /** Carving within one region moves, adds or erases at most its two border keys. */
  lemma CarveOne(m: Regions, s: int, e: int, lo: int, hi: int)
    requires WellFormed(m) && IsRegion(m, s, e) && RangeShape(lo, hi) && s <= lo && hi <= e
    ensures Carve(m, lo, hi) ==
      var n := if lo > s then m[lo - 1 := m[e]] else m - {s};
      if hi < e then n[hi + 1 := m[e]] else n - {e}
  {
    hide LowerBound, Before, Carve;
    CarveKeys(m, lo, hi);
    assert LowerBound(m, lo) == At(if lo == s then s else e);
    assert hi < e ==> LowerBound(m, hi + 1) == At(e);
    if hi == e && Cut(m, hi + 1) {
      CutIsInside(m, hi + 1);
    }
  }

  /** A region clear of the range survives with its reference count. */
  lemma CarveKeepsOthers(m: Regions, lo: int, hi: int, s: int, e: int)
    requires WellFormed(m) && RangeShape(lo, hi)
    requires IsRegion(m, s, e) && (e < lo || hi < s)
    ensures IsRegion(Carve(m, lo, hi), s, e) && Carve(m, lo, hi)[s] == m[s]
  {
    hide LowerBound, Before, Carve;
    CarveKeys(m, lo, hi);
    if Cut(m, lo) {
      CutIsInside(m, lo);
      var s0 := RegionEndingAt(m, LowerBound(m, lo).key);
    }
    if Cut(m, hi + 1) {
      CutIsInside(m, hi + 1);
      var s0 := RegionEndingAt(m, LowerBound(m, hi + 1).key);
    }
  }

  // ----- Adding a range

  /** Adds [addr, addr + length). Adding the very range of a region again counts a reference instead,
      when both streams always map to one address and are the same file; any other overlap fails. */
  function AddRange(m: Regions, addr: int, length: nat, offset: int, fixed: bool, stream: Option<Stream>)
    : (r: (Regions, bool))
  {
    var last := addr + length - 1;
    if length == 0 then
      (m, false)
    else if stream.Some? && HasRegion(m, addr, last) then
      if fixed || !MayShare(stream, m[addr].stream) then (m, false)
      else (m[addr := m[addr].(ref := m[addr].ref + 1)], true)
    else if Overlaps(m, addr, last) then
      (m, false)
    else
      (m[addr := PageMapValue(1, offset, stream)][last := PageMapValue(1, offset, stream)], true)
  }

  predicate MayShare(a: Option<Stream>, b: Option<Stream>) {
    a.Some? && b.Some? && a.value.sameAddress && b.value.sameAddress && a.value.pathname == b.value.pathname
  }

  /** Both are streams of one file that always maps to one address. */
  ghost predicate SameMapping(a: Option<Stream>, b: Option<Stream>) {
    exists x, y :: a == Some(x) && b == Some(y) && x.pathname == y.pathname && x.sameAddress && y.sameAddress
  }

  /** [s, e] is exactly a region, decided with map lookups. */
  predicate HasRegion(m: Regions, s: int, e: int)
    ensures !IsPageEndAddress(s) && IsPageEndAddress(e) ==> (HasRegion(m, s, e) <==> IsRegion(m, s, e))
  {
    s in m && UpperBound(m, s) == At(e)
  }

  /** Some region has an address in [lo, hi], decided with map lookups. */
  predicate Overlaps(m: Regions, lo: int, hi: int) {
    LowerBound(m, lo).At? && (LowerBound(m, lo).key <= hi || IsPageEndAddress(LowerBound(m, lo).key))
  }

  /** The test by lookups is interval intersection, region by region and address by address. */
  lemma OverlapMeaning(m: Regions, lo: int, hi: int)
    requires WellFormed(m) && RangeShape(lo, hi)
    ensures Overlaps(m, lo, hi) <==> Intersects(m, lo, hi)
    ensures Overlaps(m, lo, hi) <==> exists a :: lo <= a <= hi && CellAt(m, a) != Unmapped
  {
    hide LowerBound, Before;
    var k := LowerBound(m, lo);
    if Overlaps(m, lo, hi) {
      if IsPageEndAddress(k.key) {
        assert EndKey(m, k.key);
        var s := RegionEndingAt(m, k.key);
        assert CellAt(m, lo) != Unmapped;
      } else {
        assert StartKey(m, k.key);
        var e := RegionStartingAt(m, k.key);
        assert CellAt(m, k.key) != Unmapped;
      }
    }
    if a :| lo <= a <= hi && CellAt(m, a) != Unmapped {
      assert LowerBound(m, a).At?;
    }
  }

  lemma KeysOverlap(m: Regions, lo: int, hi: int)
    requires WellFormed(m) && RangeShape(lo, hi)
    ensures lo in m || hi in m ==> Overlaps(m, lo, hi)
  {
    hide LowerBound, WellFormed;
  }

  lemma InsertIsPointwise(m: Regions, lo: int, hi: int, value: PageMapValue, a: int)
    requires WellFormed(m) && RangeShape(lo, hi) && !Overlaps(m, lo, hi)
    ensures CellAt(m[lo := value][hi := value], a) == if lo <= a <= hi then MappedTo(value.stream) else CellAt(m, a)
  {
    var n := m[lo := value][hi := value];
    var k := LowerBound(m, a);
    assert lo in n && hi in n;
    if k.At? {
      assert k.key in n;
    }
    if lo <= a <= hi {
      assert LowerBound(n, a) == At(if a == lo then lo else hi);
    } else if a < lo && (k.End? || lo < k.key) {
      assert LowerBound(n, a) == At(lo);
      assert k.At? ==> LowerBound(m, lo) == k;
    } else {
      assert LowerBound(n, a) == k;
    }
  }

  lemma InsertWellFormed(m: Regions, lo: int, hi: int, value: PageMapValue)
    requires WellFormed(m) && RangeShape(lo, hi) && !Overlaps(m, lo, hi) && value.ref == 1
    ensures WellFormed(m[lo := value][hi := value])
    ensures IsRegion(m[lo := value][hi := value], lo, hi)
  {
    var n := m[lo := value][hi := value];
    assert IsRegion(n, lo, hi) && Twins(n, lo, hi);
    OverlapMeaning(m, lo, hi);
    forall s {:trigger StartKey(n, s)} | StartKey(n, s)
      ensures exists e :: IsRegion(n, s, e) && Twins(n, s, e)
    {
      if s != lo {
        assert StartKey(m, s);
        var e := RegionStartingAt(m, s);
        assert IsRegion(n, s, e) && Twins(n, s, e);
      }
    }
    forall e {:trigger EndKey(n, e)} | EndKey(n, e)
      ensures exists s :: IsRegion(n, s, e)
    {
      if e != hi {
        assert EndKey(m, e);
        var s := RegionEndingAt(m, e);
        assert IsRegion(n, s, e);
      }
    }
  }

  /** With the two keys of a range inserted, the neighbour test on them is interval intersection with the
      regions that were there before. */
  lemma NeighbourTest(m: Regions, n: Regions, lo: int, hi: int)
    requires WellFormed(m) && RangeShape(lo, hi) && lo !in m && hi !in m
    requires n.Keys == m.Keys + {lo, hi}
    ensures Intersects(m, lo, hi) <==>
      || UpperBound(n, lo) != At(hi)
      || (Before(n, lo).At? && !IsPageEndAddress(Before(n, lo).key))
  {
    hide LowerBound, Before;
    OverlapMeaning(m, lo, hi);
    var k := LowerBound(m, lo);
    assert lo in n && hi in n;
    if Overlaps(m, lo, hi) && IsPageEndAddress(k.key) {
      assert EndKey(m, k.key);
      var s := RegionEndingAt(m, k.key);
      assert s in n && k.key in n;
      assert Before(n, lo) == At(s);
    } else if Overlaps(m, lo, hi) {
      assert k.key in n;
    }
    var previous := Before(n, lo);
    if previous.At? && !IsPageEndAddress(previous.key) {
      assert StartKey(m, previous.key);
      var e := RegionStartingAt(m, previous.key);
      assert e in n;
    }
  }

  /** Changing a reference count, above zero, keeps the map well-formed and every cell as it was. */
  lemma RecountWellFormed(m: Regions, s: int, ref: nat)
    requires WellFormed(m) && StartKey(m, s) && ref >= 1
    ensures WellFormed(m[s := m[s].(ref := ref)])
    ensures forall a :: CellAt(m[s := m[s].(ref := ref)], a) == CellAt(m, a)
    ensures forall x, y :: IsRegion(m[s := m[s].(ref := ref)], x, y) <==> IsRegion(m, x, y)
    ensures forall x, y :: Intersects(m[s := m[s].(ref := ref)], x, y) <==> Intersects(m, x, y)
  {
    var n := m[s := m[s].(ref := ref)];
    forall x, y ensures IsRegion(n, x, y) <==> IsRegion(m, x, y) {
      assert n.Keys == m.Keys;
    }
    forall a ensures CellAt(n, a) == CellAt(m, a) {
      SameFrom(m, n, a, a);
    }
    forall k {:trigger StartKey(n, k)} | StartKey(n, k)
      ensures exists e :: IsRegion(n, k, e) && Twins(n, k, e)
    {
      assert StartKey(m, k);
      var e := RegionStartingAt(m, k);
      assert IsRegion(n, k, e) && Twins(n, k, e);
    }
    forall e {:trigger EndKey(n, e)} | EndKey(n, e)
      ensures exists k :: IsRegion(n, k, e)
    {
      assert EndKey(m, e);
      var k := RegionEndingAt(m, e);
      assert IsRegion(n, k, e);
    }
  }

  /** What adding means. A new region appears exactly when the range meets no region; otherwise the map
      stays as it is, but for the count of a region that is this very range and may be shared. */
  lemma AddMeaning(m: Regions, addr: int, length: nat, offset: int, fixed: bool, stream: Option<Stream>)
    requires WellFormed(m) && !IsPageEndAddress(addr) && length % 2 == 0
    ensures var (n, ok) := AddRange(m, addr, length, offset, fixed, stream);
      var last := addr + length - 1;
      && WellFormed(n)
      && (!ok ==> n == m)
      && (ok <==> length > 0 && (!Intersects(m, addr, last)
                                 || (IsRegion(m, addr, last) && !fixed && SameMapping(stream, m[addr].stream))))
      && (ok && !Intersects(m, addr, last) ==>
            IsRegion(n, addr, last) && n[addr] == PageMapValue(1, offset, stream)
            && forall a :: CellAt(n, a) == if addr <= a <= last then MappedTo(stream) else CellAt(m, a))
      && (ok && Intersects(m, addr, last) ==>
            n == m[addr := m[addr].(ref := m[addr].ref + 1)] && forall a :: CellAt(n, a) == CellAt(m, a))
  {
    hide LowerBound, Before;
    var last := addr + length - 1;
    if length > 0 {
      OverlapMeaning(m, addr, last);
      if stream.Some? && HasRegion(m, addr, last) {
        assert StartKey(m, addr);
        assert m[addr].ref + 1 >= 1;
        RecountWellFormed(m, addr, m[addr].ref + 1);
      } else if !Overlaps(m, addr, last) {
        var value := PageMapValue(1, offset, stream);
        InsertWellFormed(m, addr, last, value);
        forall a {
          InsertIsPointwise(m, addr, last, value, a);
        }
      }
    }
  }

  // ----- Removing a range, with reference counts

  datatype Errno = EINVAL | ENOSYS

  /** The end keys of the shared regions that start at or before `hi`. */
  function SharedEnds(m: Regions, hi: int): Regions {
    map e | e in m && IsPageEndAddress(e) && SharedEnd(m, hi, e) :: m[e]
  }

  predicate SharedEnd(m: Regions, hi: int, e: int) {
    var s := Before(m, e);
    s.At? && s.key <= hi && m[s.key].ref > 1
  }

  /** How far a removal of [lo, hi] gets: to `hi`, or to the first region it meets that is shared. */
  function RemovableUpTo(m: Regions, lo: int, hi: int): (int, bool) {
    match LowerBound(SharedEnds(m, hi), lo)
    case End => (hi, true)
    case At(e) => (Before(m, e).key - 1, false)
  }

  /** Removes [addr, addr + length). The very range of a shared region only loses a reference; meeting a
      shared region otherwise stops the removal there, with the regions before it already gone. */
  function RemoveRange(m: Regions, addr: int, length: nat): (Regions, Option<Errno>) {
    var hi := addr + length - 1;
    if length == 0 then
      (m, Some(EINVAL))
    else if HasRegion(m, addr, hi) && m[addr].ref > 1 then
      (m[addr := m[addr].(ref := m[addr].ref - 1)], None)
    else
      var (stop, all) := RemovableUpTo(m, addr, hi);
      (CarveTo(m, addr, stop), if all && Overlaps(m, addr, hi) then None else Some(ENOSYS))
  }

  /** The last address a removal gets to take away; it is below `addr` when it takes none. */
  function RemovedUpTo(m: Regions, addr: int, length: nat): int {
    var hi := addr + length - 1;
    if length == 0 || (HasRegion(m, addr, hi) && m[addr].ref > 1) then addr - 1 else RemovableUpTo(m, addr, hi).0
  }

  function CarveTo(m: Regions, lo: int, done: int): Regions {
    if done < lo then m else Carve(m, lo, done)
  }
}
