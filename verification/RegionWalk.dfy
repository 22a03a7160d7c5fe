/** The walk over the regions that meet a range, as `RemoveFileStreamsByAddr` and `CallByAddr` make it:
    which pieces it hands to the streams, and what a removal leaves behind. */
module RegionWalk {
  import opened Basics
  import opened OrderedMap
  import opened RegionMap

  // ----- Pieces: the parts of a range that a walk hands to the streams, region by region

  datatype Piece = Piece(start: int, end: int, stream: Stream)

  /** `p` is what [lo, hi] shares with one region that has a stream. */
  ghost predicate IsPiece(m: Regions, lo: int, hi: int, p: Piece) {
    exists s, e :: IsRegion(m, s, e) && PieceOf(m, lo, hi, s, e, p)
  }

  ghost predicate PieceOf(m: Regions, lo: int, hi: int, s: int, e: int, p: Piece)
    requires s in m
  {
    p.start == Max(lo, s) && p.end == Min(hi, e) && p.start <= p.end && m[s].stream == Some(p.stream)
  }

  ghost predicate Ascending(pieces: seq<Piece>) {
    forall i, j :: 0 <= i < j < |pieces| ==> pieces[i].end < pieces[j].start
  }

  ghost predicate Held(pieces: seq<Piece>, a: int, st: Stream) {
    exists i :: 0 <= i < |pieces| && pieces[i].start <= a <= pieces[i].end && pieces[i].stream == st
  }

  /** The pieces are ascending and disjoint, each within one region, and together they hold exactly the
      addresses of [lo, done] that are mapped to a stream. `hi` is where the whole walk ends. */
  ghost predicate TilesUpTo(m: Regions, lo: int, hi: int, done: int, pieces: seq<Piece>) {
    && (forall i :: 0 <= i < |pieces| ==> IsPiece(m, lo, hi, pieces[i]) && pieces[i].end <= done)
    && Ascending(pieces)
    && (forall a, st {:trigger Held(pieces, a, st)} ::
          Held(pieces, a, st) <==> lo <= a <= done && CellAt(m, a) == MappedTo(Some(st)))
  }

  ghost predicate Tiles(m: Regions, lo: int, hi: int, pieces: seq<Piece>) {
    TilesUpTo(m, lo, hi, hi, pieces)
  }

  // ----- Walking the regions that meet a range

  /** `it` is the position of a walk over the regions that meet [lo, hi]; every such region before it ends
      at or below `done` or reaches past `hi`. */
  ghost predicate Walked(m: Regions, lo: int, hi: int, done: int, it: Position) {
    && lo - 1 <= done <= hi && IsPageEndAddress(done)
    && (it.At? ==> StartKey(m, it.key) && (done < it.key || done == lo - 1) && lo <= MateOf(m, it.key))
    && (forall s, e :: IsRegion(m, s, e) && lo <= e && s <= hi && (it.At? ==> s < it.key) ==>
          lo <= done && (e <= done || done == hi))
  }

  function MateOf(m: Regions, s: int): int {
    match UpperBound(m, s)
    case At(e) => e
    case End => s
  }

  function FirstRegion(m: Regions, lo: int): Position {
    match LowerBound(m, lo)
    case End => End
    case At(k) => if IsPageEndAddress(k) then Before(m, k) else At(k)
  }

  lemma WalkStarts(m: Regions, lo: int, hi: int)
    requires WellFormed(m) && RangeShape(lo, hi)
    ensures Walked(m, lo, hi, lo - 1, FirstRegion(m, lo))
    ensures TilesUpTo(m, lo, hi, lo - 1, [])
    ensures LowerBound(m, lo).At? ==> FirstRegion(m, lo).At?
  {
    if LowerBound(m, lo).At? {
      var k := LowerBound(m, lo).key;
      if IsPageEndAddress(k) {
        assert EndKey(m, k);
        var s := RegionEndingAt(m, k);
        assert FirstRegion(m, lo) == At(s);
        assert UpperBound(m, s) == At(k);
      } else {
        assert StartKey(m, k);
        var e := RegionStartingAt(m, k);
        assert UpperBound(m, k) == At(e);
      }
    }
  }

  lemma WalkSteps(m: Regions, lo: int, hi: int, done: int, s: int, e: int)
    requires WellFormed(m) && RangeShape(lo, hi) && Walked(m, lo, hi, done, At(s))
    requires IsRegion(m, s, e) && s <= hi
    ensures Walked(m, lo, hi, Min(hi, e), UpperBound(m, e))
  {
    hide LowerBound, Before;
    var next := UpperBound(m, e);
    if next.At? {
      if IsPageEndAddress(next.key) {
        assert EndKey(m, next.key);
        var s' := RegionEndingAt(m, next.key);
      }
      assert StartKey(m, next.key);
      var e' := RegionStartingAt(m, next.key);
      assert UpperBound(m, next.key) == At(e');
    }
    forall s', e' | IsRegion(m, s', e') && lo <= e' && s' <= hi && (next.At? ==> s' < next.key)
      ensures lo <= Min(hi, e) && (e' <= Min(hi, e) || Min(hi, e) == hi)
    {
      assert s' <= e;
      if s' > s { RegionsAreDisjoint(m, s, e, s', e'); }
    }
  }

  /** Between where the walk has got to and the next region nothing is mapped. */
  lemma GapIsUnmapped(m: Regions, lo: int, hi: int, done: int, it: Position, a: int)
    requires WellFormed(m) && RangeShape(lo, hi) && Walked(m, lo, hi, done, it)
    requires lo <= a <= hi && done < a && (it.At? ==> a < it.key)
    ensures CellAt(m, a) == Unmapped
  {
    if CellAt(m, a).MappedTo? {
      CellMeaning(m, a, CellAt(m, a).stream);
    }
  }

  /** The pieces after one more region. */
  function PiecesWith(pieces: seq<Piece>, start: int, end: int, stream: Option<Stream>): seq<Piece> {
    if stream.Some? then pieces + [Piece(start, end, stream.value)] else pieces
  }

  lemma TilesStep(m: Regions, lo: int, hi: int, done: int, s: int, e: int, pieces: seq<Piece>)
    requires WellFormed(m) && RangeShape(lo, hi) && Walked(m, lo, hi, done, At(s))
    requires IsRegion(m, s, e) && s <= hi
    requires TilesUpTo(m, lo, hi, done, pieces)
    ensures TilesUpTo(m, lo, hi, Min(hi, e), PiecesWith(pieces, Max(lo, s), Min(hi, e), m[s].stream))
  {
    hide LowerBound, Before, WellFormed, CellAt;
    var start, end := Max(lo, s), Min(hi, e);
    var more := PiecesWith(pieces, start, end, m[s].stream);
    assert UpperBound(m, s) == At(e);
    assert done < start <= end;
    if m[s].stream.Some? {
      assert PieceOf(m, lo, hi, s, e, more[|pieces|]);
      assert IsPiece(m, lo, hi, more[|pieces|]);
    }
    forall a, st {:trigger Held(more, a, st)}
      ensures Held(more, a, st) <==> lo <= a <= end && CellAt(m, a) == MappedTo(Some(st))
    {
      HeldWith(pieces, start, end, m[s].stream, a, st);
      assert Held(pieces, a, st) <==> lo <= a <= done && CellAt(m, a) == MappedTo(Some(st));
      NextCells(m, lo, hi, done, s, e, a);
    }
  }

  lemma HeldWith(pieces: seq<Piece>, start: int, end: int, stream: Option<Stream>, a: int, st: Stream)
    ensures Held(PiecesWith(pieces, start, end, stream), a, st) <==>
      Held(pieces, a, st) || (stream == Some(st) && start <= a <= end)
  {
    var more := PiecesWith(pieces, start, end, stream);
    if Held(pieces, a, st) {
      var i :| 0 <= i < |pieces| && pieces[i].start <= a <= pieces[i].end && pieces[i].stream == st;
      assert more[i] == pieces[i];
    }
    if stream == Some(st) && start <= a <= end {
      assert more[|pieces|].start <= a <= more[|pieces|].end;
    }
  }

  /** What the cells hold from where a walk is to the end of the next region. */
  lemma NextCells(m: Regions, lo: int, hi: int, done: int, s: int, e: int, a: int)
    requires WellFormed(m) && RangeShape(lo, hi) && Walked(m, lo, hi, done, At(s))
    requires IsRegion(m, s, e) && s <= hi
    ensures Max(lo, s) <= a <= Min(hi, e) ==> CellAt(m, a) == MappedTo(m[s].stream)
    ensures lo <= a && done < a < Max(lo, s) ==> CellAt(m, a) == Unmapped
  {
    hide LowerBound, Before, CellAt;
    var e' := RegionStartingAt(m, s);
    RegionsAreDisjoint(m, s, e, s, e');
    if Max(lo, s) <= a <= Min(hi, e) {
      CellInside(m, s, e, a);
    } else if lo <= a && done < a < s {
      GapIsUnmapped(m, lo, hi, done, At(s), a);
    }
  }

  /** When no region is left, the range is tiled to its end. */
  lemma TilesFinish(m: Regions, lo: int, hi: int, done: int, it: Position, pieces: seq<Piece>)
    requires WellFormed(m) && RangeShape(lo, hi) && Walked(m, lo, hi, done, it)
    requires it.At? ==> hi < it.key
    requires TilesUpTo(m, lo, hi, done, pieces)
    ensures Tiles(m, lo, hi, pieces)
  {
    forall a, st {:trigger Held(pieces, a, st)}
      ensures Held(pieces, a, st) <==> lo <= a <= hi && CellAt(m, a) == MappedTo(Some(st))
    {
      if lo <= a <= hi && done < a {
        GapIsUnmapped(m, lo, hi, done, it, a);
      }
    }
  }

  /** A walk that stops before `stop` has tiled the range up to there. */
  lemma TilesStop(m: Regions, lo: int, hi: int, done: int, stop: int, pieces: seq<Piece>)
    requires WellFormed(m) && RangeShape(lo, hi) && Walked(m, lo, hi, done, At(stop))
    requires lo < stop <= hi
    requires TilesUpTo(m, lo, hi, done, pieces)
    ensures Tiles(m, lo, stop - 1, pieces)
  {
    assert UpperBound(m, stop).At?;
    forall i | 0 <= i < |pieces| ensures IsPiece(m, lo, stop - 1, pieces[i]) {
      var s, e :| IsRegion(m, s, e) && PieceOf(m, lo, hi, s, e, pieces[i]);
      assert PieceOf(m, lo, stop - 1, s, e, pieces[i]);
    }
    forall a, st {:trigger Held(pieces, a, st)}
      ensures Held(pieces, a, st) <==> lo <= a <= stop - 1 && CellAt(m, a) == MappedTo(Some(st))
    {
      if lo <= a < stop && done < a {
        GapIsUnmapped(m, lo, hi, done, At(stop), a);
      }
    }
  }

  // ----- What the walk of a removal leaves

  lemma CarveSame(m: Regions, lo: int, done: int, stop: int)
    requires lo - 1 <= done < stop
    requires forall x :: done < x <= stop ==> x !in m
    requires !Cut(m, done + 1) && !Cut(m, stop + 1)
    ensures CarveTo(m, lo, done) == CarveTo(m, lo, stop)
  {
    assert (map k | k in m && !(lo <= k <= stop) :: m[k]) ==
           if done < lo then m else map k | k in m && !(lo <= k <= done) :: m[k];
  }

  /** Carving further changes nothing when no region is met on the way. */
  lemma CarveFurther(m: Regions, lo: int, hi: int, done: int, it: Position, stop: int)
    requires WellFormed(m) && RangeShape(lo, hi) && Walked(m, lo, hi, done, it)
    requires lo - 1 <= stop <= hi && IsPageEndAddress(stop) && done <= stop && (it.At? ==> stop < it.key)
    ensures CarveTo(m, lo, done) == CarveTo(m, lo, stop)
  {
    if done < stop {
      CutInGap(m, lo, hi, done, it, stop);
      CutInGap(m, lo, hi, done, it, done);
      forall x | done < x <= stop ensures x !in m {
        NoKeyInGap(m, lo, hi, done, it, x);
      }
      CarveSame(m, lo, done, stop);
    }
  }

  lemma NoKeyInGap(m: Regions, lo: int, hi: int, done: int, it: Position, x: int)
    requires WellFormed(m) && RangeShape(lo, hi) && Walked(m, lo, hi, done, it)
    requires done < x <= hi && (it.At? ==> x < it.key)
    ensures x !in m
  {
    if StartKey(m, x) {
      var e := RegionStartingAt(m, x);
    } else if EndKey(m, x) {
      var s := RegionEndingAt(m, x);
    }
  }

  lemma CutInGap(m: Regions, lo: int, hi: int, done: int, it: Position, x: int)
    requires WellFormed(m) && RangeShape(lo, hi) && Walked(m, lo, hi, done, it)
    requires lo - 1 <= done <= x <= hi && IsPageEndAddress(x) && (it.At? ==> x < it.key)
    ensures x < hi || done < x ==> !Cut(m, x + 1)
  {
    if Cut(m, x + 1) {
      var e := LowerBound(m, x + 1).key;
      assert EndKey(m, e);
      var s := RegionEndingAt(m, e);
    }
  }

  /** Carving one more region out of what is left so far. */
  lemma CarveStep(m: Regions, lo: int, hi: int, done: int, s: int, e: int)
    requires WellFormed(m) && RangeShape(lo, hi) && Walked(m, lo, hi, done, At(s))
    requires IsRegion(m, s, e) && s <= hi
    ensures WellFormed(CarveTo(m, lo, done))
    ensures IsRegion(CarveTo(m, lo, done), s, e) && CarveTo(m, lo, done)[s] == m[s]
    ensures Carve(CarveTo(m, lo, done), Max(lo, s), Min(hi, e)) == CarveTo(m, lo, Min(hi, e))
  {
    hide LowerBound, Before;
    assert UpperBound(m, s) == At(e);
    if lo <= done {
      CarveWellFormed(m, lo, done);
      CarveKeepsOthers(m, lo, done, s, e);
    }
    if s < lo {
      assert Max(lo, s) == lo && done == lo - 1;
    } else {
      forall x | done < x < s ensures x !in m {
        NoKeyInGap(m, lo, hi, done, At(s), x);
      }
      CutInGap(m, lo, hi, done, At(s), done);
      CarveCompose(m, lo, done, s, e, Min(hi, e));
    }
  }

  lemma CarveCompose(m: Regions, lo: int, done: int, s: int, e: int, re: int)
    requires lo - 1 <= done < s < re <= e && IsRegion(m, s, e) && IsPageEndAddress(re)
    requires forall x :: done < x < s ==> x !in m
    requires !Cut(m, done + 1)
    ensures Carve(CarveTo(m, lo, done), s, re) == Carve(m, lo, re)
  {
    hide LowerBound, Before;
    assert LowerBound(m, s) == At(s);
    if done < lo {
      assert (map k | k in m && !(lo <= k <= re) :: m[k]) == (map k | k in m && !(s <= k <= re) :: m[k]);
    } else {
      CarveComposeInside(m, lo, done, s, re);
    }
  }

  lemma CarveComposeInside(m: Regions, lo: int, done: int, s: int, re: int)
    requires lo <= done < s < re && s in m && !IsPageEndAddress(s)
    requires forall x :: done < x < s ==> x !in m
    requires !Cut(m, done + 1)
    ensures Carve(Carve(m, lo, done), s, re) == Carve(m, lo, re)
  {
    hide LowerBound, Before;
    var c := Carve(m, lo, done);
    SameFrom(c, m, s, s);
    SameFrom(c, m, s, re + 1);
    assert BorderEntry(c, s, s - 1) == map[];
    assert BorderEntry(c, re + 1, re + 1) == BorderEntry(m, re + 1, re + 1);
    SpliceTwice(m, lo, done, s, re, BorderEntry(m, lo, lo - 1), BorderEntry(m, re + 1, re + 1));
  }

  lemma SpliceTwice(m: Regions, lo: int, done: int, s: int, re: int, left: Regions, right: Regions)
    requires lo <= done < s < re && left.Keys <= {lo - 1}
    requires forall x :: done < x < s ==> x !in m
    ensures Splice(Splice(m, lo, done, left, map[]), s, re, map[], right) == Splice(m, lo, re, left, right)
  {
    hide Splice;
    var c := Splice(m, lo, done, left, map[]);
    SpliceKeys(m, lo, done, left, map[]);
    SpliceKeys(c, s, re, map[], right);
    SpliceKeys(m, lo, re, left, right);
    var twice, once := Splice(c, s, re, map[], right), Splice(m, lo, re, left, right);
    forall k ensures k in twice <==> k in once {
      assert k in c <==> k in left || (k in m && !(lo <= k <= done));
    }
    forall k | k in once ensures twice[k] == once[k] {
      assert k in twice;
    }
  }

  /** No region the walk has passed is shared. */
  ghost predicate NoneShared(m: Regions, lo: int, hi: int, it: Position) {
    forall s, e :: IsRegion(m, s, e) && lo <= e && s <= hi && (it.At? ==> s < it.key) ==> m[s].ref == 1
  }

  lemma NoneSharedStep(m: Regions, lo: int, hi: int, s: int, e: int)
    requires WellFormed(m) && NoneShared(m, lo, hi, At(s)) && IsRegion(m, s, e) && m[s].ref == 1
    ensures NoneShared(m, lo, hi, UpperBound(m, e))
  {
    forall s', e' | IsRegion(m, s', e') && lo <= e' && s' <= hi && (UpperBound(m, e).At? ==> s' < UpperBound(m, e).key)
      ensures m[s'].ref == 1
    {
      assert s' <= e;
      if s < s' { RegionsAreDisjoint(m, s, e, s', e'); }
    }
  }

  /** Every shared end key in the range belongs to a shared region that meets the range. */
  lemma SharedEndMeaning(m: Regions, lo: int, hi: int, e: int) returns (s: int)
    requires WellFormed(m) && lo <= e && e in SharedEnds(m, hi)
    ensures IsRegion(m, s, e) && s <= hi && m[s].ref > 1 && Before(m, e) == At(s)
  {
    assert EndKey(m, e);
    s := RegionEndingAt(m, e);
    assert Before(m, e) == At(s);
  }

  lemma FirstSharedEnd(m: Regions, lo: int, hi: int, s: int, e: int)
    requires WellFormed(m) && NoneShared(m, lo, hi, At(s))
    requires IsRegion(m, s, e) && s <= hi && lo <= e && m[s].ref > 1
    ensures RemovableUpTo(m, lo, hi) == (s - 1, false)
  {
    hide LowerBound, Before;
    assert Before(m, e) == At(s);
    assert e in SharedEnds(m, hi);
    var first := LowerBound(SharedEnds(m, hi), lo).key;
    var s' := SharedEndMeaning(m, lo, hi, first);
    assert s <= s';
  }

  /** Meeting a shared region is where the removal stops. */
  lemma RemovalStops(m: Regions, lo: int, hi: int, done: int, s: int, e: int, pieces: seq<Piece>)
    requires WellFormed(m) && RangeShape(lo, hi) && Walked(m, lo, hi, done, At(s)) && NoneShared(m, lo, hi, At(s))
    requires IsRegion(m, s, e) && s <= hi && m[s].ref > 1
    requires TilesUpTo(m, lo, hi, done, pieces)
    ensures RemovableUpTo(m, lo, hi) == (s - 1, false)
    ensures CarveTo(m, lo, done) == CarveTo(m, lo, s - 1)
    ensures Tiles(m, lo, s - 1, pieces)
  {
    hide TilesUpTo, NoneShared, WellFormed, RemovableUpTo, Carve;
    assert UpperBound(m, s) == At(e);
    FirstSharedEnd(m, lo, hi, s, e);
    if lo < s {
      TilesStop(m, lo, hi, done, s, pieces);
      CarveFurther(m, lo, hi, done, At(s), s - 1);
    } else {
      TilesNothing(m, lo, hi, done, s - 1, pieces);
    }
  }

  lemma TilesNothing(m: Regions, lo: int, hi: int, done: int, stop: int, pieces: seq<Piece>)
    requires TilesUpTo(m, lo, hi, done, pieces) && done < lo && stop < lo && lo <= hi
    ensures pieces == [] && Tiles(m, lo, stop, pieces)
  {
    assert |pieces| > 0 ==> IsPiece(m, lo, hi, pieces[0]);
  }

  /** With no region left to meet and none shared, the whole range is gone. */
  lemma RemovalFinishes(m: Regions, lo: int, hi: int, done: int, it: Position, pieces: seq<Piece>)
    requires WellFormed(m) && RangeShape(lo, hi) && Walked(m, lo, hi, done, it) && NoneShared(m, lo, hi, it)
    requires it.At? ==> hi < it.key
    requires TilesUpTo(m, lo, hi, done, pieces)
    ensures RemovableUpTo(m, lo, hi) == (hi, true)
    ensures CarveTo(m, lo, done) == CarveTo(m, lo, hi)
    ensures Tiles(m, lo, hi, pieces)
    ensures done < lo ==> !Overlaps(m, lo, hi)
  {
    var first := LowerBound(SharedEnds(m, hi), lo);
    if first.At? {
      var s := SharedEndMeaning(m, lo, hi, first.key);
    }
    TilesFinish(m, lo, hi, done, it, pieces);
    CarveFurther(m, lo, hi, done, it, hi);
    OverlapMeaning(m, lo, hi);
  }

  // ----- The state of a removal between two regions

  /** `now` is what is left of `m`, with the walk at `it` and the pieces so far handed to the streams. */
  ghost predicate Removing(m: Regions, lo: int, hi: int, done: int, it: Position, now: Regions, pieces: seq<Piece>) {
    && WellFormed(m) && RangeShape(lo, hi)
    && Walked(m, lo, hi, done, it) && NoneShared(m, lo, hi, it)
    && now == CarveTo(m, lo, done)
    && TilesUpTo(m, lo, hi, done, pieces)
    && (lo <= done ==> Overlaps(m, lo, hi))
  }

  lemma RemovingStarts(m: Regions, lo: int, hi: int)
    requires WellFormed(m) && RangeShape(lo, hi)
    ensures Removing(m, lo, hi, lo - 1, FirstRegion(m, lo), m, [])
    ensures LowerBound(m, lo).At? ==> FirstRegion(m, lo).At?
  {
    WalkStarts(m, lo, hi);
  }

  /** The region at the walk's position is still in place. */
  lemma RemovingAt(m: Regions, lo: int, hi: int, done: int, s: int, now: Regions, pieces: seq<Piece>) returns (e: int)
    requires Removing(m, lo, hi, done, At(s), now, pieces)
    ensures WellFormed(now) && IsRegion(now, s, e) && UpperBound(now, s) == At(e)
    ensures IsRegion(m, s, e) && now[s] == m[s] && m[s].ref >= 1
  {
    e := RegionStartingAt(m, s);
    assert UpperBound(m, s) == At(e);
    if lo <= done {
      CarveWellFormed(m, lo, done);
      CarveKeepsOthers(m, lo, done, s, e);
    }
  }

  lemma RemovingStep(m: Regions, lo: int, hi: int, done: int, s: int, e: int, now: Regions, pieces: seq<Piece>)
    requires Removing(m, lo, hi, done, At(s), now, pieces)
    requires IsRegion(m, s, e) && s <= hi && m[s].ref == 1
    ensures Removing(m, lo, hi, Min(hi, e), UpperBound(now, e), Carve(now, Max(lo, s), Min(hi, e)),
                     PiecesWith(pieces, Max(lo, s), Min(hi, e), m[s].stream))
  {
    hide TilesUpTo, NoneShared, WellFormed, Carve, Walked, Overlaps, PiecesWith;
    assert lo <= e && done < e by { RemovingBounds(m, lo, hi, done, s, e); }
    OverlapMeaning(m, lo, hi);
    CarveStep(m, lo, hi, done, s, e);
    TilesStep(m, lo, hi, done, s, e, pieces);
    WalkSteps(m, lo, hi, done, s, e);
    NoneSharedStep(m, lo, hi, s, e);
    SameAbove(m, lo, done, e + 1);
  }

  lemma RemovingBounds(m: Regions, lo: int, hi: int, done: int, s: int, e: int)
    requires Walked(m, lo, hi, done, At(s)) && IsRegion(m, s, e)
    ensures lo <= e && done < e
  {
    assert UpperBound(m, s) == At(e);
  }

  lemma SameAbove(m: Regions, lo: int, done: int, x: int)
    requires done + 1 < x
    ensures LowerBound(CarveTo(m, lo, done), x) == LowerBound(m, x)
  {
    SameFrom(CarveTo(m, lo, done), m, x, x);
  }

  lemma RemovingStops(m: Regions, lo: int, hi: int, done: int, s: int, e: int, now: Regions, pieces: seq<Piece>)
    requires Removing(m, lo, hi, done, At(s), now, pieces)
    requires IsRegion(m, s, e) && s <= hi && m[s].ref > 1
    ensures RemovableUpTo(m, lo, hi) == (s - 1, false)
    ensures now == CarveTo(m, lo, s - 1)
    ensures Tiles(m, lo, s - 1, pieces)
  {
    RemovalStops(m, lo, hi, done, s, e, pieces);
  }

  lemma RemovingEnds(m: Regions, lo: int, hi: int, done: int, it: Position, now: Regions, pieces: seq<Piece>)
    requires Removing(m, lo, hi, done, it, now, pieces)
    requires it.At? ==> hi < it.key
    ensures WellFormed(now)
    ensures RemovableUpTo(m, lo, hi) == (hi, true)
    ensures now == CarveTo(m, lo, hi)
    ensures Tiles(m, lo, hi, pieces)
    ensures lo <= done <==> Overlaps(m, lo, hi)
  {
    hide TilesUpTo, NoneShared, WellFormed, Carve, Walked, Overlaps;
    RemovalFinishes(m, lo, hi, done, it, pieces);
    CarveWellFormed(m, lo, hi);
  }

  /** Removing nothing, and dropping a reference, reach no address. */
  lemma SmallRemoval(m: Regions, addr: int, length: nat)
    requires WellFormed(m) && !IsPageEndAddress(addr) && length % 2 == 0
    ensures length == 0 ==>
      RemoveRange(m, addr, length) == (m, Some(EINVAL)) && RemovedUpTo(m, addr, length) == addr - 1
    ensures length > 0 && IsRegion(m, addr, addr + length - 1) && m[addr].ref > 1 ==>
      && RemoveRange(m, addr, length) == (m[addr := m[addr].(ref := m[addr].ref - 1)], None)
      && WellFormed(m[addr := m[addr].(ref := m[addr].ref - 1)])
      && RemovedUpTo(m, addr, length) == addr - 1
  {
    if length > 0 && IsRegion(m, addr, addr + length - 1) && m[addr].ref > 1 {
      assert StartKey(m, addr);
      RecountWellFormed(m, addr, m[addr].ref - 1);
    }
  }

  /** Unless it only drops a reference, a removal carves as far as it gets. */
  lemma PartialRemoval(m: Regions, addr: int, length: nat)
    requires length > 0 && !(HasRegion(m, addr, addr + length - 1) && m[addr].ref > 1)
    ensures RemovedUpTo(m, addr, length) == RemovableUpTo(m, addr, addr + length - 1).0
    ensures RemoveRange(m, addr, length) ==
      (CarveTo(m, addr, RemovedUpTo(m, addr, length)),
       if RemovableUpTo(m, addr, addr + length - 1).1 && Overlaps(m, addr, addr + length - 1) then None
       else Some(ENOSYS))
  {
  }

  // ----- The state of a visit between two regions

  ghost predicate Visiting(m: Regions, lo: int, hi: int, done: int, it: Position, pieces: seq<Piece>) {
    && WellFormed(m) && RangeShape(lo, hi)
    && Walked(m, lo, hi, done, it)
    && TilesUpTo(m, lo, hi, done, pieces)
  }

  lemma VisitingStarts(m: Regions, lo: int, hi: int)
    requires WellFormed(m) && RangeShape(lo, hi)
    ensures Visiting(m, lo, hi, lo - 1, FirstRegion(m, lo), [])
    ensures LowerBound(m, lo).At? ==> FirstRegion(m, lo).At?
  {
    WalkStarts(m, lo, hi);
  }

  lemma VisitingStep(m: Regions, lo: int, hi: int, done: int, s: int, pieces: seq<Piece>) returns (e: int)
    requires Visiting(m, lo, hi, done, At(s), pieces)
    ensures UpperBound(m, s) == At(e) && IsRegion(m, s, e)
    ensures s <= hi ==>
      && Visiting(m, lo, hi, Min(hi, e), UpperBound(m, e), PiecesWith(pieces, Max(lo, s), Min(hi, e), m[s].stream))
      && lo <= e
  {
    e := RegionStartingAt(m, s);
    hide TilesUpTo, WellFormed;
    assert UpperBound(m, s) == At(e);
    if s <= hi {
      TilesStep(m, lo, hi, done, s, e, pieces);
      WalkSteps(m, lo, hi, done, s, e);
    }
  }

  lemma VisitingSoFar(m: Regions, lo: int, hi: int, done: int, it: Position, pieces: seq<Piece>)
    requires Visiting(m, lo, hi, done, it, pieces)
    ensures TilesUpTo(m, lo, hi, done, pieces)
  {
  }

  lemma VisitingEnds(m: Regions, lo: int, hi: int, done: int, it: Position, pieces: seq<Piece>)
    requires Visiting(m, lo, hi, done, it, pieces)
    requires it.At? ==> hi < it.key
    ensures Tiles(m, lo, hi, pieces)
  {
    TilesFinish(m, lo, hi, done, it, pieces);
  }
}
