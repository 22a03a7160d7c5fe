/** MemoryRegion: the map from address ranges to file streams behind mmap and munmap. */
module MemoryRegions {
  import opened Basics
  import opened OrderedMap
  import opened RegionMap
  import opened RegionWalk

  /** A call a removal makes to a stream. */
  datatype StreamCall = Munmap(piece: Piece) | OnUnmapByOverwritingMmap(piece: Piece)

  function Pieces(calls: seq<StreamCall>): (pieces: seq<Piece>)
    ensures |pieces| == |calls| && forall i :: 0 <= i < |calls| ==> pieces[i] == calls[i].piece
  {
    seq(|calls|, i requires 0 <= i < |calls| => calls[i].piece)
  }

  datatype AddResult = Added | Refused | NullDereference

  class MemoryRegion {
    var regions: Regions
    var writeMapped: set<nat>

    ghost predicate Valid()
      reads this
    {
      WellFormed(regions)
    }

    constructor ()
      ensures Valid() && regions == map[] && writeMapped == {}
    {
      regions := map[];
      writeMapped := {};
    }

    /** The region that is exactly [addr, addr + length), found by its start key and the key after it. */
    method FindRegion(addr: int, length: nat) returns (found: bool)
      requires Valid()
      requires !IsPageEndAddress(addr) && length % 2 == 0 && length > 0
      ensures found <==> IsRegion(regions, addr, addr + length - 1)
    {
      if addr !in regions {
        return false;
      }
      assert StartKey(regions, addr);
      var e := RegionStartingAt(regions, addr);
      var end := UpperBound(regions, addr);
      return end.key == addr + length - 1;
    }

    /** The neighbour test on a start and an end key just inserted: another key between them, or two start
        keys in a row, mean that the new range meets a region of the map before the insertions. */
    method IsOverlap(begin: int, end: int, ghost m: Regions) returns (overlap: bool)
      requires WellFormed(m) && RangeShape(begin, end)
      requires begin !in m && end !in m
      requires begin in regions && end in regions
      requires regions == m[begin := regions[begin]][end := regions[end]]
      ensures overlap <==> Intersects(m, begin, end)
    {
      NeighbourTest(m, regions, begin, end);
      if UpperBound(regions, begin) != At(end) {
        return true;
      }
      var previous := Before(regions, begin);
      return previous.At? && !IsPageEndAddress(previous.key);
    }

    /** Adding a stream at the very range of a region without a stream looks at the stream that is not there. */
    method AddFileStreamByAddr(addr: int, length: nat, offset: int, protWrite: bool, mapFixed: bool,
                               stream: Option<Stream>)
      returns (r: AddResult)
      requires Valid() && !IsPageEndAddress(addr) && length % 2 == 0
      modifies this
      ensures Valid()
      ensures (regions, r.Added?) == AddRange(old(regions), addr, length, offset, mapFixed, stream)
      ensures r.NullDereference? <==>
        && length > 0 && stream.Some? && stream.value.sameAddress && !mapFixed
        && IsRegion(old(regions), addr, addr + length - 1) && old(regions)[addr].stream == None
      ensures !r.Added? ==> regions == old(regions) && writeMapped == old(writeMapped)
      ensures writeMapped == old(writeMapped) +
        if r.Added? && stream.Some? && protWrite && addr !in old(regions) then {stream.value.inode} else {}
    {
      hide LowerBound, Before;
      AddMeaning(regions, addr, length, offset, mapFixed, stream);
      if length == 0 {
        return Refused;
      }
      if stream.Some? {
        var found := FindRegion(addr, length);
        if found {
          if mapFixed || !stream.value.sameAddress {
            return Refused;
          }
          if regions[addr].stream == None {
            return NullDereference;
          }
          if !MayShare(stream, regions[addr].stream) {
            return Refused;
          }
          regions := regions[addr := regions[addr].(ref := regions[addr].ref + 1)];
          return Added;
        }
      }
      var inserted := InsertRegion(addr, length, PageMapValue(1, offset, stream));
      if !inserted {
        return Refused;
      }
      if stream.Some? && protWrite {
        writeMapped := writeMapped + {stream.value.inode};
      }
      return Added;
    }

    /** Inserts both keys of a new region, and takes them back if that region overlaps another. */
    method InsertRegion(addr: int, length: nat, value: PageMapValue) returns (inserted: bool)
      requires Valid() && RangeShape(addr, addr + length - 1)
      modifies this`regions
      ensures inserted <==> !Overlaps(old(regions), addr, addr + length - 1)
      ensures regions == if inserted then old(regions)[addr := value][addr + length - 1 := value] else old(regions)
    {
      hide LowerBound, Before, WellFormed, Overlaps;
      ghost var m := regions;
      OverlapMeaning(m, addr, addr + length - 1);
      KeysOverlap(m, addr, addr + length - 1);
      if addr in regions {
        return false;
      }
      regions := regions[addr := value];
      var end := addr + length - 1;
      if end in regions {
        regions := regions - {addr};
        assert regions == m;
        return false;
      }
      regions := regions[end := value];
      var overlap := IsOverlap(addr, end, m);
      if overlap {
        regions := regions - {addr};
        regions := regions - {end};
        assert regions == m;
        return false;
      }
      return true;
    }

    /** Takes [removeStart, removeEnd] out of the region [regionStart, regionEnd] by moving its borders. */
    method RemoveOneRegion(value: PageMapValue, removeStart: int, removeEnd: int, regionStart: int, regionEnd: int)
      requires Valid() && IsRegion(regions, regionStart, regionEnd) && regions[regionStart].ref == 1
      requires value == regions[regionStart]
      requires RangeShape(removeStart, removeEnd) && regionStart <= removeStart && removeEnd <= regionEnd
      modifies this`regions
      ensures regions == Carve(old(regions), removeStart, removeEnd)
    {
      ghost var m := regions;
      var e := RegionStartingAt(m, regionStart);
      RegionsAreDisjoint(m, regionStart, regionEnd, regionStart, e);
      CarveOne(m, regionStart, regionEnd, removeStart, removeEnd);
      if removeStart - regionStart > 0 {
        regions := regions[removeStart - 1 := value];
      } else {
        regions := regions - {regionStart};
      }
      if regionEnd - removeEnd > 0 {
        regions := regions[removeEnd + 1 := value];
      } else {
        regions := regions - {regionEnd};
      }
    }

    /** Removes [addr, addr + length), telling each stream that loses a piece. Every such call succeeds. */
    method RemoveFileStreamsByAddr(addr: int, length: nat, callMunmap: bool)
      returns (error: Option<Errno>, calls: seq<StreamCall>)
      requires Valid() && !IsPageEndAddress(addr) && length % 2 == 0
      modifies this`regions
      ensures Valid()
      ensures (regions, error) == RemoveRange(old(regions), addr, length)
      ensures forall i :: 0 <= i < |calls| ==> calls[i].Munmap? == callMunmap
      ensures Tiles(old(regions), addr, RemovedUpTo(old(regions), addr, length), Pieces(calls))
    {
      hide RemoveRange, RemovedUpTo, RemovableUpTo, CarveTo, Carve, Overlaps, WellFormed, Removing, HasRegion;
      calls := [];
      SmallRemoval(regions, addr, length);
      TilesNothing(regions, addr, addr, addr - 1, addr - 1, Pieces(calls));
      hide Tiles, TilesUpTo;
      if length == 0 {
        return Some(EINVAL), calls;
      }
      var found := FindRegion(addr, length);
      if found && regions[addr].ref > 1 {
        regions := regions[addr := regions[addr].(ref := regions[addr].ref - 1)];
        return None, calls;
      }
      var removeEnd := addr + length - 1;
      ghost var m := regions;
      PartialRemoval(m, addr, length);
      var it := LowerBound(regions, addr);
      RemovingStarts(m, addr, removeEnd);
      if it.End? {
        RemovingEnds(m, addr, removeEnd, addr - 1, it, m, []);
        return Some(ENOSYS), calls;
      }
      if IsPageEndAddress(it.key) {
        it := Before(regions, it.key);
      }
      error, calls := RemoveRegionsFrom(it, addr, removeEnd, callMunmap);
    }

    /** The loop of RemoveFileStreamsByAddr, from the first region that can meet [addr, removeEnd]. */
    method RemoveRegionsFrom(first: Position, addr: int, removeEnd: int, callMunmap: bool)
      returns (error: Option<Errno>, calls: seq<StreamCall>)
      requires Valid() && RangeShape(addr, removeEnd) && first == FirstRegion(regions, addr)
      modifies this`regions
      ensures Valid()
      ensures var (stop, all) := RemovableUpTo(old(regions), addr, removeEnd);
        && regions == CarveTo(old(regions), addr, stop)
        && error == (if all && Overlaps(old(regions), addr, removeEnd) then None else Some(ENOSYS))
        && Tiles(old(regions), addr, stop, Pieces(calls))
      ensures forall i :: 0 <= i < |calls| ==> calls[i].Munmap? == callMunmap
    {
      hide Removing, Tiles, WellFormed, RemovableUpTo, CarveTo, Carve, Overlaps, LowerBound, Before;
      calls := [];
      var it := first;
      ghost var m := regions;
      RemovingStarts(m, addr, removeEnd);
      ghost var done := addr - 1;
      var isRegionFound := false;
      ghost var at := it;
      while it != End
        invariant at == it && Removing(m, addr, removeEnd, done, at, regions, Pieces(calls))
        invariant forall i :: 0 <= i < |calls| ==> calls[i].Munmap? == callMunmap
        invariant isRegionFound <==> addr <= done
        decreases if it.At? then Max(0, removeEnd - it.key) + 1 else 0
      {
        var regionStart := it.key;
        ghost var e := RemovingAt(m, addr, removeEnd, done, regionStart, regions, Pieces(calls));
        it := UpperBound(regions, regionStart);
        var regionEnd := it.key;
        if removeEnd < regionStart {
          break;
        }
        if regions[regionStart].ref > 1 {
          RemovingStops(m, addr, removeEnd, done, regionStart, regionEnd, regions, Pieces(calls));
          return Some(ENOSYS), calls;
        }
        var removeStartInRegion := Max(addr, regionStart);
        var removeEndInRegion := Min(removeEnd, regionEnd);
        var currentStream := regions[regionStart].stream;
        it := UpperBound(regions, regionEnd);
        RemovingStep(m, addr, removeEnd, done, regionStart, regionEnd, regions, Pieces(calls));
        var value := PageMapValue(1, regions[regionStart].offset, currentStream);
        RemoveOneRegion(value, removeStartInRegion, removeEndInRegion, regionStart, regionEnd);
        isRegionFound := true;
        ghost var before := Pieces(calls);
        if currentStream.Some? {
          var piece := Piece(removeStartInRegion, removeEndInRegion, currentStream.value);
          calls := calls + [if callMunmap then Munmap(piece) else OnUnmapByOverwritingMmap(piece)];
        }
        assert Pieces(calls) == PiecesWith(before, removeStartInRegion, removeEndInRegion, currentStream);
        at, done := it, removeEndInRegion;
      }
      RemovingEnds(m, addr, removeEnd, done, at, regions, Pieces(calls));
      if !isRegionFound {
        return Some(ENOSYS), calls;
      }
      return None, calls;
    }

    /** Hands each part of [addr, addr + length) that is mapped to a stream to the visitor, in ascending order,
        until the visitor returns false. */
    method CallByAddr(addr: int, length: nat, visitor: Piece -> bool) returns (visits: seq<Piece>)
      requires Valid() && !IsPageEndAddress(addr) && length % 2 == 0 && length > 0
      ensures forall i :: 0 <= i < |visits| - 1 ==> visitor(visits[i])
      ensures visits == [] || visitor(visits[|visits| - 1]) ==> Tiles(regions, addr, addr + length - 1, visits)
      ensures visits != [] ==>
        TilesUpTo(regions, addr, addr + length - 1,
                  if visitor(visits[|visits| - 1]) then addr + length - 1 else visits[|visits| - 1].end, visits)
    {
      hide WellFormed, TilesUpTo, Visiting, LowerBound, Before;
      visits := [];
      var endAddr := addr + length - 1;
      var it := LowerBound(regions, addr);
      VisitingStarts(regions, addr, endAddr);
      ghost var done := addr - 1;
      if it.End? {
        VisitingEnds(regions, addr, endAddr, done, it, visits);
        return;
      }
      if IsPageEndAddress(it.key) {
        it := Before(regions, it.key);
      }
      ghost var at := it;
      while it != End
        invariant at == it && Visiting(regions, addr, endAddr, done, at, visits)
        invariant forall i :: 0 <= i < |visits| ==> visitor(visits[i])
        decreases if it.At? then Max(0, endAddr - it.key) + 1 else 0
      {
        var regionStart := it.key;
        ghost var e := VisitingStep(regions, addr, endAddr, done, regionStart, visits);
        it := UpperBound(regions, regionStart);
        var regionEnd := it.key;
        if endAddr < regionStart {
          break;
        }
        var currentStream := regions[regionStart].stream;
        if currentStream.Some? {
          var piece := Piece(Max(addr, regionStart), Min(endAddr, regionEnd), currentStream.value);
          visits := visits + [piece];
          if !visitor(piece) {
            VisitingSoFar(regions, addr, endAddr, piece.end, UpperBound(regions, regionEnd), visits);
            return;
          }
        }
        it := UpperBound(regions, regionEnd);
        at, done := it, Min(endAddr, e);
      }
      VisitingEnds(regions, addr, endAddr, done, at, visits);
    }

    /** Whether the file of an inode is mapped anywhere. */
    method IsCurrentlyMapped(inode: nat) returns (mapped: bool)
      requires Valid()
      ensures mapped <==> exists a, st :: CellAt(regions, a) == MappedTo(Some(st)) && st.inode == inode
    {
      var it := Begin(regions);
      while it != End
        invariant it.At? ==> it.key in regions
        invariant forall k :: k in regions && (it.At? ==> k < it.key) ==> !HasInode(regions[k], inode)
        decreases if it.At? then set k | k in regions && it.key <= k else {}
      {
        if HasInode(regions[it.key], inode) {
          assert CellAt(regions, it.key) == MappedTo(regions[it.key].stream);
          return true;
        }
        var next := UpperBound(regions, it.key);
        assert it.key !in (set k | k in regions && next.At? && next.key <= k);
        it := next;
      }
      return false;
    }
  }

  predicate HasInode(value: PageMapValue, inode: nat) {
    value.stream.Some? && value.stream.value.inode == inode
  }
}
