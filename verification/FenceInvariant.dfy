/** What every step of the fence protocol keeps. */
module FenceInvariant {
  import opened Basics
  import opened Fences

  // ----- Locks: holders and threads agree

  function TimelineHeld(th: Thread): Option<Id> {
    match th
    case Incrementing(tl, _) => Some(tl)
    case Calling(_, ToIncrement(tl, _)) => Some(tl)
    case Counting(_, _, _, ToIncrement(tl, _)) => Some(tl)
    case _ => None
  }

  function FenceHeld(th: Thread): Option<Id> {
    if th.Counting? then Some(th.fence) else None
  }

  ghost predicate Locks(s: State) {
    TimelineLocks(s) && FenceLocks(s)
  }

  ghost predicate TimelineLocks(s: State) {
    && (forall t :: TimelineHeld(ThreadOf(s, t)).Some? ==> TimelineHeldBy(s, TimelineHeld(ThreadOf(s, t)).value, t))
    && (forall tl :: tl in s.timelines && s.timelines[tl].holder.Some? ==>
          TimelineHeld(ThreadOf(s, s.timelines[tl].holder.value)) == Some(tl))
  }

  ghost predicate FenceLocks(s: State) {
    && (forall t :: FenceHeld(ThreadOf(s, t)).Some? ==> FenceHeldBy(s, FenceHeld(ThreadOf(s, t)).value, t))
    && (forall f :: f in s.fences && s.fences[f].holder.Some? ==>
          FenceHeld(ThreadOf(s, s.fences[f].holder.value)) == Some(f))
  }

  predicate TimelineHeldBy(s: State, tl: Id, t: Id) {
    tl in s.timelines && s.timelines[tl].holder == Some(t)
  }

  predicate FenceHeldBy(s: State, f: Id, t: Id) {
    f in s.fences && s.fences[f].holder == Some(t)
  }

  // ----- Marks: which points are signaled

  /** The points a thread still has to mark. */
  function Todo(th: Thread): seq<Id> {
    match th
    case Incrementing(_, todo) => todo
    case Calling(_, ToIncrement(_, todo)) => todo
    case Counting(_, _, _, ToIncrement(_, todo)) => todo
    case _ => []
  }

  /** A point has a timeline, and is one of the points of its fence. */
  ghost predicate Placed(s: State) {
    forall p :: p in s.points ==>
      && s.points[p].timeline in s.timelines && s.points[p].fence in s.fences
      && p in s.fences[s.points[p].fence].points
  }

  ghost predicate BeingMarked(s: State, tl: Id, p: Id)
    requires tl in s.timelines
  {
    s.timelines[tl].holder.Some? && p in Todo(ThreadOf(s, s.timelines[tl].holder.value))
  }

  predicate Reached(s: State, p: Id)
    requires p in s.points && s.points[p].timeline in s.timelines
  {
    s.points[p].time <= s.timelines[s.points[p].timeline].counter
  }

  /** What a thread still has to mark is attached, reached and not signaled. */
  ghost predicate TodoOk(s: State, t: Id)
    requires Placed(s)
  {
    && NoDuplicates(Todo(ThreadOf(s, t)))
    && forall p :: p in Todo(ThreadOf(s, t)) ==>
         p in s.points && s.points[p].attached && !s.points[p].signaled && Reached(s, p)
         && TimelineHeld(ThreadOf(s, t)) == Some(s.points[p].timeline)
  }

  /** A signaled point has been reached; an attached point that has been reached is signaled, or about to be by the
      thread that holds its timeline. */
  ghost predicate Marks(s: State)
    requires Placed(s)
  {
    && (forall p :: p in s.points && s.points[p].signaled ==> Reached(s, p))
    && (forall p :: p in s.points && s.points[p].attached && Reached(s, p) && !s.points[p].signaled ==>
          BeingMarked(s, s.points[p].timeline, p))
    && (forall t :: TodoOk(s, t))
  }

  // ----- Points of one fence, and of the fences it was merged from

  predicate SameMoment(a: Point, b: Point) {
    a.timeline == b.timeline && a.time == b.time
  }

  ghost predicate AllIn(points: map<Id, Point>, ids: seq<Id>) {
    forall i :: 0 <= i < |ids| ==> ids[i] in points
  }

  ghost predicate Apart(points: map<Id, Point>, ids: seq<Id>)
    requires AllIn(points, ids)
  {
    forall i, j :: 0 <= i < j < |ids| ==> points[ids[i]].timeline != points[ids[j]].timeline
  }

  ghost predicate HasMoment(points: map<Id, Point>, ids: seq<Id>, point: Point)
    requires AllIn(points, ids)
  {
    exists i :: 0 <= i < |ids| && SameMoment(points[ids[i]], point)
  }

  ghost predicate HasLater(points: map<Id, Point>, ids: seq<Id>, point: Point)
    requires AllIn(points, ids)
  {
    exists i :: 0 <= i < |ids| && points[ids[i]].timeline == point.timeline && point.time <= points[ids[i]].time
  }

  /** `ids` has a latest point of `sources` for each of their timelines, and no other moments. */
  ghost predicate Dominate(points: map<Id, Point>, ids: seq<Id>, sources: seq<Id>) {
    && AllIn(points, ids) && AllIn(points, sources)
    && (forall i :: 0 <= i < |ids| ==> HasMoment(points, sources, points[ids[i]]))
    && (forall i :: 0 <= i < |sources| ==> HasLater(points, ids, points[sources[i]]))
  }

  // ----- Status: what threads know, and who will signal

  ghost predicate AllSignaled(s: State, f: Id)
    requires HasFence(s, f)
  {
    forall i :: 0 <= i < |s.fences[f].points| ==> s.points[s.fences[f].points[i]].signaled
  }

  /** The thread will look at every point of the fence from now on, or has found every point so far signaled. */
  predicate Obliged(th: Thread, f: Id) {
    match th
    case Calling(g, _) => g == f
    case Counting(g, next, count, _) => g == f && count == next
    case Attaching(g, _) => g == f
    case _ => false
  }

  ghost predicate StatusOk(s: State, f: Id)
    requires HasFence(s, f)
  {
    && (s.fences[f].status == Signaled ==> AllSignaled(s, f) && s.fences[f].sleepers == {})
    && (s.fences[f].status == Active && AllSignaled(s, f) ==> exists t :: Obliged(ThreadOf(s, t), f))
  }

  /** The points of a fence are its own, on pairwise different timelines; a live fence is attached; a merged fence
      dominates the fences it was made from. */
  ghost predicate PointsOk(s: State, f: Id)
    requires HasFence(s, f)
  {
    var fence := s.fences[f];
    && Apart(s.points, fence.points)
    && (forall i :: 0 <= i < |fence.points| ==> s.points[fence.points[i]].fence == f)
    && (fence.stage == Live ==> forall i :: 0 <= i < |fence.points| ==> s.points[fence.points[i]].attached)
    && (fence.sources.Some? ==> SourcesOk(s, fence.points, fence.sources.value.0, fence.sources.value.1))
  }

  ghost predicate SourcesOk(s: State, ids: seq<Id>, a: Id, b: Id) {
    && a in s.fences && b in s.fences
    && Dominate(s.points, ids, s.fences[a].points + s.fences[b].points)
  }

  ghost predicate FenceOk(s: State, f: Id) {
    HasFence(s, f) && PointsOk(s, f) && StatusOk(s, f)
  }

  /** A copy has the moment of its point; it is signaled only if the timeline has got there. */
  predicate CopyOk(s: State, copy: Copy, p: Id)
    requires p in s.points
  {
    && copy.timeline == s.points[p].timeline && copy.time == s.points[p].time && copy.timeline in s.timelines
    && (copy.signaled ==> copy.time <= s.timelines[copy.timeline].counter)
  }

  predicate Pin(s: State, f: Id, tl: Id, p: Id)
    requires f in s.fences
  {
    p in s.fences[f].points && p in s.points && s.points[p].attached && s.points[p].timeline == tl
  }

  /** A point of the fence is attached to the timeline. */
  ghost predicate Pinned(s: State, f: Id, tl: Id) {
    f in s.fences && exists p :: Pin(s, f, tl, p)
  }

  /** An increment that looks at a fence found it by an attached point. */
  ghost predicate Pins(s: State, f: Id, ret: Return) {
    f in s.fences && (ret.ToIncrement? ==> Pinned(s, f, ret.timeline))
  }

  /** What is known at a thread's program point. */
  ghost predicate ThreadOk(s: State, t: Id) {
    match ThreadOf(s, t)
    case Idle => true
    case Incrementing(_, _) => true
    case Calling(f, ret) => Pins(s, f, ret)
    case Counting(f, next, count, ret) =>
      && Pins(s, f, ret) && HasFence(s, f) && count <= next <= |s.fences[f].points|
      && (count == next ==> forall i :: 0 <= i < next ==> s.points[s.fences[f].points[i]].signaled)
    case Merging(a, b, chosen, copies) =>
      && SourcesOk(s, chosen, a, b) && Apart(s.points, chosen) && |copies| <= |chosen|
      && (forall i :: 0 <= i < |copies| ==> CopyOk(s, copies[i], chosen[i]))
    case Attaching(f, next) =>
      && HasFence(s, f) && s.fences[f].stage == Building(t) && next <= |s.fences[f].points|
      && forall i :: 0 <= i < |s.fences[f].points| ==> (s.points[s.fences[f].points[i]].attached <==> i < next)
    case Waiting(f) => f in s.fences && (t in s.fences[f].sleepers || s.fences[f].status == Signaled)
    case Detaching(f, next) =>
      && HasFence(s, f) && s.fences[f].stage == Dying(t) && next <= |s.fences[f].points|
      && forall i :: 0 <= i < |s.fences[f].points| ==> (s.points[s.fences[f].points[i]].attached <==> next <= i)
  }

  ghost predicate Inv(s: State) {
    && Placed(s) && Locks(s) && Marks(s)
    && (forall t :: ThreadOk(s, t))
    && (forall f :: f in s.fences ==> FenceOk(s, f))
  }

  // ----- The parts of the invariant

  lemma InvLocks(s: State, t: Id)
    requires Inv(s)
    ensures Locks(s)
    ensures TimelineHeld(ThreadOf(s, t)).Some? ==> TimelineHeldBy(s, TimelineHeld(ThreadOf(s, t)).value, t)
    ensures FenceHeld(ThreadOf(s, t)).Some? ==> FenceHeldBy(s, FenceHeld(ThreadOf(s, t)).value, t)
  {
  }

  lemma InvMarks(s: State)
    requires Inv(s)
    ensures Placed(s) && Marks(s)
  {
  }

  lemma InvThread(s: State, t: Id)
    requires Inv(s)
    ensures ThreadOk(s, t)
  {
  }

  lemma InvFence(s: State, f: Id)
    requires Inv(s) && f in s.fences
    ensures FenceOk(s, f)
  {
  }

  lemma InvIs(s: State)
    requires Placed(s) && Locks(s) && Marks(s)
    requires forall t :: ThreadOk(s, t)
    requires forall f :: f in s.fences ==> FenceOk(s, f)
    ensures Inv(s)
  {
  }

  // ----- Frames

  ghost predicate OnlyThread(s: State, s': State, t: Id) {
    forall u :: u != t ==> ThreadOf(s', u) == ThreadOf(s, u)
  }

  /** Points keep their moment and their signal, counters do not go back, fences keep their points and their status
      when signaled, only a signal wakes the sleepers, and points are attached only while their fence is built. */
  ghost predicate Grows(s: State, s': State) {
    && (forall p :: p in s.points ==>
          && p in s'.points && SameMoment(s'.points[p], s.points[p]) && s'.points[p].fence == s.points[p].fence
          && (s.points[p].signaled ==> s'.points[p].signaled))
    && (forall tl :: tl in s.timelines ==> tl in s'.timelines && s.timelines[tl].counter <= s'.timelines[tl].counter)
    && (forall f :: f in s.fences ==>
          && f in s'.fences && s'.fences[f].points == s.fences[f].points && s'.fences[f].sources == s.fences[f].sources
          && (s.fences[f].status == Signaled ==> s'.fences[f].status == Signaled)
          && (s.fences[f].sleepers <= s'.fences[f].sleepers || s'.fences[f].status == Signaled)
          && (s.fences[f].stage.Dying? ==> s'.fences[f].stage.Dying?)
          && (s'.fences[f].stage.Building? ==> s.fences[f].stage.Building?))
    && (forall p :: p in s.points && !s.points[p].attached && s'.points[p].attached ==>
          (s.points[p].fence in s.fences ==> s.fences[s.points[p].fence].stage.Building?))
  }

  predicate OwnsFence(th: Thread, f: Id) {
    (th.Attaching? || th.Detaching?) && th.fence == f
  }

  lemma DominateKeeps(points: map<Id, Point>, points': map<Id, Point>, ids: seq<Id>, sources: seq<Id>)
    requires Dominate(points, ids, sources)
    requires forall p :: p in points ==> p in points' && SameMoment(points'[p], points[p])
    ensures Dominate(points', ids, sources)
  {
    forall i | 0 <= i < |ids| ensures HasMoment(points', sources, points'[ids[i]]) {
      assert HasMoment(points, sources, points[ids[i]]);
    }
    forall i | 0 <= i < |sources| ensures HasLater(points', ids, points'[sources[i]]) {
      assert HasLater(points, ids, points[sources[i]]);
    }
  }

  /** Another thread's knowledge survives if the fence it owns is left alone. */
  lemma ThreadKeeps(s: State, s': State, u: Id)
    requires ThreadOk(s, u) && ThreadOf(s', u) == ThreadOf(s, u) && Grows(s, s')
    requires forall f :: f in s.fences && OwnsFence(ThreadOf(s, u), f) && HasFence(s, f) ==> Untouched(s, s', f)
    requires DetachesFree(s, s')
    requires TimelineHeld(ThreadOf(s, u)).Some? ==> TimelineHeldBy(s, TimelineHeld(ThreadOf(s, u)).value, u)
    ensures ThreadOk(s', u)
  {
    var th := ThreadOf(s, u);
    if th.Merging? {
      SourcesKeep(s, s', th.chosen, th.a, th.b);
    } else if th.Calling? || th.Counting? {
      PinsKeep(s, s', u, th.fence, th.ret);
    }
    hide SourcesOk, Pins, DetachesFree;
  }

  /** Points are detached under the lock of their timeline, so not while another thread has it. */
  ghost predicate DetachesFree(s: State, s': State) {
    forall p :: p in s.points && p in s'.points && s.points[p].attached && !s'.points[p].attached ==>
      Free(s, s.points[p].timeline)
  }

  lemma PinsSame(s: State, s': State, f: Id, ret: Return)
    requires Pins(s, f, ret) && s'.points == s.points && f in s'.fences && s'.fences[f].points == s.fences[f].points
    ensures Pins(s', f, ret)
  {
    if ret.ToIncrement? {
      var p :| Pin(s, f, ret.timeline, p);
      assert Pin(s', f, ret.timeline, p);
    }
  }

  lemma PinsKeep(s: State, s': State, u: Id, f: Id, ret: Return)
    requires Pins(s, f, ret) && Grows(s, s') && DetachesFree(s, s')
    requires ret.ToIncrement? ==> TimelineHeldBy(s, ret.timeline, u)
    ensures Pins(s', f, ret)
  {
    if ret.ToIncrement? {
      var p :| Pin(s, f, ret.timeline, p);
      assert Pin(s', f, ret.timeline, p);
    }
  }

  /** A fence stays in order when no point is detached while it is live, and when its points get signaled only by a
      thread that is obliged to look at them, and no obliged thread gives up on a fence that is all signaled. */
  ghost predicate Harmless(s: State, s': State, t: Id, f: Id)
    requires HasFence(s, f) && Grows(s, s') && HasFence(s', f)
  {
    var ids := s.fences[f].points;
    && (s'.fences[f].status == Signaled ==> (s.fences[f].status == Signaled || AllSignaled(s, f))
                                            && (s.fences[f].sleepers == {} ==> s'.fences[f].sleepers == {}))
    && (s'.fences[f].status == Signaled && s.fences[f].status == Active ==> s'.fences[f].sleepers == {})
    && (s'.fences[f].stage == Live ==>
          forall i :: 0 <= i < |ids| && (s.fences[f].stage == Live ==> s.points[ids[i]].attached) ==>
            s'.points[ids[i]].attached)
    && (s'.fences[f].status == Active && AllSignaled(s', f) ==>
          Obliged(ThreadOf(s', t), f) || (AllSignaled(s, f) && !Obliged(ThreadOf(s, t), f)))
  }

  lemma FenceKeeps(s: State, s': State, t: Id, f: Id)
    requires FenceOk(s, f) && Grows(s, s') && OnlyThread(s, s', t) && Harmless(s, s', t, f)
    ensures FenceOk(s', f)
  {
    hide StatusOk, PointsOk;
    PointsKeep(s, s', t, f);
    StatusKeeps(s, s', t, f);
  }

  lemma PointsKeep(s: State, s': State, t: Id, f: Id)
    requires HasFence(s, f) && PointsOk(s, f) && Grows(s, s') && Harmless(s, s', t, f)
    ensures PointsOk(s', f)
  {
    var fence := s.fences[f];
    if fence.sources.Some? {
      SourcesKeep(s, s', fence.points, fence.sources.value.0, fence.sources.value.1);
    }
    hide SourcesOk, Dominate;
  }

  lemma SourcesKeep(s: State, s': State, ids: seq<Id>, a: Id, b: Id)
    requires SourcesOk(s, ids, a, b) && Grows(s, s')
    ensures SourcesOk(s', ids, a, b)
  {
    DominateKeeps(s.points, s'.points, ids, s.fences[a].points + s.fences[b].points);
  }

  lemma StatusKeeps(s: State, s': State, t: Id, f: Id)
    requires HasFence(s, f) && StatusOk(s, f) && Grows(s, s') && OnlyThread(s, s', t) && Harmless(s, s', t, f)
    ensures StatusOk(s', f)
  {
    assert AllSignaled(s, f) ==> AllSignaled(s', f);
    if s'.fences[f].status == Active && AllSignaled(s', f) && !Obliged(ThreadOf(s', t), f) {
      var u :| Obliged(ThreadOf(s, u), f);
      assert Obliged(ThreadOf(s', u), f);
    }
  }

  /** The thread takes locks that were free, or gives up locks it held; all else is as before. */
  ghost predicate LocksMove(s: State, s': State, t: Id) {
    TimelineLocksMove(s, s', t) && FenceLocksMove(s, s', t)
  }

  ghost predicate TimelineLocksMove(s: State, s': State, t: Id) {
    var was, now := TimelineHeld(ThreadOf(s, t)), TimelineHeld(ThreadOf(s', t));
    && s'.timelines.Keys == s.timelines.Keys
    && (forall tl :: tl in s.timelines ==>
          if now == Some(tl) then s'.timelines[tl].holder == Some(t) && (was == now || Free(s, tl))
          else if was == Some(tl) then s'.timelines[tl].holder == None
          else s'.timelines[tl].holder == s.timelines[tl].holder)
    && (now.Some? ==> now.value in s.timelines)
  }

  ghost predicate FenceLocksMove(s: State, s': State, t: Id) {
    var was, now := FenceHeld(ThreadOf(s, t)), FenceHeld(ThreadOf(s', t));
    && (forall f :: f in s.fences ==> f in s'.fences)
    && (forall f :: f in s'.fences ==>
          if now == Some(f) then s'.fences[f].holder == Some(t) && (was == now || FenceFree(s, f))
          else if was == Some(f) then s'.fences[f].holder == None
          else if f in s.fences then s'.fences[f].holder == s.fences[f].holder
          else s'.fences[f].holder == None)
    && (now.Some? ==> now.value in s.fences)
  }

  lemma TimelineLocksStep(s: State, s': State, t: Id)
    requires TimelineLocks(s) && OnlyThread(s, s', t) && TimelineLocksMove(s, s', t)
    ensures TimelineLocks(s')
  {
  }

  lemma FenceLocksStep(s: State, s': State, t: Id)
    requires FenceLocks(s) && OnlyThread(s, s', t) && FenceLocksMove(s, s', t)
    ensures FenceLocks(s')
  {
  }

  lemma LocksStep(s: State, s': State, t: Id)
    requires Locks(s) && OnlyThread(s, s', t) && LocksMove(s, s', t)
    ensures Locks(s')
  {
    hide TimelineLocks, FenceLocks, TimelineLocksMove, FenceLocksMove;
    TimelineLocksStep(s, s', t);
    FenceLocksStep(s, s', t);
  }

  /** What a step has to show once its own marks are in order. */
  lemma StepKeeps(s: State, s': State, t: Id)
    requires Inv(s) && Grows(s, s') && OnlyThread(s, s', t) && LocksMove(s, s', t) && DetachesFree(s, s')
    requires Placed(s') && Marks(s') && ThreadOk(s', t)
    requires forall u, f :: u != t && f in s.fences && OwnsFence(ThreadOf(s, u), f) && HasFence(s, f) ==>
      Untouched(s, s', f)
    requires forall f :: f in s.fences && HasFence(s, f) ==> HasFence(s', f) && Harmless(s, s', t, f)
    requires forall f :: f in s'.fences && f !in s.fences ==> FenceOk(s', f)
    ensures Inv(s')
  {
    hide Inv, Placed, Locks, Marks, LocksMove, FenceOk, ThreadOk, Harmless, DetachesFree;
    InvLocks(s, t);
    LocksStep(s, s', t);
    forall f | f in s'.fences ensures FenceOk(s', f) {
      if f in s.fences {
        InvFence(s, f);
        OkHasFence(s, f);
        FenceKeeps(s, s', t, f);
      }
    }
    forall u ensures ThreadOk(s', u) {
      if u != t {
        InvThread(s, u);
        InvLocks(s, u);
        ThreadKeeps(s, s', u);
      }
    }
    InvIs(s');
  }

  lemma OkHasFence(s: State, f: Id)
    requires FenceOk(s, f)
    ensures HasFence(s, f)
  {
  }

  ghost predicate Untouched(s: State, s': State, f: Id)
    requires HasFence(s, f) && Grows(s, s')
  {
    s'.fences[f].stage == s.fences[f].stage
    && forall i :: 0 <= i < |s.fences[f].points| ==>
         s'.points[s.fences[f].points[i]].attached == s.points[s.fences[f].points[i]].attached
  }
}
