/** Each step of the fence protocol keeps the invariant. */
module FenceSteps {
  import opened Basics
  import opened Fences
  import opened FenceInvariant

  // ----- Marks

  /** Points and counters stay; the thread keeps what it has to mark, and no lock changes hands under it. */
  ghost predicate MarksStay(s: State, s': State, t: Id) {
    var th, th' := ThreadOf(s, t), ThreadOf(s', t);
    && s'.points == s.points && s'.timelines.Keys == s.timelines.Keys
    && (forall f :: f in s.fences ==> f in s'.fences && s'.fences[f].points == s.fences[f].points)
    && (forall tl :: tl in s.timelines ==> s'.timelines[tl].counter == s.timelines[tl].counter)
    && Todo(th') == Todo(th) && (TimelineHeld(th') == TimelineHeld(th) || Todo(th) == [])
    && forall tl :: tl in s.timelines && s'.timelines[tl].holder != s.timelines[tl].holder ==>
         s.timelines[tl].holder == None || (s.timelines[tl].holder == Some(t) && Todo(th) == [])
  }

  lemma MarksQuiet(s: State, s': State, t: Id)
    requires Placed(s) && Marks(s) && OnlyThread(s, s', t) && MarksStay(s, s', t)
    ensures Placed(s') && Marks(s')
  {
    forall u ensures TodoOk(s', u) {
      assert TodoOk(s, u);
    }
    forall p | p in s'.points && s'.points[p].attached && Reached(s', p) && !s'.points[p].signaled
      ensures BeingMarked(s', s'.points[p].timeline, p)
    {
      assert Reached(s, p) && BeingMarked(s, s.points[p].timeline, p);
    }
    forall p | p in s'.points && s'.points[p].signaled ensures Reached(s', p) {
      assert Reached(s, p);
    }
  }

  /** A quiet step: points, counters and points of fences stay. */
  lemma QuietKeeps(s: State, s': State, t: Id)
    requires Inv(s) && OnlyThread(s, s', t) && LocksMove(s, s', t) && MarksStay(s, s', t) && ThreadOk(s', t)
    requires Grows(s, s') && s'.fences.Keys == s.fences.Keys && s'.points == s.points
    requires forall f :: f in s.fences && s'.fences[f].stage != s.fences[f].stage ==>
      s.fences[f].stage in {Live, Building(t)}
    requires forall f :: f in s.fences && HasFence(s, f) ==> HasFence(s', f) && Harmless(s, s', t, f)
    ensures Inv(s')
  {
    hide Inv, Placed, Marks, LocksMove, MarksStay, Harmless;
    InvMarks(s);
    MarksQuiet(s, s', t);
    forall u, f | u != t && f in s.fences && OwnsFence(ThreadOf(s, u), f) && HasFence(s, f)
      ensures Untouched(s, s', f)
    {
      InvThread(s, u);
    }
    StepKeeps(s, s', t);
  }

  // ----- Steps that leave all points and fences alone

  lemma SameGrows(s: State, s': State)
    requires s'.points == s.points && s'.fences == s.fences && s'.timelines.Keys == s.timelines.Keys
    requires forall tl :: tl in s.timelines ==> s.timelines[tl].counter <= s'.timelines[tl].counter
    ensures Grows(s, s')
  {
  }

  lemma SameHarmless(s: State, s': State, t: Id, f: Id)
    requires HasFence(s, f) && Grows(s, s') && s'.points == s.points && s'.fences == s.fences
    requires Obliged(ThreadOf(s, t), f) ==> Obliged(ThreadOf(s', t), f) || !AllSignaled(s, f)
    ensures HasFence(s', f) && Harmless(s, s', t, f)
  {
    assert AllSignaled(s', f) <==> AllSignaled(s, f);
  }

  /** The thread goes on; it gives up no lock, and no duty to a fence that may be all signaled. */
  ghost predicate Still(s: State, s': State, t: Id) {
    && OnlyThread(s, s', t) && s'.points == s.points && s'.fences == s.fences && s'.timelines == s.timelines
    && SameHoldings(ThreadOf(s, t), ThreadOf(s', t))
    && forall f :: Obliged(ThreadOf(s, t), f) && HasFence(s, f) ==>
         Obliged(ThreadOf(s', t), f) || !AllSignaled(s, f)
  }

  predicate SameHoldings(th: Thread, th': Thread) {
    Todo(th') == Todo(th) && TimelineHeld(th') == TimelineHeld(th) && FenceHeld(th') == FenceHeld(th)
  }

  lemma StillLocks(s: State, s': State, t: Id)
    requires Inv(s) && Still(s, s', t)
    ensures LocksMove(s, s', t) && MarksStay(s, s', t)
  {
    hide Inv, HasFence, AllSignaled;
    InvLocks(s, t);
  }

  lemma StillKeeps(s: State, s': State, t: Id)
    requires Inv(s) && Still(s, s', t) && ThreadOk(s', t)
    ensures Inv(s') && Grows(s, s')
  {
    hide Inv, Grows, Harmless, LocksMove, MarksStay, ThreadOk, AllSignaled;
    StillLocks(s, s', t);
    SameGrows(s, s');
    forall f | f in s.fences && HasFence(s, f) ensures HasFence(s', f) && Harmless(s, s', t, f) {
      SameHarmless(s, s', t, f);
    }
    QuietKeeps(s, s', t);
  }

  lemma UnlockKeeps(s: State, t: Id)
    requires Inv(s) && CanUnlock(s, t)
    ensures Inv(Unlock(s, t)) && Grows(s, Unlock(s, t))
  {
    hide Inv, Locks, Grows, Harmless, HasFence, AllSignaled;
    var s' := Unlock(s, t);
    InvLocks(s, t);
    SameGrows(s, s');
    forall f | f in s.fences && HasFence(s, f) ensures HasFence(s', f) && Harmless(s, s', t, f) {
      SameHarmless(s, s', t, f);
    }
    QuietKeeps(s, s', t);
  }

  lemma CountNextKeeps(s: State, t: Id)
    requires Inv(s) && CanCount(s, t)
    ensures Inv(CountNext(s, t)) && Grows(s, CountNext(s, t))
  {
    hide Inv, Grows, Pins;
    InvThread(s, t);
    PinsSame(s, CountNext(s, t), ThreadOf(s, t).fence, ThreadOf(s, t).ret);
    StillKeeps(s, CountNext(s, t), t);
  }

  lemma CopyNextKeeps(s: State, t: Id)
    requires Inv(s) && CanCopy(s, t)
    ensures Inv(CopyNext(s, t)) && Grows(s, CopyNext(s, t))
  {
    hide Inv, Grows, TodoOk, Dominate, Apart;
    var s' := CopyNext(s, t);
    InvThread(s, t);
    InvMarks(s);
    assert Still(s, s', t) && ThreadOk(s', t);
    StillKeeps(s, s', t);
  }

  lemma VanishKeeps(s: State, t: Id)
    requires Inv(s) && CanVanish(s, t)
    ensures Inv(Go(s, t, Idle)) && Grows(s, Go(s, t, Idle))
  {
    hide Inv, Grows;
    StillKeeps(s, Go(s, t, Idle), t);
  }

  // ----- Steps that edit stage, status, holder or sleepers of one fence

  ghost predicate Edits(s: State, s': State, t: Id, f: Id) {
    && OnlyThread(s, s', t) && s'.points == s.points && s'.timelines == s.timelines
    && f in s.fences && f in s'.fences && s'.fences == s.fences[f := s'.fences[f]]
    && s'.fences[f].points == s.fences[f].points && s'.fences[f].sources == s.fences[f].sources
    && Todo(ThreadOf(s', t)) == Todo(ThreadOf(s, t))
    && TimelineHeld(ThreadOf(s', t)) == TimelineHeld(ThreadOf(s, t))
  }

  /** The thread takes the fence's lock, gives it back, or has nothing to do with it. */
  predicate HolderMoves(s: State, s': State, t: Id, f: Id)
    requires f in s.fences && f in s'.fences
  {
    var was, now := FenceHeld(ThreadOf(s, t)), FenceHeld(ThreadOf(s', t));
    || (was == None && now == Some(f) && s.fences[f].holder == None && s'.fences[f].holder == Some(t))
    || (was == Some(f) && now == None && s'.fences[f].holder == None)
    || (was == None && now == None && s'.fences[f].holder == s.fences[f].holder)
  }

  /** The edit is one that the invariant allows: a fence is signaled only when all its points are, and then wakes
      everybody; it goes live only with all points attached; and a duty to it is not forgotten. */
  ghost predicate FairEdit(s: State, s': State, t: Id, f: Id)
    requires HasFence(s, f) && f in s'.fences
  {
    var fence, fence' := s.fences[f], s'.fences[f];
    && (if fence'.status == Active then fence.status == Active && fence.sleepers <= fence'.sleepers
        else if fence.status == Active then AllSignaled(s, f) && fence'.sleepers == {}
        else fence'.sleepers <= fence.sleepers)
    && (fence'.stage != fence.stage ==>
          !fence'.stage.Building? && (fence.stage == Live || fence.stage == Building(t)))
    && (fence'.stage == Live && fence.stage != Live ==>
          forall i :: 0 <= i < |fence.points| ==> s.points[fence.points[i]].attached)
    && (fence'.status == Active && Obliged(ThreadOf(s, t), f) ==>
          Obliged(ThreadOf(s', t), f) || !AllSignaled(s, f))
  }

  lemma EditGrows(s: State, s': State, t: Id, f: Id)
    requires Edits(s, s', t, f) && HasFence(s, f) && FairEdit(s, s', t, f)
    ensures Grows(s, s')
  {
    hide AllSignaled;
  }

  lemma EditLocks(s: State, s': State, t: Id, f: Id)
    requires Inv(s) && Edits(s, s', t, f) && HolderMoves(s, s', t, f)
    ensures LocksMove(s, s', t)
  {
    hide Inv, FenceLocksMove, TimelineLocks, FenceLocks, HolderMoves;
    InvLocks(s, t);
    EditFenceLocks(s, s', t, f);
  }

  lemma EditFenceLocks(s: State, s': State, t: Id, f: Id)
    requires Inv(s) && Edits(s, s', t, f) && HolderMoves(s, s', t, f)
    ensures FenceLocksMove(s, s', t)
  {
    hide Inv;
    InvLocks(s, t);
  }

  lemma EditMarks(s: State, s': State, t: Id, f: Id)
    requires Edits(s, s', t, f)
    ensures MarksStay(s, s', t)
  {
  }

  lemma EditHarmless(s: State, s': State, t: Id, f: Id, g: Id)
    requires Grows(s, s') && Edits(s, s', t, f) && HasFence(s, f) && HasFence(s, g) && FairEdit(s, s', t, f)
    requires g != f ==> !Obliged(ThreadOf(s, t), g)
    ensures HasFence(s', g) && Harmless(s, s', t, g)
  {
    assert AllSignaled(s', g) <==> AllSignaled(s, g);
  }

  lemma EditKeeps(s: State, s': State, t: Id, f: Id)
    requires Inv(s) && Edits(s, s', t, f) && HasFence(s, f) && HolderMoves(s, s', t, f) && FairEdit(s, s', t, f)
    requires ThreadOk(s', t) && forall g :: g != f ==> !Obliged(ThreadOf(s, t), g)
    ensures Inv(s') && Grows(s, s')
  {
    hide Inv, Grows, Harmless, LocksMove, MarksStay, ThreadOk, AllSignaled, HolderMoves, Obliged;
    EditLocks(s, s', t, f);
    EditMarks(s, s', t, f);
    EditGrows(s, s', t, f);
    forall g | g in s.fences && HasFence(s, g) ensures HasFence(s', g) && Harmless(s, s', t, g) {
      EditHarmless(s, s', t, f, g);
    }
    hide HasFence;
    QuietKeeps(s, s', t);
  }

  lemma EnterKeeps(s: State, t: Id)
    requires Inv(s) && CanEnter(s, t)
    ensures Inv(Enter(s, t)) && Grows(s, Enter(s, t))
  {
    hide Inv, Grows, FenceOk, Pins;
    var f := ThreadOf(s, t).fence;
    InvThread(s, t);
    PinsSame(s, Enter(s, t), f, ThreadOf(s, t).ret);
    InvFence(s, f);
    OkHasFence(s, f);
    EditKeeps(s, Enter(s, t), t, f);
  }

  /** The count was made without the timelines' locks. If it missed a point, that point may be signaled by now, but then
      the thread that marked it still has to look at the fence. */
  lemma LeaveKeeps(s: State, t: Id)
    requires Inv(s) && CanLeave(s, t)
    ensures Inv(Leave(s, t)) && Grows(s, Leave(s, t))
  {
    hide Inv, Grows;
    InvThread(s, t);
    EditKeeps(s, Leave(s, t), t, ThreadOf(s, t).fence);
  }

  lemma FinishKeeps(s: State, t: Id)
    requires Inv(s) && CanFinish(s, t)
    ensures Inv(Finish(s, t)) && Grows(s, Finish(s, t))
  {
    hide Inv, Grows;
    InvThread(s, t);
    EditKeeps(s, Finish(s, t), t, ThreadOf(s, t).fence);
  }

  lemma WaitKeeps(s: State, t: Id, f: Id)
    requires Inv(s) && CanWait(s, t, f)
    ensures Inv(Wait(s, t, f)) && Grows(s, Wait(s, t, f))
  {
    hide Inv, FenceOk, AllSignaled;
    if s.fences[f].status == Active {
      InvFence(s, f);
      OkHasFence(s, f);
      hide Grows;
      EditKeeps(s, Wait(s, t, f), t, f);
    }
  }

  /** A waiter that wakes up goes back to sleep unless the fence is signaled. */
  lemma WakeKeeps(s: State, t: Id)
    requires Inv(s) && CanWake(s, t)
    ensures Inv(Wake(s, t)) && Grows(s, Wake(s, t))
  {
    hide Inv, FenceOk, AllSignaled, Grows;
    var f := ThreadOf(s, t).fence;
    InvFence(s, f);
    OkHasFence(s, f);
    if s.fences[f].status == Signaled {
      StillKeeps(s, Wake(s, t), t);
    } else {
      EditKeeps(s, Wake(s, t), t, f);
    }
  }

  lemma CloseKeeps(s: State, t: Id, f: Id)
    requires Inv(s) && CanClose(s, t, f)
    ensures Inv(Close(s, t, f)) && Grows(s, Close(s, t, f))
  {
    hide Inv, FenceOk, AllSignaled, Grows;
    InvFence(s, f);
    LiveIsAttached(s, f);
    EditKeeps(s, Close(s, t, f), t, f);
  }

  lemma LiveIsAttached(s: State, f: Id)
    requires FenceOk(s, f)
    ensures HasFence(s, f)
    ensures s.fences[f].stage == Live ==>
      forall i :: 0 <= i < |s.fences[f].points| ==> s.points[s.fences[f].points[i]].attached
  {
  }

  // ----- Choosing the points of a merge

  /** Each list is on pairwise different timelines, each timeline under its own name, and no later point is left out. */
  ghost predicate ChosenOk(points: map<Id, Point>, m: map<Id, Id>, sources: seq<Id>) {
    && AllIn(points, sources)
    && (forall tl :: tl in m ==>
          m[tl] in points && points[m[tl]].timeline == tl && HasMoment(points, sources, points[m[tl]]))
    && (forall i :: 0 <= i < |sources| ==>
          var q := points[sources[i]]; q.timeline in m && q.time <= points[m[q.timeline]].time)
  }

  lemma {:induction false} ByTimelineChosen(points: map<Id, Point>, a: seq<Id>)
    requires AllIn(points, a) && Apart(points, a)
    ensures ChosenOk(points, ByTimeline(points, a), a)
  {
    if a != [] {
      var init, last := a[..|a| - 1], a[|a| - 1];
      ByTimelineChosen(points, init);
      AddChosen(points, ByTimeline(points, init), init, last);
      assert a == init + [last];
    }
  }

  /** One more source, put into the map because it is new or later. */
  lemma AddChosen(points: map<Id, Point>, m: map<Id, Id>, sources: seq<Id>, last: Id)
    requires ChosenOk(points, m, sources) && last in points
    requires
      || (points[last].timeline in m ==> points[m[points[last].timeline]].time <= points[last].time)
      || (forall i :: 0 <= i < |sources| ==> points[sources[i]].timeline != points[last].timeline)
    ensures ChosenOk(points, m[points[last].timeline := last], sources + [last])
  {
    var all := sources + [last];
    forall tl | tl in m ensures HasMoment(points, all, points[m[tl]]) {
      var i :| 0 <= i < |sources| && SameMoment(points[sources[i]], points[m[tl]]);
      assert all[i] == sources[i];
    }
    assert all[|sources|] == last;
  }

  lemma SkipChosen(points: map<Id, Point>, m: map<Id, Id>, sources: seq<Id>, last: Id)
    requires ChosenOk(points, m, sources) && last in points
    requires points[last].timeline in m && points[last].time <= points[m[points[last].timeline]].time
    ensures ChosenOk(points, m, sources + [last])
  {
    var all := sources + [last];
    forall tl | tl in m ensures HasMoment(points, all, points[m[tl]]) {
      var i :| 0 <= i < |sources| && SameMoment(points[sources[i]], points[m[tl]]);
      assert all[i] == sources[i];
    }
  }

  /** The map of the merge holds a latest point of both fences for each timeline of either. */
  lemma {:induction false} LaterChosen(points: map<Id, Point>, a: seq<Id>, b: seq<Id>)
    requires AllIn(points, a) && Apart(points, a) && AllIn(points, b)
    ensures ChosenOk(points, Later(points, ByTimeline(points, a), b), a + b)
  {
    if b == [] {
      ByTimelineChosen(points, a);
      assert a + b == a;
    } else {
      var init, last := b[..|b| - 1], b[|b| - 1];
      LaterChosen(points, a, init);
      var r := Later(points, ByTimeline(points, a), init);
      assert a + b == (a + init) + [last];
      if points[last].timeline !in r || points[r[points[last].timeline]].time < points[last].time {
        AddChosen(points, r, a + init, last);
      } else {
        SkipChosen(points, r, a + init, last);
      }
    }
  }

  lemma ListedDominates(points: map<Id, Point>, m: map<Id, Id>, chosen: seq<Id>, sources: seq<Id>)
    requires ChosenOk(points, m, sources) && Lists(chosen, m)
    ensures Dominate(points, chosen, sources) && Apart(points, chosen)
  {
    forall i | 0 <= i < |chosen|
      ensures chosen[i] in points && points[chosen[i]].timeline in m && m[points[chosen[i]].timeline] == chosen[i]
      ensures HasMoment(points, sources, points[chosen[i]])
    {
      assert chosen[i] in chosen;
    }
    forall i | 0 <= i < |sources| ensures HasLater(points, chosen, points[sources[i]]) {
      var p := m[points[sources[i]].timeline];
      assert p in chosen;
    }
  }

  lemma ChosenPoints(s: State, a: Id, b: Id, chosen: seq<Id>)
    requires HasFence(s, a) && HasFence(s, b) && Apart(s.points, s.fences[a].points)
    requires Lists(chosen, Later(s.points, ByTimeline(s.points, s.fences[a].points), s.fences[b].points))
    ensures SourcesOk(s, chosen, a, b) && Apart(s.points, chosen)
  {
    hide Lists, ChosenOk, Dominate, Apart, ByTimeline, Later;
    LaterChosen(s.points, s.fences[a].points, s.fences[b].points);
    ListedDominates(s.points, Later(s.points, ByTimeline(s.points, s.fences[a].points), s.fences[b].points), chosen,
                    s.fences[a].points + s.fences[b].points);
  }

  lemma BeginMergeKeeps(s: State, t: Id, a: Id, b: Id, chosen: seq<Id>)
    requires Inv(s) && CanMerge(s, t, a, b, chosen)
    ensures Inv(BeginMerge(s, t, a, b, chosen)) && Grows(s, BeginMerge(s, t, a, b, chosen))
  {
    hide Inv, Grows, FenceOk, Lists, ByTimeline, Later, SourcesOk, Apart, AllSignaled;
    InvFence(s, a);
    OkApart(s, a);
    ChosenPoints(BeginMerge(s, t, a, b, chosen), a, b, chosen);
    StillKeeps(s, BeginMerge(s, t, a, b, chosen), t);
  }

  lemma OkApart(s: State, f: Id)
    requires FenceOk(s, f)
    ensures HasFence(s, f) && AllIn(s.points, s.fences[f].points) && Apart(s.points, s.fences[f].points)
  {
  }

  // ----- Steps that move a counter

  lemma IncrementMarks(s: State, t: Id, tl: Id, amount: nat, todo: seq<Id>)
    requires Placed(s) && Marks(s) && CanIncrement(s, t, tl, amount, todo)
    ensures Placed(Increment(s, t, tl, amount, todo)) && Marks(Increment(s, t, tl, amount, todo))
  {
    var s' := Increment(s, t, tl, amount, todo);
    forall u ensures TodoOk(s', u) {
      assert TodoOk(s, u);
    }
    forall p | p in s'.points && s'.points[p].attached && Reached(s', p) && !s'.points[p].signaled
      ensures BeingMarked(s', s'.points[p].timeline, p)
    {
      if Reached(s, p) {
        assert BeingMarked(s, s.points[p].timeline, p);
      } else {
        assert p in todo;
      }
    }
  }

  lemma IncrementKeeps(s: State, t: Id, tl: Id, amount: nat, todo: seq<Id>)
    requires Inv(s) && CanIncrement(s, t, tl, amount, todo)
    ensures Inv(Increment(s, t, tl, amount, todo)) && Grows(s, Increment(s, t, tl, amount, todo))
  {
    hide Inv, Grows, Locks, FenceOk, Marks, Due, Harmless, AllSignaled, HasFence, LocksMove;
    var s' := Increment(s, t, tl, amount, todo);
    IncrementLocks(s, t, tl, amount, todo);
    InvMarks(s);
    IncrementMarks(s, t, tl, amount, todo);
    hide Placed;
    SameGrows(s, s');
    forall f | f in s.fences && HasFence(s, f) ensures HasFence(s', f) && Harmless(s, s', t, f) {
      SameHarmless(s, s', t, f);
    }
    forall u, f | u != t && f in s.fences && OwnsFence(ThreadOf(s, u), f) && HasFence(s, f)
      ensures Untouched(s, s', f)
    {
      SameUntouched(s, s', f);
    }
    StepKeeps(s, s', t);
  }

  lemma SameUntouched(s: State, s': State, f: Id)
    requires HasFence(s, f) && Grows(s, s') && s'.points == s.points && s'.fences == s.fences
    ensures Untouched(s, s', f)
  {
  }

  lemma IncrementLocks(s: State, t: Id, tl: Id, amount: nat, todo: seq<Id>)
    requires Inv(s) && CanIncrement(s, t, tl, amount, todo)
    ensures LocksMove(s, Increment(s, t, tl, amount, todo), t)
  {
    hide Inv, Due;
    InvLocks(s, t);
  }

  // ----- Steps that move one point

  /** Only one thread has a point to mark, and none while the point's timeline is free. */
  lemma OneMarker(s: State, t: Id, u: Id, p: Id)
    requires Placed(s) && Locks(s) && TodoOk(s, u) && p in Todo(ThreadOf(s, u))
    ensures p in s.points && !Free(s, s.points[p].timeline)
    ensures TimelineHeld(ThreadOf(s, t)) == Some(s.points[p].timeline) ==> t == u
  {
    assert TimelineHeldBy(s, s.points[p].timeline, u);
    if TimelineHeld(ThreadOf(s, t)) == Some(s.points[p].timeline) {
      assert TimelineHeldBy(s, s.points[p].timeline, t);
    }
  }

  lemma MarkTodo(s: State, t: Id, u: Id)
    requires Placed(s) && Locks(s) && CanMark(s, t) && TodoOk(s, t) && TodoOk(s, u)
    ensures Placed(MarkNext(s, t)) && TodoOk(MarkNext(s, t), u)
  {
    var p := ThreadOf(s, t).todo[0];
    if p in Todo(ThreadOf(s, u)) {
      OneMarker(s, t, u, p);
    }
    hide Locks;
  }

  lemma MarkMarks(s: State, t: Id)
    requires Placed(s) && Locks(s) && Marks(s) && CanMark(s, t)
    ensures Placed(MarkNext(s, t)) && Marks(MarkNext(s, t))
  {
    hide Locks, TodoOk;
    var s' := MarkNext(s, t);
    var todo := ThreadOf(s, t).todo;
    assert TodoOk(s, t);
    forall u ensures TodoOk(s', u) {
      assert TodoOk(s, u);
      MarkTodo(s, t, u);
    }
    forall q | q in s'.points && s'.points[q].attached && Reached(s', q) && !s'.points[q].signaled
      ensures BeingMarked(s', s'.points[q].timeline, q)
    {
      assert Reached(s, q) && BeingMarked(s, s.points[q].timeline, q);
      assert q in todo && q != todo[0] ==> q in todo[1..];
    }
    MarkReached(s, t);
  }

  lemma MarkReached(s: State, t: Id)
    requires Placed(s) && Marks(s) && CanMark(s, t)
    ensures forall q :: q in MarkNext(s, t).points && MarkNext(s, t).points[q].signaled ==>
      q in s.points && Reached(s, q)
  {
    assert TodoOk(s, t);
  }

  lemma AttachMarks(s: State, t: Id)
    requires Placed(s) && Marks(s) && CanAttach(s, t)
    requires !s.points[s.fences[ThreadOf(s, t).fence].points[ThreadOf(s, t).next]].attached
    ensures Placed(AttachNext(s, t)) && Marks(AttachNext(s, t))
  {
    var s' := AttachNext(s, t);
    forall u ensures TodoOk(s', u) {
      assert TodoOk(s, u);
    }
    forall q | q in s'.points && s'.points[q].attached && Reached(s', q) && !s'.points[q].signaled
      ensures BeingMarked(s', s'.points[q].timeline, q)
    {
      assert Reached(s, q) && BeingMarked(s, s.points[q].timeline, q);
    }
  }

  lemma DetachMarks(s: State, t: Id)
    requires Placed(s) && Locks(s) && Marks(s) && CanDetach(s, t)
    ensures Placed(DetachNext(s, t)) && Marks(DetachNext(s, t))
  {
    var s' := DetachNext(s, t);
    var p := s.fences[ThreadOf(s, t).fence].points[ThreadOf(s, t).next];
    forall u ensures TodoOk(s', u) {
      assert TodoOk(s, u);
      if p in Todo(ThreadOf(s, u)) {
        OneMarker(s, t, u, p);
      }
    }
    forall q | q in s'.points && s'.points[q].attached && Reached(s', q) && !s'.points[q].signaled
      ensures BeingMarked(s', s'.points[q].timeline, q)
    {
      assert Reached(s, q) && BeingMarked(s, s.points[q].timeline, q);
    }
  }

  /** Only one point of one fence differs. */
  ghost predicate PointMoves(s: State, s': State, t: Id, p: Id) {
    && OnlyThread(s, s', t) && p in s.points && s'.points.Keys == s.points.Keys
    && (forall q :: q in s.points && q != p ==> s'.points[q] == s.points[q])
    && SameMoment(s'.points[p], s.points[p]) && s'.points[p].fence == s.points[p].fence
    && (s.points[p].signaled ==> s'.points[p].signaled)
    && s'.fences == s.fences && s'.timelines == s.timelines
  }

  lemma PointMoveKeeps(s: State, s': State, t: Id, p: Id)
    requires Inv(s) && PointMoves(s, s', t, p) && LocksMove(s, s', t)
    requires Placed(s') && Marks(s') && ThreadOk(s', t)
    requires s'.points[p].attached != s.points[p].attached ==> OwnsFence(ThreadOf(s, t), s.points[p].fence)
    requires s.points[p].attached && !s'.points[p].attached ==>
      s.points[p].fence in s.fences && s.fences[s.points[p].fence].stage != Live
    requires s.points[p].attached && !s'.points[p].attached ==> Free(s, s.points[p].timeline)
    requires !s.points[p].attached && s'.points[p].attached ==>
      s.points[p].fence in s.fences && s.fences[s.points[p].fence].stage.Building?
    requires forall f :: f in s.fences && Obliged(ThreadOf(s, t), f) ==> Obliged(ThreadOf(s', t), f)
    requires s'.points[p].signaled && !s.points[p].signaled ==> Obliged(ThreadOf(s', t), s.points[p].fence)
    ensures Inv(s') && Grows(s, s')
  {
    hide Inv, Grows, FenceOk, Marks, Placed, LocksMove, Obliged;
    PointMoveGrows(s, s', t, p);
    forall f | f in s.fences && HasFence(s, f) ensures HasFence(s', f) && Harmless(s, s', t, f) {
      InvFence(s, f);
      PointMoveHarmless(s, s', t, p, f);
    }
    InvThread(s, t);
    forall u, f | u != t && f in s.fences && OwnsFence(ThreadOf(s, u), f) && HasFence(s, f)
      ensures Untouched(s, s', f)
    {
      InvThread(s, u);
      InvFence(s, f);
      PointMoveElsewhere(s, s', t, u, p, f);
    }
    StepKeeps(s, s', t);
  }

  lemma PointMoveGrows(s: State, s': State, t: Id, p: Id)
    requires PointMoves(s, s', t, p)
    requires !s.points[p].attached && s'.points[p].attached ==>
      s.points[p].fence in s.fences && s.fences[s.points[p].fence].stage.Building?
    ensures Grows(s, s')
  {
  }

  lemma PointMoveLocks(s: State, s': State, t: Id, p: Id)
    requires Inv(s) && PointMoves(s, s', t, p)
    requires TimelineHeld(ThreadOf(s', t)) == TimelineHeld(ThreadOf(s, t))
    requires FenceHeld(ThreadOf(s', t)) == FenceHeld(ThreadOf(s, t))
    ensures LocksMove(s, s', t)
  {
    hide Inv;
    InvLocks(s, t);
  }

  lemma PointMoveHarmless(s: State, s': State, t: Id, p: Id, f: Id)
    requires PointMoves(s, s', t, p) && FenceOk(s, f) && Grows(s, s')
    requires s.points[p].attached && !s'.points[p].attached ==>
      s.points[p].fence in s.fences && s.fences[s.points[p].fence].stage != Live
    requires Obliged(ThreadOf(s, t), f) ==> Obliged(ThreadOf(s', t), f)
    requires s'.points[p].signaled && !s.points[p].signaled ==> Obliged(ThreadOf(s', t), s.points[p].fence)
    ensures HasFence(s', f) && Harmless(s, s', t, f)
  {
    hide Grows, StatusOk, SourcesOk, Apart;
    if f != s.points[p].fence || s'.points[p].signaled == s.points[p].signaled {
      assert AllSignaled(s', f) ==> AllSignaled(s, f);
    }
  }

  lemma PointMoveElsewhere(s: State, s': State, t: Id, u: Id, p: Id, f: Id)
    requires PointMoves(s, s', t, p) && FenceOk(s, f) && ThreadOk(s, t) && ThreadOk(s, u) && u != t && Grows(s, s')
    requires OwnsFence(ThreadOf(s, u), f)
    requires s'.points[p].attached != s.points[p].attached ==> OwnsFence(ThreadOf(s, t), s.points[p].fence)
    ensures HasFence(s, f) && Untouched(s, s', f)
  {
  }

  /** A point that is marked pins its fence to its timeline. */
  lemma MarkPins(s: State, t: Id)
    requires Placed(s) && Marks(s) && CanMark(s, t)
    ensures var p := ThreadOf(s, t).todo[0];
      s.points[p].fence in s.fences && Pin(MarkNext(s, t), s.points[p].fence, ThreadOf(s, t).timeline, p)
  {
    assert TodoOk(s, t);
  }

  lemma MarkNextKeeps(s: State, t: Id)
    requires Inv(s) && CanMark(s, t)
    ensures Inv(MarkNext(s, t)) && Grows(s, MarkNext(s, t))
  {
    hide Inv, Grows, Locks, Marks, LocksMove;
    var s' := MarkNext(s, t);
    var p := ThreadOf(s, t).todo[0];
    InvLocks(s, t);
    InvMarks(s);
    MarkMarks(s, t);
    MarkPins(s, t);
    hide Placed, Pin;
    assert PointMoves(s, s', t, p);
    PointMoveLocks(s, s', t, p);
    PointMoveKeeps(s, s', t, p);
  }

  lemma AttachNextKeeps(s: State, t: Id)
    requires Inv(s) && CanAttach(s, t)
    ensures Inv(AttachNext(s, t)) && Grows(s, AttachNext(s, t))
  {
    hide Inv, Grows, Locks, Marks, Placed, FenceOk, LocksMove;
    var s' := AttachNext(s, t);
    var f := ThreadOf(s, t).fence;
    var p := s.fences[f].points[ThreadOf(s, t).next];
    InvMarks(s);
    InvThread(s, t);
    InvFence(s, f);
    OwnPoints(s, f);
    AttachMarks(s, t);
    assert PointMoves(s, s', t, p);
    PointMoveLocks(s, s', t, p);
    PointMoveKeeps(s, s', t, p);
  }

  lemma DetachNextKeeps(s: State, t: Id)
    requires Inv(s) && CanDetach(s, t)
    ensures Inv(DetachNext(s, t)) && Grows(s, DetachNext(s, t))
  {
    hide Inv, Grows, Locks, Marks, Placed, FenceOk, LocksMove;
    var s' := DetachNext(s, t);
    var f := ThreadOf(s, t).fence;
    var p := s.fences[f].points[ThreadOf(s, t).next];
    InvLocks(s, t);
    InvMarks(s);
    InvThread(s, t);
    InvFence(s, f);
    OwnPoints(s, f);
    DetachMarks(s, t);
    assert PointMoves(s, s', t, p);
    PointMoveLocks(s, s', t, p);
    PointMoveKeeps(s, s', t, p);
  }

  lemma OwnPoints(s: State, f: Id)
    requires FenceOk(s, f)
    ensures HasFence(s, f)
    ensures forall i :: 0 <= i < |s.fences[f].points| ==> s.points[s.fences[f].points[i]].fence == f
    ensures forall i, j :: 0 <= i < j < |s.fences[f].points| ==> s.fences[f].points[i] != s.fences[f].points[j]
  {
  }

  // ----- Steps that make a fence

  /** Old points, fences, and counters are as they were; new points are not attached, or are and need no marking. */
  ghost predicate OnlyNew(s: State, s': State, t: Id) {
    && OnlyThread(s, s', t)
    && (forall p :: p in s.points ==> p in s'.points && s'.points[p] == s.points[p])
    && (forall f :: f in s.fences ==> f in s'.fences && s'.fences[f] == s.fences[f])
    && s'.timelines.Keys == s.timelines.Keys
    && (forall tl :: tl in s.timelines ==> s'.timelines[tl].counter == s.timelines[tl].counter)
    && (forall tl :: tl in s.timelines ==>
          s'.timelines[tl].holder == s.timelines[tl].holder || s.timelines[tl].holder == None)
    && Todo(ThreadOf(s, t)) == [] && Todo(ThreadOf(s', t)) == []
  }

  lemma NewTodo(s: State, s': State, t: Id, u: Id)
    requires Placed(s) && Placed(s') && OnlyNew(s, s', t) && TodoOk(s, u)
    ensures TodoOk(s', u)
  {
  }

  lemma NewMarks(s: State, s': State, t: Id)
    requires Placed(s) && Marks(s) && OnlyNew(s, s', t)
    requires forall p :: p in s'.points && p !in s.points ==>
      && s'.points[p].fence in s'.fences && s'.points[p].timeline in s'.timelines
      && p in s'.fences[s'.points[p].fence].points
      && (s'.points[p].signaled ==> Reached(s', p))
      && (s'.points[p].attached && Reached(s', p) ==> s'.points[p].signaled)
    ensures Placed(s') && Marks(s')
  {
    hide TodoOk;
    forall u ensures TodoOk(s', u) {
      assert TodoOk(s, u);
      NewTodo(s, s', t, u);
    }
    forall q | q in s'.points && s'.points[q].attached && Reached(s', q) && !s'.points[q].signaled
      ensures BeingMarked(s', s'.points[q].timeline, q)
    {
      assert Reached(s, q) && BeingMarked(s, s.points[q].timeline, q);
    }
  }

  lemma NewKeeps(s: State, s': State, t: Id, f: Id)
    requires Inv(s) && OnlyNew(s, s', t) && LocksMove(s, s', t) && Placed(s') && Marks(s')
    requires ThreadOf(s, t).Idle? || ThreadOf(s, t).Merging?
    requires s'.fences.Keys == s.fences.Keys + {f} && FenceOk(s', f) && ThreadOk(s', t)
    ensures Inv(s') && Grows(s, s')
  {
    hide Inv, Grows, FenceOk, Marks, Placed, LocksMove, ThreadOk, Harmless;
    NewGrows(s, s', t);
    forall g | g in s.fences && HasFence(s, g) ensures HasFence(s', g) && Harmless(s, s', t, g) {
      InvFence(s, g);
      NewHarmless(s, s', t, g);
    }
    StepKeeps(s, s', t);
  }

  lemma NewGrows(s: State, s': State, t: Id)
    requires OnlyNew(s, s', t)
    ensures Grows(s, s')
  {
  }

  lemma NewHarmless(s: State, s': State, t: Id, f: Id)
    requires OnlyNew(s, s', t) && FenceOk(s, f) && !Obliged(ThreadOf(s, t), f)
    ensures HasFence(s', f) && Harmless(s, s', t, f)
  {
    assert AllSignaled(s', f) <==> AllSignaled(s, f);
  }

  lemma CreatedFence(s: State, t: Id, tl: Id, time: nat, f: Id, p: Id)
    requires CanCreate(s, t, tl, time, f, p)
    ensures FenceOk(Create(s, t, tl, time, f, p), f) && ThreadOk(Create(s, t, tl, time, f, p), t)
  {
    assert Obliged(ThreadOf(Create(s, t, tl, time, f, p), t), f);
    assert Pin(Create(s, t, tl, time, f, p), f, tl, p);
  }

  lemma CreateLocks(s: State, t: Id, tl: Id, time: nat, f: Id, p: Id)
    requires CanCreate(s, t, tl, time, f, p)
    ensures LocksMove(s, Create(s, t, tl, time, f, p), t)
  {
  }

  lemma CreateIsNew(s: State, t: Id, tl: Id, time: nat, f: Id, p: Id)
    requires CanCreate(s, t, tl, time, f, p)
    ensures OnlyNew(s, Create(s, t, tl, time, f, p), t)
  {
  }

  lemma CreateKeeps(s: State, t: Id, tl: Id, time: nat, f: Id, p: Id)
    requires Inv(s) && CanCreate(s, t, tl, time, f, p)
    ensures Inv(Create(s, t, tl, time, f, p)) && Grows(s, Create(s, t, tl, time, f, p))
  {
    hide Inv, Grows, Locks, FenceOk, Marks, ThreadOk, LocksMove;
    var s' := Create(s, t, tl, time, f, p);
    InvMarks(s);
    CreateLocks(s, t, tl, time, f, p);
    CreateIsNew(s, t, tl, time, f, p);
    NewMarks(s, s', t);
    CreatedFence(s, t, tl, time, f, p);
    hide OnlyNew, Placed;
    NewKeeps(s, s', t, f);
  }

  lemma MadeFence(s: State, t: Id, f: Id, ids: seq<Id>, made: map<Id, Point>)
    requires CanMake(s, t, f, ids, made) && ThreadOk(s, t)
    ensures FenceOk(Make(s, t, f, ids, made), f) && ThreadOk(Make(s, t, f, ids, made), t)
  {
    var s' := Make(s, t, f, ids, made);
    var th := ThreadOf(s, t);
    var sources := s.fences[th.a].points + s.fences[th.b].points;
    assert Obliged(ThreadOf(s', t), f);
    forall i | 0 <= i < |ids| ensures SameMoment(s'.points[ids[i]], s.points[th.chosen[i]]) {
      assert CopyOk(s, th.copies[i], th.chosen[i]);
    }
    MadeDominates(s.points, s'.points, th.chosen, ids, sources);
  }

  lemma MadeDominates(points: map<Id, Point>, points': map<Id, Point>, chosen: seq<Id>, ids: seq<Id>, sources: seq<Id>)
    requires Dominate(points, chosen, sources) && Apart(points, chosen) && |ids| == |chosen|
    requires forall p :: p in points ==> p in points' && points'[p] == points[p]
    requires AllIn(points', ids) && forall i :: 0 <= i < |ids| ==> SameMoment(points'[ids[i]], points[chosen[i]])
    ensures Dominate(points', ids, sources) && Apart(points', ids)
  {
    forall i | 0 <= i < |ids| ensures HasMoment(points', sources, points'[ids[i]]) {
      assert HasMoment(points, sources, points[chosen[i]]);
    }
    forall i | 0 <= i < |sources| ensures HasLater(points', ids, points'[sources[i]]) {
      assert HasLater(points, chosen, points[sources[i]]);
    }
  }

  lemma MakeLocks(s: State, t: Id, f: Id, ids: seq<Id>, made: map<Id, Point>)
    requires CanMake(s, t, f, ids, made)
    ensures LocksMove(s, Make(s, t, f, ids, made), t)
  {
  }

  lemma MakeIsNew(s: State, t: Id, f: Id, ids: seq<Id>, made: map<Id, Point>)
    requires CanMake(s, t, f, ids, made)
    ensures OnlyNew(s, Make(s, t, f, ids, made), t)
  {
  }

  lemma MadePoint(s: State, t: Id, f: Id, ids: seq<Id>, made: map<Id, Point>, p: Id)
    requires CanMake(s, t, f, ids, made) && ThreadOk(s, t) && p in made
    ensures made[p].timeline in s.timelines && made[p].fence == f && !made[p].attached
    ensures made[p].signaled ==> made[p].time <= s.timelines[made[p].timeline].counter
  {
    var i :| 0 <= i < |ids| && ids[i] == p;
    assert CopyOk(s, ThreadOf(s, t).copies[i], ThreadOf(s, t).chosen[i]);
  }

  lemma MakeMarks(s: State, t: Id, f: Id, ids: seq<Id>, made: map<Id, Point>)
    requires Placed(s) && Marks(s) && CanMake(s, t, f, ids, made) && ThreadOk(s, t)
    ensures Placed(Make(s, t, f, ids, made)) && Marks(Make(s, t, f, ids, made))
  {
    hide Marks, ThreadOk, LocksMove;
    var s' := Make(s, t, f, ids, made);
    MakeIsNew(s, t, f, ids, made);
    forall p | p in s'.points && p !in s.points
      ensures s'.points[p].timeline in s'.timelines && s'.points[p].fence == f && !s'.points[p].attached
      ensures s'.points[p].signaled ==> Reached(s', p)
    {
      MadePoint(s, t, f, ids, made, p);
    }
    NewMarks(s, s', t);
  }

  lemma MakeKeeps(s: State, t: Id, f: Id, ids: seq<Id>, made: map<Id, Point>)
    requires Inv(s) && CanMake(s, t, f, ids, made)
    ensures Inv(Make(s, t, f, ids, made)) && Grows(s, Make(s, t, f, ids, made))
  {
    hide Inv, Grows, Locks, FenceOk, Marks, ThreadOk, LocksMove, OnlyNew, Placed;
    InvMarks(s);
    InvThread(s, t);
    MakeLocks(s, t, f, ids, made);
    MakeIsNew(s, t, f, ids, made);
    MakeMarks(s, t, f, ids, made);
    MadeFence(s, t, f, ids, made);
    NewKeeps(s, Make(s, t, f, ids, made), t, f);
  }

  // ----- Every step, and every run

  lemma TimelineStepKeeps(s: State, t: Id, s': State)
    requires Inv(s) && TimelineStep(s, t, s')
    ensures Inv(s') && Grows(s, s')
  {
    hide Inv, Grows;
    if tl, amount, todo :| CanIncrement(s, t, tl, amount, todo) && s' == Increment(s, t, tl, amount, todo) {
      IncrementKeeps(s, t, tl, amount, todo);
    } else if CanMark(s, t) && s' == MarkNext(s, t) {
      MarkNextKeeps(s, t);
    } else if CanUnlock(s, t) && s' == Unlock(s, t) {
      UnlockKeeps(s, t);
    } else {
      var tl, time, f, p :| CanCreate(s, t, tl, time, f, p) && s' == Create(s, t, tl, time, f, p);
      CreateKeeps(s, t, tl, time, f, p);
    }
  }

  lemma SignalStepKeeps(s: State, t: Id, s': State)
    requires Inv(s) && SignalStep(s, t, s')
    ensures Inv(s') && Grows(s, s')
  {
    hide Inv, Grows;
    if CanEnter(s, t) && s' == Enter(s, t) {
      EnterKeeps(s, t);
    } else if CanCount(s, t) && s' == CountNext(s, t) {
      CountNextKeeps(s, t);
    } else {
      LeaveKeeps(s, t);
    }
  }

  lemma MergeStepKeeps(s: State, t: Id, s': State)
    requires Inv(s) && MergeStep(s, t, s')
    ensures Inv(s') && Grows(s, s')
  {
    hide Inv, Grows;
    if a, b, chosen :| CanMerge(s, t, a, b, chosen) && s' == BeginMerge(s, t, a, b, chosen) {
      BeginMergeKeeps(s, t, a, b, chosen);
    } else if CanCopy(s, t) && s' == CopyNext(s, t) {
      CopyNextKeeps(s, t);
    } else if f, ids, made :| CanMake(s, t, f, ids, made) && s' == Make(s, t, f, ids, made) {
      MakeKeeps(s, t, f, ids, made);
    } else if CanAttach(s, t) && s' == AttachNext(s, t) {
      AttachNextKeeps(s, t);
    } else {
      FinishKeeps(s, t);
    }
  }

  lemma UserStepKeeps(s: State, t: Id, s': State)
    requires Inv(s) && UserStep(s, t, s')
    ensures Inv(s') && Grows(s, s')
  {
    hide Inv, Grows;
    if f :| CanWait(s, t, f) && s' == Wait(s, t, f) {
      WaitKeeps(s, t, f);
    } else if CanWake(s, t) && s' == Wake(s, t) {
      WakeKeeps(s, t);
    } else if f :| CanClose(s, t, f) && s' == Close(s, t, f) {
      CloseKeeps(s, t, f);
    } else if CanDetach(s, t) && s' == DetachNext(s, t) {
      DetachNextKeeps(s, t);
    } else {
      VanishKeeps(s, t);
    }
  }

  /** Every step keeps the invariant. */
  lemma NextKeeps(s: State, t: Id, s': State)
    requires Inv(s) && Next(s, t, s')
    ensures Inv(s') && Grows(s, s')
  {
    hide Inv, Grows, TimelineStep, SignalStep, MergeStep, UserStep;
    if TimelineStep(s, t, s') {
      TimelineStepKeeps(s, t, s');
    } else if SignalStep(s, t, s') {
      SignalStepKeeps(s, t, s');
    } else if MergeStep(s, t, s') {
      MergeStepKeeps(s, t, s');
    } else {
      UserStepKeeps(s, t, s');
    }
  }

  /** So every state of every run satisfies it. */
  lemma {:induction false} RunKeeps(run: seq<State>, who: seq<Id>, n: nat)
    requires IsRun(run, who) && n < |run|
    ensures Inv(run[n])
  {
    hide Inv, Grows, Next, Initial;
    if n == 0 {
      InitialInv(run[0]);
    } else {
      RunKeeps(run, who, n - 1);
      NextKeeps(run[n - 1], who[n - 1], run[n]);
    }
  }

  lemma InitialInv(s: State)
    requires Initial(s)
    ensures Inv(s)
  {
    assert forall t :: ThreadOf(s, t) == Idle;
  }
}
