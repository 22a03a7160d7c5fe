/** What holds in every run of the fence protocol. */
module FenceTheorems {
  import opened Basics
  import opened Fences
  import opened FenceInvariant
  import opened FenceSteps

  /** No signal is lost: unless some thread is about to look at the fence, has found every point of it signaled so
      far, or still builds it, the fence is signaled exactly when all its points are. */
  lemma NoLostSignal(run: seq<State>, who: seq<Id>, n: nat, f: Id)
    requires IsRun(run, who) && n < |run| && f in run[n].fences
    requires forall t :: !Obliged(ThreadOf(run[n], t), f)
    ensures HasFence(run[n], f)
    ensures run[n].fences[f].status == Signaled <==> AllSignaled(run[n], f)
  {
    RunKeeps(run, who, n);
    SignaledWhenIdle(run[n], f);
  }

  /** Even while threads are at work, a fence is only signaled when all its points are, and then nobody sleeps on it. */
  lemma SignaledIsSound(run: seq<State>, who: seq<Id>, n: nat, f: Id)
    requires IsRun(run, who) && n < |run| && f in run[n].fences && run[n].fences[f].status == Signaled
    ensures HasFence(run[n], f) && AllSignaled(run[n], f) && run[n].fences[f].sleepers == {}
  {
    RunKeeps(run, who, n);
    assert FenceOk(run[n], f);
  }

  lemma GrowsSelf(s: State)
    ensures Grows(s, s)
  {
  }

  lemma GrowsTrans(a: State, b: State, c: State)
    requires Grows(a, b) && Grows(b, c)
    ensures Grows(a, c)
  {
    forall f | f in a.fences ensures f in b.fences && f in c.fences {
    }
    forall p | p in a.points && !a.points[p].attached && c.points[p].attached && a.points[p].fence in a.fences
      ensures a.fences[a.points[p].fence].stage.Building?
    {
      if !b.points[p].attached {
        assert b.points[p].fence in b.fences;
      }
    }
  }

  /** Signals are final: a signaled point or fence stays signaled, and a counter never goes back. */
  lemma {:induction false} SignalsStay(run: seq<State>, who: seq<Id>, n: nat, k: nat)
    requires IsRun(run, who) && n <= k < |run|
    ensures Grows(run[n], run[k])
    decreases k
  {
    hide Next, Inv, Grows;
    if n == k {
      GrowsSelf(run[n]);
    } else {
      SignalsStay(run, who, n, k - 1);
      RunKeeps(run, who, k - 1);
      NextKeeps(run[k - 1], who[k - 1], run[k]);
      GrowsTrans(run[n], run[k - 1], run[k]);
    }
  }

  /** While the lock of a timeline is free, its attached points are signaled exactly up to the counter. */
  lemma FreeTimelineIsExact(run: seq<State>, who: seq<Id>, n: nat, p: Id)
    requires IsRun(run, who) && n < |run| && p in run[n].points && run[n].points[p].attached
    requires Free(run[n], run[n].points[p].timeline)
    ensures run[n].points[p].signaled <==> Reached(run[n], p)
  {
    RunKeeps(run, who, n);
    assert Marks(run[n]);
  }

  /** The assertions hold: a point is marked once, and detached where it was attached; a fence has one point on a
      timeline at most. */
  lemma AssertionsHold(run: seq<State>, who: seq<Id>, n: nat, t: Id)
    requires IsRun(run, who) && n < |run|
    ensures CanMark(run[n], t) ==> !run[n].points[ThreadOf(run[n], t).todo[0]].signaled
    ensures CanDetach(run[n], t) ==>
      run[n].points[run[n].fences[ThreadOf(run[n], t).fence].points[ThreadOf(run[n], t).next]].attached
    ensures forall f :: f in run[n].fences ==> HasFence(run[n], f) && Apart(run[n].points, run[n].fences[f].points)
  {
    hide Inv, IsRun, FenceOk;
    var s := run[n];
    RunKeeps(run, who, n);
    InvMarks(s);
    InvThread(s, t);
    assert TodoOk(s, t);
    forall f | f in s.fences ensures HasFence(s, f) && Apart(s.points, s.fences[f].points) {
      InvFence(s, f);
      OkApart(s, f);
    }
  }

  /** A fence is not released before its points are detached: while an increment of a timeline looks at a fence, a point
      of the fence is attached to that timeline, and the fence's destructor has not come to its end, now or before. */
  lemma CallerKeepsFence(run: seq<State>, who: seq<Id>, n: nat, t: Id, k: nat, u: Id)
    requires IsRun(run, who) && k <= n < |run|
    requires ThreadOf(run[n], t).Calling? || ThreadOf(run[n], t).Counting?
    requires ThreadOf(run[n], t).ret.ToIncrement?
    ensures Pinned(run[n], ThreadOf(run[n], t).fence, ThreadOf(run[n], t).ret.timeline)
    ensures CanVanish(run[k], u) ==> ThreadOf(run[k], u).fence != ThreadOf(run[n], t).fence
  {
    hide IsRun, Inv;
    RunKeeps(run, who, n);
    InvThread(run[n], t);
    var f, tl := ThreadOf(run[n], t).fence, ThreadOf(run[n], t).ret.timeline;
    if CanVanish(run[k], u) && ThreadOf(run[k], u).fence == f {
      var p :| Pin(run[n], f, tl, p);
      RunKeeps(run, who, k);
      SignalsStay(run, who, k, n);
      Vanishing(run[k], u, p);
    }
  }

  /** A fence that is about to vanish has no attached point, and gets none. */
  lemma Vanishing(s: State, u: Id, p: Id)
    requires Inv(s) && CanVanish(s, u) && p in s.fences[ThreadOf(s, u).fence].points
    ensures p in s.points && !s.points[p].attached && s.points[p].fence == ThreadOf(s, u).fence
    ensures s.fences[ThreadOf(s, u).fence].stage.Dying?
  {
    hide Inv;
    InvThread(s, u);
    InvFence(s, ThreadOf(s, u).fence);
  }

  /** A wait returns only from a fence all of whose points are signaled, and a waiter that does not sleep can return. */
  lemma WaitReturns(run: seq<State>, who: seq<Id>, n: nat, t: Id, f: Id)
    requires IsRun(run, who) && n + 1 < |run| && ThreadOf(run[n], t) == Waiting(f)
    ensures HasFence(run[n], f)
    ensures ThreadOf(run[n + 1], t) != Waiting(f) ==> AllSignaled(run[n], f)
    ensures t !in run[n].fences[f].sleepers ==> run[n].fences[f].status == Signaled
  {
    RunKeeps(run, who, n);
    InvThread(run[n], t);
    InvFence(run[n], f);
    assert Next(run[n], who[n], run[n + 1]);
    hide Inv, IsRun;
    if ThreadOf(run[n + 1], t) != Waiting(f) {
      OnlyMover(run[n], who[n], run[n + 1], t, f);
    }
  }

  /** Nothing but waking up in a signaled fence ends a wait. */
  lemma OnlyMover(s: State, u: Id, s': State, t: Id, f: Id)
    requires Next(s, u, s') && ThreadOf(s, t) == Waiting(f) && ThreadOf(s', t) != Waiting(f)
    ensures f in s.fences && s.fences[f].status == Signaled
  {
    hide TimelineStep, SignalStep, MergeStep, UserStep;
    if TimelineStep(s, u, s') {
      TimelineStepStays(s, u, s', t, f);
    } else if SignalStep(s, u, s') {
      SignalStepStays(s, u, s', t, f);
    } else if MergeStep(s, u, s') {
      MergeStepStays(s, u, s', t, f);
    } else {
      UserStepStays(s, u, s', t, f);
    }
  }

  lemma TimelineStepStays(s: State, u: Id, s': State, t: Id, f: Id)
    requires TimelineStep(s, u, s') && ThreadOf(s, t) == Waiting(f)
    ensures ThreadOf(s', t) == Waiting(f)
  {
    hide Due;
  }

  lemma SignalStepStays(s: State, u: Id, s': State, t: Id, f: Id)
    requires SignalStep(s, u, s') && ThreadOf(s, t) == Waiting(f)
    ensures ThreadOf(s', t) == Waiting(f)
  {
  }

  lemma MergeStepStays(s: State, u: Id, s': State, t: Id, f: Id)
    requires MergeStep(s, u, s') && ThreadOf(s, t) == Waiting(f)
    ensures ThreadOf(s', t) == Waiting(f)
  {
    hide Lists, Later, ByTimeline;
  }

  lemma UserStepStays(s: State, u: Id, s': State, t: Id, f: Id)
    requires UserStep(s, u, s') && ThreadOf(s, t) == Waiting(f)
    ensures ThreadOf(s', t) == Waiting(f) || (f in s.fences && s.fences[f].status == Signaled)
  {
  }

  // ----- Merging is conjunction

  /** The counters have got to every point of the list. */
  ghost predicate AllReached(s: State, ids: seq<Id>)
    requires Placed(s) && AllIn(s.points, ids)
  {
    forall i :: 0 <= i < |ids| ==> Reached(s, ids[i])
  }

  lemma DominatingReached(s: State, ids: seq<Id>, sources: seq<Id>)
    requires Placed(s) && Dominate(s.points, ids, sources)
    ensures AllReached(s, ids) <==> AllReached(s, sources)
  {
    if AllReached(s, ids) {
      forall i | 0 <= i < |sources| ensures Reached(s, sources[i]) {
        assert HasLater(s.points, ids, s.points[sources[i]]);
      }
    }
    if AllReached(s, sources) {
      forall i | 0 <= i < |ids| ensures Reached(s, ids[i]) {
        assert HasMoment(s.points, sources, s.points[ids[i]]);
      }
    }
  }

  /** The points of a live fence can be read without interference: no timeline of it is locked. */
  ghost predicate Settled(s: State, f: Id) {
    && HasFence(s, f) && s.fences[f].stage == Live
    && forall i :: 0 <= i < |s.fences[f].points| ==> Free(s, s.points[s.fences[f].points[i]].timeline)
  }

  lemma SettledReached(s: State, f: Id)
    requires Inv(s) && Settled(s, f)
    ensures AllSignaled(s, f) <==> AllReached(s, s.fences[f].points)
  {
    assert FenceOk(s, f);
    forall i | 0 <= i < |s.fences[f].points|
      ensures s.points[s.fences[f].points[i]].signaled <==> Reached(s, s.fences[f].points[i])
    {
      var p := s.fences[f].points[i];
      assert s.points[p].attached;
    }
  }

  /** A merged fence has, whatever happened between copying a point and attaching it, all its points signaled exactly
      when both fences it was made from have. */
  lemma MergeIsConjunction(run: seq<State>, who: seq<Id>, n: nat, f: Id, a: Id, b: Id)
    requires IsRun(run, who) && n < |run| && f in run[n].fences && run[n].fences[f].sources == Some((a, b))
    requires Settled(run[n], f) && Settled(run[n], a) && Settled(run[n], b)
    ensures AllSignaled(run[n], f) <==> AllSignaled(run[n], a) && AllSignaled(run[n], b)
    ensures (forall t, g :: g in {a, b, f} ==> !Obliged(ThreadOf(run[n], t), g)) ==>
      (run[n].fences[f].status == Signaled <==>
       run[n].fences[a].status == Signaled && run[n].fences[b].status == Signaled)
  {
    var s := run[n];
    RunKeeps(run, who, n);
    hide IsRun, Inv;
    MergedSignaled(s, f, a, b);
    if forall t, g :: g in {a, b, f} ==> !Obliged(ThreadOf(s, t), g) {
      SignaledWhenIdle(s, f);
      SignaledWhenIdle(s, a);
      SignaledWhenIdle(s, b);
    }
  }

  /** A merged fence outlives the fences it was made from: it has all its points signaled exactly when the counters
      have got to all their points, whether they are still there or closed. */
  lemma MergeOutlivesSources(run: seq<State>, who: seq<Id>, n: nat, f: Id, a: Id, b: Id)
    requires IsRun(run, who) && n < |run| && f in run[n].fences && run[n].fences[f].sources == Some((a, b))
    requires Settled(run[n], f)
    ensures Placed(run[n]) && HasFence(run[n], a) && HasFence(run[n], b)
    ensures AllSignaled(run[n], f) <==>
      AllReached(run[n], run[n].fences[a].points) && AllReached(run[n], run[n].fences[b].points)
  {
    var s := run[n];
    RunKeeps(run, who, n);
    hide IsRun, Inv;
    MergedReached(s, f, a, b);
  }

  lemma SignaledWhenIdle(s: State, f: Id)
    requires Inv(s) && f in s.fences && forall t :: !Obliged(ThreadOf(s, t), f)
    ensures HasFence(s, f) && (s.fences[f].status == Signaled <==> AllSignaled(s, f))
  {
    assert FenceOk(s, f);
  }

  lemma MergedReached(s: State, f: Id, a: Id, b: Id)
    requires Inv(s) && f in s.fences && s.fences[f].sources == Some((a, b)) && Settled(s, f)
    ensures Placed(s) && HasFence(s, a) && HasFence(s, b)
    ensures AllSignaled(s, f) <==> AllReached(s, s.fences[a].points) && AllReached(s, s.fences[b].points)
  {
    hide Settled, AllSignaled, Dominate, Inv;
    InvMarks(s);
    InvFence(s, f);
    InvFence(s, a);
    InvFence(s, b);
    SettledReached(s, f);
    DominatingReached(s, s.fences[f].points, s.fences[a].points + s.fences[b].points);
    ReachedBoth(s, s.fences[a].points, s.fences[b].points);
  }

  lemma MergedSignaled(s: State, f: Id, a: Id, b: Id)
    requires Inv(s) && f in s.fences && s.fences[f].sources == Some((a, b))
    requires Settled(s, f) && Settled(s, a) && Settled(s, b)
    ensures AllSignaled(s, f) <==> AllSignaled(s, a) && AllSignaled(s, b)
  {
    hide Settled, AllSignaled, AllReached, Inv;
    MergedReached(s, f, a, b);
    SettledReached(s, a);
    SettledReached(s, b);
  }

  lemma ReachedBoth(s: State, a: seq<Id>, b: seq<Id>)
    requires Placed(s) && AllIn(s.points, a) && AllIn(s.points, b)
    ensures AllIn(s.points, a + b)
    ensures AllReached(s, a + b) <==> AllReached(s, a) && AllReached(s, b)
  {
    forall i | 0 <= i < |a| ensures (a + b)[i] == a[i] {
    }
    forall i | 0 <= i < |b| ensures (a + b)[|a| + i] == b[i] {
    }
  }
}
