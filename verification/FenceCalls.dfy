/** What the callers of timelines and fences get: each theorem follows one call from its step on, through any
    interleaving. */
module FenceCalls {
  import opened Basics
  import opened Fences
  import opened FenceInvariant
  import opened FenceSteps
  import opened FenceTheorems

  // ----- A thread only moves itself

  lemma TimelineStepIsOwn(s: State, u: Id, s': State)
    requires TimelineStep(s, u, s')
    ensures OnlyThread(s, s', u)
  {
    hide Due;
  }

  lemma NextIsOwn(s: State, u: Id, s': State)
    requires Next(s, u, s')
    ensures OnlyThread(s, s', u)
  {
    hide TimelineStep, SignalStep, MergeStep, UserStep;
    if TimelineStep(s, u, s') {
      TimelineStepIsOwn(s, u, s');
    } else if SignalStep(s, u, s') {
      SignalStepIsOwn(s, u, s');
    } else if MergeStep(s, u, s') {
      MergeStepIsOwn(s, u, s');
    } else {
      UserStepIsOwn(s, u, s');
    }
  }

  lemma SignalStepIsOwn(s: State, u: Id, s': State)
    requires SignalStep(s, u, s')
    ensures OnlyThread(s, s', u)
  {
  }

  lemma MergeStepIsOwn(s: State, u: Id, s': State)
    requires MergeStep(s, u, s')
    ensures OnlyThread(s, s', u)
  {
    hide Lists, Later, ByTimeline;
  }

  lemma UserStepIsOwn(s: State, u: Id, s': State)
    requires UserStep(s, u, s')
    ensures OnlyThread(s, s', u)
  {
    hide HasFence, NextFree;
    forall v | v != u ensures ThreadOf(s', v) == ThreadOf(s, v) {
    }
  }

  // ----- CreateFence

  /** A fence made on a timeline for a time: it is signaled only once the counter has got to that very time, and is
      then, as soon as nobody is at work on it. */
  lemma CreatedFenceWaits(run: seq<State>, who: seq<Id>, k: nat, n: nat, tl: Id, time: nat, f: Id, p: Id)
    requires IsRun(run, who) && k < n < |run| && CanCreate(run[k], who[k], tl, time, f, p)
    requires run[k + 1] == Create(run[k], who[k], tl, time, f, p)
    ensures f in run[n].fences && tl in run[n].timelines
    ensures run[n].fences[f].status == Signaled ==> time <= run[n].timelines[tl].counter
    ensures Settled(run[n], f) && (forall t :: !Obliged(ThreadOf(run[n], t), f)) ==>
      (run[n].fences[f].status == Signaled <==> time <= run[n].timelines[tl].counter)
  {
    hide Next, Inv, Settled;
    SignalsStay(run, who, k + 1, n);
    RunKeeps(run, who, n);
    CreatedPoint(run[k], run[n], who[k], tl, time, f, p);
    SinglePoint(run[n], f, p);
  }

  lemma CreatedPoint(s: State, s': State, t: Id, tl: Id, time: nat, f: Id, p: Id)
    requires CanCreate(s, t, tl, time, f, p) && Grows(Create(s, t, tl, time, f, p), s')
    ensures f in s'.fences && s'.fences[f].points == [p] && tl in s'.timelines
    ensures p in s'.points && s'.points[p].timeline == tl && s'.points[p].time == time
  {
  }

  lemma SinglePoint(s: State, f: Id, p: Id)
    requires Inv(s) && f in s.fences && s.fences[f].points == [p] && p in s.points
    ensures Placed(s)
    ensures s.fences[f].status == Signaled ==> Reached(s, p)
    ensures Settled(s, f) && (forall t :: !Obliged(ThreadOf(s, t), f)) ==>
      (s.fences[f].status == Signaled <==> Reached(s, p))
  {
    hide Inv, Settled;
    InvMarks(s);
    InvFence(s, f);
    assert s.fences[f].points[0] == p;
    if Settled(s, f) && forall t :: !Obliged(ThreadOf(s, t), f) {
      SignaledWhenIdle(s, f);
      SettledReached(s, f);
    }
  }

  // ----- IncrementCounter

  /** An increment moves the counter by the amount asked for. Whenever the timeline is free again, all its attached
      points up to there are signaled. */
  lemma IncrementSignals(run: seq<State>, who: seq<Id>, k: nat, n: nat, tl: Id, amount: nat, todo: seq<Id>, p: Id)
    requires IsRun(run, who) && k < n < |run| && CanIncrement(run[k], who[k], tl, amount, todo)
    requires run[k + 1] == Increment(run[k], who[k], tl, amount, todo)
    ensures tl in run[n].timelines && run[k + 1].timelines[tl].counter == run[k].timelines[tl].counter + amount
    ensures run[k].timelines[tl].counter + amount <= run[n].timelines[tl].counter
    ensures Free(run[n], tl) && p in run[n].points && run[n].points[p].attached && run[n].points[p].timeline == tl ==>
      (run[n].points[p].time <= run[k].timelines[tl].counter + amount ==> run[n].points[p].signaled)
  {
    hide Next, Due;
    SignalsStay(run, who, k + 1, n);
    if Free(run[n], tl) && p in run[n].points && run[n].points[p].attached && run[n].points[p].timeline == tl {
      FreeTimelineIsExact(run, who, n, p);
    }
  }

  lemma TimelineStepCounters(s: State, u: Id, s': State, tl: Id)
    requires TimelineStep(s, u, s') && tl in s.timelines && s.timelines[tl].counter < 0xFFFF_FFFF
    ensures tl in s'.timelines && s'.timelines[tl].counter < 0xFFFF_FFFF
  {
    hide Due;
  }

  lemma SignalStepCounters(s: State, u: Id, s': State)
    requires SignalStep(s, u, s')
    ensures s'.timelines == s.timelines
  {
  }

  lemma MergeStepCounters(s: State, u: Id, s': State)
    requires MergeStep(s, u, s')
    ensures s'.timelines == s.timelines
  {
    hide Lists, Later, ByTimeline;
  }

  lemma UserStepCounters(s: State, u: Id, s': State)
    requires UserStep(s, u, s')
    ensures s'.timelines == s.timelines
  {
  }

  /** Counters start at zero and do not overflow. */
  lemma {:induction false} CountersBounded(run: seq<State>, who: seq<Id>, n: nat, tl: Id)
    requires IsRun(run, who) && n < |run| && tl in run[0].timelines
    ensures run[0].timelines[tl].counter == 0
    ensures tl in run[n].timelines && run[n].timelines[tl].counter < 0xFFFF_FFFF
    decreases n
  {
    hide TimelineStep, SignalStep, MergeStep, UserStep;
    if n > 0 {
      CountersBounded(run, who, n - 1, tl);
      assert Next(run[n - 1], who[n - 1], run[n]);
      if TimelineStep(run[n - 1], who[n - 1], run[n]) {
        TimelineStepCounters(run[n - 1], who[n - 1], run[n], tl);
      } else if SignalStep(run[n - 1], who[n - 1], run[n]) {
        SignalStepCounters(run[n - 1], who[n - 1], run[n]);
      } else if MergeStep(run[n - 1], who[n - 1], run[n]) {
        MergeStepCounters(run[n - 1], who[n - 1], run[n]);
      } else {
        UserStepCounters(run[n - 1], who[n - 1], run[n]);
      }
    }
  }

  // ----- SYNC_IOC_WAIT

  /** A wait for a fence that is not signaled puts the thread to sleep; otherwise it returns at once. */
  lemma WaitSleeps(run: seq<State>, who: seq<Id>, k: nat, f: Id)
    requires IsRun(run, who) && k + 1 < |run| && CanWait(run[k], who[k], f)
    requires run[k + 1] == Wait(run[k], who[k], f)
    ensures HasFence(run[k], f) && f in run[k + 1].fences
    ensures ThreadOf(run[k + 1], who[k]) == Idle <==> run[k].fences[f].status == Signaled
    ensures run[k].fences[f].status == Signaled ==> AllSignaled(run[k], f)
    ensures run[k].fences[f].status == Active ==>
      ThreadOf(run[k + 1], who[k]) == Waiting(f) && who[k] in run[k + 1].fences[f].sleepers
  {
    hide Next, Inv;
    RunKeeps(run, who, k);
    InvFence(run[k], f);
  }

  lemma SignaledStays(s: State, s': State, f: Id)
    requires HasFence(s, f) && AllSignaled(s, f) && Grows(s, s')
    ensures HasFence(s', f) && AllSignaled(s', f)
  {
  }

  /** From its start on, a wait lasts until all points of the fence are signaled. */
  lemma {:induction false} WaitLasts(run: seq<State>, who: seq<Id>, k: nat, n: nat, f: Id)
    requires IsRun(run, who) && k < n < |run| && CanWait(run[k], who[k], f)
    requires run[k + 1] == Wait(run[k], who[k], f)
    ensures HasFence(run[n], f)
    ensures ThreadOf(run[n], who[k]) == Waiting(f) || AllSignaled(run[n], f)
    decreases n
  {
    hide Next, AllSignaled, HasFence;
    if n == k + 1 {
      WaitSleeps(run, who, k, f);
      SignalsStay(run, who, k, n);
      FenceStays(run[k], run[n], f);
      if run[k].fences[f].status == Signaled {
        SignaledStays(run[k], run[n], f);
      }
    } else {
      WaitLasts(run, who, k, n - 1, f);
      SignalsStay(run, who, n - 1, n);
      FenceStays(run[n - 1], run[n], f);
      if ThreadOf(run[n - 1], who[k]) == Waiting(f) {
        WaitReturns(run, who, n - 1, who[k], f);
      }
      if AllSignaled(run[n - 1], f) {
        SignaledStays(run[n - 1], run[n], f);
      }
    }
  }

  lemma FenceStays(s: State, s': State, f: Id)
    requires HasFence(s, f) && Grows(s, s')
    ensures HasFence(s', f)
  {
  }

  // ----- SYNC_IOC_MERGE

  lemma MergerStays(s: State, u: Id, s': State, t: Id)
    requires Next(s, u, s') && ThreadOf(s, t).Merging? && ThreadOf(s', t).Merging?
    ensures ThreadOf(s', t).a == ThreadOf(s, t).a && ThreadOf(s', t).b == ThreadOf(s, t).b
  {
    hide TimelineStep, SignalStep, UserStep, Lists, Later, ByTimeline;
    if u != t {
      NextIsOwn(s, u, s');
    } else {
      NotOther(s, t, s');
    }
  }

  /** A thread that merges takes steps of the merge only. */
  lemma NotOther(s: State, t: Id, s': State)
    requires Next(s, t, s') && ThreadOf(s, t).Merging?
    ensures MergeStep(s, t, s')
  {
    hide Due, MergeStep;
  }

  lemma {:induction false} MergerKeeps(run: seq<State>, who: seq<Id>, k: nat, m: nat, a: Id, b: Id, t: Id)
    requires IsRun(run, who) && k < m < |run| && forall i :: k < i <= m ==> ThreadOf(run[i], t).Merging?
    requires ThreadOf(run[k + 1], t).a == a && ThreadOf(run[k + 1], t).b == b
    ensures ThreadOf(run[m], t).a == a && ThreadOf(run[m], t).b == b
    decreases m
  {
    hide Next;
    if k + 1 < m {
      MergerKeeps(run, who, k, m - 1, a, b, t);
      assert Next(run[m - 1], who[m - 1], run[m]);
      MergerStays(run[m - 1], who[m - 1], run[m], t);
    }
  }

  /** The fence that a merge makes is one of the two fences it was asked to merge: as soon as nobody is at work on it,
      it is signaled exactly when the counters have got to all points of both. */
  lemma MergedFenceWaits(run: seq<State>, who: seq<Id>, k: nat, m: nat, n: nat, a: Id, b: Id, chosen: seq<Id>,
                         f: Id, ids: seq<Id>, made: map<Id, Point>)
    requires IsRun(run, who) && k < m < n < |run| && who[m] == who[k]
    requires CanMerge(run[k], who[k], a, b, chosen) && run[k + 1] == BeginMerge(run[k], who[k], a, b, chosen)
    requires CanMake(run[m], who[m], f, ids, made) && run[m + 1] == Make(run[m], who[m], f, ids, made)
    requires forall i :: k < i <= m ==> ThreadOf(run[i], who[k]).Merging?
    ensures f in run[n].fences && run[n].fences[f].sources == Some((a, b))
    ensures Placed(run[n]) && HasFence(run[n], a) && HasFence(run[n], b)
    ensures Settled(run[n], f) && (forall t :: !Obliged(ThreadOf(run[n], t), f)) ==>
      (run[n].fences[f].status == Signaled <==>
       AllReached(run[n], run[n].fences[a].points) && AllReached(run[n], run[n].fences[b].points))
  {
    hide Next, Inv, Settled, Lists, AllReached, AllSignaled;
    MergerKeeps(run, who, k, m, a, b, who[k]);
    SignalsStay(run, who, m + 1, n);
    MadeSources(run[m], run[n], who[m], f, ids, made);
    RunKeeps(run, who, n);
    MergedSources(run[n], f, a, b);
    if Settled(run[n], f) && forall t :: !Obliged(ThreadOf(run[n], t), f) {
      MergeOutlivesSources(run, who, n, f, a, b);
      SignaledWhenIdle(run[n], f);
    }
  }

  lemma MadeSources(s: State, s': State, t: Id, f: Id, ids: seq<Id>, made: map<Id, Point>)
    requires CanMake(s, t, f, ids, made) && Grows(Make(s, t, f, ids, made), s')
    ensures f in s'.fences && s'.fences[f].sources == Some((ThreadOf(s, t).a, ThreadOf(s, t).b))
  {
  }

  lemma MergedSources(s: State, f: Id, a: Id, b: Id)
    requires Inv(s) && f in s.fences && s.fences[f].sources == Some((a, b))
    ensures Placed(s) && HasFence(s, a) && HasFence(s, b)
  {
    hide Inv, Dominate;
    InvMarks(s);
    InvFence(s, f);
    InvFence(s, a);
    InvFence(s, b);
  }

  /** The copies made so far have the moments of the points chosen, and the signals that these had in `s`. */
  ghost predicate Carries(s: State, chosen: seq<Id>, copies: seq<Copy>) {
    && |copies| <= |chosen|
    && (forall i :: 0 <= i < |chosen| ==> chosen[i] in s.points)
    && forall i :: 0 <= i < |copies| ==>
         && copies[i].timeline == s.points[chosen[i]].timeline && copies[i].time == s.points[chosen[i]].time
         && (s.points[chosen[i]].signaled ==> copies[i].signaled)
  }

  lemma CarriesNext(began: State, s: State, u: Id, s': State, t: Id)
    requires Next(s, u, s') && ThreadOf(s, t).Merging? && ThreadOf(s', t).Merging? && Grows(began, s)
    requires Carries(began, ThreadOf(s, t).chosen, ThreadOf(s, t).copies)
    ensures ThreadOf(s', t).chosen == ThreadOf(s, t).chosen
    ensures Carries(began, ThreadOf(s', t).chosen, ThreadOf(s', t).copies)
  {
    hide TimelineStep, SignalStep, UserStep, Lists, Later, ByTimeline;
    if u != t {
      NextIsOwn(s, u, s');
    } else {
      NotOther(s, t, s');
    }
  }

  lemma MergeBegins(s: State, t: Id, a: Id, b: Id, chosen: seq<Id>)
    requires CanMerge(s, t, a, b, chosen)
    ensures Carries(s, chosen, [])
  {
    hide ByTimeline, Later;
    forall i | 0 <= i < |chosen| ensures chosen[i] in s.points {
      assert chosen[i] in chosen;
    }
  }

  lemma {:induction false} MergerCarries(run: seq<State>, who: seq<Id>, k: nat, m: nat, a: Id, b: Id, chosen: seq<Id>)
    requires IsRun(run, who) && k < m < |run| && CanMerge(run[k], who[k], a, b, chosen)
    requires run[k + 1] == BeginMerge(run[k], who[k], a, b, chosen)
    requires forall i :: k < i <= m ==> ThreadOf(run[i], who[k]).Merging?
    ensures ThreadOf(run[m], who[k]).chosen == chosen && Carries(run[k], chosen, ThreadOf(run[m], who[k]).copies)
    decreases m
  {
    hide Next, Carries, CanMerge;
    if m == k + 1 {
      MergeBegins(run[k], who[k], a, b, chosen);
    } else {
      MergerCarries(run, who, k, m - 1, a, b, chosen);
      SignalsStay(run, who, k, m - 1);
      assert Next(run[m - 1], who[m - 1], run[m]);
      CarriesNext(run[k], run[m - 1], who[m - 1], run[m], who[k]);
    }
  }

  /** The points of a merged fence are the chosen points again: each has the time of the one it was copied from, and if
      that was signaled when the merge began, it is signaled from the moment that the merged fence is there. */
  lemma MergedPointsCarry(run: seq<State>, who: seq<Id>, k: nat, m: nat, n: nat, a: Id, b: Id, chosen: seq<Id>,
                          f: Id, ids: seq<Id>, made: map<Id, Point>)
    requires IsRun(run, who) && k < m < n < |run| && who[m] == who[k]
    requires CanMerge(run[k], who[k], a, b, chosen) && run[k + 1] == BeginMerge(run[k], who[k], a, b, chosen)
    requires CanMake(run[m], who[m], f, ids, made) && run[m + 1] == Make(run[m], who[m], f, ids, made)
    requires forall i :: k < i <= m ==> ThreadOf(run[i], who[k]).Merging?
    ensures |ids| == |chosen| && f in run[n].fences && run[n].fences[f].points == ids
    ensures forall i :: 0 <= i < |ids| ==>
      && chosen[i] in run[k].points && ids[i] in run[n].points && run[n].points[ids[i]].fence == f
      && run[n].points[ids[i]].timeline == run[k].points[chosen[i]].timeline
      && run[n].points[ids[i]].time == run[k].points[chosen[i]].time
      && (run[k].points[chosen[i]].signaled ==> run[n].points[ids[i]].signaled)
  {
    hide Next, CanMerge;
    MergerCarries(run, who, k, m, a, b, chosen);
    SignalsStay(run, who, m + 1, n);
    MadeGrows(run[m], run[n], who[m], f, ids, made);
  }

  lemma MadeGrows(s: State, s': State, t: Id, f: Id, ids: seq<Id>, made: map<Id, Point>)
    requires CanMake(s, t, f, ids, made) && Grows(Make(s, t, f, ids, made), s')
    ensures f in s'.fences && s'.fences[f].points == ids
    ensures forall i :: 0 <= i < |ids| ==>
      var copy := ThreadOf(s, t).copies[i];
      && ids[i] in s'.points && s'.points[ids[i]].fence == f && s'.points[ids[i]].timeline == copy.timeline
      && s'.points[ids[i]].time == copy.time && (copy.signaled ==> s'.points[ids[i]].signaled)
  {
  }

  // ----- The last reference to a fence

  ghost predicate Detached(s: State, f: Id)
    requires HasFence(s, f)
  {
    forall i :: 0 <= i < |s.fences[f].points| ==> !s.points[s.fences[f].points[i]].attached
  }

  ghost predicate Gone(s: State, f: Id) {
    HasFence(s, f) && s.fences[f].stage.Dying? && Detached(s, f)
  }

  ghost predicate Going(s: State, t: Id, f: Id) {
    (ThreadOf(s, t).Detaching? && ThreadOf(s, t).fence == f) || Gone(s, f)
  }

  lemma DetacherStep(s: State, t: Id, s': State)
    requires Inv(s) && Next(s, t, s') && ThreadOf(s, t).Detaching?
    ensures Going(s', t, ThreadOf(s, t).fence)
  {
    hide Inv, Due, Lists, Later, ByTimeline;
    InvThread(s, t);
    assert UserStep(s, t, s');
  }

  lemma GoneStays(s: State, s': State, f: Id)
    requires Inv(s) && Gone(s, f) && Grows(s, s')
    ensures Gone(s', f)
  {
    hide Inv;
    InvFence(s, f);
    FenceStays(s, s', f);
  }

  /** Closing a fence detaches all its points: once the thread is through with it, none is attached any more. */
  lemma {:induction false} CloseDetaches(run: seq<State>, who: seq<Id>, k: nat, n: nat, f: Id)
    requires IsRun(run, who) && k < n < |run| && CanClose(run[k], who[k], f)
    requires run[k + 1] == Close(run[k], who[k], f)
    ensures Going(run[n], who[k], f)
    decreases n
  {
    hide Inv, Next;
    if n > k + 1 {
      CloseDetaches(run, who, k, n - 1, f);
      RunKeeps(run, who, n - 1);
      SignalsStay(run, who, n - 1, n);
      assert Next(run[n - 1], who[n - 1], run[n]);
      if Gone(run[n - 1], f) {
        GoneStays(run[n - 1], run[n], f);
      } else if who[n - 1] == who[k] {
        DetacherStep(run[n - 1], who[k], run[n]);
      } else {
        NextIsOwn(run[n - 1], who[n - 1], run[n]);
      }
    }
  }

  // ----- What an idle thread can begin

  lemma {:induction false} Enumerate(s: set<Id>) returns (ids: seq<Id>)
    ensures NoDuplicates(ids) && forall p :: p in ids <==> p in s
  {
    ids := [];
    if x :| x in s {
      var rest := Enumerate(s - {x});
      ids := rest + [x];
      forall p ensures p in ids <==> p in s {
        assert p in ids <==> p in rest || p == x;
      }
    }
  }

  lemma {:induction false} Unused(ids: set<Id>) returns (bound: Id)
    ensures forall x :: x in ids ==> x < bound
  {
    bound := 0;
    if x :| x in ids {
      var rest := Unused(ids - {x});
      bound := Max(rest, x + 1);
      forall y | y in ids ensures y < bound {
        assert y == x || y in ids - {x};
      }
    }
  }

  /** Incrementing takes a free timeline and an amount that does not overflow the counter, and nothing else. */
  lemma IdleCanIncrement(s: State, t: Id, tl: Id, amount: nat)
    requires ThreadOf(s, t) == Idle && Free(s, tl)
    ensures (exists todo :: CanIncrement(s, t, tl, amount, todo)) <==> s.timelines[tl].counter + amount < 0xFFFF_FFFF
  {
    if s.timelines[tl].counter + amount < 0xFFFF_FFFF {
      var from, to := s.timelines[tl].counter, s.timelines[tl].counter + amount;
      var due := set p |
        p in s.points && s.points[p].attached && s.points[p].timeline == tl && from < s.points[p].time <= to;
      var todo := Enumerate(due);
      assert CanIncrement(s, t, tl, amount, todo);
    }
  }

  /** A fence can be made on a free timeline for any time, past or future. */
  lemma IdleCanCreate(s: State, t: Id, tl: Id, time: nat)
    requires ThreadOf(s, t) == Idle && Free(s, tl) && time <= 0xFFFF_FFFF
    ensures exists f, p :: CanCreate(s, t, tl, time, f, p)
  {
    var f := Unused(s.fences.Keys);
    var p := Unused(s.points.Keys);
    assert CanCreate(s, t, tl, time, f, p);
  }

  /** Any two live fences can be merged, waited for and closed. */
  lemma IdleCanUse(run: seq<State>, who: seq<Id>, n: nat, t: Id, a: Id, b: Id)
    requires IsRun(run, who) && n < |run| && ThreadOf(run[n], t) == Idle && a != b
    requires a in run[n].fences && run[n].fences[a].stage == Live
    requires b in run[n].fences && run[n].fences[b].stage == Live
    ensures exists chosen :: CanMerge(run[n], t, a, b, chosen)
    ensures CanClose(run[n], t, a)
    ensures run[n].fences[a].holder == None ==> CanWait(run[n], t, a)
  {
    hide Next, Inv;
    RunKeeps(run, who, n);
    InvFence(run[n], a);
    InvFence(run[n], b);
    var m := Later(run[n].points, ByTimeline(run[n].points, run[n].fences[a].points), run[n].fences[b].points);
    hide Later, ByTimeline;
    var chosen := Enumerate(m.Values);
    ListsValues(chosen, m);
    assert CanMerge(run[n], t, a, b, chosen);
  }

  lemma ListsValues(chosen: seq<Id>, m: map<Id, Id>)
    requires NoDuplicates(chosen) && forall p :: p in chosen <==> p in m.Values
    ensures Lists(chosen, m)
  {
  }
}
