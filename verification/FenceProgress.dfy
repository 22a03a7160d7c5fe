/** Threads do not block each other for ever: locks of timelines are taken before those of fences. */
module FenceProgress {
  import opened Basics
  import opened Fences
  import opened FenceInvariant
  import opened FenceSteps
  import opened FenceCalls

  /** The thread is in the middle of something, other than the wait for a fence that is not signaled. */
  predicate Busy(s: State, t: Id) {
    match ThreadOf(s, t)
    case Idle => false
    case Waiting(f) => f in s.fences && s.fences[f].status == Signaled
    case _ => true
  }

  /** The thread has a step that gets it to another point of its program. */
  ghost predicate Goes(s: State, t: Id) {
    exists s' :: Next(s, t, s') && ThreadOf(s', t) != ThreadOf(s, t)
  }

  ghost predicate SomeoneGoes(s: State) {
    exists t :: Busy(s, t) && Goes(s, t)
  }

  /** Who holds the lock of a fence can go on. */
  lemma CounterGoes(s: State, t: Id)
    requires Inv(s) && ThreadOf(s, t).Counting?
    ensures SomeoneGoes(s)
  {
    hide Inv;
    InvThread(s, t);
    if CanCount(s, t) {
      assert SignalStep(s, t, CountNext(s, t)) && Next(s, t, CountNext(s, t));
    } else {
      assert CanLeave(s, t);
      assert SignalStep(s, t, Leave(s, t)) && Next(s, t, Leave(s, t));
    }
    assert Busy(s, t) && Goes(s, t);
  }

  /** A fence is free, or its holder can go on. */
  lemma FenceIsFree(s: State, f: Id)
    requires Inv(s) && f in s.fences && !FenceFree(s, f)
    ensures SomeoneGoes(s)
  {
    hide Inv;
    var u := s.fences[f].holder.value;
    InvLocks(s, u);
    assert FenceHeld(ThreadOf(s, u)) == Some(f);
    CounterGoes(s, u);
  }

  lemma CallerGoes(s: State, t: Id)
    requires Inv(s) && ThreadOf(s, t).Calling?
    ensures SomeoneGoes(s)
  {
    hide Inv;
    InvThread(s, t);
    if CanEnter(s, t) {
      assert SignalStep(s, t, Enter(s, t)) && Next(s, t, Enter(s, t));
      assert Busy(s, t) && Goes(s, t);
    } else {
      FenceIsFree(s, ThreadOf(s, t).fence);
    }
  }

  lemma IncrementerGoes(s: State, t: Id)
    requires Inv(s) && ThreadOf(s, t).Incrementing?
    ensures SomeoneGoes(s)
  {
    hide Inv;
    InvLocks(s, t);
    InvMarks(s);
    assert TodoOk(s, t);
    if ThreadOf(s, t).todo != [] {
      assert ThreadOf(s, t).todo[0] in Todo(ThreadOf(s, t));
      assert CanMark(s, t);
      assert TimelineStep(s, t, MarkNext(s, t)) && Next(s, t, MarkNext(s, t));
    } else {
      assert CanUnlock(s, t);
      assert TimelineStep(s, t, Unlock(s, t)) && Next(s, t, Unlock(s, t));
    }
    assert Busy(s, t) && Goes(s, t);
  }

  /** A timeline is free, or its holder can go on, or waits for a fence whose holder can. */
  lemma TimelineIsFree(s: State, tl: Id)
    requires Inv(s) && tl in s.timelines && !Free(s, tl)
    ensures SomeoneGoes(s)
  {
    hide Inv;
    var u := s.timelines[tl].holder.value;
    InvLocks(s, u);
    assert TimelineHeld(ThreadOf(s, u)) == Some(tl);
    match ThreadOf(s, u)
    case Incrementing(_, _) => IncrementerGoes(s, u);
    case Calling(_, _) => CallerGoes(s, u);
    case Counting(_, _, _, _) => CounterGoes(s, u);
  }

  lemma AttacherGoes(s: State, t: Id)
    requires Inv(s) && ThreadOf(s, t).Attaching?
    ensures SomeoneGoes(s)
  {
    hide Inv;
    InvThread(s, t);
    InvMarks(s);
    if CanFinish(s, t) {
      assert MergeStep(s, t, Finish(s, t)) && Next(s, t, Finish(s, t));
      assert Busy(s, t) && Goes(s, t);
    } else if CanAttach(s, t) {
      assert MergeStep(s, t, AttachNext(s, t)) && Next(s, t, AttachNext(s, t));
      assert Busy(s, t) && Goes(s, t);
    } else {
      TimelineIsFree(s, s.points[s.fences[ThreadOf(s, t).fence].points[ThreadOf(s, t).next]].timeline);
    }
  }

  lemma DetacherGoes(s: State, t: Id)
    requires Inv(s) && ThreadOf(s, t).Detaching?
    ensures SomeoneGoes(s)
  {
    hide Inv;
    InvThread(s, t);
    InvMarks(s);
    if CanVanish(s, t) {
      assert UserStep(s, t, Go(s, t, Idle)) && Next(s, t, Go(s, t, Idle));
      assert Busy(s, t) && Goes(s, t);
    } else if CanDetach(s, t) {
      assert UserStep(s, t, DetachNext(s, t)) && Next(s, t, DetachNext(s, t));
      assert Busy(s, t) && Goes(s, t);
    } else {
      TimelineIsFree(s, s.points[s.fences[ThreadOf(s, t).fence].points[ThreadOf(s, t).next]].timeline);
    }
  }

  lemma WaiterGoes(s: State, t: Id)
    requires Inv(s) && ThreadOf(s, t).Waiting? && Busy(s, t)
    ensures SomeoneGoes(s)
  {
    hide Inv;
    if CanWake(s, t) {
      assert UserStep(s, t, Wake(s, t)) && Next(s, t, Wake(s, t));
      assert Goes(s, t);
    } else {
      FenceIsFree(s, ThreadOf(s, t).fence);
    }
  }

  lemma MergerGoes(s: State, t: Id)
    requires Inv(s) && ThreadOf(s, t).Merging?
    ensures SomeoneGoes(s)
  {
    hide Inv;
    InvThread(s, t);
    if CanCopy(s, t) {
      assert MergeStep(s, t, CopyNext(s, t)) && Next(s, t, CopyNext(s, t));
    } else {
      AllCopied(s, t);
      var f, ids, made := NewFence(s, t);
      assert MergeStep(s, t, Make(s, t, f, ids, made)) && Next(s, t, Make(s, t, f, ids, made));
    }
    assert Busy(s, t) && Goes(s, t);
  }

  lemma AllCopied(s: State, t: Id)
    requires ThreadOf(s, t).Merging? && ThreadOk(s, t) && !CanCopy(s, t)
    ensures |ThreadOf(s, t).copies| == |ThreadOf(s, t).chosen|
  {
  }

  /** Points made of the copies, under ids from `least` on. */
  function NewPoints(copies: seq<Copy>, f: Id, least: Id): (made: map<Id, Point>)
    ensures forall p :: p in made <==> least <= p < least + |copies|
  {
    if copies == [] then map[] else
    var front, copy := copies[..|copies| - 1], copies[|copies| - 1];
    NewPoints(front, f, least)[least + |front| := Point(copy.timeline, copy.time, f, copy.signaled, false)]
  }

  lemma {:induction false} NewPointAt(copies: seq<Copy>, f: Id, least: Id, i: nat)
    requires i < |copies|
    ensures NewPoints(copies, f, least)[least + i] ==
      Point(copies[i].timeline, copies[i].time, f, copies[i].signaled, false)
    decreases |copies|
  {
    if i < |copies| - 1 {
      NewPointAt(copies[..|copies| - 1], f, least, i);
    }
  }

  lemma Numbers(least: Id, n: nat) returns (ids: seq<Id>)
    ensures |ids| == n && NoDuplicates(ids) && forall i :: 0 <= i < n ==> ids[i] == least + i
    ensures forall p :: least <= p < least + n ==> p in ids
  {
    ids := seq(n, i => least + i);
    forall p | least <= p < least + n ensures p in ids {
      assert ids[p - least] == p;
    }
  }

  /** There are always new ids for a fence and its points. */
  lemma NewFence(s: State, t: Id) returns (f: Id, ids: seq<Id>, made: map<Id, Point>)
    requires ThreadOf(s, t).Merging? && |ThreadOf(s, t).copies| == |ThreadOf(s, t).chosen|
    ensures CanMake(s, t, f, ids, made)
  {
    hide NewPoints, NoDuplicates;
    var copies := ThreadOf(s, t).copies;
    f := Unused(s.fences.Keys);
    var least := Unused(s.points.Keys);
    ids := Numbers(least, |copies|);
    made := NewPoints(copies, f, least);
    forall i | 0 <= i < |ids|
      ensures ids[i] in made
      ensures made[ids[i]] == Point(copies[i].timeline, copies[i].time, f, copies[i].signaled, false)
    {
      NewPointAt(copies, f, least, i);
    }
  }

  lemma BusyGoes(s: State, t: Id)
    requires Inv(s) && Busy(s, t)
    ensures SomeoneGoes(s)
  {
    hide Inv, SomeoneGoes;
    match ThreadOf(s, t)
    case Incrementing(_, _) => IncrementerGoes(s, t);
    case Calling(_, _) => CallerGoes(s, t);
    case Counting(_, _, _, _) => CounterGoes(s, t);
    case Merging(_, _, _, _) => MergerGoes(s, t);
    case Attaching(_, _) => AttacherGoes(s, t);
    case Waiting(_) => WaiterGoes(s, t);
    case Detaching(_, _) => DetacherGoes(s, t);
  }

  /** No deadlock: in every state of every run, if some thread is busy, then a busy thread has a step. */
  lemma NoDeadlock(run: seq<State>, who: seq<Id>, n: nat, t: Id)
    requires IsRun(run, who) && n < |run| && Busy(run[n], t)
    ensures exists u, s' :: Busy(run[n], u) && Next(run[n], u, s') && ThreadOf(s', u) != ThreadOf(run[n], u)
  {
    hide Next;
    RunKeeps(run, who, n);
    BusyGoes(run[n], t);
    var u :| Busy(run[n], u) && Goes(run[n], u);
    var s' :| Next(run[n], u, s') && ThreadOf(s', u) != ThreadOf(run[n], u);
  }
}
