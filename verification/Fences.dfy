/** Timelines, sync points and fences as a state machine. Threads interleave at every acquisition and release of
    a timeline lock or a fence lock, and between the unsynchronised reads of a counting loop. */
module Fences {
  import opened Basics

  type Id = nat

  /** The largest value of a counter, and of a signaling time. */
  const COUNTER_MAX: nat := 0xFFFF_FFFF

  /** `signaled` is a timestamp other than zero; `attached` is membership in the maps of the timeline. */
  datatype Point = Point(timeline: Id, time: nat, fence: Id, signaled: bool, attached: bool)

  datatype Timeline = Timeline(counter: nat, holder: Option<Id>)

  datatype Status = Active | Signaled

  datatype Stage = Building(creator: Id) | Live | Dying(closer: Id)

  /** `sources` are the two fences a merged fence was made from. */
  datatype Fence = Fence(points: seq<Id>, status: Status, stage: Stage, holder: Option<Id>, sleepers: set<Id>,
                         sources: Option<(Id, Id)>)

  /** Where a thread goes on after MaybeSignal: the rest of its increment, or the caller of CreateFence. */
  datatype Return = ToIncrement(timeline: Id, todo: seq<Id>) | ToCaller

  /** A copy of a sync point, made by a merge, that no fence has yet. */
  datatype Copy = Copy(timeline: Id, time: nat, signaled: bool)

  datatype Thread =
    | Idle
    | Incrementing(timeline: Id, todo: seq<Id>)               // holds the timeline's lock
    | Calling(fence: Id, ret: Return)                         // about to call MaybeSignal
    | Counting(fence: Id, next: nat, count: nat, ret: Return) // in MaybeSignal, holds the fence's lock
    | Merging(a: Id, b: Id, chosen: seq<Id>, copies: seq<Copy>) // copies the chosen points one by one
    | Attaching(fence: Id, next: nat)                         // in CreateFence
    | Waiting(fence: Id)                                      // in SYNC_IOC_WAIT
    | Detaching(fence: Id, next: nat)                         // in the destructor of the fence

  datatype State = State(timelines: map<Id, Timeline>, points: map<Id, Point>, fences: map<Id, Fence>,
                         threads: map<Id, Thread>)

  function ThreadOf(s: State, t: Id): Thread {
    if t in s.threads then s.threads[t] else Idle
  }

  /** Timelines at zero, and nothing else. */
  predicate Initial(s: State) {
    && s.points == map[] && s.fences == map[] && s.threads == map[]
    && forall tl :: tl in s.timelines ==> s.timelines[tl] == Timeline(0, None)
  }

  predicate Free(s: State, tl: Id) {
    tl in s.timelines && s.timelines[tl].holder == None
  }

  function Go(s: State, t: Id, th: Thread): State {
    s.(threads := s.threads[t := th])
  }

  function Hold(s: State, tl: Id, holder: Option<Id>): State
    requires tl in s.timelines
  {
    s.(timelines := s.timelines[tl := s.timelines[tl].(holder := holder)])
  }

  function SetFence(s: State, f: Id, fence: Fence): State {
    s.(fences := s.fences[f := fence])
  }

  function SetPoint(s: State, p: Id, point: Point): State {
    s.(points := s.points[p := point])
  }

  /** SyncPoint::MarkAsSignaled. */
  function Mark(s: State, p: Id): State
    requires p in s.points
  {
    SetPoint(s, p, s.points[p].(signaled := true))
  }

  /** Timeline::AttachSyncPointLocked: a point whose time has come is marked, unless it was copied as signaled. */
  function Attach(s: State, p: Id): State
    requires p in s.points && s.points[p].timeline in s.timelines
  {
    var point := s.points[p].(attached := true);
    var reached := point.time <= s.timelines[point.timeline].counter;
    SetPoint(s, p, if !point.signaled && reached then point.(signaled := true) else point)
  }

  // ----- Choosing the points of a merged fence

  /** The first loop of the merge: the points of a fence by timeline. */
  function ByTimeline(points: map<Id, Point>, ids: seq<Id>): (r: map<Id, Id>)
    requires forall i :: 0 <= i < |ids| ==> ids[i] in points
    ensures forall tl :: tl in r ==> r[tl] in points
  {
    if ids == [] then map[] else
      var last := ids[|ids| - 1];
      ByTimeline(points, ids[..|ids| - 1])[points[last].timeline := last]
  }

  /** The second loop: of two points on one timeline, the later one stays. */
  function Later(points: map<Id, Point>, m: map<Id, Id>, ids: seq<Id>): (r: map<Id, Id>)
    requires forall i :: 0 <= i < |ids| ==> ids[i] in points
    requires forall tl :: tl in m ==> m[tl] in points
    ensures forall tl :: tl in r ==> r[tl] in points
  {
    if ids == [] then m else
      var last := ids[|ids| - 1];
      var r := Later(points, m, ids[..|ids| - 1]);
      var tl := points[last].timeline;
      if tl !in r || points[r[tl]].time < points[last].time then r[tl := last] else r
  }

  // ----- Conditions

  predicate NoDuplicates(ids: seq<Id>) {
    forall i, j :: 0 <= i < j < |ids| ==> ids[i] != ids[j]
  }

  /** `todo` lists the attached points of the timeline with a time in (from, to]. */
  ghost predicate Due(s: State, tl: Id, from: nat, to: nat, todo: seq<Id>) {
    && NoDuplicates(todo)
    && forall p :: p in todo <==>
         p in s.points && s.points[p].attached && s.points[p].timeline == tl && from < s.points[p].time <= to
  }

  /** `chosen` lists the points of the map, in some order of the timelines. */
  ghost predicate Lists(chosen: seq<Id>, m: map<Id, Id>) {
    && NoDuplicates(chosen)
    && forall p :: p in chosen <==> exists tl :: tl in m && m[tl] == p
  }

  ghost predicate HasFence(s: State, f: Id) {
    f in s.fences && forall i :: 0 <= i < |s.fences[f].points| ==> s.fences[f].points[i] in s.points
  }

  predicate FenceFree(s: State, f: Id) {
    f in s.fences && s.fences[f].holder == None
  }

  /** The timeline of a fence's next point can be locked. */
  ghost predicate NextFree(s: State, f: Id, next: nat)
    requires HasFence(s, f)
  {
    next < |s.fences[f].points| && Free(s, s.points[s.fences[f].points[next]].timeline)
  }

  // ----- Steps of a thread `t`; each takes what its program point and the locks allow

  /** IncrementCounter takes the lock, finds the points it passes and moves the counter. */
  ghost predicate CanIncrement(s: State, t: Id, tl: Id, amount: nat, todo: seq<Id>) {
    && ThreadOf(s, t) == Idle && Free(s, tl)
    && s.timelines[tl].counter + amount < COUNTER_MAX
    && Due(s, tl, s.timelines[tl].counter, s.timelines[tl].counter + amount, todo)
  }

  function Increment(s: State, t: Id, tl: Id, amount: nat, todo: seq<Id>): State
    requires Free(s, tl)
  {
    var timeline := Timeline(s.timelines[tl].counter + amount, Some(t));
    Go(s, t, Incrementing(tl, todo)).(timelines := s.timelines[tl := timeline])
  }

  predicate CanMark(s: State, t: Id) {
    var th := ThreadOf(s, t);
    th.Incrementing? && th.todo != [] && th.todo[0] in s.points
  }

  function MarkNext(s: State, t: Id): State
    requires CanMark(s, t)
  {
    var th := ThreadOf(s, t);
    Go(Mark(s, th.todo[0]), t, Calling(s.points[th.todo[0]].fence, ToIncrement(th.timeline, th.todo[1..])))
  }

  predicate CanUnlock(s: State, t: Id) {
    var th := ThreadOf(s, t);
    th.Incrementing? && th.todo == [] && th.timeline in s.timelines
  }

  function Unlock(s: State, t: Id): State
    requires CanUnlock(s, t)
  {
    Go(Hold(s, ThreadOf(s, t).timeline, None), t, Idle)
  }

  /** MaybeSignal takes the fence's lock. */
  predicate CanEnter(s: State, t: Id) {
    var th := ThreadOf(s, t);
    th.Calling? && FenceFree(s, th.fence)
  }

  function Enter(s: State, t: Id): State
    requires CanEnter(s, t)
  {
    var th := ThreadOf(s, t);
    Go(SetFence(s, th.fence, s.fences[th.fence].(holder := Some(t))), t, Counting(th.fence, 0, 0, th.ret))
  }

  /** One turn of the loop of GetSignaledSyncPointCountLocked. */
  ghost predicate CanCount(s: State, t: Id) {
    var th := ThreadOf(s, t);
    th.Counting? && HasFence(s, th.fence) && th.next < |s.fences[th.fence].points|
  }

  ghost function CountNext(s: State, t: Id): State
    requires CanCount(s, t)
  {
    var th := ThreadOf(s, t);
    var signaled := s.points[s.fences[th.fence].points[th.next]].signaled;
    Go(s, t, Counting(th.fence, th.next + 1, if signaled then th.count + 1 else th.count, th.ret))
  }

  /** The rest of MaybeSignal: with every point counted, it signals and wakes whoever sleeps. */
  predicate CanLeave(s: State, t: Id) {
    var th := ThreadOf(s, t);
    th.Counting? && th.fence in s.fences && th.next == |s.fences[th.fence].points|
  }

  function Leave(s: State, t: Id): State
    requires CanLeave(s, t)
  {
    var th := ThreadOf(s, t);
    var fence := s.fences[th.fence].(holder := None);
    var after := if th.count < |fence.points| then fence else fence.(status := Signaled, sleepers := {});
    Go(SetFence(s, th.fence, after), t,
       if th.ret.ToIncrement? then Incrementing(th.ret.timeline, th.ret.todo) else Idle)
  }

  /** Timeline::CreateFence: a fence of one point, attached under the timeline's lock. */
  predicate CanCreate(s: State, t: Id, tl: Id, time: nat, f: Id, p: Id) {
    ThreadOf(s, t) == Idle && Free(s, tl) && time <= COUNTER_MAX && f !in s.fences && p !in s.points
  }

  function Create(s: State, t: Id, tl: Id, time: nat, f: Id, p: Id): State
    requires CanCreate(s, t, tl, time, f, p)
  {
    var made := SetPoint(SetFence(s, f, Fence([p], Active, Live, None, {}, None)), p, Point(tl, time, f, false, false));
    Go(Hold(Attach(made, p), tl, Some(t)), t, Calling(f, ToIncrement(tl, [])))
  }

  /** SyncIocMerge chooses the points to copy. */
  ghost predicate CanMerge(s: State, t: Id, a: Id, b: Id, chosen: seq<Id>) {
    && ThreadOf(s, t) == Idle && a != b && HasFence(s, a) && HasFence(s, b)
    && s.fences[a].stage == Live && s.fences[b].stage == Live
    && Lists(chosen, Later(s.points, ByTimeline(s.points, s.fences[a].points), s.fences[b].points))
  }

  function BeginMerge(s: State, t: Id, a: Id, b: Id, chosen: seq<Id>): State {
    Go(s, t, Merging(a, b, chosen, []))
  }

  /** A chosen point is copied with the timestamp it has now. */
  predicate CanCopy(s: State, t: Id) {
    var th := ThreadOf(s, t);
    th.Merging? && |th.copies| < |th.chosen| && th.chosen[|th.copies|] in s.points
  }

  function CopyNext(s: State, t: Id): State
    requires CanCopy(s, t)
  {
    var th := ThreadOf(s, t);
    var q := s.points[th.chosen[|th.copies|]];
    Go(s, t, th.(copies := th.copies + [Copy(q.timeline, q.time, q.signaled)]))
  }

  /** With every point copied, CreateFence makes the fence; `made` are its points, under new ids. */
  ghost predicate CanMake(s: State, t: Id, f: Id, ids: seq<Id>, made: map<Id, Point>) {
    var th := ThreadOf(s, t);
    && th.Merging? && |th.copies| == |th.chosen| == |ids| && f !in s.fences && NoDuplicates(ids)
    && (forall p :: p in made ==> p !in s.points && p in ids)
    && (forall i :: 0 <= i < |ids| ==> ids[i] in made)
    && (forall i :: 0 <= i < |ids| ==>
          made[ids[i]] == Point(th.copies[i].timeline, th.copies[i].time, f, th.copies[i].signaled, false))
  }

  ghost function Make(s: State, t: Id, f: Id, ids: seq<Id>, made: map<Id, Point>): State
    requires CanMake(s, t, f, ids, made)
  {
    var th := ThreadOf(s, t);
    var fence := Fence(ids, Active, Building(t), None, {}, Some((th.a, th.b)));
    Go(SetFence(s, f, fence).(points := s.points + made), t, Attaching(f, 0))
  }

  /** CreateFence attaches the next point, under the lock of its timeline. */
  ghost predicate CanAttach(s: State, t: Id) {
    var th := ThreadOf(s, t);
    th.Attaching? && HasFence(s, th.fence) && NextFree(s, th.fence, th.next)
  }

  ghost function AttachNext(s: State, t: Id): State
    requires CanAttach(s, t)
  {
    var th := ThreadOf(s, t);
    Go(Attach(s, s.fences[th.fence].points[th.next]), t, Attaching(th.fence, th.next + 1))
  }

  predicate CanFinish(s: State, t: Id) {
    var th := ThreadOf(s, t);
    th.Attaching? && th.fence in s.fences && th.next == |s.fences[th.fence].points|
  }

  /** With every point attached, the fence can be used, and CreateFence calls MaybeSignal. */
  function Finish(s: State, t: Id): State
    requires CanFinish(s, t)
  {
    var f := ThreadOf(s, t).fence;
    Go(SetFence(s, f, s.fences[f].(stage := Live)), t, Calling(f, ToCaller))
  }

  /** SyncIocWait returns at once if the fence is signaled, and sleeps otherwise. */
  predicate CanWait(s: State, t: Id, f: Id) {
    ThreadOf(s, t) == Idle && FenceFree(s, f) && s.fences[f].stage == Live
  }

  function Wait(s: State, t: Id, f: Id): State
    requires CanWait(s, t, f)
  {
    if s.fences[f].status == Signaled then s
    else Go(SetFence(s, f, s.fences[f].(sleepers := s.fences[f].sleepers + {t})), t, Waiting(f))
  }

  /** A waiter wakes up, by a broadcast or for no reason, and looks at the status again. */
  predicate CanWake(s: State, t: Id) {
    var th := ThreadOf(s, t);
    th.Waiting? && FenceFree(s, th.fence)
  }

  function Wake(s: State, t: Id): State
    requires CanWake(s, t)
  {
    var f := ThreadOf(s, t).fence;
    if s.fences[f].status == Signaled then Go(s, t, Idle)
    else SetFence(s, f, s.fences[f].(sleepers := s.fences[f].sleepers + {t}))
  }

  /** The last reference to a fence goes, and its destructor detaches the points one by one. */
  predicate CanClose(s: State, t: Id, f: Id) {
    ThreadOf(s, t) == Idle && f in s.fences && s.fences[f].stage == Live
  }

  function Close(s: State, t: Id, f: Id): State
    requires CanClose(s, t, f)
  {
    Go(SetFence(s, f, s.fences[f].(stage := Dying(t))), t, Detaching(f, 0))
  }

  ghost predicate CanDetach(s: State, t: Id) {
    var th := ThreadOf(s, t);
    th.Detaching? && HasFence(s, th.fence) && NextFree(s, th.fence, th.next)
  }

  ghost function DetachNext(s: State, t: Id): State
    requires CanDetach(s, t)
  {
    var th := ThreadOf(s, t);
    var p := s.fences[th.fence].points[th.next];
    Go(SetPoint(s, p, s.points[p].(attached := false)), t, Detaching(th.fence, th.next + 1))
  }

  predicate CanVanish(s: State, t: Id) {
    var th := ThreadOf(s, t);
    th.Detaching? && th.fence in s.fences && th.next == |s.fences[th.fence].points|
  }

  ghost predicate TimelineStep(s: State, t: Id, s': State) {
    || (exists tl, amount, todo :: CanIncrement(s, t, tl, amount, todo) && s' == Increment(s, t, tl, amount, todo))
    || (CanMark(s, t) && s' == MarkNext(s, t))
    || (CanUnlock(s, t) && s' == Unlock(s, t))
    || (exists tl, time, f, p :: CanCreate(s, t, tl, time, f, p) && s' == Create(s, t, tl, time, f, p))
  }

  ghost predicate SignalStep(s: State, t: Id, s': State) {
    || (CanEnter(s, t) && s' == Enter(s, t))
    || (CanCount(s, t) && s' == CountNext(s, t))
    || (CanLeave(s, t) && s' == Leave(s, t))
  }

  ghost predicate MergeStep(s: State, t: Id, s': State) {
    || (exists a, b, chosen :: CanMerge(s, t, a, b, chosen) && s' == BeginMerge(s, t, a, b, chosen))
    || (CanCopy(s, t) && s' == CopyNext(s, t))
    || (exists f, ids, made :: CanMake(s, t, f, ids, made) && s' == Make(s, t, f, ids, made))
    || (CanAttach(s, t) && s' == AttachNext(s, t))
    || (CanFinish(s, t) && s' == Finish(s, t))
  }

  ghost predicate UserStep(s: State, t: Id, s': State) {
    || (exists f :: CanWait(s, t, f) && s' == Wait(s, t, f))
    || (CanWake(s, t) && s' == Wake(s, t))
    || (exists f :: CanClose(s, t, f) && s' == Close(s, t, f))
    || (CanDetach(s, t) && s' == DetachNext(s, t))
    || (CanVanish(s, t) && s' == Go(s, t, Idle))
  }

  /** One step of one thread. */
  ghost predicate Next(s: State, t: Id, s': State) {
    TimelineStep(s, t, s') || SignalStep(s, t, s') || MergeStep(s, t, s') || UserStep(s, t, s')
  }

  /** A run: each state comes from the one before by a step of the thread named in `who`. */
  ghost predicate IsRun(run: seq<State>, who: seq<Id>) {
    && |run| == |who| + 1 && Initial(run[0])
    && forall i :: 0 <= i < |who| ==> Next(run[i], who[i], run[i + 1])
  }
}
