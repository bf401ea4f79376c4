/**
 src/bridge/queue.rs: one lock per channel, created on first use; a task enqueued for a channel is spawned, and only
 the spawned task requests the lock.  The lock is granted in the order of the requests.
 */
module ChannelQueueModel {
  datatype Stage = Spawned | Requested | Running | Finished

  /** `lock` is the lock the task was given when it was enqueued. */
  datatype Task = Task(channel: string, lock: nat, stage: Stage)

  /** A lock: the tasks that have requested it and not finished, in order; the first of them may hold it. */
  datatype Lock = Lock(waiting: seq<nat>)

  datatype State = State(
    queues: map<string, nat>, locks: seq<Lock>, tasks: seq<Task>, started: seq<nat>, requested: seq<nat>)

  datatype Action = Enqueue(channel: string) | Request(t: nat) | Grant(t: nat) | Complete(t: nat)

  const IDLE := State(map[], [], [], [], [])

  predicate AtStage(s: State, t: nat, stage: Stage) {
    t < |s.tasks| && s.tasks[t].stage == stage && s.tasks[t].lock < |s.locks|
  }

  predicate Enabled(s: State, a: Action) {
    match a
    case Enqueue(_) => true
    case Request(t) => AtStage(s, t, Spawned)
    case Grant(t) =>
      && AtStage(s, t, Requested)
      && s.locks[s.tasks[t].lock].waiting != [] && s.locks[s.tasks[t].lock].waiting[0] == t
    case Complete(t) => AtStage(s, t, Running) && s.locks[s.tasks[t].lock].waiting != []
  }

  function SetStage(s: State, t: nat, stage: Stage): State
    requires t < |s.tasks|
  {
    s.(tasks := s.tasks[t := s.tasks[t].(stage := stage)])
  }

  function SetWaiting(s: State, lock: nat, waiting: seq<nat>): State
    requires lock < |s.locks|
  {
    s.(locks := s.locks[lock := Lock(waiting)])
  }

  /** `entry(channel).or_insert_with(..)` */
  function WithLock(s: State, channel: string): State {
    if channel in s.queues then s
    else s.(queues := s.queues[channel := |s.locks|], locks := s.locks + [Lock([])])
  }

  function Act(s: State, a: Action): State
    requires Enabled(s, a)
  {
    match a
    case Enqueue(channel) =>
      var s1 := WithLock(s, channel);
      s1.(tasks := s1.tasks + [Task(channel, s1.queues[channel], Spawned)])
    case Request(t) =>
      var lock := s.tasks[t].lock;
      SetWaiting(SetStage(s, t, Requested), lock, s.locks[lock].waiting + [t]).(requested := s.requested + [t])
    case Grant(t) => SetStage(s, t, Running).(started := s.started + [t])
    case Complete(t) =>
      var lock := s.tasks[t].lock;
      SetWaiting(SetStage(s, t, Finished), lock, s.locks[lock].waiting[1..])
  }

  function After(actions: seq<Action>): State {
    if actions == [] then IDLE else
    var s, a := After(actions[..|actions| - 1]), actions[|actions| - 1];
    if Enabled(s, a) then Act(s, a) else s
  }

  // ------------------------------------------------------------------ the map object

  class ChannelQueue {
    var queues: map<string, nat>
    var locks: seq<Lock>
    var tasks: seq<Task>
    var started: seq<nat>
    var requested: seq<nat>

    ghost function Current(): State
      reads this
    {
      State(queues, locks, tasks, started, requested)
    }

    constructor ()
      ensures Current() == IDLE
    {
      queues, locks, tasks, started, requested := map[], [], [], [], [];
    }

    /** `enqueue` and `enqueue_fut`: find or create the channel's lock, then spawn the task. */
    method Enqueue(channel: string) returns (t: nat)
      modifies this
      ensures Current() == Act(old(Current()), Action.Enqueue(channel)) && t == |old(tasks)|
    {
      if channel !in queues {
        queues := queues[channel := |locks|];
        locks := locks + [Lock([])];
      }
      t := |tasks|;
      tasks := tasks + [Task(channel, queues[channel], Spawned)];
    }
  }

  // ------------------------------------------------------------------ invariant

  predicate Wants(task: Task) { task.stage == Requested || task.stage == Running }

  /** Every channel has a lock of its own. */
  ghost predicate LocksOk(s: State) {
    && (forall c :: c in s.queues ==> s.queues[c] < |s.locks|)
    && (forall c, d :: c in s.queues && d in s.queues && c != d ==> s.queues[c] != s.queues[d])
  }

  ghost predicate TasksOk(s: State) {
    forall t :: 0 <= t < |s.tasks| ==> s.tasks[t].channel in s.queues && s.queues[s.tasks[t].channel] == s.tasks[t].lock
  }

  /** Who stands in place `i` of the line of lock `l` has asked for that lock; only the first may run. */
  ghost predicate InPlace(s: State, l: nat, i: nat)
    requires l < |s.locks| && i < |s.locks[l].waiting|
  {
    var t := s.locks[l].waiting[i];
    t < |s.tasks| && s.tasks[t].lock == l && Wants(s.tasks[t]) && (i > 0 ==> s.tasks[t].stage == Requested)
  }

  ghost predicate LinesOk(s: State) {
    forall l, i :: 0 <= l < |s.locks| && 0 <= i < |s.locks[l].waiting| ==> InPlace(s, l, i)
  }

  ghost predicate LinesDistinct(s: State) {
    forall l, i, j :: 0 <= l < |s.locks| && 0 <= i < j < |s.locks[l].waiting| ==>
      s.locks[l].waiting[i] != s.locks[l].waiting[j]
  }

  ghost predicate WantersWait(s: State) {
    forall t :: 0 <= t < |s.tasks| && Wants(s.tasks[t]) ==>
      s.tasks[t].lock < |s.locks| && t in s.locks[s.tasks[t].lock].waiting
  }

  /** A lock's waiting list holds exactly its requesters that have not finished, once each; only the first may run. */
  ghost predicate WaitingOk(s: State) {
    LinesOk(s) && LinesDistinct(s) && WantersWait(s)
  }

  ghost predicate Inv(s: State) {
    LocksOk(s) && TasksOk(s) && WaitingOk(s)
  }

  /** No action moves a channel to another lock, or a task to another lock or channel. */
  lemma ActKeepsLocks(s: State, a: Action)
    requires LocksOk(s) && TasksOk(s) && Enabled(s, a)
    ensures LocksOk(Act(s, a)) && TasksOk(Act(s, a))
  {
    var s' := Act(s, a);
    assert |s.tasks| <= |s'.tasks| && |s.locks| <= |s'.locks|;
    assert forall t :: 0 <= t < |s.tasks| ==>
           s'.tasks[t].channel == s.tasks[t].channel && s'.tasks[t].lock == s.tasks[t].lock;
  }

  /** Whoever stands in a line has asked for that lock, and has not finished. */
  lemma InLineWants(s: State, l: nat, t: nat)
    requires LinesOk(s) && l < |s.locks| && t in s.locks[l].waiting
    ensures t < |s.tasks| && s.tasks[t].lock == l && Wants(s.tasks[t])
  {
    var i :| 0 <= i < |s.locks[l].waiting| && s.locks[l].waiting[i] == t;
    assert InPlace(s, l, i);
  }

  /** A task that has not asked, or has finished, stands in no line. */
  lemma OthersStandNowhere(s: State, t: nat)
    requires LinesOk(s) && t < |s.tasks|
    ensures forall l :: 0 <= l < |s.locks| && t in s.locks[l].waiting ==> Wants(s.tasks[t])
  {
    forall l | 0 <= l < |s.locks| && t in s.locks[l].waiting ensures Wants(s.tasks[t]) {
      InLineWants(s, l, t);
    }
  }

  lemma RequestKeepsWaiting(s: State, t: nat)
    requires TasksOk(s) && LocksOk(s) && WaitingOk(s) && Enabled(s, Request(t))
    ensures WaitingOk(Act(s, Request(t)))
  {
    OthersStandNowhere(s, t);
    RequestKeepsLines(s, t);
    RequestKeepsWanters(s, t);
  }

  lemma RequestKeepsLines(s: State, t: nat)
    requires LinesOk(s) && LinesDistinct(s) && Enabled(s, Request(t))
    requires forall l :: 0 <= l < |s.locks| ==> t !in s.locks[l].waiting
    ensures LinesOk(Act(s, Request(t))) && LinesDistinct(Act(s, Request(t)))
  {
    var s' := Act(s, Request(t));
    forall l, i | 0 <= l < |s'.locks| && 0 <= i < |s'.locks[l].waiting| ensures InPlace(s', l, i) {
      if i < |s.locks[l].waiting| { assert InPlace(s, l, i); }
    }
  }

  lemma RequestKeepsWanters(s: State, t: nat)
    requires WantersWait(s) && Enabled(s, Request(t))
    ensures WantersWait(Act(s, Request(t)))
  {
    var s' := Act(s, Request(t));
    var lock := s.tasks[t].lock;
    assert s'.locks[lock].waiting[|s.locks[lock].waiting|] == t;
    forall u | 0 <= u < |s'.tasks| && Wants(s'.tasks[u])
      ensures s'.tasks[u].lock < |s'.locks| && u in s'.locks[s'.tasks[u].lock].waiting
    {
      if u != t { assert Wants(s.tasks[u]); }
    }
  }

  lemma RunningIsFirst(s: State, t: nat)
    requires WaitingOk(s) && AtStage(s, t, Running)
    ensures var waiting := s.locks[s.tasks[t].lock].waiting; waiting != [] && waiting[0] == t
  {
    var waiting := s.locks[s.tasks[t].lock].waiting;
    assert t in waiting;
    var k :| 0 <= k < |waiting| && waiting[k] == t;
    assert InPlace(s, s.tasks[t].lock, k);
  }

  /** The others keep their places, one further to the front. */
  lemma LineMovesUp(s: State, t: nat, u: nat)
    requires WaitingOk(s) && Enabled(s, Complete(t)) && u < |s.tasks| && u != t && Wants(s.tasks[u])
    ensures u in Act(s, Complete(t)).locks[s.tasks[u].lock].waiting
  {
    var s' := Act(s, Complete(t));
    var l := s.tasks[u].lock;
    var waiting := s.locks[l].waiting;
    RunningIsFirst(s, t);
    assert s'.tasks[u] == s.tasks[u];
    if l == s.tasks[t].lock {
      var j :| 0 <= j < |waiting| && waiting[j] == u;
      assert s'.locks[l].waiting[j - 1] == u;
    }
  }

  lemma CompleteKeepsWaiting(s: State, t: nat)
    requires WaitingOk(s) && Enabled(s, Complete(t))
    ensures WaitingOk(Act(s, Complete(t)))
  {
    RunningIsFirst(s, t);
    CompleteKeepsLines(s, t);
    var s' := Act(s, Complete(t));
    forall u | 0 <= u < |s'.tasks| && Wants(s'.tasks[u])
      ensures s'.tasks[u].lock < |s'.locks| && u in s'.locks[s'.tasks[u].lock].waiting
    {
      LineMovesUp(s, t, u);
    }
  }

  lemma CompleteKeepsLines(s: State, t: nat)
    requires LinesOk(s) && LinesDistinct(s) && Enabled(s, Complete(t)) && s.locks[s.tasks[t].lock].waiting[0] == t
    ensures LinesOk(Act(s, Complete(t))) && LinesDistinct(Act(s, Complete(t)))
  {
    var s' := Act(s, Complete(t));
    var lock := s.tasks[t].lock;
    forall l, i | 0 <= l < |s'.locks| && 0 <= i < |s'.locks[l].waiting| ensures InPlace(s', l, i) {
      var before := if l == lock then i + 1 else i;
      assert s'.locks[l].waiting[i] == s.locks[l].waiting[before] && InPlace(s, l, before);
      assert s.locks[l].waiting[before] != t by {
        if l != lock { assert InPlace(s, lock, 0); }
      }
    }
  }

  /** A new task waits nowhere yet, and a new lock has no line. */
  lemma EnqueueKeepsWaiting(s: State, channel: string)
    requires WaitingOk(s)
    ensures WaitingOk(Act(s, Enqueue(channel)))
  {
    var s' := Act(s, Enqueue(channel));
    assert forall l :: 0 <= l < |s.locks| ==> s'.locks[l] == s.locks[l];
    assert forall l :: |s.locks| <= l < |s'.locks| ==> s'.locks[l].waiting == [];
    assert forall t :: 0 <= t < |s.tasks| ==> s'.tasks[t] == s.tasks[t];
    forall l, i | 0 <= l < |s'.locks| && 0 <= i < |s'.locks[l].waiting| ensures InPlace(s', l, i) {
      assert InPlace(s, l, i);
    }
  }

  lemma GrantKeepsWaiting(s: State, t: nat)
    requires WaitingOk(s) && Enabled(s, Grant(t))
    ensures WaitingOk(Act(s, Grant(t)))
  {
    var s' := Act(s, Grant(t));
    assert s'.locks == s.locks;
    assert forall u :: 0 <= u < |s.tasks| ==>
           s'.tasks[u].lock == s.tasks[u].lock && Wants(s'.tasks[u]) == Wants(s.tasks[u]);
    forall l, i | 0 <= l < |s'.locks| && 0 <= i < |s'.locks[l].waiting| ensures InPlace(s', l, i) {
      assert InPlace(s, l, i) && InPlace(s, s.tasks[t].lock, 0);
    }
  }

  /** What the invariant says about place `i` in the line of lock `l`. */
  lemma InLine(s: State, l: nat, i: nat)
    requires WaitingOk(s) && l < |s.locks| && i < |s.locks[l].waiting|
    ensures var t := s.locks[l].waiting[i];
            t < |s.tasks| && s.tasks[t].lock == l && Wants(s.tasks[t]) && (i > 0 ==> s.tasks[t].stage == Requested)
  {
    assert InPlace(s, l, i);
  }

  lemma ActKeepsInv(s: State, a: Action)
    requires Inv(s) && Enabled(s, a)
    ensures Inv(Act(s, a))
  {
    hide WaitingOk, LocksOk, TasksOk;
    ActKeepsLocks(s, a);
    match a
    case Enqueue(channel) => EnqueueKeepsWaiting(s, channel);
    case Request(t) => RequestKeepsWaiting(s, t);
    case Grant(t) => GrantKeepsWaiting(s, t);
    case Complete(t) => CompleteKeepsWaiting(s, t);
  }

  lemma {:induction false} InvAfter(actions: seq<Action>)
    ensures Inv(After(actions))
    decreases |actions|
  {
    if actions != [] {
      var s, a := After(actions[..|actions| - 1]), actions[|actions| - 1];
      InvAfter(actions[..|actions| - 1]);
      if Enabled(s, a) { ActKeepsInv(s, a); }
    }
  }

  // ------------------------------------------------------------------ exclusion

  /** A channel keeps for ever the lock it was first given, and shares it with no other channel. */
  lemma {:induction false} OneLockForEver(before: seq<Action>, after: seq<Action>, channel: string)
    requires channel in After(before).queues
    ensures channel in After(before + after).queues
            && After(before + after).queues[channel] == After(before).queues[channel]
    ensures forall d :: d in After(before + after).queues && d != channel ==>
              After(before + after).queues[d] != After(before).queues[channel]
    decreases |after|
  {
    InvAfter(before + after);
    if after == [] {
      assert before + after == before;
    } else {
      var n := |after| - 1;
      assert (before + after)[..|before + after| - 1] == before + after[..n];
      OneLockForEver(before, after[..n], channel);
    }
  }

  /** At most one task of a channel runs at a time. */
  lemma OneRunsAtATime(actions: seq<Action>, t: nat, u: nat)
    requires AtStage(After(actions), t, Running) && AtStage(After(actions), u, Running)
    requires After(actions).tasks[t].channel == After(actions).tasks[u].channel
    ensures t == u
  {
    hide WaitingOk, After;
    InvAfter(actions);
    RunningIsFirst(After(actions), t);
    RunningIsFirst(After(actions), u);
  }

  /** What a task waits for is always a task of its own channel; the first in line can go ahead at once. */
  lemma NobodyWaitsForAnotherChannel(actions: seq<Action>, t: nat)
    requires AtStage(After(actions), t, Requested)
    ensures var s := After(actions);
            var waiting := s.locks[s.tasks[t].lock].waiting;
            && t in waiting
            && (forall u :: u in waiting ==> u < |s.tasks| && s.tasks[u].channel == s.tasks[t].channel)
            && (Enabled(s, Grant(waiting[0])) || Enabled(s, Complete(waiting[0])))
  {
    hide After, LinesOk, LinesDistinct;
    InvAfter(actions);
    var s := After(actions);
    var l := s.tasks[t].lock;
    var waiting := s.locks[l].waiting;
    assert t in waiting;
    forall u | u in waiting ensures u < |s.tasks| && s.tasks[u].channel == s.tasks[t].channel {
      InLineWants(s, l, u);
      SameLockSameChannel(s, t, u);
    }
    InLine(s, l, 0);
  }

  lemma SameLockSameChannel(s: State, t: nat, u: nat)
    requires LocksOk(s) && TasksOk(s) && t < |s.tasks| && u < |s.tasks| && s.tasks[t].lock == s.tasks[u].lock
    ensures s.tasks[t].channel == s.tasks[u].channel
  {
  }

  // ------------------------------------------------------------------ order

  /** The tasks of a channel in a list, in order. */
  function Of(s: State, list: seq<nat>, channel: string): seq<nat> {
    if list == [] then [] else
    var t := list[|list| - 1];
    Of(s, list[..|list| - 1], channel) + if t < |s.tasks| && s.tasks[t].channel == channel then [t] else []
  }

  /** The waiting list without a task that is already running. */
  function Unstarted(s: State, waiting: seq<nat>): seq<nat> {
    if waiting != [] && waiting[0] < |s.tasks| && s.tasks[waiting[0]].stage == Running then waiting[1..] else waiting
  }

  function WaitingFor(s: State, channel: string): seq<nat> {
    if channel in s.queues && s.queues[channel] < |s.locks|
    then Unstarted(s, s.locks[s.queues[channel]].waiting) else []
  }

  lemma {:induction false} OfIsStable(s: State, s': State, list: seq<nat>, channel: string)
    requires |s.tasks| <= |s'.tasks|
    requires forall t :: 0 <= t < |s.tasks| ==> s'.tasks[t].channel == s.tasks[t].channel
    requires forall t :: t in list ==> t < |s.tasks|
    ensures Of(s', list, channel) == Of(s, list, channel)
    decreases |list|
  {
    if list != [] {
      assert list[|list| - 1] in list;
      var init := list[..|list| - 1];
      forall t | t in init ensures t < |s.tasks| { assert t in list; }
      OfIsStable(s, s', list[..|list| - 1], channel);
    }
  }

  lemma OfLast(s: State, list: seq<nat>, t: nat, channel: string)
    ensures Of(s, list + [t], channel)
         == Of(s, list, channel) + if t < |s.tasks| && s.tasks[t].channel == channel then [t] else []
  {
    assert (list + [t])[..|list|] == list;
  }

  ghost predicate Known(s: State) {
    && (forall t :: t in s.started ==> t < |s.tasks|)
    && (forall t :: t in s.requested ==> t < |s.tasks|)
  }

  /** The requests of a channel are those that have started, followed by those that wait, in the order of requesting. */
  ghost predicate InOrder(s: State, channel: string) {
    Of(s, s.requested, channel) == Of(s, s.started, channel) + WaitingFor(s, channel)
  }

  lemma NewTaskWaitsNowhere(s: State, c: string, channel: string)
    requires Inv(s)
    ensures WaitingFor(Act(s, Enqueue(c)), channel) == WaitingFor(s, channel)
  {
    hide WaitingOk;
    if channel in s.queues && s.locks[s.queues[channel]].waiting != [] {
      InLine(s, s.queues[channel], 0);
    }
  }

  lemma StepKeepsOrder(s: State, a: Action, channel: string)
    requires Inv(s) && Known(s) && Enabled(s, a) && InOrder(s, channel)
    ensures Known(Act(s, a)) && InOrder(Act(s, a), channel)
  {
    hide WaitingFor, Of, WaitingOk;
    var s' := Act(s, a);
    OfIsStable(s, s', s.requested, channel);
    OfIsStable(s, s', s.started, channel);
    match a
    case Enqueue(c) => NewTaskWaitsNowhere(s, c, channel);
    case Request(t) => RequestKeepsOrder(s, t, channel);
    case Grant(t) => GrantKeepsOrder(s, t, channel);
    case Complete(t) => CompleteKeepsOrder(s, t, channel);
  }

  /** A step of a task of another channel leaves the channel's line as it is. */
  lemma OtherChannel(s: State, s': State, t: nat, channel: string)
    requires Inv(s) && t < |s.tasks| && s.tasks[t].channel != channel
    requires s'.queues == s.queues && |s'.locks| == |s.locks| && |s'.tasks| == |s.tasks|
    requires forall l :: 0 <= l < |s.locks| && l != s.tasks[t].lock ==> s'.locks[l] == s.locks[l]
    requires forall u :: 0 <= u < |s.tasks| && u != t ==> s'.tasks[u] == s.tasks[u]
    ensures WaitingFor(s', channel) == WaitingFor(s, channel)
  {
    hide WaitingOk;
    if channel in s.queues && s.locks[s.queues[channel]].waiting != [] {
      InLine(s, s.queues[channel], 0);
    }
  }

  lemma RequestJoinsLine(s: State, t: nat)
    requires Inv(s) && Enabled(s, Request(t))
    ensures WaitingFor(Act(s, Request(t)), s.tasks[t].channel) == WaitingFor(s, s.tasks[t].channel) + [t]
  {
    hide WaitingOk;
    var waiting := s.locks[s.tasks[t].lock].waiting;
    if waiting != [] {
      InLine(s, s.tasks[t].lock, 0);
      assert (waiting + [t])[1..] == waiting[1..] + [t];
    } else {
      assert waiting + [t] == [t];
    }
  }

  lemma GrantLeavesLine(s: State, t: nat)
    requires Inv(s) && Enabled(s, Grant(t))
    ensures WaitingFor(s, s.tasks[t].channel) == [t] + WaitingFor(Act(s, Grant(t)), s.tasks[t].channel)
  {
    hide WaitingOk;
    var waiting := s.locks[s.tasks[t].lock].waiting;
    assert waiting == [t] + waiting[1..];
  }

  lemma RequestKeepsOrder(s: State, t: nat, channel: string)
    requires Inv(s) && Enabled(s, Request(t)) && InOrder(s, channel)
    requires var s' := Act(s, Request(t));
             && Of(s', s.requested, channel) == Of(s, s.requested, channel)
             && Of(s', s.started, channel) == Of(s, s.started, channel)
    ensures InOrder(Act(s, Request(t)), channel)
  {
    var s' := Act(s, Request(t));
    OfLast(s', s.requested, t, channel);
    if s.tasks[t].channel == channel { RequestJoinsLine(s, t); } else { OtherChannel(s, s', t, channel); }
    hide Inv, Of, WaitingFor, Unstarted;
    JoinEnd(Of(s, s.started, channel), WaitingFor(s, channel), t);
  }

  lemma JoinEnd(started: seq<nat>, waiting: seq<nat>, t: nat)
    ensures started + waiting + [t] == started + (waiting + [t])
    ensures started + waiting + [] == started + waiting
  {
  }

  lemma GrantKeepsOrder(s: State, t: nat, channel: string)
    requires Inv(s) && Enabled(s, Grant(t)) && InOrder(s, channel)
    requires var s' := Act(s, Grant(t));
             && Of(s', s.requested, channel) == Of(s, s.requested, channel)
             && Of(s', s.started, channel) == Of(s, s.started, channel)
    ensures InOrder(Act(s, Grant(t)), channel)
  {
    var s' := Act(s, Grant(t));
    OfLast(s', s.started, t, channel);
    if s.tasks[t].channel == channel { GrantLeavesLine(s, t); } else { OtherChannel(s, s', t, channel); }
    hide Inv, Of, WaitingFor, Unstarted;
    MoveOver(Of(s, s.started, channel), t, WaitingFor(s', channel));
  }

  lemma MoveOver(started: seq<nat>, t: nat, waiting: seq<nat>)
    ensures started + ([t] + waiting) == started + [t] + waiting
    ensures started + [] == started
  {
  }

  lemma CompleteKeepsOrder(s: State, t: nat, channel: string)
    requires Inv(s) && Enabled(s, Complete(t)) && InOrder(s, channel)
    requires var s' := Act(s, Complete(t));
             && Of(s', s.requested, channel) == Of(s, s.requested, channel)
             && Of(s', s.started, channel) == Of(s, s.started, channel)
    ensures InOrder(Act(s, Complete(t)), channel)
  {
    hide WaitingOk;
    var s' := Act(s, Complete(t));
    var waiting := s.locks[s.tasks[t].lock].waiting;
    RunningIsFirst(s, t);
    if s.tasks[t].channel == channel {
      if |waiting| > 1 { InLine(s, s.tasks[t].lock, 1); }
      assert WaitingFor(s', channel) == WaitingFor(s, channel);
    } else {
      OtherChannel(s, s', t, channel);
    }
  }

  /** In every run the tasks of a channel start in the order in which they requested its lock. */
  lemma {:induction false} TasksRunInRequestOrder(actions: seq<Action>, channel: string)
    ensures var s := After(actions);
            Known(s) && Of(s, s.started, channel) <= Of(s, s.requested, channel) && InOrder(s, channel)
    decreases |actions|
  {
    if actions != [] {
      var s, a := After(actions[..|actions| - 1]), actions[|actions| - 1];
      TasksRunInRequestOrder(actions[..|actions| - 1], channel);
      InvAfter(actions[..|actions| - 1]);
      if Enabled(s, a) { StepKeepsOrder(s, a, channel); }
    }
  }

  const OVERTAKING: seq<Action> := [Enqueue("C1"), Enqueue("C1"), Request(1), Grant(1)]

  lemma AfterExtends(actions: seq<Action>, a: Action)
    ensures After(actions + [a]) == if Enabled(After(actions), a) then Act(After(actions), a) else After(actions)
  {
    assert (actions + [a])[..|actions|] == actions;
  }

  /** That is not the order of enqueueing: a later task whose spawned future runs first overtakes an earlier one. */
  lemma LaterTaskMayOvertake()
    ensures After(OVERTAKING).tasks == [Task("C1", 0, Spawned), Task("C1", 0, Running)]
    ensures After(OVERTAKING).started == [1]
  {
    AfterExtends([], OVERTAKING[0]);
    AfterExtends([] + [OVERTAKING[0]], OVERTAKING[1]);
    AfterExtends([] + [OVERTAKING[0]] + [OVERTAKING[1]], OVERTAKING[2]);
    AfterExtends([] + [OVERTAKING[0]] + [OVERTAKING[1]] + [OVERTAKING[2]], OVERTAKING[3]);
    assert [] + [OVERTAKING[0]] + [OVERTAKING[1]] + [OVERTAKING[2]] + [OVERTAKING[3]] == OVERTAKING;
  }
}
