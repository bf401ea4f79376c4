/** src/bridge/presence_handler.rs: a round-robin queue of presences, at most one per user. */
module PresenceModel {
  import opened Prelude

  datatype SlackState = Online | Dnd | Idle | Offline

  datatype Activity = Activity(kind: string, name: string, url: Option<string>)

  datatype Presence = Presence(user: string, username: Option<string>, state: SlackState, activities: seq<Activity>)

  datatype MatrixState = MatrixOnline | MatrixOffline | MatrixUnavailable

  datatype Decision = Decision(presence: MatrixState, status: string, shouldDrop: bool)

  /** `capitalize` upper-cases the first character and lower-cases the rest. */
  function ActivityStatus(p: Presence, capitalize: string -> string): string {
    if p.activities == [] then "" else
    var a := p.activities[0];
    (if a.kind == "" then a.name else capitalize(a.kind) + " " + a.name)
    + if a.url.Some? then " | " + a.url.value else ""
  }

  function MapPresence(p: Presence, capitalize: string -> string): Decision {
    var status := ActivityStatus(p, capitalize);
    match p.state
    case Online => Decision(MatrixOnline, status, false)
    case Dnd => Decision(MatrixOnline, if status == "" then "Do not disturb" else "Do not disturb | " + status, false)
    case Offline => Decision(MatrixOffline, status, true)
    case Idle => Decision(MatrixUnavailable, status, false)
  }

  /**
   Online and do-not-disturb users are shown as online, idle ones as unavailable, offline ones as offline and dropped;
   the first activity is the status, with a notice in front for do-not-disturb users.
   */
  lemma PresenceIsMapped(p: Presence, capitalize: string -> string)
    ensures var d := MapPresence(p, capitalize);
            var status := StatusOf(p.activities, capitalize);
            && (d.presence == MatrixOnline <==> p.state.Online? || p.state.Dnd?)
            && (d.presence == MatrixUnavailable <==> p.state.Idle?)
            && (d.presence == MatrixOffline <==> p.state.Offline?) && (d.shouldDrop <==> p.state.Offline?)
            && (p.state.Dnd? && status == "" ==> d.status == "Do not disturb")
            && (p.state.Dnd? && status != "" ==> d.status == "Do not disturb | " + status)
            && (!p.state.Dnd? ==> d.status == status)
  {
  }

  /** Kind and name of the first activity, and its address behind a bar. */
  function StatusOf(activities: seq<Activity>, capitalize: string -> string): string {
    if activities == [] then "" else
    match activities[0]
    case Activity(kind, name, url) =>
      var what := if kind == "" then name else capitalize(kind) + " " + name;
      if url.None? then what else what + " | " + url.value
  }

  type Queue = seq<Presence>

  /** `retain` of every entry that is not the user's. */
  function Without(q: Queue, user: string): Queue {
    if q == [] then []
    else Without(q[..|q| - 1], user) + if q[|q| - 1].user == user then [] else [q[|q| - 1]]
  }

  function Enqueued(bot: Option<string>, q: Queue, p: Presence): Queue {
    if bot == Some(p.user) then q else Without(q, p.user) + [p]
  }

  function Kept(q: Queue): Queue {
    if q == [] then []
    else Kept(q[..|q| - 1]) + if q[|q| - 1].state.Offline? then [] else [q[|q| - 1]]
  }

  /** One queued entry per user, and none for the bot. */
  ghost predicate Fair(bot: Option<string>, q: Queue) {
    && (forall i, j :: 0 <= i < j < |q| ==> q[i].user != q[j].user)
    && (forall i :: 0 <= i < |q| ==> bot != Some(q[i].user))
  }

  // ------------------------------------------------------------------ the handler

  class PresenceHandler {
    const bot: Option<string>
    var queue: Queue
    var handled: Queue

    constructor (bot: Option<string>)
      ensures this.bot == bot && queue == [] && handled == [] && Fair(bot, queue)
    {
      this.bot := bot;
      queue, handled := [], [];
    }

    method Retain(user: string)
      modifies this
      ensures queue == Without(old(queue), user) && handled == old(handled)
    {
      var kept: Queue := [];
      var i := 0;
      while i < |queue|
        invariant 0 <= i <= |queue| && queue == old(queue) && handled == old(handled)
        invariant kept == Without(queue[..i], user)
      {
        assert queue[..i + 1][..i] == queue[..i];
        if queue[i].user != user {
          kept := kept + [queue[i]];
        }
        i := i + 1;
      }
      assert queue[..i] == queue;
      queue := kept;
    }

    method EnqueueUser(p: Presence)
      requires Fair(bot, queue)
      modifies this
      ensures queue == Enqueued(bot, old(queue), p) && handled == old(handled) && Fair(bot, queue)
    {
      EnqueueKeepsFair(bot, queue, p);
      if bot == Some(p.user) { return; }
      Retain(p.user);
      queue := queue + [p];
    }

    method DequeueUser(user: string) returns (removed: bool)
      requires Fair(bot, queue)
      modifies this
      ensures queue == Without(old(queue), user) && handled == old(handled) && Fair(bot, queue)
      ensures removed <==> exists i :: 0 <= i < |old(queue)| && old(queue)[i].user == user
    {
      WithoutIsShorter(queue, user);
      WithoutKeepsFair(bot, queue, user);
      var before := |queue|;
      Retain(user);
      removed := before != |queue|;
    }

    /** `process_next` run without interruption. */
    method ProcessNext(capitalize: string -> string) returns (any: bool)
      requires Fair(bot, queue)
      modifies this
      ensures any <==> old(queue) != []
      ensures (queue, handled) == Processed(bot, old(queue), old(handled)) && Fair(bot, queue)
    {
      if queue == [] { return false; }
      var p := queue[0];
      queue := queue[1..];
      handled := handled + [p];
      if !MapPresence(p, capitalize).shouldDrop {
        EnqueueUser(p);
      }
      any := true;
    }
  }

  function Processed(bot: Option<string>, q: Queue, handled: Queue): (Queue, Queue) {
    if q == [] then (q, handled)
    else (if q[0].state.Offline? then q[1..] else Enqueued(bot, q[1..], q[0]), handled + [q[0]])
  }

  // ------------------------------------------------------------------ what filtering keeps

  /** Another user's entry is kept, and never moves back. */
  lemma {:induction false} WithoutKeeps(q: Queue, user: string, i: nat) returns (j: nat)
    requires i < |q| && q[i].user != user
    ensures j <= i && j < |Without(q, user)| && Without(q, user)[j] == q[i]
    decreases |q|
  {
    var n := |q| - 1;
    if i < n {
      j := WithoutKeeps(q[..n], user, i);
    } else {
      j := |Without(q[..n], user)|;
      WithoutIsShorter(q[..n], user);
    }
  }

  lemma {:induction false} WithoutIsShorter(q: Queue, user: string)
    ensures |Without(q, user)| <= |q|
    ensures |Without(q, user)| == |q| <==> forall i :: 0 <= i < |q| ==> q[i].user != user
    decreases |q|
  {
    if q != [] {
      var n := |q| - 1;
      WithoutIsShorter(q[..n], user);
      assert forall i :: 0 <= i < n ==> q[..n][i] == q[i];
    }
  }

  /** Nothing else is kept. */
  lemma {:induction false} WithoutOnly(q: Queue, user: string)
    ensures forall e :: e in Without(q, user) ==> e in q && e.user != user
    decreases |q|
  {
    if q != [] {
      WithoutOnly(q[..|q| - 1], user);
    }
  }

  /** A fair queue with one more entry: a fair queue without that entry's user. */
  lemma FairLast(bot: Option<string>, before: Queue, e: Presence)
    ensures Fair(bot, before + [e])
        <==> Fair(bot, before) && bot != Some(e.user) && forall x :: x in before ==> x.user != e.user
  {
    var q := before + [e];
    if Fair(bot, q) {
      assert forall i :: 0 <= i < |before| ==> q[i] == before[i];
      assert q[|before|] == e;
    }
  }

  lemma {:induction false} WithoutKeepsFair(bot: Option<string>, q: Queue, user: string)
    requires Fair(bot, q)
    ensures Fair(bot, Without(q, user))
    decreases |q|
  {
    hide Fair;
    if q != [] {
      var n := |q| - 1;
      assert q == q[..n] + [q[n]];
      FairLast(bot, q[..n], q[n]);
      WithoutKeepsFair(bot, q[..n], user);
      WithoutOnly(q[..n], user);
      FairLast(bot, Without(q[..n], user), q[n]);
      assert Without(q[..n], user) + [] == Without(q[..n], user);
    }
  }

  lemma EnqueueKeepsFair(bot: Option<string>, q: Queue, p: Presence)
    requires Fair(bot, q)
    ensures Fair(bot, Enqueued(bot, q, p)) && Fair(bot, Without(q, p.user))
  {
    var rest := Without(q, p.user);
    WithoutKeepsFair(bot, q, p.user);
    WithoutOnly(q, p.user);
    assert forall j :: 0 <= j < |rest| ==> rest[j] in rest;
  }

  lemma {:induction false} WithoutAbsent(q: Queue, user: string)
    requires forall i :: 0 <= i < |q| ==> q[i].user != user
    ensures Without(q, user) == q
    decreases |q|
  {
    if q != [] {
      WithoutAbsent(q[..|q| - 1], user);
      assert q == q[..|q| - 1] + [q[|q| - 1]];
    }
  }

  // ------------------------------------------------------------------ any interleaving

  /** Entries taken from the queue whose Matrix call is still running are in flight. */
  datatype State = State(queue: Queue, inFlight: Queue, handled: Queue)

  datatype Action = Enqueue(p: Presence) | Dequeue(user: string) | Pop | Finish(i: nat)

  predicate Enabled(s: State, a: Action) {
    a.Finish? ==> a.i < |s.inFlight|
  }

  function Act(bot: Option<string>, s: State, a: Action): State
    requires Enabled(s, a)
  {
    match a
    case Enqueue(p) => s.(queue := Enqueued(bot, s.queue, p))
    case Dequeue(user) => s.(queue := Without(s.queue, user))
    case Pop =>
      if s.queue == [] then s
      else State(s.queue[1..], s.inFlight + [s.queue[0]], s.handled + [s.queue[0]])
    case Finish(i) =>
      var p := s.inFlight[i];
      State(if p.state.Offline? then s.queue else Enqueued(bot, s.queue, p),
            s.inFlight[..i] + s.inFlight[i + 1..], s.handled)
  }

  function After(bot: Option<string>, s: State, actions: seq<Action>): State {
    if actions == [] then s else
    var before, a := After(bot, s, actions[..|actions| - 1]), actions[|actions| - 1];
    if Enabled(before, a) then Act(bot, before, a) else before
  }

  /** Under any interleaving no user is queued twice. */
  lemma {:induction false} NobodyQueuedTwice(bot: Option<string>, s: State, actions: seq<Action>)
    requires Fair(bot, s.queue)
    ensures Fair(bot, After(bot, s, actions).queue)
    decreases |actions|
  {
    if actions != [] {
      NobodyQueuedTwice(bot, s, actions[..|actions| - 1]);
      var before, a := After(bot, s, actions[..|actions| - 1]), actions[|actions| - 1];
      match a
      case Enqueue(p) => EnqueueKeepsFair(bot, before.queue, p);
      case Dequeue(user) => WithoutKeepsFair(bot, before.queue, user);
      case Pop =>
      case Finish(i) => if i < |before.inFlight| { EnqueueKeepsFair(bot, before.queue, before.inFlight[i]); }
    }
  }

  function Pops(actions: seq<Action>): nat {
    if actions == [] then 0
    else Pops(actions[..|actions| - 1]) + if actions[|actions| - 1].Pop? then 1 else 0
  }

  /** Action `k` of the run enqueues, removes or re-enqueues the user. */
  predicate Touches(bot: Option<string>, s: State, actions: seq<Action>, k: nat, user: string)
    requires k < |actions|
  {
    match actions[k]
    case Enqueue(p) => p.user == user
    case Dequeue(u) => u == user
    case Pop => false
    case Finish(i) =>
      var before := After(bot, s, actions[..k]);
      i < |before.inFlight| && before.inFlight[i].user == user
  }

  /** The entry waits at position `i` or earlier. */
  ghost predicate WaitsWithin(q: Queue, p: Presence, i: int) {
    exists j :: 0 <= j <= i && j < |q| && q[j] == p
  }

  /**
   No starvation: an entry at position `i` has been handled once `i + 1` later calls of `process_next` have popped,
   whatever happens to other users meanwhile, as long as the user is not re-enqueued or removed.
   */
  lemma {:induction false} HandledInTurn(bot: Option<string>, s: State, actions: seq<Action>, i: nat)
    requires i < |s.queue|
    requires forall k :: 0 <= k < |actions| ==> !Touches(bot, s, actions, k, s.queue[i].user)
    ensures var s', p := After(bot, s, actions), s.queue[i];
            && |s.handled| <= |s'.handled|
            && (p in s'.handled[|s.handled|..] || WaitsWithin(s'.queue, p, i - Pops(actions)))
    ensures Pops(actions) > i ==> s.queue[i] in After(bot, s, actions).handled[|s.handled|..]
    decreases |actions|
  {
    var p := s.queue[i];
    if actions != [] {
      var n := |actions| - 1;
      var init := actions[..n];
      forall k | 0 <= k < n ensures !Touches(bot, s, init, k, p.user) {
        assert init[..k] == actions[..k];
        assert !Touches(bot, s, actions, k, p.user);
      }
      HandledInTurn(bot, s, init, i);
      var before := After(bot, s, init);
      if Enabled(before, actions[n]) {
        assert !Touches(bot, s, actions, n, p.user);
        WaitStep(bot, before, actions[n], p, |s.handled|, i - Pops(init));
      }
    }
  }

  lemma WaitStep(bot: Option<string>, s: State, a: Action, p: Presence, from: nat, i: int)
    requires Enabled(s, a) && from <= |s.handled|
    requires a.Enqueue? ==> a.p.user != p.user
    requires a.Dequeue? ==> a.user != p.user
    requires a.Finish? ==> s.inFlight[a.i].user != p.user
    requires p in s.handled[from..] || WaitsWithin(s.queue, p, i)
    ensures var s' := Act(bot, s, a);
            && from <= |s'.handled|
            && (p in s'.handled[from..] || WaitsWithin(s'.queue, p, if a.Pop? then i - 1 else i))
  {
    var s' := Act(bot, s, a);
    if p in s.handled[from..] {
      assert s'.handled[from..][..|s.handled| - from] == s.handled[from..];
    } else {
      var j :| 0 <= j <= i && j < |s.queue| && s.queue[j] == p;
      match a
      case Enqueue(e) => FilterKeepsWaiting(s.queue, e.user, p, i);
      case Dequeue(user) => FilterKeepsWaiting(s.queue, user, p, i);
      case Finish(k) => FilterKeepsWaiting(s.queue, s.inFlight[k].user, p, i);
      case Pop =>
        if j == 0 {
          assert s'.handled[from..][|s.handled| - from] == p;
        } else {
          assert s'.queue[j - 1] == p;
        }
    }
  }

  lemma FilterKeepsWaiting(q: Queue, user: string, p: Presence, i: int)
    requires WaitsWithin(q, p, i) && p.user != user
    ensures WaitsWithin(Without(q, user), p, i)
    ensures forall e :: WaitsWithin(Without(q, user) + [e], p, i)
  {
    var j :| 0 <= j <= i && j < |q| && q[j] == p;
    var k := WithoutKeeps(q, user, j);
    forall e ensures WaitsWithin(Without(q, user) + [e], p, i) {
      assert (Without(q, user) + [e])[k] == p;
    }
  }

  // ------------------------------------------------------------------ one undisturbed round

  function Rounds(bot: Option<string>, q: Queue, handled: Queue, n: nat): (Queue, Queue) {
    if n == 0 then (q, handled)
    else var (q', h') := Rounds(bot, q, handled, n - 1); Processed(bot, q', h')
  }

  lemma {:induction false} KeptIsPart(q: Queue)
    ensures forall e :: e in Kept(q) ==> e in q
    decreases |q|
  {
    if q != [] {
      KeptIsPart(q[..|q| - 1]);
      assert q == q[..|q| - 1] + [q[|q| - 1]];
    }
  }

  /** One call on a queue whose first entry is not queued again behind it. */
  lemma ProcessedFirst(bot: Option<string>, p: Presence, rest: Queue, handled: Queue)
    requires bot != Some(p.user) && forall j :: 0 <= j < |rest| ==> rest[j].user != p.user
    ensures Processed(bot, [p] + rest, handled) == (if p.state.Offline? then rest else rest + [p], handled + [p])
  {
    WithoutAbsent(rest, p.user);
    assert ([p] + rest)[1..] == rest;
  }

  lemma KeptLast(done: Queue, p: Presence)
    ensures Kept(done + [p]) == if p.state.Offline? then Kept(done) else Kept(done) + [p]
  {
    assert (done + [p])[..|done|] == done;
  }

  /** The entries behind the first one: those still to come, and those kept from before. */
  lemma OthersInRound(bot: Option<string>, done: Queue, p: Presence, later: Queue)
    requires Fair(bot, done + [p] + later)
    ensures bot != Some(p.user)
    ensures forall j :: 0 <= j < |later + Kept(done)| ==> (later + Kept(done))[j].user != p.user
  {
    var q, others := done + [p] + later, later + Kept(done);
    assert q[|done|] == p;
    KeptIsPart(done);
    forall j | 0 <= j < |others| ensures others[j].user != p.user {
      if j < |later| {
        assert q[|done| + 1 + j] == others[j];
      } else {
        assert others[j] in Kept(done);
        var k :| 0 <= k < |done| && done[k] == others[j];
        assert q[k] == others[j];
      }
    }
  }

  /** A round with `done` behind it, one step on. */
  lemma RoundStep(bot: Option<string>, done: Queue, p: Presence, later: Queue, handled: Queue)
    requires Fair(bot, done + [p] + later)
    ensures Processed(bot, [p] + later + Kept(done), handled + done)
            == (later + Kept(done + [p]), handled + (done + [p]))
  {
    hide Kept, Processed, Fair;
    OthersInRound(bot, done, p, later);
    ProcessedFirst(bot, p, later + Kept(done), handled + done);
    KeptLast(done, p);
    assert [p] + later + Kept(done) == [p] + (later + Kept(done));
    assert later + Kept(done) + [p] == later + (Kept(done) + [p]);
    assert handled + done + [p] == handled + (done + [p]);
  }

  lemma {:induction false} PartOfRound(bot: Option<string>, q: Queue, handled: Queue, n: nat)
    requires Fair(bot, q) && n <= |q|
    ensures Rounds(bot, q, handled, n) == (q[n..] + Kept(q[..n]), handled + q[..n])
    decreases n
  {
    if n == 0 {
      assert q[0..] + Kept(q[..0]) == q && handled + q[..0] == handled;
    } else {
      hide Kept, Processed, Fair;
      PartOfRound(bot, q, handled, n - 1);
      SplitAt(q, n - 1);
      RoundStep(bot, q[..n - 1], q[n - 1], q[n..], handled);
    }
  }

  lemma SplitAt(q: Queue, n: nat)
    requires n < |q|
    ensures q == q[..n] + [q[n]] + q[n + 1..] && q[..n + 1] == q[..n] + [q[n]] && q[n..] == [q[n]] + q[n + 1..]
  {
  }

  /** A full round handles every entry once, in order, and leaves exactly the entries that are not Offline, in order. */
  lemma FullRound(bot: Option<string>, q: Queue)
    requires Fair(bot, q)
    ensures Rounds(bot, q, [], |q|) == (Kept(q), q)
  {
    PartOfRound(bot, q, [], |q|);
    assert q[..|q|] == q && q[|q|..] + Kept(q) == Kept(q) && [] + q == q;
  }

  // ------------------------------------------------------------------ what an interleaving can lose

  /**
   When the call for a presence taken earlier finishes, a presence of the same user that was enqueued meanwhile stays
   in the queue exactly if the older one was Offline (or is the same): otherwise the older one replaces it.
   */
  lemma FinishReplacesNewerPresence(bot: Option<string>, s: State, i: nat, newer: Presence)
    requires Fair(bot, s.queue) && i < |s.inFlight|
    requires newer in s.queue && newer.user == s.inFlight[i].user
    ensures newer in Act(bot, s, Finish(i)).queue <==> s.inFlight[i].state.Offline? || s.inFlight[i] == newer
    ensures !s.inFlight[i].state.Offline? ==>
            Act(bot, s, Finish(i)).queue == Without(s.queue, newer.user) + [s.inFlight[i]]
  {
    var older := s.inFlight[i];
    var k :| 0 <= k < |s.queue| && s.queue[k] == newer;
    WithoutOnly(s.queue, older.user);
    var rest := Without(s.queue, older.user);
    assert forall p :: p in rest + [older] <==> p in rest || p == older;
  }

  lemma AfterExtends(bot: Option<string>, s: State, actions: seq<Action>, a: Action)
    ensures After(bot, s, actions + [a])
         == if Enabled(After(bot, s, actions), a) then Act(bot, After(bot, s, actions), a) else After(bot, s, actions)
  {
    assert (actions + [a])[..|actions|] == actions;
  }

  /** The shortest such run, with one user and one call in flight. */
  lemma NewerPresenceIsLost(bot: Option<string>, older: Presence, newer: Presence)
    requires older.user == newer.user && bot != Some(newer.user) && older != newer && !older.state.Offline?
    ensures newer !in After(bot, State([older], [], []), [Pop] + [Enqueue(newer)] + [Finish(0)]).queue
  {
    var start, waiting := State([older], [], []), State([newer], [older], [older]);
    AfterExtends(bot, start, [], Pop);
    assert [] + [Pop] == [Pop] && [older][1..] == [];
    AfterExtends(bot, start, [Pop], Enqueue(newer));
    assert After(bot, start, [Pop] + [Enqueue(newer)]) == waiting;
    AfterExtends(bot, start, [Pop] + [Enqueue(newer)], Finish(0));
    FinishReplacesNewerPresence(bot, waiting, 0, newer);
  }
}
