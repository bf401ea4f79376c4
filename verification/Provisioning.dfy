/**
 src/bridge/provisioning.rs: bridge requests wait for an answer given in Slack.  A request parks the sending half of
 a one-shot channel in `pending`; an answer first takes the sender out of the map and only then sends, so that new
 asks, answers, failed prompts and timers race between the two.
 */
module ProvisioningModel {
  import opened Prelude

  datatype Outcome = Approved | Declined | Cancelled | DeliveryFailed | TimedOut

  datatype Phase =
    | Prompting            // the prompt is being sent to Slack
    | PromptFailed         // it could not be sent; the cleanup is still to come
    | Waiting              // waiting for the decision or the timer
    | TimerFired           // the timer won; the receiver is gone, the cleanup is still to come
    | Returned(outcome: Outcome)

  /** Where the one sender of an ask is. */
  datatype Sender =
    | Parked               // in the pending map
    | Taken(answer: nat)   // removed from the map by an answer that has not sent yet
    | Sent(allow: bool)    // the decision was delivered
    | Lost                 // sent after the receiver was gone
    | Dropped              // replaced or cleaned up without an answer

  datatype Ask = Ask(channel: string, phase: Phase, sender: Sender)

  /** A call of `mark_approval`; `target` is the ask whose sender it removed, `None` for `Expired`. */
  datatype Answer = Answer(channel: string, allow: bool, target: Option<nat>, sent: bool)

  datatype State = State(pending: map<string, nat>, asks: seq<Ask>, answers: seq<Answer>)

  datatype Action =
    | BeginAsk(channel: string)
    | PromptDelivered(a: nat)
    | PromptFails(a: nat)
    | CleanUpFailed(a: nat)
    | Receive(a: nat)
    | TimerFires(a: nat)
    | CleanUpTimedOut(a: nat)
    | TakePending(channel: string, allow: bool)
    | SendDecision(i: nat)

  const IDLE := State(map[], [], [])

  predicate InPhase(s: State, a: nat, phase: Phase) {
    a < |s.asks| && s.asks[a].phase == phase
  }

  predicate Enabled(s: State, act: Action) {
    match act
    case BeginAsk(_) => true
    case PromptDelivered(a) => InPhase(s, a, Prompting)
    case PromptFails(a) => InPhase(s, a, Prompting)
    case CleanUpFailed(a) => InPhase(s, a, PromptFailed)
    case Receive(a) => InPhase(s, a, Waiting) && (s.asks[a].sender.Sent? || s.asks[a].sender.Dropped?)
    case TimerFires(a) => InPhase(s, a, Waiting)
    case CleanUpTimedOut(a) => InPhase(s, a, TimerFired)
    case TakePending(_, _) => true
    case SendDecision(i) => i < |s.answers| && s.answers[i].target.Some? && !s.answers[i].sent
  }

  function SetPhase(s: State, a: nat, phase: Phase): State
    requires a < |s.asks|
  {
    s.(asks := s.asks[a := s.asks[a].(phase := phase)])
  }

  function SetSender(asks: seq<Ask>, a: nat, sender: Sender): seq<Ask> {
    if a < |asks| then asks[a := asks[a].(sender := sender)] else asks
  }

  /** `pending.lock().remove(channel)`, dropping whatever sender was parked under the channel. */
  function RemovePending(s: State, channel: string): State {
    if channel !in s.pending then s
    else s.(pending := s.pending - {channel}, asks := SetSender(s.asks, s.pending[channel], Dropped))
  }

  predicate ReceiverGone(phase: Phase) {
    phase == TimerFired || phase.Returned?
  }

  function Decision(allow: bool): Outcome {
    if allow then Approved else Declined
  }

  function Act(s: State, act: Action): State
    requires Enabled(s, act)
  {
    match act
    case BeginAsk(channel) =>
      var replaced := RemovePending(s, channel);
      replaced.(pending := replaced.pending[channel := |s.asks|],
                asks := replaced.asks + [Ask(channel, Prompting, Parked)])
    case PromptDelivered(a) => SetPhase(s, a, Waiting)
    case PromptFails(a) => SetPhase(s, a, PromptFailed)
    case CleanUpFailed(a) =>
      SetPhase(RemovePending(s, s.asks[a].channel), a, Returned(DeliveryFailed))
    case Receive(a) =>
      SetPhase(s, a, Returned(if s.asks[a].sender.Sent? then Decision(s.asks[a].sender.allow) else Cancelled))
    case TimerFires(a) => SetPhase(s, a, TimerFired)
    case CleanUpTimedOut(a) => SetPhase(RemovePending(s, s.asks[a].channel), a, Returned(TimedOut))
    case TakePending(channel, allow) =>
      if channel !in s.pending then s.(answers := s.answers + [Answer(channel, allow, None, false)])
      else
        var a := s.pending[channel];
        State(s.pending - {channel}, SetSender(s.asks, a, Taken(|s.answers|)),
              s.answers + [Answer(channel, allow, Some(a), false)])
    case SendDecision(i) =>
      var answer := s.answers[i];
      var a := answer.target.value;
      var gone := a < |s.asks| && ReceiverGone(s.asks[a].phase);
      s.(asks := SetSender(s.asks, a, if gone then Lost else Sent(answer.allow)),
         answers := s.answers[i := answer.(sent := true)])
  }

  function Next(s: State, act: Action): State {
    if Enabled(s, act) then Act(s, act) else s
  }

  /** The state after a list of actions; one that is not enabled when its turn comes is skipped. */
  function After(actions: seq<Action>): State {
    if actions == [] then IDLE
    else Next(After(actions[..|actions| - 1]), actions[|actions| - 1])
  }

  // ------------------------------------------------------------------ invariant

  /** An ask's sender is parked exactly when the map points at the ask. */
  ghost predicate MapOwns(s: State) {
    && (forall c :: c in s.pending ==> s.pending[c] < |s.asks| && s.asks[s.pending[c]].channel == c)
    && (forall a :: 0 <= a < |s.asks| ==>
          (s.asks[a].sender.Parked? <==> s.asks[a].channel in s.pending && s.pending[s.asks[a].channel] == a))
  }

  /** An ask's sender is taken exactly by the answer that targets the ask and has not sent. */
  ghost predicate AnswersOwn(s: State) {
    && (forall a :: 0 <= a < |s.asks| && s.asks[a].sender.Taken? ==>
          var i := s.asks[a].sender.answer;
          i < |s.answers| && s.answers[i].target == Some(a) && !s.answers[i].sent)
    && (forall i :: 0 <= i < |s.answers| && s.answers[i].target.Some? ==> AnswerOk(s, i))
  }

  /** What became of the ask an answer removed from the map. */
  ghost predicate AnswerOk(s: State, i: nat)
    requires i < |s.answers| && s.answers[i].target.Some?
  {
    var answer, a := s.answers[i], s.answers[i].target.value;
    && a < |s.asks| && s.asks[a].channel == answer.channel
    && (if !answer.sent then s.asks[a].sender == Taken(i)
        else s.asks[a].sender == Sent(answer.allow) || (s.asks[a].sender == Lost && ReceiverGone(s.asks[a].phase)))
  }

  /** No two answers remove the same ask. */
  ghost predicate AnswersDistinct(s: State) {
    forall i, j :: 0 <= i < j < |s.answers| && s.answers[i].target.Some? ==> s.answers[i].target != s.answers[j].target
  }

  /** A delivered decision was sent by some answer. */
  ghost predicate SentByAnswer(s: State) {
    forall a :: 0 <= a < |s.asks| && (s.asks[a].sender.Sent? || s.asks[a].sender.Lost?) ==> HasAnswer(s, a)
  }

  ghost predicate HasAnswer(s: State, a: nat) {
    exists i :: 0 <= i < |s.answers| && s.answers[i].target == Some(a) && s.answers[i].sent
  }

  ghost predicate PhaseOk(ask: Ask) {
    && (ask.sender.Lost? ==>
          ask.phase == TimerFired || ask.phase == Returned(TimedOut) || ask.phase == Returned(DeliveryFailed))
    && (ask.phase.Returned? ==> !ask.sender.Parked?)
    && (ask.phase == Returned(Approved) ==> ask.sender == Sent(true))
    && (ask.phase == Returned(Declined) ==> ask.sender == Sent(false))
    && (ask.phase == Returned(Cancelled) ==> ask.sender.Dropped?)
  }

  ghost predicate Inv(s: State) {
    MapOwns(s) && AnswersOwn(s) && AnswersDistinct(s) && SentByAnswer(s)
    && forall a :: 0 <= a < |s.asks| ==> PhaseOk(s.asks[a])
  }

  lemma AnswersStay(s: State, s': State)
    requires SentByAnswer(s) && s'.answers == s.answers
    requires forall a :: 0 <= a < |s'.asks| && (s'.asks[a].sender.Sent? || s'.asks[a].sender.Lost?) ==>
               a < |s.asks| && s'.asks[a].sender == s.asks[a].sender
    ensures SentByAnswer(s')
  {
    forall a | 0 <= a < |s.asks| && HasAnswer(s, a) ensures HasAnswer(s', a) {}
  }

  lemma RemovalKeepsOwners(s: State, channel: string)
    requires MapOwns(s) && AnswersOwn(s)
    ensures var s' := RemovePending(s, channel); MapOwns(s') && AnswersOwn(s')
    ensures forall a :: 0 <= a < |s.asks| && s.asks[a].channel == channel ==>
              !RemovePending(s, channel).asks[a].sender.Parked?
  {
    var s' := RemovePending(s, channel);
    forall i | 0 <= i < |s'.answers| && s'.answers[i].target.Some? ensures AnswerOk(s', i) {
      assert AnswerOk(s, i);
    }
  }

  lemma RemovalKeepsInv(s: State, channel: string)
    requires Inv(s)
    ensures Inv(RemovePending(s, channel))
    ensures forall a :: 0 <= a < |s.asks| && s.asks[a].channel == channel ==>
              !RemovePending(s, channel).asks[a].sender.Parked?
  {
    hide AnswersOwn, SentByAnswer;
    RemovalKeepsOwners(s, channel);
    AnswersStay(s, RemovePending(s, channel));
  }

  lemma PhaseKeepsInv(s: State, a: nat, phase: Phase)
    requires Inv(s) && a < |s.asks| && PhaseOk(s.asks[a].(phase := phase))
    requires ReceiverGone(s.asks[a].phase) ==> ReceiverGone(phase)
    ensures Inv(SetPhase(s, a, phase))
  {
    var s' := SetPhase(s, a, phase);
    AnswersStay(s, s');
  }

  /** A new ask is parked in the place of its channel, which is free. */
  lemma NewAskKeepsOwners(s: State, channel: string)
    requires MapOwns(s) && AnswersOwn(s)
    requires forall a :: 0 <= a < |s.asks| && s.asks[a].channel == channel ==> !s.asks[a].sender.Parked?
    ensures var s' := s.(pending := s.pending[channel := |s.asks|], asks := s.asks + [Ask(channel, Prompting, Parked)]);
            MapOwns(s') && AnswersOwn(s')
  {
    var s' := s.(pending := s.pending[channel := |s.asks|], asks := s.asks + [Ask(channel, Prompting, Parked)]);
    forall i | 0 <= i < |s'.answers| && s'.answers[i].target.Some? ensures AnswerOk(s', i) {
      assert AnswerOk(s, i);
    }
  }

  lemma BeginKeepsInv(s: State, channel: string)
    requires Inv(s)
    ensures Inv(Act(s, BeginAsk(channel)))
  {
    hide MapOwns, AnswersOwn, SentByAnswer, RemovePending;
    RemovalKeepsInv(s, channel);
    var r := RemovePending(s, channel);
    assert |r.asks| == |s.asks| && forall a :: 0 <= a < |s.asks| ==> r.asks[a].channel == s.asks[a].channel by {
      RemovalKeepsChannels(s, channel);
    }
    NewAskKeepsOwners(r, channel);
    AnswersStay(r, Act(s, BeginAsk(channel)));
  }

  lemma RemovalKeepsChannels(s: State, channel: string)
    ensures |RemovePending(s, channel).asks| == |s.asks|
    ensures forall a :: 0 <= a < |s.asks| ==> RemovePending(s, channel).asks[a].channel == s.asks[a].channel
  {
  }

  lemma ExpiredKeepsInv(s: State, channel: string, allow: bool)
    requires Inv(s) && channel !in s.pending
    ensures Inv(Act(s, TakePending(channel, allow)))
  {
    var s' := Act(s, TakePending(channel, allow));
    forall i | 0 <= i < |s'.answers| && s'.answers[i].target.Some? ensures AnswerOk(s', i) {
      assert AnswerOk(s, i);
    }
    forall a | 0 <= a < |s.asks| && HasAnswer(s, a) ensures HasAnswer(s', a) {
      var j :| 0 <= j < |s.answers| && s.answers[j].target == Some(a) && s.answers[j].sent;
      assert s'.answers[j] == s.answers[j];
    }
  }

  /** Nobody has answered an ask whose sender is still parked. */
  lemma ParkedIsUnanswered(s: State, a: nat, i: nat)
    requires AnswersOwn(s) && a < |s.asks| && s.asks[a].sender.Parked? && i < |s.answers|
    ensures s.answers[i].target != Some(a)
  {
  }

  lemma TakingKeepsInv(s: State, channel: string, allow: bool)
    requires Inv(s) && channel in s.pending
    ensures Inv(Act(s, TakePending(channel, allow)))
  {
    var a, n := s.pending[channel], |s.answers|;
    var s' := Act(s, TakePending(channel, allow));
    assert s.asks[a].sender.Parked? && s.asks[a].channel == channel && PhaseOk(s.asks[a]);
    assert s'.asks == s.asks[a := s.asks[a].(sender := Taken(n))];
    forall i | 0 <= i < n ensures s'.answers[i] == s.answers[i] && s.answers[i].target != Some(a) {
      ParkedIsUnanswered(s, a, i);
    }
    assert MapOwns(s');
    assert AnswersDistinct(s');
    forall i | 0 <= i < |s'.answers| && s'.answers[i].target.Some? ensures AnswerOk(s', i) {
      if i < n { assert AnswerOk(s, i); }
    }
    assert AnswersOwn(s');
    forall b | 0 <= b < |s'.asks| && (s'.asks[b].sender.Sent? || s'.asks[b].sender.Lost?) ensures HasAnswer(s', b) {
      assert HasAnswer(s, b);
      var j :| 0 <= j < n && s.answers[j].target == Some(b) && s.answers[j].sent;
      assert s'.answers[j] == s.answers[j];
    }
  }

  lemma SendKeepsInv(s: State, i: nat)
    requires Inv(s) && Enabled(s, SendDecision(i))
    ensures Inv(Act(s, SendDecision(i)))
  {
    var s' := Act(s, SendDecision(i));
    var t := s.answers[i].target.value;
    assert AnswerOk(s, i) && PhaseOk(s.asks[t]) && s.asks[t].sender == Taken(i);
    assert s.asks[t].phase.Returned? ==>
           s.asks[t].phase.outcome == TimedOut || s.asks[t].phase.outcome == DeliveryFailed by {
      if s.asks[t].phase.Returned? { match s.asks[t].phase.outcome case _ => }
    }
    assert forall j :: 0 <= j < |s.answers| ==> s'.answers[j].target == s.answers[j].target;
    assert s'.answers[i].target == Some(t) && s'.answers[i].sent;
    forall a | 0 <= a < |s.asks| && HasAnswer(s, a) ensures HasAnswer(s', a) {
      var j :| 0 <= j < |s.answers| && s.answers[j].target == Some(a) && s.answers[j].sent;
      assert s'.answers[j].sent;
    }
  }

  lemma ActKeepsInv(s: State, act: Action)
    requires Inv(s) && Enabled(s, act)
    ensures Inv(Act(s, act))
  {
    match act
    case BeginAsk(channel) => BeginKeepsInv(s, channel);
    case PromptDelivered(a) => PhaseKeepsInv(s, a, Waiting);
    case PromptFails(a) => PhaseKeepsInv(s, a, PromptFailed);
    case TimerFires(a) => PhaseKeepsInv(s, a, TimerFired);
    case Receive(a) =>
      PhaseKeepsInv(s, a, Returned(if s.asks[a].sender.Sent? then Decision(s.asks[a].sender.allow) else Cancelled));
    case CleanUpFailed(a) =>
      RemovalKeepsInv(s, s.asks[a].channel);
      PhaseKeepsInv(RemovePending(s, s.asks[a].channel), a, Returned(DeliveryFailed));
    case CleanUpTimedOut(a) =>
      RemovalKeepsInv(s, s.asks[a].channel);
      PhaseKeepsInv(RemovePending(s, s.asks[a].channel), a, Returned(TimedOut));
    case TakePending(channel, allow) =>
      if channel in s.pending { TakingKeepsInv(s, channel, allow); } else { ExpiredKeepsInv(s, channel, allow); }
    case SendDecision(i) => SendKeepsInv(s, i);
  }

  lemma {:induction false} InvAfter(actions: seq<Action>)
    ensures Inv(After(actions))
    decreases |actions|
  {
    if actions != [] {
      InvAfter(actions[..|actions| - 1]);
      if Enabled(After(actions[..|actions| - 1]), actions[|actions| - 1]) {
        ActKeepsInv(After(actions[..|actions| - 1]), actions[|actions| - 1]);
      }
    }
  }

  // ------------------------------------------------------------------ what requesters and answerers may rely on

  /** The map never holds an entry of an ask that has returned. */
  lemma PendingAsksAreOpen(actions: seq<Action>, channel: string)
    requires channel in After(actions).pending
    ensures var s := After(actions);
            var a := s.pending[channel];
            a < |s.asks| && s.asks[a].channel == channel && s.asks[a].sender.Parked? && !s.asks[a].phase.Returned?
  {
    InvAfter(actions);
    var s := After(actions);
    assert PhaseOk(s.asks[s.pending[channel]]);
  }

  /** An undecided sender has exactly one owner: either the map or one answer that still has to send. */
  lemma OneOwner(actions: seq<Action>, a: nat)
    requires a < |After(actions).asks|
    requires var sender := After(actions).asks[a].sender; sender.Parked? || sender.Taken?
    ensures var s := After(actions);
            var inMap := exists c :: c in s.pending && s.pending[c] == a;
            var owners := set i | 0 <= i < |s.answers| && s.answers[i].target == Some(a) && !s.answers[i].sent;
            if inMap then owners == {} else exists i :: owners == {i}
  {
    InvAfter(actions);
    var s := After(actions);
    var owners := set i | 0 <= i < |s.answers| && s.answers[i].target == Some(a) && !s.answers[i].sent;
    if s.asks[a].sender.Parked? {
      assert s.pending[s.asks[a].channel] == a;
      assert owners == {};
    } else {
      forall i | i in owners ensures i == s.asks[a].sender.answer {
        assert AnswerOk(s, i);
      }
      assert owners == {s.asks[a].sender.answer};
    }
  }

  /** An ask that ends approved or declined is decided by exactly one answer, given in its channel. */
  lemma DecidedByOneAnswer(actions: seq<Action>, a: nat, allow: bool)
    requires a < |After(actions).asks| && After(actions).asks[a].phase == Returned(Decision(allow))
    ensures var s := After(actions);
            exists i :: 0 <= i < |s.answers|
              && s.answers[i] == Answer(s.asks[a].channel, allow, Some(a), true)
              && forall j :: 0 <= j < |s.answers| && s.answers[j].target == Some(a) ==> j == i
  {
    InvAfter(actions);
    var s := After(actions);
    assert PhaseOk(s.asks[a]) && s.asks[a].sender == Sent(allow);
    assert HasAnswer(s, a);
    var i :| 0 <= i < |s.answers| && s.answers[i].target == Some(a) && s.answers[i].sent;
    assert AnswerOk(s, i);
  }

  /** An `Applied` answer is obeyed, unless that ask's prompt failed or its timer had fired. */
  lemma AppliedAnswerIsObeyed(actions: seq<Action>, i: nat)
    requires i < |After(actions).answers| && After(actions).answers[i].target.Some?
    requires var s := After(actions);
             s.answers[i].target.value < |s.asks| && s.asks[s.answers[i].target.value].phase.Returned?
    ensures var s := After(actions);
            var outcome := s.asks[s.answers[i].target.value].phase.outcome;
            outcome == Decision(s.answers[i].allow) || outcome == DeliveryFailed || outcome == TimedOut
  {
    InvAfter(actions);
    var s := After(actions);
    assert AnswerOk(s, i) && PhaseOk(s.asks[s.answers[i].target.value]);
  }

  /** Once sent to a waiting ask, a decision is what the ask receives next. */
  lemma WaitingAskReceivesDecision(actions: seq<Action>, i: nat)
    requires i < |After(actions).answers| && After(actions).answers[i].target.Some? && After(actions).answers[i].sent
    requires InPhase(After(actions), After(actions).answers[i].target.value, Waiting)
    ensures var s := After(actions);
            var a := s.answers[i].target.value;
            Enabled(s, Receive(a)) && Act(s, Receive(a)).asks[a].phase == Returned(Decision(s.answers[i].allow))
  {
    InvAfter(actions);
    var s := After(actions);
    assert AnswerOk(s, i) && PhaseOk(s.asks[s.answers[i].target.value]);
  }

  // ------------------------------------------------------------------ cancelled asks

  /** The action removes the entry of the channel from the map without answering it. */
  predicate Removes(s: State, act: Action, channel: string)
    requires Enabled(s, act)
  {
    match act
    case BeginAsk(c) => c == channel
    case CleanUpFailed(a) => s.asks[a].channel == channel
    case CleanUpTimedOut(a) => s.asks[a].channel == channel
    case _ => false
  }

  /** An ask loses its sender unanswered exactly when its entry is in the map and its channel's entry is removed. */
  lemma DroppedExactly(s: State, act: Action, b: nat)
    requires Inv(s) && Enabled(s, act) && b < |s.asks| && !s.asks[b].sender.Dropped?
    ensures b < |Act(s, act).asks|
    ensures Act(s, act).asks[b].sender.Dropped? <==> s.asks[b].sender.Parked? && Removes(s, act, s.asks[b].channel)
  {
    hide AnswersOwn, AnswersDistinct, SentByAnswer, PhaseOk;
  }

  /**
   Both clean-ups, of a failed prompt and of a fired timer, touch another ask exactly when the map holds that ask for
   their channel: they never look whose entry they remove.
   */
  lemma CleanUpTouchesExactly(s: State, a: nat, b: nat, act: Action)
    requires Inv(s) && Enabled(s, act) && (act == CleanUpFailed(a) || act == CleanUpTimedOut(a))
    requires b < |s.asks| && b != a
    ensures b < |Act(s, act).asks|
    ensures Act(s, act).asks[b].sender != s.asks[b].sender <==>
              s.asks[a].channel in s.pending && s.pending[s.asks[a].channel] == b
  {
    hide AnswersOwn, AnswersDistinct, SentByAnswer, PhaseOk;
  }

  /** The entry of a channel is its newest ask, so an ask touched by another's clean-up is newer than that other. */
  ghost predicate PendingIsNewest(s: State) {
    forall c, x :: c in s.pending && 0 <= x < |s.asks| && s.asks[x].channel == c ==> x <= s.pending[c]
  }

  lemma {:induction false} NewestIsPending(actions: seq<Action>)
    ensures PendingIsNewest(After(actions))
    decreases |actions|
  {
    if actions != [] {
      var before := actions[..|actions| - 1];
      NewestIsPending(before);
      if Enabled(After(before), actions[|actions| - 1]) { NewestStep(After(before), actions[|actions| - 1]); }
    }
  }

  lemma NewestStep(s: State, act: Action)
    requires Enabled(s, act) && PendingIsNewest(s)
    ensures PendingIsNewest(Act(s, act))
  {
    var s' := Act(s, act);
    assert |s.asks| <= |s'.asks| && forall x :: 0 <= x < |s.asks| ==> s'.asks[x].channel == s.asks[x].channel;
  }

  /** In every run: a clean-up that finds another ask's entry cancels that ask, which is newer and still undecided. */
  lemma CleanUpCancelsNewerAsk(actions: seq<Action>, a: nat, b: nat, act: Action)
    requires var s := After(actions);
             && Enabled(s, act) && (act == CleanUpFailed(a) || act == CleanUpTimedOut(a))
             && b != a && s.asks[a].channel in s.pending && s.pending[s.asks[a].channel] == b
    ensures var s, s' := After(actions), Act(After(actions), act);
            && a < b < |s.asks| && s.asks[b].sender.Parked? && s'.asks[b].sender.Dropped?
            && s'.asks[b].phase == s.asks[b].phase
            && (s'.asks[b].phase == Waiting ==>
                  Enabled(s', Receive(b)) && Act(s', Receive(b)).asks[b].phase == Returned(Cancelled))
  {
    InvAfter(actions);
    NewestIsPending(actions);
    var s := After(actions);
    assert s.asks[b].sender.Parked?;
    DroppedExactly(s, act, b);
  }

  /** A decision arrives exactly if the ask still listens: it has not returned and its timer has not fired. */
  lemma DecisionArrivesExactly(s: State, i: nat)
    requires Enabled(s, SendDecision(i)) && s.answers[i].target.value < |s.asks|
    ensures var a, s' := s.answers[i].target.value, Act(s, SendDecision(i));
            var phase := s.asks[a].phase;
            && (s'.asks[a].sender == Sent(s.answers[i].allow) <==>
                  phase == Prompting || phase == PromptFailed || phase == Waiting)
            && (s'.asks[a].sender == Lost <==> phase == TimerFired || phase.Returned?)
            && s'.asks[a].phase == phase && s'.answers[i].sent && s'.pending == s.pending
  {
  }

  /** Once dropped, a sender stays dropped, and an ask that has returned keeps its outcome. */
  lemma DroppedStays(s: State, act: Action, b: nat)
    requires Inv(s) && Enabled(s, act) && b < |s.asks|
    ensures b < |Act(s, act).asks|
    ensures s.asks[b].sender.Dropped? ==> Act(s, act).asks[b].sender.Dropped?
    ensures s.asks[b].phase.Returned? ==> Act(s, act).asks[b].phase == s.asks[b].phase
  {
    if act.SendDecision? { assert AnswerOk(s, act.i); }
  }

  predicate CleanedUp(phase: Phase) {
    phase == Returned(DeliveryFailed) || phase == Returned(TimedOut)
  }

  /** Action `k` took the parked sender of `b`: a newer ask of its channel, or the clean-up of another ask. */
  ghost predicate CancelledAt(actions: seq<Action>, k: nat, b: nat) {
    && k < |actions| && Enabled(After(actions[..k]), actions[k])
    && var s, act := After(actions[..k]), actions[k];
       && b < |s.asks| && s.asks[b].sender.Parked? && Removes(s, act, s.asks[b].channel)
       && act != CleanUpFailed(b) && act != CleanUpTimedOut(b)
  }

  /** An ask loses its sender, other than by its own clean-up, only in that way. */
  lemma {:induction false} DroppedAtSomeStep(actions: seq<Action>, b: nat) returns (k: nat)
    requires b < |After(actions).asks| && After(actions).asks[b].sender.Dropped?
    requires !CleanedUp(After(actions).asks[b].phase)
    ensures CancelledAt(actions, k, b)
    decreases |actions|
  {
    var n := |actions| - 1;
    var s := After(actions[..n]);
    InvAfter(actions[..n]);
    if !Enabled(s, actions[n]) || (b < |s.asks| && s.asks[b].sender.Dropped?) {
      if Enabled(s, actions[n]) { DroppedStays(s, actions[n], b); }
      k := DroppedAtSomeStep(actions[..n], b);
      assert actions[..n][..k] == actions[..k] && actions[..n][k] == actions[k];
    } else {
      NewAskIsParked(s, actions[n], b);
      DroppedExactly(s, actions[n], b);
      k := n;
    }
  }

  lemma NewAskIsParked(s: State, act: Action, b: nat)
    requires Enabled(s, act)
    ensures b < |Act(s, act).asks| && !Act(s, act).asks[b].sender.Parked? ==> b < |s.asks|
  {
  }

  /** An ask ends cancelled only if, while it was parked, a newer ask began or another's clean-up ran in its channel. */
  lemma CancelledOnlyByOthers(actions: seq<Action>, b: nat) returns (k: nat)
    requires b < |After(actions).asks| && After(actions).asks[b].phase == Returned(Cancelled)
    ensures CancelledAt(actions, k, b)
  {
    InvAfter(actions);
    assert PhaseOk(After(actions).asks[b]);
    k := DroppedAtSomeStep(actions, b);
  }

  /** And after such a step the ask can no longer be approved or declined, however the run goes on. */
  lemma {:induction false} CancelledIsUndecided(actions: seq<Action>, k: nat, b: nat)
    requires CancelledAt(actions, k, b)
    ensures b < |After(actions).asks| && After(actions).asks[b].sender.Dropped?
    ensures After(actions).asks[b].phase != Returned(Approved) && After(actions).asks[b].phase != Returned(Declined)
    decreases |actions|
  {
    var n := |actions| - 1;
    var s := After(actions[..n]);
    InvAfter(actions[..n]);
    if k == n {
      DroppedExactly(s, actions[n], b);
    } else {
      assert actions[..n][..k] == actions[..k] && actions[..n][k] == actions[k];
      CancelledIsUndecided(actions[..n], k, b);
      if Enabled(s, actions[n]) { DroppedStays(s, actions[n], b); }
    }
    InvAfter(actions);
    assert PhaseOk(After(actions).asks[b]);
  }

  /** The ask's own prompt fails or its own timer fires: nobody will receive its decision any more. */
  predicate GivesUp(act: Action, b: nat) {
    act == PromptFails(b) || act == TimerFires(b)
  }

  ghost predicate GivenUpAt(actions: seq<Action>, k: nat, b: nat) {
    k < |actions| && Enabled(After(actions[..k]), actions[k]) && GivesUp(actions[k], b)
  }

  predicate GivenUp(s: State, b: nat) {
    && b < |s.asks|
    && var phase := s.asks[b].phase; phase == PromptFailed || phase == TimerFired || CleanedUp(phase)
  }

  lemma RemovalKeepsPhases(s: State, channel: string, b: nat)
    ensures GivenUp(RemovePending(s, channel), b) <==> GivenUp(s, b)
    ensures |RemovePending(s, channel).asks| == |s.asks|
  {
  }

  lemma GivenUpStep(s: State, act: Action, b: nat)
    ensures GivenUp(Next(s, act), b) <==> GivenUp(s, b) || (Enabled(s, act) && GivesUp(act, b))
  {
    hide RemovePending;
    if act.BeginAsk? {
      RemovalKeepsPhases(s, act.channel, b);
    } else if act.CleanUpFailed? && Enabled(s, act) {
      RemovalKeepsPhases(s, s.asks[act.a].channel, b);
    } else if act.CleanUpTimedOut? && Enabled(s, act) {
      RemovalKeepsPhases(s, s.asks[act.a].channel, b);
    }
  }

  /** The phases of failure are those of the asks whose prompt failed or whose timer fired in the run. */
  lemma {:induction false} GivenUpExactly(actions: seq<Action>, b: nat)
    ensures GivenUp(After(actions), b) <==> exists k :: GivenUpAt(actions, k, b)
    decreases |actions|
  {
    hide Enabled, GivesUp, Next;
    if actions != [] {
      var n := |actions| - 1;
      GivenUpExactly(actions[..n], b);
      GivenUpStep(After(actions[..n]), actions[n], b);
      GivenUpEarlier(actions, b);
    }
  }

  lemma GivenUpEarlier(actions: seq<Action>, b: nat)
    requires actions != []
    ensures var n := |actions| - 1;
            (exists k :: GivenUpAt(actions, k, b)) <==>
              (exists k :: GivenUpAt(actions[..n], k, b)) || GivenUpAt(actions, n, b)
  {
    var n := |actions| - 1;
    forall k: nat | k < n ensures GivenUpAt(actions, k, b) <==> GivenUpAt(actions[..n], k, b) {
      assert actions[..n][..k] == actions[..k];
    }
  }

  /**
   A returned ask was cancelled exactly when a newer ask or the clean-up of another took its sender at some step of the
   run, and at no step its own prompt failed or its own timer fired.
   */
  lemma CancelledExactly(actions: seq<Action>, b: nat)
    requires b < |After(actions).asks| && After(actions).asks[b].phase.Returned?
    ensures After(actions).asks[b].phase == Returned(Cancelled) <==>
              && (exists k :: CancelledAt(actions, k, b))
              && !(exists k :: GivenUpAt(actions, k, b))
  {
    GivenUpExactly(actions, b);
    if After(actions).asks[b].phase == Returned(Cancelled) {
      var k := CancelledOnlyByOthers(actions, b);
    } else if exists k :: CancelledAt(actions, k, b) {
      var k :| CancelledAt(actions, k, b);
      CancelledIsUndecided(actions, k, b);
      var outcome := After(actions).asks[b].phase.outcome;
      assert outcome == Cancelled || outcome == DeliveryFailed || outcome == TimedOut;
    }
  }

  const PROMPT_RACE: seq<Action> := [BeginAsk("C1"), PromptFails(0), BeginAsk("C1"), PromptDelivered(1)]
  const TIMER_RACE: seq<Action> :=
    [BeginAsk("C1"), PromptDelivered(0), TimerFires(0), BeginAsk("C1"), PromptDelivered(1)]

  lemma AfterExtends(actions: seq<Action>, act: Action)
    ensures After(actions + [act]) == Next(After(actions), act)
  {
    assert (actions + [act])[..|actions|] == actions;
  }

  lemma AfterPromptRace()
    ensures After(PROMPT_RACE)
            == State(map["C1" := 1], [Ask("C1", PromptFailed, Dropped), Ask("C1", Waiting, Parked)], [])
  {
    var r := [PROMPT_RACE[0]] + [PROMPT_RACE[1]];
    AfterExtends([], PROMPT_RACE[0]);
    assert [] + [PROMPT_RACE[0]] == [PROMPT_RACE[0]];
    AfterExtends([PROMPT_RACE[0]], PROMPT_RACE[1]);
    AfterExtends(r, PROMPT_RACE[2]);
    AfterExtends(r + [PROMPT_RACE[2]], PROMPT_RACE[3]);
    assert r + [PROMPT_RACE[2]] + [PROMPT_RACE[3]] == PROMPT_RACE;
  }

  lemma AfterTimerRace()
    ensures After(TIMER_RACE) == State(map["C1" := 1], [Ask("C1", TimerFired, Dropped), Ask("C1", Waiting, Parked)], [])
  {
    var r := [TIMER_RACE[0]] + [TIMER_RACE[1]];
    AfterExtends([], TIMER_RACE[0]);
    assert [] + [TIMER_RACE[0]] == [TIMER_RACE[0]];
    AfterExtends([TIMER_RACE[0]], TIMER_RACE[1]);
    AfterExtends(r, TIMER_RACE[2]);
    AfterExtends(r + [TIMER_RACE[2]], TIMER_RACE[3]);
    AfterExtends(r + [TIMER_RACE[2]] + [TIMER_RACE[3]], TIMER_RACE[4]);
    assert r + [TIMER_RACE[2]] + [TIMER_RACE[3]] + [TIMER_RACE[4]] == TIMER_RACE;
  }

  /** A run in which the clean-up after a failed prompt cancels a newer ask. */
  lemma FailedPromptCanCancelANewerAsk()
    ensures After(PROMPT_RACE + [CleanUpFailed(0)] + [Receive(1)]).asks
         == [Ask("C1", Returned(DeliveryFailed), Dropped), Ask("C1", Returned(Cancelled), Dropped)]
  {
    AfterPromptRace();
    AfterExtends(PROMPT_RACE, CleanUpFailed(0));
    AfterExtends(PROMPT_RACE + [CleanUpFailed(0)], Receive(1));
  }

  /** A run in which the clean-up after a timeout does. */
  lemma TimeoutCanCancelANewerAsk()
    ensures After(TIMER_RACE + [CleanUpTimedOut(0)] + [Receive(1)]).asks
         == [Ask("C1", Returned(TimedOut), Dropped), Ask("C1", Returned(Cancelled), Dropped)]
  {
    AfterTimerRace();
    AfterExtends(TIMER_RACE, CleanUpTimedOut(0));
    AfterExtends(TIMER_RACE + [CleanUpTimedOut(0)], Receive(1));
  }

  // ------------------------------------------------------------------ the coordinator object

  datatype ApprovalResponseStatus = Applied | Expired

  /** Each method is one critical section on `pending` together with what its caller then does. */
  class ProvisioningCoordinator {
    var pending: map<string, nat>
    var asks: seq<Ask>
    var answers: seq<Answer>

    ghost function Current(): State
      reads this
    {
      State(pending, asks, answers)
    }

    constructor ()
      ensures Current() == IDLE
    {
      pending, asks, answers := map[], [], [];
    }

    method RemoveEntry(channel: string)
      modifies this
      ensures Current() == RemovePending(old(Current()), channel)
    {
      if channel in pending {
        var a := pending[channel];
        pending := pending - {channel};
        asks := SetSender(asks, a, Dropped);
      }
    }

    method Begin(channel: string) returns (a: nat)
      modifies this
      ensures Current() == Act(old(Current()), BeginAsk(channel)) && a == |old(asks)|
    {
      RemoveEntry(channel);
      a := |asks|;
      pending := pending[channel := a];
      asks := asks + [Ask(channel, Prompting, Parked)];
    }

    method FailDelivery(a: nat) returns (outcome: Outcome)
      requires Enabled(Current(), CleanUpFailed(a))
      modifies this
      ensures Current() == Act(old(Current()), CleanUpFailed(a)) && outcome == DeliveryFailed
    {
      RemoveEntry(asks[a].channel);
      outcome := DeliveryFailed;
      asks := asks[a := asks[a].(phase := Returned(outcome))];
    }

    method Expire(a: nat) returns (outcome: Outcome)
      requires Enabled(Current(), CleanUpTimedOut(a))
      modifies this
      ensures Current() == Act(old(Current()), CleanUpTimedOut(a)) && outcome == TimedOut
    {
      RemoveEntry(asks[a].channel);
      outcome := TimedOut;
      asks := asks[a := asks[a].(phase := Returned(outcome))];
    }

    predicate HasPendingRequest(channel: string)
      reads this
    {
      channel in pending
    }

    /** `mark_approval` run without interruption: take the sender, then send through it. */
    method MarkApproval(channel: string, allow: bool) returns (status: ApprovalResponseStatus)
      requires forall c :: c in pending ==> pending[c] < |asks|
      modifies this
      ensures status == if old(HasPendingRequest(channel)) then Applied else Expired
      ensures var taken := Act(old(Current()), TakePending(channel, allow));
              Current() == if status == Applied then Act(taken, SendDecision(|old(answers)|)) else taken
    {
      if !HasPendingRequest(channel) {
        answers := answers + [Answer(channel, allow, None, false)];
        return Expired;
      }
      var a := pending[channel];
      pending := pending - {channel};
      asks := SetSender(asks, a, if ReceiverGone(asks[a].phase) then Lost else Sent(allow));
      answers := answers + [Answer(channel, allow, Some(a), true)];
      status := Applied;
    }
  }
}
