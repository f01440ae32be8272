/** Chats and their cancellation (apps/daemon/src/ipc.rs, apps/daemon/src/interaction_service.rs): three
    critical sections on a registry of senders around one busy service lock, as interleaved steps. A chat's
    connection task names it; its sender and receiver are named by the chat. */
module ChatCancellation {
  import opened Prelude

  type RequestId(==, !new)
  type ChatId = nat

  datatype Outcome = Cancelled | Answered

  datatype Phase =
    | Rejected                      // the identifier was already active
    | Waiting                       // registered, waiting for the service lock
    | Running                       // in the handler, before any provider call
    | Calling                       // selecting between the provider and the signal
    | Draining                      // the sender was dropped: only the provider is awaited
    | Finishing(outcome: Outcome)   // writing the answer, still in the handler
    | Returned(outcome: Outcome)    // handler left, receiver dropped, service lock released
    | Done(outcome: Outcome)        // unregistered

  datatype Chat = Chat(id: RequestId, phase: Phase, signal: bool) {
    predicate InHandler() {
      phase.Running? || phase.Calling? || phase.Draining? || phase.Finishing?
    }

    predicate ReceiverAlive() {
      phase.Waiting? || InHandler()
    }

    predicate Unfinished() {
      ReceiverAlive() || phase.Returned?
    }

    predicate EndedCancelled() {
      (phase.Finishing? || phase.Returned? || phase.Done?) && phase.outcome.Cancelled?
    }
  }

  datatype Lock = Free | HeldBy(chat: ChatId) | HeldElsewhere

  datatype State = State(registry: map<RequestId, ChatId>, chats: map<ChatId, Chat>, lock: Lock) {
    predicate At(t: ChatId, phase: Phase) {
      t in chats && chats[t].phase == phase
    }

    function To(t: ChatId, phase: Phase): State
      requires t in chats
    {
      this.(chats := chats[t := chats[t].(phase := phase)])
    }

    predicate SenderAlive(t: ChatId) {
      t in chats && chats[t].id in registry && registry[chats[t].id] == t
    }

    /** What a cancellation naming `id` answers now. */
    predicate Requested(id: RequestId) {
      id in registry && registry[id] in chats && chats[registry[id]].ReceiverAlive()
    }
  }

  const START := State(map[], map[], Free)

  datatype Step =
    | Register(chat: ChatId, id: RequestId)
    | Acquire(chat: ChatId)
    | AnswerLocally(chat: ChatId)
    | BeginCall(chat: ChatId)
    | ProviderAnswers(chat: ChatId)
    | SeeChange(chat: ChatId)
    | Return(chat: ChatId)
    | Unregister(chat: ChatId)
    | Cancel(id: RequestId)
    | OtherLocks
    | OtherUnlocks

  /** One step; a step that is not enabled changes nothing. */
  function Next(s: State, step: Step): State {
    match step
    case Register(t, id) =>
      if t in s.chats then s
      else if id in s.registry then s.(chats := s.chats[t := Chat(id, Rejected, false)])
      else s.(registry := s.registry[id := t], chats := s.chats[t := Chat(id, Waiting, false)])
    case Acquire(t) =>
      if s.At(t, Waiting) && s.lock.Free? then s.To(t, Running).(lock := HeldBy(t)) else s
    case AnswerLocally(t) =>
      if s.At(t, Running) then s.To(t, Finishing(Answered)) else s
    case BeginCall(t) =>
      if !s.At(t, Running) then s
      else if s.chats[t].signal then s.To(t, Finishing(Cancelled))
      else s.To(t, Calling)
    case ProviderAnswers(t) =>
      if s.At(t, Calling) || s.At(t, Draining) then s.To(t, Finishing(Answered)) else s
    case SeeChange(t) =>
      if !s.At(t, Calling) then s
      else if s.chats[t].signal then s.To(t, Finishing(Cancelled))
      else if !s.SenderAlive(t) then s.To(t, Draining)
      else s
    case Return(t) =>
      if t in s.chats && s.chats[t].phase.Finishing? then s.To(t, Returned(s.chats[t].phase.outcome)).(lock := Free) else s
    case Unregister(t) =>
      if t in s.chats && s.chats[t].phase.Returned?
      then s.To(t, Done(s.chats[t].phase.outcome)).(registry := s.registry - {s.chats[t].id})
      else s
    case Cancel(id) =>
      var taken := s.(registry := s.registry - {id});
      if s.Requested(id) then taken.(chats := s.chats[s.registry[id] := s.chats[s.registry[id]].(signal := true)]) else taken
    case OtherLocks => if s.lock.Free? then s.(lock := HeldElsewhere) else s
    case OtherUnlocks => if s.lock.HeldElsewhere? then s.(lock := Free) else s
  }

  function Run(steps: seq<Step>): State {
    if steps == [] then START else Next(Run(steps[..|steps| - 1]), steps[|steps| - 1])
  }

  /** The critical sections of `dispatch_request`, each under the registry lock and none under the service
      lock. */
  class Daemon {
    var state: State

    constructor ()
      ensures state == START
    {
      state := START;
    }

    method BeginChat(t: ChatId, id: RequestId) returns (accepted: bool)
      requires t !in state.chats
      modifies this
      ensures state == Next(old(state), Register(t, id))
      ensures accepted <==> id !in old(state).registry
      ensures accepted <==> state.SenderAlive(t) && state.At(t, Waiting)
      ensures !accepted ==> state.At(t, Rejected) && state.registry == old(state).registry
    {
      if id in state.registry {
        state := state.(chats := state.chats[t := Chat(id, Rejected, false)]);
        return false;
      }
      state := state.(registry := state.registry[id := t], chats := state.chats[t := Chat(id, Waiting, false)]);
      return true;
    }

    method EndChat(t: ChatId)
      requires t in state.chats && state.chats[t].phase.Returned?
      modifies this
      ensures state == Next(old(state), Unregister(t))
    {
      var chat := state.chats[t];
      state := state.(registry := state.registry - {chat.id}, chats := state.chats[t := chat.(phase := Done(chat.phase.outcome))]);
    }

    method CancelChat(id: RequestId) returns (requested: bool)
      requires Inv(state)
      modifies this
      ensures state == Next(old(state), Cancel(id))
      ensures requested <==> old(state).Requested(id)
    {
      requested := false;
      if id in state.registry {
        assert EntryOk(state, id);
        var t := state.registry[id];
        state := state.(registry := state.registry - {id});
        if state.chats[t].ReceiverAlive() {
          state := state.(chats := state.chats[t := state.chats[t].(signal := true)]);
          requested := true;
        }
      } else {
        assert state.registry - {id} == state.registry;
      }
    }
  }

  // ---- What every interleaving keeps ----

  ghost predicate EntryOk(s: State, id: RequestId)
    requires id in s.registry
  {
    var t := s.registry[id];
    t in s.chats && s.chats[t].id == id && s.chats[t].Unfinished() && !s.chats[t].signal
  }

  ghost predicate ChatOk(s: State, t: ChatId)
    requires t in s.chats
  {
    && (s.lock == HeldBy(t) <==> s.chats[t].InHandler())
    && (s.chats[t].EndedCancelled() ==> s.chats[t].signal)
    && (s.chats[t].phase.Draining? ==> !s.SenderAlive(t) && !s.chats[t].signal)
  }

  ghost predicate Inv(s: State) {
    && (forall id | id in s.registry :: EntryOk(s, id))
    && (forall t | t in s.chats :: ChatOk(s, t))
    && (s.lock.HeldBy? ==> s.lock.chat in s.chats)
  }

  lemma NextKeepsEntries(s: State, step: Step)
    requires Inv(s)
    ensures forall id | id in Next(s, step).registry :: EntryOk(Next(s, step), id)
  {
    var n := Next(s, step);
    forall id | id in n.registry ensures EntryOk(n, id) {
      if id in s.registry {
        assert EntryOk(s, id);
      }
    }
  }

  lemma NextKeepsChats(s: State, step: Step)
    requires Inv(s)
    ensures forall t | t in Next(s, step).chats :: ChatOk(Next(s, step), t)
  {
    var n := Next(s, step);
    forall t | t in n.chats ensures ChatOk(n, t) {
      if t in s.chats {
        assert ChatOk(s, t);
      }
      if step.Cancel? && step.id in s.registry {
        assert EntryOk(s, step.id);
      }
    }
  }

  lemma NextKeepsInv(s: State, step: Step)
    requires Inv(s)
    ensures Inv(Next(s, step))
  {
    NextKeepsEntries(s, step);
    NextKeepsChats(s, step);
  }

  /** In every interleaving a registry entry belongs to an unfinished chat that has not been signalled, and at
      most one chat is in the handler. */
  lemma {:induction false} EntriesBelongToUnfinishedChats(steps: seq<Step>)
    ensures Inv(Run(steps))
  {
    if steps != [] {
      EntriesBelongToUnfinishedChats(steps[..|steps| - 1]);
      NextKeepsInv(Run(steps[..|steps| - 1]), steps[|steps| - 1]);
    }
  }

  /** A waiting chat enters the handler exactly if no chat and no other request holds the service lock, and holds it then;
      and another request takes the lock exactly if it is free. */
  lemma EntersExactlyWhenFree(s: State, t: ChatId)
    requires s.At(t, Waiting)
    ensures Next(s, Acquire(t)).chats[t].InHandler() <==> s.lock.Free?
    ensures Next(s, Acquire(t)).chats[t].InHandler() ==> Next(s, Acquire(t)).lock == HeldBy(t)
    ensures Next(s, OtherLocks).lock == if s.lock.Free? then HeldElsewhere else s.lock
    ensures Next(s, OtherUnlocks).lock == if s.lock.HeldElsewhere? then Free else s.lock
  {
  }

  /** Somewhere in the run a cancellation naming the chat's identifier took the chat's own sender while its
      receiver was alive. */
  predicate CancelReached(steps: seq<Step>, t: ChatId) {
    steps != [] &&
    var front, step := steps[..|steps| - 1], steps[|steps| - 1];
    Reaches(Run(front), step, t) || CancelReached(front, t)
  }

  predicate Takes(s: State, step: Step, t: ChatId) {
    step.Cancel? && s.SenderAlive(t) && s.chats[t].id == step.id
  }

  predicate Reaches(s: State, step: Step, t: ChatId) {
    Takes(s, step, t) && s.chats[t].ReceiverAlive()
  }

  /** As `CancelReached`, also counting a cancellation that came after the handler returned. */
  predicate CancelTook(steps: seq<Step>, t: ChatId) {
    steps != [] &&
    var front, step := steps[..|steps| - 1], steps[|steps| - 1];
    Takes(Run(front), step, t) || CancelTook(front, t)
  }

  lemma SignalStep(s: State, step: Step, t: ChatId)
    requires Inv(s) && t in Next(s, step).chats
    ensures Next(s, step).chats[t].signal <==> (t in s.chats && s.chats[t].signal) || Reaches(s, step, t)
  {
    if step.Cancel? && step.id in s.registry {
      assert EntryOk(s, step.id);
    }
  }

  /** Somewhere in the run another chat with the same identifier unregistered this chat's sender. */
  predicate DroppedByOther(steps: seq<Step>, t: ChatId) {
    steps != [] &&
    var front, step := steps[..|steps| - 1], steps[|steps| - 1];
    Drops(Run(front), step, t) || DroppedByOther(front, t)
  }

  predicate Drops(s: State, step: Step, t: ChatId) {
    && step.Unregister? && step.chat != t && s.SenderAlive(t)
    && step.chat in s.chats && s.chats[step.chat].phase.Returned? && s.chats[step.chat].id == s.chats[t].id
  }

  lemma SenderStep(s: State, step: Step, t: ChatId)
    requires Inv(s) && t in Next(s, step).chats && Next(s, step).chats[t].Unfinished()
    requires t in s.chats ==> s.SenderAlive(t)
    ensures Next(s, step).SenderAlive(t) || Takes(s, step, t) || Drops(s, step, t)
  {
  }

  lemma UnfinishedStep(s: State, step: Step, t: ChatId)
    requires t in s.chats && Next(s, step).chats[t].Unfinished()
    ensures s.chats[t].Unfinished()
  {
  }

  /** A chat has been signalled exactly if a cancellation reached it; so it ends cancelled only then, and never
      because its sender was dropped. */
  lemma {:induction false} SignalledExactlyWhenReached(steps: seq<Step>, t: ChatId)
    requires t in Run(steps).chats
    ensures Run(steps).chats[t].signal <==> CancelReached(steps, t)
    ensures Run(steps).chats[t].EndedCancelled() ==> CancelReached(steps, t)
  {
    EntriesBelongToUnfinishedChats(steps);
    assert ChatOk(Run(steps), t);
    var front, step := steps[..|steps| - 1], steps[|steps| - 1];
    EntriesBelongToUnfinishedChats(front);
    SignalStep(Run(front), step, t);
    if t in Run(front).chats {
      SignalledExactlyWhenReached(front, t);
    } else {
      UnknownIsNotReached(front, t);
    }
  }

  lemma ChatsGrow(s: State, step: Step, t: ChatId)
    ensures t in s.chats ==> t in Next(s, step).chats && Next(s, step).chats[t].id == s.chats[t].id
    ensures t !in s.chats && t in Next(s, step).chats ==> step == Register(t, Next(s, step).chats[t].id)
  {
  }

  lemma {:induction false} UnknownIsNotReached(steps: seq<Step>, t: ChatId)
    requires t !in Run(steps).chats
    ensures !CancelReached(steps, t) && !CancelTook(steps, t) && !DroppedByOther(steps, t)
  {
    if steps != [] {
      ChatsGrow(Run(steps[..|steps| - 1]), steps[|steps| - 1], t);
      UnknownIsNotReached(steps[..|steps| - 1], t);
    }
  }

  lemma LostSenderStep(s: State, step: Step, t: ChatId)
    requires t in s.chats
    ensures t in Next(s, step).chats
    ensures !s.SenderAlive(t) || Takes(s, step, t) || Drops(s, step, t) ==> !Next(s, step).SenderAlive(t)
  {
  }

  /** Until it is unregistered, an accepted chat's sender is in the registry exactly if no cancellation took it and
      no other chat with the same identifier dropped it: a sender once gone stays gone. */
  lemma {:induction false} SenderAliveExactlyWhen(steps: seq<Step>, t: ChatId)
    requires t in Run(steps).chats && Run(steps).chats[t].Unfinished()
    ensures Run(steps).SenderAlive(t) <==> !CancelTook(steps, t) && !DroppedByOther(steps, t)
  {
    var front, step := steps[..|steps| - 1], steps[|steps| - 1];
    EntriesBelongToUnfinishedChats(front);
    if t in Run(front).chats {
      UnfinishedStep(Run(front), step, t);
      SenderAliveExactlyWhen(front, t);
      LostSenderStep(Run(front), step, t);
    } else {
      UnknownIsNotReached(front, t);
    }
    if t !in Run(front).chats || Run(front).SenderAlive(t) {
      SenderStep(Run(front), step, t);
    }
  }

  ghost predicate IdsAreNotReused(steps: seq<Step>) {
    forall i, j | 0 <= i < j < |steps| && steps[i].Register? && steps[j].Register? :: steps[i].id != steps[j].id
  }

  lemma {:induction false} ChatsWereRegistered(steps: seq<Step>, t: ChatId) returns (i: nat)
    requires t in Run(steps).chats
    ensures i < |steps| && steps[i] == Register(t, Run(steps).chats[t].id)
  {
    var front := steps[..|steps| - 1];
    ChatsGrow(Run(front), steps[|steps| - 1], t);
    if t in Run(front).chats {
      i := ChatsWereRegistered(front, t);
    } else {
      i := |steps| - 1;
    }
  }

  lemma ChatsHaveTheirOwnIds(steps: seq<Step>, t: ChatId, u: ChatId)
    requires IdsAreNotReused(steps) && t in Run(steps).chats && u in Run(steps).chats && t != u
    ensures Run(steps).chats[t].id != Run(steps).chats[u].id
  {
    var i := ChatsWereRegistered(steps, t);
    var j := ChatsWereRegistered(steps, u);
    assert i != j && steps[i].Register? && steps[j].Register?;
  }

  lemma {:induction false} FreshIdsAreNeverDropped(steps: seq<Step>, t: ChatId)
    requires IdsAreNotReused(steps)
    ensures !DroppedByOther(steps, t)
  {
    if steps != [] {
      var front, step := steps[..|steps| - 1], steps[|steps| - 1];
      FreshIdsAreNeverDropped(front, t);
      if Drops(Run(front), step, t) {
        ChatsHaveTheirOwnIds(front, t, step.chat);
        assert false;
      }
    }
  }

  lemma CancelFinds(s: State, t: ChatId)
    requires Inv(s) && s.SenderAlive(t)
    ensures var id := s.chats[t].id;
            && (s.Requested(id) <==> s.chats[t].ReceiverAlive())
            && (Next(s, Cancel(id)).chats[t].signal <==> s.chats[t].ReceiverAlive())
            && Next(s, Cancel(id)).lock == s.lock
  {
    assert EntryOk(s, s.chats[t].id);
  }

  /** When identifiers are not reused, the first cancellation that names a chat between its registering and its
      unregistering finds the chat, whoever holds the service lock; it answers `requested` and signals the chat
      exactly if the handler has not returned yet. */
  lemma FirstCancelFindsChat(steps: seq<Step>, t: ChatId)
    requires IdsAreNotReused(steps) && t in Run(steps).chats && Run(steps).chats[t].Unfinished()
    requires !CancelTook(steps, t)
    ensures var s := Run(steps);
            var after := Run(steps + [Cancel(s.chats[t].id)]);
            && s.SenderAlive(t)
            && (s.Requested(s.chats[t].id) <==> s.chats[t].ReceiverAlive())
            && (after.chats[t].signal <==> s.chats[t].ReceiverAlive())
            && after.lock == s.lock
  {
    SenderAliveExactlyWhen(steps, t);
    FreshIdsAreNeverDropped(steps, t);
    EntriesBelongToUnfinishedChats(steps);
    CancelFinds(Run(steps), t);
    RunAppend(steps, Cancel(Run(steps).chats[t].id));
  }

  function RunFrom(s: State, steps: seq<Step>): State
    decreases |steps|
  {
    if steps == [] then s else RunFrom(Next(s, steps[0]), steps[1..])
  }

  lemma {:induction false} RunConcat(steps: seq<Step>, more: seq<Step>)
    ensures Run(steps + more) == RunFrom(Run(steps), more)
    decreases |more|
  {
    if more == [] {
      assert steps + more == steps;
    } else {
      RunAppend(steps, more[0]);
      RunConcat(steps + [more[0]], more[1..]);
      assert steps + [more[0]] + more[1..] == steps + more;
    }
  }

  lemma {:induction false} RunFromConcat(s: State, a: seq<Step>, b: seq<Step>)
    ensures RunFrom(s, a + b) == RunFrom(RunFrom(s, a), b)
    decreases |a|
  {
    if a == [] {
      assert a + b == b;
    } else {
      assert (a + b)[1..] == a[1..] + b;
      RunFromConcat(Next(s, a[0]), a[1..], b);
    }
  }

  predicate SignalledOutsideCall(chat: Chat) {
    chat.signal && !chat.phase.Calling? && !chat.phase.Draining?
  }

  lemma SignalledOutsideCallStep(s: State, step: Step, t: ChatId)
    requires t in s.chats && SignalledOutsideCall(s.chats[t])
    ensures t in Next(s, step).chats && SignalledOutsideCall(Next(s, step).chats[t])
  {
  }

  lemma {:induction false} SignalledOutsideCallStays(s: State, steps: seq<Step>, t: ChatId)
    requires t in s.chats && SignalledOutsideCall(s.chats[t])
    ensures t in RunFrom(s, steps).chats && SignalledOutsideCall(RunFrom(s, steps).chats[t])
    decreases |steps|
  {
    if steps != [] {
      SignalledOutsideCallStep(s, steps[0], t);
      SignalledOutsideCallStays(Next(s, steps[0]), steps[1..], t);
    }
  }

  /** A chat signalled before its provider call never starts one. */
  lemma SignalledNeverCalls(steps: seq<Step>, more: seq<Step>, t: ChatId)
    requires t in Run(steps).chats && Run(steps).chats[t].signal && (Run(steps).At(t, Waiting) || Run(steps).At(t, Running))
    ensures t in Run(steps + more).chats && Run(steps + more).chats[t].signal
    ensures !Run(steps + more).At(t, Calling) && !Run(steps + more).At(t, Draining)
  {
    RunConcat(steps, more);
    SignalledOutsideCallStays(Run(steps), more, t);
  }

  // ---- What a request to cancel is worth ----

  /** A chat that can no longer come to see a signal. */
  predicate TooLate(chat: Chat) {
    chat.phase.Rejected? || chat.phase.Draining?
    || ((chat.phase.Finishing? || chat.phase.Returned? || chat.phase.Done?) && chat.phase.outcome.Answered?)
  }

  lemma TooLateStep(s: State, step: Step, t: ChatId)
    requires t in s.chats && TooLate(s.chats[t])
    ensures t in Next(s, step).chats && TooLate(Next(s, step).chats[t])
  {
  }

  lemma {:induction false} TooLateStays(s: State, steps: seq<Step>, t: ChatId)
    requires t in s.chats && TooLate(s.chats[t])
    ensures t in RunFrom(s, steps).chats && TooLate(RunFrom(s, steps).chats[t])
    decreases |steps|
  {
    if steps != [] {
      TooLateStep(s, steps[0], t);
      TooLateStays(Next(s, steps[0]), steps[1..], t);
    }
  }

  lemma OneStep(s: State, step: Step)
    ensures RunFrom(s, [step]) == Next(s, step)
  {
    assert [step][1..] == [];
  }

  lemma TwoSteps(s: State, a: Step, b: Step)
    ensures RunFrom(s, [a, b]) == Next(Next(s, a), b)
  {
    assert [a, b][1..] == [b];
    OneStep(Next(s, a), b);
  }

  lemma EndingStep(s: State, u: ChatId)
    requires Inv(s) && s.lock == HeldBy(u)
    ensures u in s.chats && s.chats[u].InHandler()
    ensures var step := if s.chats[u].phase.Running? then AnswerLocally(u) else ProviderAnswers(u);
            && Next(s, step).chats.Keys == s.chats.Keys && Next(s, step).At(u, if s.chats[u].phase.Finishing? then s.chats[u].phase else Finishing(Answered))
            && forall t | t in s.chats && t != u :: Next(s, step).chats[t] == s.chats[t]
  {
    assert ChatOk(s, u);
  }

  lemma ReturnFrees(s: State, u: ChatId)
    requires u in s.chats && s.chats[u].phase.Finishing?
    ensures Next(s, Return(u)).lock == Free && Next(s, Return(u)).chats.Keys == s.chats.Keys
    ensures forall t | t in s.chats && t != u :: Next(s, Return(u)).chats[t] == s.chats[t]
  {
  }

  /** Whoever holds the service lock can let it go without touching a chat that waits for it. */
  lemma LockCanBeFreed(s: State, t: ChatId) returns (steps: seq<Step>)
    requires Inv(s) && s.At(t, Waiting)
    ensures RunFrom(s, steps).lock == Free && t in RunFrom(s, steps).chats && RunFrom(s, steps).chats[t] == s.chats[t]
  {
    match s.lock {
      case Free =>
        steps := [];
      case HeldElsewhere =>
        steps := [OtherUnlocks];
        OneStep(s, OtherUnlocks);
      case HeldBy(u) =>
        assert ChatOk(s, t);
        EndingStep(s, u);
        var step := if s.chats[u].phase.Running? then AnswerLocally(u) else ProviderAnswers(u);
        ReturnFrees(Next(s, step), u);
        steps := [step, Return(u)];
        TwoSteps(s, step, Return(u));
    }
  }

  predicate CanStillSee(chat: Chat) {
    chat.phase.Waiting? || chat.phase.Running? || chat.phase.Calling?
  }

  lemma SignalledCanEndCancelled(s: State, t: ChatId) returns (steps: seq<Step>)
    requires Inv(s) && t in s.chats && s.chats[t].signal && CanStillSee(s.chats[t])
    ensures t in RunFrom(s, steps).chats && RunFrom(s, steps).chats[t].EndedCancelled()
  {
    match s.chats[t].phase {
      case Waiting =>
        var freed := LockCanBeFreed(s, t);
        var open := RunFrom(s, freed);
        TwoSteps(open, Acquire(t), BeginCall(t));
        RunFromConcat(s, freed, [Acquire(t), BeginCall(t)]);
        steps := freed + [Acquire(t), BeginCall(t)];
      case Running =>
        steps := [BeginCall(t)];
        OneStep(s, BeginCall(t));
      case Calling =>
        steps := [SeeChange(t)];
        OneStep(s, SeeChange(t));
    }
  }

  /** A signalled chat can still end cancelled exactly if it already has, or it waits for the service, has not
      begun its provider call, or is in it. Otherwise, in every continuation, its answer stands. */
  lemma SignalledEndsCancelledExactlyWhen(steps: seq<Step>, t: ChatId)
    requires t in Run(steps).chats && Run(steps).chats[t].signal
    ensures (exists more :: t in Run(steps + more).chats && Run(steps + more).chats[t].EndedCancelled()) <==>
            Run(steps).chats[t].EndedCancelled() || CanStillSee(Run(steps).chats[t])
  {
    var s := Run(steps);
    EntriesBelongToUnfinishedChats(steps);
    if s.chats[t].EndedCancelled() {
      assert steps + [] == steps;
    } else if CanStillSee(s.chats[t]) {
      var more := SignalledCanEndCancelled(s, t);
      RunConcat(steps, more);
    } else {
      forall more ensures !(t in Run(steps + more).chats && Run(steps + more).chats[t].EndedCancelled()) {
        LateCancelIsInVain(steps, more, t);
      }
    }
  }

  /** A cancellation that answers `requested` can still cancel its chat exactly if the chat's answer is not yet being
      written; afterwards `requested` is answered all the same, and the chat ends answered. */
  lemma RequestedCanCancelExactlyWhen(steps: seq<Step>, id: RequestId)
    requires Run(steps).Requested(id)
    ensures var t := Run(steps).registry[id];
            && t in Run(steps + [Cancel(id)]).chats && Run(steps + [Cancel(id)]).chats[t].signal
            && ((exists more :: t in Run(steps + [Cancel(id)] + more).chats && Run(steps + [Cancel(id)] + more).chats[t].EndedCancelled()) <==>
                !Run(steps).chats[t].phase.Finishing?)
  {
    var s := Run(steps);
    EntriesBelongToUnfinishedChats(steps);
    assert EntryOk(s, id) && ChatOk(s, s.registry[id]);
    RunAppend(steps, Cancel(id));
    SignalledEndsCancelledExactlyWhen(steps + [Cancel(id)], s.registry[id]);
  }

  lemma AnsweringInProgress(id: RequestId)
    ensures Run([Register(0, id), Acquire(0), AnswerLocally(0)]) ==
            State(map[id := 0], map[0 := Chat(id, Finishing(Answered), false)], HeldBy(0))
  {
    var a := [Register(0, id)];
    var b := a + [Acquire(0)];
    RunAppend([], Register(0, id));
    assert [] + [Register(0, id)] == a;
    assert Run(a) == State(map[id := 0], map[0 := Chat(id, Waiting, false)], Free);
    RunAppend(a, Acquire(0));
    assert Run(b) == State(map[id := 0], map[0 := Chat(id, Running, false)], HeldBy(0));
    RunAppend(b, AnswerLocally(0));
    assert b + [AnswerLocally(0)] == [Register(0, id), Acquire(0), AnswerLocally(0)];
  }

  lemma CancellingTooLate(id: RequestId)
    ensures var s := State(map[id := 0], map[0 := Chat(id, Finishing(Answered), false)], HeldBy(0));
            && s.Requested(id)
            && TooLate(Next(s, Cancel(id)).chats[0])
            && Next(Next(s, Cancel(id)), Return(0)).At(0, Returned(Answered))
  {
  }

  /** `requested` is not `cancelled`: a cancellation that comes while the answer is being written. */
  lemma RequestedIsNotCancelled(id: RequestId)
    ensures var steps := [Register(0, id), Acquire(0), AnswerLocally(0)];
            && Run(steps).Requested(id)
            && Run(steps + [Cancel(id)] + [Return(0)]).At(0, Returned(Answered))
            && forall more :: 0 in Run(steps + [Cancel(id)] + more).chats && !Run(steps + [Cancel(id)] + more).chats[0].EndedCancelled()
  {
    var steps := [Register(0, id), Acquire(0), AnswerLocally(0)];
    AnsweringInProgress(id);
    CancellingTooLate(id);
    RunAppend(steps, Cancel(id));
    RunAppend(steps + [Cancel(id)], Return(0));
    forall more ensures 0 in Run(steps + [Cancel(id)] + more).chats && !Run(steps + [Cancel(id)] + more).chats[0].EndedCancelled() {
      LateCancelIsInVain(steps + [Cancel(id)], more, 0);
    }
  }

  lemma LateCancelIsInVain(steps: seq<Step>, more: seq<Step>, t: ChatId)
    requires t in Run(steps).chats && TooLate(Run(steps).chats[t])
    ensures t in Run(steps + more).chats && !Run(steps + more).chats[t].EndedCancelled()
  {
    RunConcat(steps, more);
    TooLateStays(Run(steps), more, t);
  }

  // ---- Reused identifiers ----

  lemma UnreachableStep(s: State, step: Step, t: ChatId)
    requires t in s.chats && !s.SenderAlive(t)
    ensures t in Next(s, step).chats && !Next(s, step).SenderAlive(t)
    ensures Next(s, step).chats[t].signal ==> s.chats[t].signal || step.Cancel?
    ensures step.Cancel? ==> Next(s, step).chats[t] == s.chats[t] || (step.id in s.registry && s.registry[step.id] == t)
  {
  }

  /** A chat whose sender is gone is never signalled again. */
  lemma {:induction false} LostSenderIsNeverSignalled(s: State, steps: seq<Step>, t: ChatId)
    requires Inv(s) && t in s.chats && !s.SenderAlive(t) && !s.chats[t].signal
    ensures t in RunFrom(s, steps).chats && !RunFrom(s, steps).SenderAlive(t) && !RunFrom(s, steps).chats[t].signal
    decreases |steps|
  {
    if steps != [] {
      UnreachableStep(s, steps[0], t);
      if steps[0].Cancel? && steps[0].id in s.registry {
        assert EntryOk(s, steps[0].id);
      }
      NextKeepsInv(s, steps[0]);
      LostSenderIsNeverSignalled(Next(s, steps[0]), steps[1..], t);
    }
  }

  function Reusing(id: RequestId): seq<Step> {
    [Register(0, id), Acquire(0), Cancel(id), Register(1, id), BeginCall(0), Return(0), Unregister(0)]
  }

  lemma FirstChatEnds(id: RequestId)
    ensures var s := State(map[id := 1], map[0 := Chat(id, Running, true), 1 := Chat(id, Waiting, false)], HeldBy(0));
            Next(Next(s, BeginCall(0)), Return(0)) ==
            State(map[id := 1], map[0 := Chat(id, Returned(Cancelled), true), 1 := Chat(id, Waiting, false)], Free)
  {
    var s := State(map[id := 1], map[0 := Chat(id, Running, true), 1 := Chat(id, Waiting, false)], HeldBy(0));
    assert Next(s, BeginCall(0)) ==
           State(map[id := 1], map[0 := Chat(id, Finishing(Cancelled), true), 1 := Chat(id, Waiting, false)], HeldBy(0));
  }

  lemma FirstChatDropsSecond(id: RequestId)
    ensures var s := State(map[id := 1], map[0 := Chat(id, Returned(Cancelled), true), 1 := Chat(id, Waiting, false)], Free);
            && Drops(s, Unregister(0), 1)
            && Next(s, Unregister(0)) == State(map[], map[0 := Chat(id, Done(Cancelled), true), 1 := Chat(id, Waiting, false)], Free)
  {
  }

  lemma ReusedIdState(id: RequestId)
    ensures DroppedByOther(Reusing(id), 1)
    ensures Run(Reusing(id)) == State(map[], map[0 := Chat(id, Done(Cancelled), true), 1 := Chat(id, Waiting, false)], Free)
  {
    var d := [Register(0, id), Acquire(0), Cancel(id), Register(1, id)];
    var f := d + [BeginCall(0), Return(0)];
    CancelledThenReused(id);
    FirstChatEnds(id);
    FirstChatDropsSecond(id);
    RunConcat(d, [BeginCall(0), Return(0)]);
    TwoSteps(Run(d), BeginCall(0), Return(0));
    RunAppend(f, Unregister(0));
    assert f + [Unregister(0)] == Reusing(id);
    assert Reusing(id)[..|f|] == f;
  }

  /** With a reused identifier a chat can lose its sender: the first chat is cancelled, a second one takes the
      identifier, and the first one's unregistering drops the second one's sender. The second chat still waits for
      the service, and no cancellation in any continuation reaches it. */
  lemma ReusedIdLosesSender(id: RequestId)
    ensures Run(Reusing(id)).At(1, Waiting) && DroppedByOther(Reusing(id), 1) && !Run(Reusing(id)).Requested(id)
    ensures forall more :: 1 in Run(Reusing(id) + more).chats && !Run(Reusing(id) + more).chats[1].signal
  {
    ReusedIdState(id);
    EntriesBelongToUnfinishedChats(Reusing(id));
    forall more ensures 1 in Run(Reusing(id) + more).chats && !Run(Reusing(id) + more).chats[1].signal {
      RunConcat(Reusing(id), more);
      LostSenderIsNeverSignalled(Run(Reusing(id)), more, 1);
    }
  }

  lemma CancelledThenReused(id: RequestId)
    ensures Run([Register(0, id), Acquire(0), Cancel(id), Register(1, id)]) ==
            State(map[id := 1], map[0 := Chat(id, Running, true), 1 := Chat(id, Waiting, false)], HeldBy(0))
  {
    var a := [Register(0, id)];
    var b := a + [Acquire(0)];
    var c := b + [Cancel(id)];
    RunAppend([], Register(0, id));
    assert [] + [Register(0, id)] == a;
    assert Run(a) == State(map[id := 0], map[0 := Chat(id, Waiting, false)], Free);
    RunAppend(a, Acquire(0));
    assert Run(b) == State(map[id := 0], map[0 := Chat(id, Running, false)], HeldBy(0));
    RunAppend(b, Cancel(id));
    assert Run(c) == State(map[], map[0 := Chat(id, Running, true)], HeldBy(0));
    RunAppend(c, Register(1, id));
    assert c + [Register(1, id)] == [Register(0, id), Acquire(0), Cancel(id), Register(1, id)];
  }

  lemma RunAppend(steps: seq<Step>, step: Step)
    ensures Run(steps + [step]) == Next(Run(steps), step)
  {
    assert (steps + [step])[..|steps|] == steps;
  }
}
