/** One agent run and its session (apps/daemon/src/agent_service.rs). What the agent host, the policy pipeline
    and the database answer at each point is input. */
module AgentRuns {
  import opened Prelude
  import opened Domain
  import opened Sessions

  datatype HostError = HostTimedOut | HostProcessFailed | HostIo | HostRefused

  function ErrorStatus(e: HostError): AgentSessionStatus {
    match e
    case HostTimedOut => TimedOut
    case HostProcessFailed => Crashed
    case HostIo => Crashed
    case HostRefused => Failed
  }

  datatype Outcome = OutcomeAllow | OutcomeConfirm | OutcomeDeny

  datatype ReceiptStatus = Succeeded | DryRunSucceeded | NotSucceeded

  /** What executing one proposal answered. */
  datatype Response = Execution(outcome: Outcome, status: ReceiptStatus) | NoExecution

  datatype Disposition = Executed | Simulated | ProposalFailed | ConfirmationRequired | Denied

  function DispositionOf(r: Response): Disposition {
    match r
    case Execution(OutcomeAllow, DryRunSucceeded) => Simulated
    case Execution(OutcomeAllow, Succeeded) => Executed
    case Execution(OutcomeAllow, NotSucceeded) => ProposalFailed
    case Execution(OutcomeConfirm, _) => ConfirmationRequired
    case Execution(OutcomeDeny, _) => Denied
    case NoExecution => ProposalFailed
  }

  datatype Proposal = Proposal(opensApp: bool, labelFound: bool, contextValid: bool, response: Response)

  datatype ProposalResult = ProposalResult(index: nat, disposition: Disposition)

  const MAX_INDEX: nat := 0xffff

  /** A proposal that ends the run before it is executed. */
  predicate Stops(index: nat, p: Proposal) {
    index > MAX_INDEX || (p.opensApp && (!p.labelFound || !p.contextValid))
  }

  datatype RunInput = RunInput(
    inputFits: bool, configured: bool, sessionId: AgentSessionId, row: AgentRow, startAudited: bool,
    start: Result<(), HostError>, received: Result<seq<Proposal>, HostError>, completion: Result<nat, HostError>,
    finishNowMs: int, finishStored: bool, finishAudited: bool)

  datatype RunSession = RunSession(id: AgentSessionId, startedAtMs: int, status: AgentSessionStatus, endedAtMs: Option<int>)

  datatype AgentRunResult = AgentRunResult(session: RunSession, proposals: seq<ProposalResult>)

  datatype RunError = Validation | NotFound | Internal | HostFailed(error: HostError)

  predicate Begins(t: Tables, q: RunInput) {
    q.inputFits && q.configured && BeginAgent(t, q.sessionId, q.row).Ok?
  }

  function FirstStop(proposals: seq<Proposal>, from: nat): (i: nat)
    requires from <= |proposals|
    ensures from <= i <= |proposals|
    ensures forall j | from <= j < i :: !Stops(j, proposals[j])
    ensures i < |proposals| ==> Stops(i, proposals[i])
    decreases |proposals| - from
  {
    if from == |proposals| || Stops(from, proposals[from]) then from else FirstStop(proposals, from + 1)
  }

  /** The status a run must close its session with. */
  function ExitStatus(q: RunInput): AgentSessionStatus {
    if !q.startAudited then Failed
    else if q.start.Err? then ErrorStatus(q.start.error)
    else if q.received.Err? then ErrorStatus(q.received.error)
    else if FirstStop(q.received.value, 0) < |q.received.value| then Failed
    else if q.completion.Err? then ErrorStatus(q.completion.error)
    else Completed
  }

  /** A session is closed as completed exactly if everything went well; as timed out or crashed exactly if that is how the
      agent's host first failed; and in every other case as failed. */
  lemma ExitStatusExactlyWhen(q: RunInput)
    ensures var proposalsPass := q.received.Ok? && forall i | 0 <= i < |q.received.value| :: !Stops(i, q.received.value[i]);
            var hostFails := q.startAudited && (q.start.Err? || q.received.Err? || (proposalsPass && q.completion.Err?));
            var failure := if q.start.Err? then q.start.error else if q.received.Err? then q.received.error
                           else if q.completion.Err? then q.completion.error else HostRefused;
            && (ExitStatus(q).Completed? <==> q.startAudited && q.start.Ok? && proposalsPass && q.completion.Ok?)
            && (ExitStatus(q).TimedOut? <==> hostFails && failure.HostTimedOut?)
            && (ExitStatus(q).Crashed? <==> hostFails && (failure.HostProcessFailed? || failure.HostIo?))
            && !ExitStatus(q).Running?
  {
    if q.received.Ok? {
      var i := FirstStop(q.received.value, 0);
    }
  }

  function EndMs(q: RunInput): int {
    Max(q.finishNowMs, q.row.startedAtMs)
  }

  /** The tables a run leaves: untouched if no session begins, otherwise with its session closed, unless the
      closing write itself fails. */
  function AfterRun(t: Tables, q: RunInput): Tables {
    if !Begins(t, q) then t
    else
      var begun := BeginAgent(t, q.sessionId, q.row).value;
      if !q.finishStored || ExitStatus(q).Running? then begun
      else FinishAgent(begun, q.sessionId, ExitStatus(q), EndMs(q)).value
  }

  class AgentService {
    const store: SessionStore

    constructor (store: SessionStore)
      ensures this.store == store
    {
      this.store := store;
    }

    method FinishAgentSession(session: RunSession, status: AgentSessionStatus, q: RunInput) returns (closed: RunSession, r: Result<(), RunError>)
      requires !status.Running?
      modifies store
      ensures var endedAtMs := Max(q.finishNowMs, session.startedAtMs);
              && store.tables == (if q.finishStored then FinishAgent(old(store.tables), session.id, status, endedAtMs).value else old(store.tables))
              && (r.Ok? <==> q.finishStored && q.finishAudited)
              && (r.Ok? ==> closed == session.(status := status, endedAtMs := Some(endedAtMs)))
    {
      closed := session;
      var endedAtMs := Max(q.finishNowMs, session.startedAtMs);
      if !q.finishStored {
        return closed, Err(RunError.Internal);
      }
      var updated := store.FinishAgentSession(session.id, status, endedAtMs);
      closed := session.(status := status, endedAtMs := Some(endedAtMs));
      if !q.finishAudited {
        return closed, Err(RunError.Internal);
      }
      return closed, Ok(());
    }

    /** Hands the proposals to the policy pipeline in order, up to one that ends the run. */
    method SubmitProposals(proposals: seq<Proposal>) returns (results: seq<ProposalResult>, submitted: nat, stop: Option<RunError>)
      ensures submitted == FirstStop(proposals, 0) == |results|
      ensures stop.Some? <==> submitted < |proposals|
      ensures forall i | 0 <= i < submitted :: results[i] == ProposalResult(i, DispositionOf(proposals[i].response))
    {
      results, submitted, stop := [], 0, None;
      while submitted < |proposals|
        invariant submitted == |results| <= |proposals|
        invariant FirstStop(proposals, submitted) == FirstStop(proposals, 0)
        invariant forall i | 0 <= i < submitted :: results[i] == ProposalResult(i, DispositionOf(proposals[i].response))
      {
        if submitted > MAX_INDEX {
          return results, submitted, Some(RunError.Validation);
        }
        var proposal := proposals[submitted];
        if proposal.opensApp {
          if !proposal.labelFound {
            return results, submitted, Some(RunError.Internal);
          }
          if !proposal.contextValid {
            return results, submitted, Some(RunError.Validation);
          }
        }
        results := results + [ProposalResult(submitted, DispositionOf(proposal.response))];
        submitted := submitted + 1;
      }
    }

    /** `submitted` counts the proposals handed to the policy pipeline, in order. */
    method RunAgent(q: RunInput) returns (r: Result<AgentRunResult, RunError>, submitted: nat)
      requires q.row.Open()
      modifies store
      ensures store.tables == AfterRun(old(store.tables), q)
      ensures r.Ok? <==> Begins(old(store.tables), q) && ExitStatus(q).Completed? && q.finishStored && q.finishAudited
      ensures submitted == if Begins(old(store.tables), q) && q.startAudited && q.start.Ok? && q.received.Ok?
                           then FirstStop(q.received.value, 0) else 0
      ensures r.Ok? ==>
              && r.value.session == RunSession(q.sessionId, q.row.startedAtMs, Completed, Some(EndMs(q)))
              && |r.value.proposals| == |q.received.value| == submitted
              && forall i | 0 <= i < submitted :: r.value.proposals[i] == ProposalResult(i, DispositionOf(q.received.value[i].response))
    {
      submitted := 0;
      if !q.inputFits {
        return Err(RunError.Validation), 0;
      }
      if !q.configured {
        return Err(NotFound), 0;
      }
      var session := RunSession(q.sessionId, q.row.startedAtMs, Running, None);
      var begun := store.BeginAgentSession(q.sessionId, q.row);
      if begun.Err? {
        return Err(RunError.Internal), 0;
      }
      var finished: Result<(), RunError>;
      if !q.startAudited {
        session, finished := FinishAgentSession(session, Failed, q);
        return Err(RunError.Internal), 0;
      }
      if q.start.Err? {
        session, finished := FinishAgentSession(session, ErrorStatus(q.start.error), q);
        return (if finished.Err? then Err(finished.error) else Err(HostFailed(q.start.error))), 0;
      }
      if q.received.Err? {
        session, finished := FinishAgentSession(session, ErrorStatus(q.received.error), q);
        return (if finished.Err? then Err(finished.error) else Err(HostFailed(q.received.error))), 0;
      }
      var results, stop;
      results, submitted, stop := SubmitProposals(q.received.value);
      if stop.Some? {
        session, finished := FinishAgentSession(session, Failed, q);
        return (if finished.Err? then Err(finished.error) else Err(stop.value)), submitted;
      }
      if q.completion.Err? {
        session, finished := FinishAgentSession(session, ErrorStatus(q.completion.error), q);
        return (if finished.Err? then Err(finished.error) else Err(HostFailed(q.completion.error))), submitted;
      }
      session, finished := FinishAgentSession(session, Completed, q);
      if finished.Err? {
        return Err(finished.error), submitted;
      }
      return Ok(AgentRunResult(session, results)), submitted;
    }
  }

  /** The grants a run leaves: those bound to its session revoked if it was closed, every other as it was. */
  lemma GrantsAfterRun(t: Tables, q: RunInput)
    requires Begins(t, q)
    ensures |AfterRun(t, q).grants| == |t.grants|
    ensures forall i | 0 <= i < |t.grants| && t.grants[i].session != Some(AgentSession(q.sessionId)) :: AfterRun(t, q).grants[i] == t.grants[i]
    ensures q.finishStored ==>
              forall g | g in AfterRun(t, q).grants && g.lifetime.Session? && g.session == Some(AgentSession(q.sessionId)) :: g.revokedAtMs.Some?
  {
    ExitStatusExactlyWhen(q);
    hide ExitStatus, RevokeBound;
    var grants := AfterRun(t, q).grants;
    forall g | q.finishStored && g in grants && g.lifetime.Session? && g.session == Some(AgentSession(q.sessionId)) ensures g.revokedAtMs.Some? {
      var i :| 0 <= i < |grants| && grants[i] == g;
    }
  }

  /** Whatever exit a run takes, if its closing write succeeds its session has left `Running`, ends no earlier
      than it started, and no unrevoked grant is bound to it; if the write fails, the session stays running. */
  lemma EveryExitClosesItsSession(t: Tables, q: RunInput)
    requires Begins(t, q)
    ensures q.sessionId in AfterRun(t, q).agents
    ensures q.finishStored ==>
            && AfterRun(t, q).agents[q.sessionId] == q.row.(status := ExitStatus(q), endedAtMs := Some(EndMs(q)))
            && !ExitStatus(q).Running?
            && q.row.startedAtMs <= EndMs(q)
            && forall g | g in AfterRun(t, q).grants && g.lifetime.Session? && g.session == Some(AgentSession(q.sessionId)) :: g.revokedAtMs.Some?
    ensures !q.finishStored ==> AfterRun(t, q).agents[q.sessionId] == q.row && q.row.Open()
    ensures forall a | a in t.agents :: a in AfterRun(t, q).agents && AfterRun(t, q).agents[a] == t.agents[a]
    ensures |AfterRun(t, q).grants| == |t.grants| && AfterRun(t, q).daemons == t.daemons
    ensures forall i | 0 <= i < |t.grants| && t.grants[i].session != Some(AgentSession(q.sessionId)) :: AfterRun(t, q).grants[i] == t.grants[i]
  {
    hide ExitStatus, RevokeBound;
    ExitStatusExactlyWhen(q);
    GrantsAfterRun(t, q);
  }
}
