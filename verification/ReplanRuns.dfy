/** Runs of the replan protocol: every interleaving of committed transactions, and what each of them keeps. */
module ReplanRuns {
  import opened Prelude
  import opened DispatchModels
  import opened ReplanStore

  /** One committed transaction that changes the tables. */
  datatype Event =
    | WorkflowCreated(id: string, jobId: string, state: string, snapshot: string, binding: Binding)
    | WorkflowUpdated(id: string, expected: nat, state: string, snapshot: string)
    | AssignmentAdded(assignment: AssignmentRecord)
    | ProposalSaved(proposal: Proposal)
    | GateInserted(observed: Proposal, sessionId: string, agentId: string, gateId: string)
    | InterruptBound(gateId: string, interruptId: string)
    | ResponseClaimed(gateId: string, action: Action)
    | ResponseWasStale(response: Response)
    | ResponseDecided(response: Response)

  /** What a read of a pending proposal still says later: its content is unchanged, and it is still pending
      unless a gate for it has appeared in the meantime. */
  ghost predicate StillObserved(db: Db, observed: Proposal) {
    && observed.status == PendingOwnerApproval && observed.id in db.proposals
    && db.proposals[observed.id].(status := PendingOwnerApproval) == observed
    && (db.proposals[observed.id].status == PendingOwnerApproval || HasGate(db, observed.id))
  }

  ghost predicate Enabled(db: Db, e: Event) {
    match e
    case WorkflowCreated(id, jobId, _, _, binding) => CanCreateWorkflow(db, id, jobId, binding)
    case WorkflowUpdated(id, expected, _, _) => id in db.workflows && db.workflows[id].revision == expected
    case AssignmentAdded(a) => CanAddAssignment(db, a)
    case ProposalSaved(p) => !KnownFingerprint(db, p.fingerprint) && MappingConsistent(db, p) && CanSaveProposal(db, p)
    case GateInserted(observed, _, _, gateId) =>
      StillObserved(db, observed) && !HasGate(db, observed.id) && gateId !in db.gates
    case InterruptBound(gateId, interruptId) => CanBind(db, gateId, interruptId)
    case ResponseClaimed(gateId, action) => CanClaim(db, gateId, action)
    case ResponseWasStale(r) => Undecided(db, r) && !Current(db, r)
    case ResponseDecided(r) => Undecided(db, r) && Current(db, r) && !GateDecided(db, r) && Placeable(db, r)
  }

  function After(db: Db, e: Event): Db
    requires Enabled(db, e)
  {
    match e
    case WorkflowCreated(id, jobId, state, snapshot, binding) =>
      AfterCreate(db, id, Workflow(jobId, 0, state, snapshot), binding)
    case WorkflowUpdated(id, expected, state, snapshot) =>
      db.(workflows := db.workflows[id := Workflow(db.workflows[id].jobId, expected + 1, state, snapshot)])
    case AssignmentAdded(a) => db.(calendar := db.calendar[a.id := a])
    case ProposalSaved(p) => db.(proposals := db.proposals[p.id := p])
    case GateInserted(observed, sessionId, agentId, gateId) => AfterGate(db, observed, sessionId, agentId, gateId)
    case InterruptBound(gateId, interruptId) =>
      db.(gates := db.gates[gateId := db.gates[gateId].(interruptId := Some(interruptId))])
    case ResponseClaimed(gateId, action) => AfterClaim(db, gateId, action)
    case ResponseWasStale(r) => AfterStale(db, r)
    case ResponseDecided(r) => AfterDecision(db, r)
  }

  /** A run: each event is enabled in the state its predecessors leave. */
  ghost predicate IsRun(db: Db, events: seq<Event>)
    decreases |events|
  {
    events == [] || (Enabled(db, events[0]) && IsRun(After(db, events[0]), events[1..]))
  }

  ghost function End(db: Db, events: seq<Event>): Db
    requires IsRun(db, events)
    decreases |events|
  {
    if events == [] then db else End(After(db, events[0]), events[1..])
  }

  // ---------------------------------------------------------------- what one transaction keeps

  /** Content is immutable, and only a pending proposal changes status. */
  ghost predicate ProposalAdvances(p: Proposal, q: Proposal) {
    && q.(status := p.status) == p
    && (p.status != PendingOwnerApproval ==> q.status == p.status)
  }

  function Rank(status: GateStatus): nat {
    match status case GatePending => 0 case Resuming => 1 case Resolved => 2 case Invalidated => 2
  }

  ghost predicate GateAdvances(g: Gate, h: Gate) {
    && h.proposalId == g.proposalId && h.fingerprint == g.fingerprint && h.workflowId == g.workflowId
    && Rank(g.status) <= Rank(h.status) && (Rank(g.status) == 2 ==> h == g)
    && (g.response.Some? ==> h.response == g.response)
  }

  /** Rows never disappear and revisions never decrease; a proposal keeps its content, a gate its binding,
      and once claimed its response; decisions and operation records are permanent. */
  ghost predicate Advances(s: Db, t: Db) {
    && (forall k | k in s.workflows :: k in t.workflows && s.workflows[k].revision <= t.workflows[k].revision)
    && (forall k | k in s.calendar :: k in t.calendar && s.calendar[k].revision <= t.calendar[k].revision)
    && (forall k | k in s.proposals :: k in t.proposals && ProposalAdvances(s.proposals[k], t.proposals[k]))
    && (forall k | k in s.gates :: k in t.gates && GateAdvances(s.gates[k], t.gates[k]))
    && (forall r | r in s.decisions :: r in t.decisions && t.decisions[r] == s.decisions[r])
    && (forall r | r in s.operations :: r in t.operations && t.operations[r] == s.operations[r])
  }

  lemma {:induction false} AdvancesTransitively(s: Db, t: Db, u: Db)
    requires Advances(s, t) && Advances(t, u)
    ensures Advances(s, u)
  {
    forall k | k in s.proposals ensures k in u.proposals && ProposalAdvances(s.proposals[k], u.proposals[k]) {
      assert ProposalAdvances(s.proposals[k], t.proposals[k]) && ProposalAdvances(t.proposals[k], u.proposals[k]);
    }
    forall k | k in s.gates ensures k in u.gates && GateAdvances(s.gates[k], u.gates[k]) {
      assert GateAdvances(s.gates[k], t.gates[k]) && GateAdvances(t.gates[k], u.gates[k]);
    }
  }

  lemma {:induction false} ClaimAdvances(db: Db, gateId: string, action: Action)
    requires Inv(db) && CanClaim(db, gateId, action)
    ensures Advances(db, AfterClaim(db, gateId, action))
  {
    hide DecisionsConsistent, ProposalsKeyed, CalendarKeyed, GatesKeyed;
    assert GateMatches(gateId, db.gates[gateId], db.proposals[db.gates[gateId].proposalId], db.decisions.Keys);
  }

  lemma {:induction false} StaleAdvances(db: Db, r: Response)
    requires Undecided(db, r)
    ensures Advances(db, AfterStale(db, r))
  {}

  lemma {:induction false} DecisionAdvances(db: Db, r: Response)
    requires Undecided(db, r) && !GateDecided(db, r) && Placeable(db, r)
    ensures Advances(db, AfterDecision(db, r))
  {
    hide TableBy;
  }

  lemma {:induction false} RowsAdvance(db: Db, e: Event)
    requires Enabled(db, e) && !e.ResponseClaimed? && !e.ResponseWasStale? && !e.ResponseDecided?
    ensures Advances(db, After(db, e))
  {
    hide MappingConsistent, AfterClaim, AfterStale, AfterDecision, KnownFingerprint, StillObserved, HasGate, CanClaim;
  }

  /** Every transaction only advances the tables. */
  lemma {:induction false} EventAdvances(db: Db, e: Event)
    requires Inv(db) && Enabled(db, e)
    ensures Advances(db, After(db, e))
  {
    hide Inv, Advances, MappingConsistent, AfterClaim, AfterStale, AfterDecision, WorkflowsCurrent, CalendarCurrent,
      CanBeApplied, ClaimedFor, CanClaim;
    match e
    case ResponseClaimed(gateId, action) => ClaimAdvances(db, gateId, action);
    case ResponseWasStale(r) => StaleAdvances(db, r);
    case ResponseDecided(r) => DecisionAdvances(db, r);
    case _ => RowsAdvance(db, e);
  }

  // ---------------------------------------------------------------- the invariant

  lemma {:induction false} ConsumptionStays(s: Db, t: Db, r: Response)
    requires Advances(s, t) && r.proposalId in s.proposals && Consumed(s, r)
    ensures Consumed(t, r)
  {
    hide ExpectedRevisions, GateAdvances;
    assert ProposalAdvances(s.proposals[r.proposalId], t.proposals[r.proposalId]);
  }

  /** A committed decision stays committed, and the revisions it consumed stay consumed. */
  lemma {:induction false} DecisionStays(s: Db, t: Db, r: Response)
    requires Inv(s) && Advances(s, t) && r in s.decisions
    ensures DecisionConsistent(t, r)
    ensures r.action.ApproveReplan? ==> Consumed(t, r)
  {
    hide ExpectedRevisions, ProposalsKeyed, CalendarKeyed, GatesKeyed, Consumed, Answers;
    assert DecisionConsistent(s, r);
    assert GateMatches(r.gateId, s.gates[r.gateId], s.proposals[s.gates[r.gateId].proposalId], s.decisions.Keys);
    assert GateAdvances(s.gates[r.gateId], t.gates[r.gateId]);
    if r.action.ApproveReplan? {
      ConsumptionStays(s, t, r);
    }
  }

  lemma {:induction false} GateReplaced(
    gates: map<string, Gate>, proposals: map<string, Proposal>, decided: set<Response>, g: string, gate: Gate
  )
    requires GatesConsistent(gates, proposals, decided) && GatesKeyed(gates)
    requires gate.proposalId in proposals && GateMatches(g, gate, proposals[gate.proposalId], decided)
    requires if g in gates then gates[g].proposalId == gate.proposalId
      else forall h | h in gates :: gates[h].proposalId != gate.proposalId
    ensures GatesConsistent(gates[g := gate], proposals, decided) && GatesKeyed(gates[g := gate])
  {
    hide GateMatches;
  }

  /** A gate and its own proposal change together; every other gate belongs to another proposal. */
  lemma {:induction false} GateSettled(
    gates: map<string, Gate>, proposals: map<string, Proposal>, decided: set<Response>,
    g: string, gate: Gate, p: Proposal, more: set<Response>
  )
    requires GatesConsistent(gates, proposals, decided) && GatesKeyed(gates) && decided <= more
    requires g in gates && gate.proposalId == gates[g].proposalId && GateMatches(g, gate, p, more)
    ensures GatesConsistent(gates[g := gate], proposals[gate.proposalId := p], more) && GatesKeyed(gates[g := gate])
  {
    var after := gates[g := gate];
    forall h | h in after && h != g ensures GateMatches(h, after[h], proposals[after[h].proposalId], more) {
      assert GateMatches(h, gates[h], proposals[gates[h].proposalId], decided);
    }
  }

  lemma {:induction false} ProposalAdded(
    gates: map<string, Gate>, proposals: map<string, Proposal>, decided: set<Response>, p: Proposal
  )
    requires GatesConsistent(gates, proposals, decided) && p.id !in proposals
    ensures GatesConsistent(gates, proposals[p.id := p], decided)
  {
    hide GateMatches;
  }

  lemma {:induction false} StatusChanged(proposals: map<string, Proposal>, id: string, status: ProposalStatus)
    requires ProposalsKeyed(proposals) && id in proposals
    ensures ProposalsKeyed(proposals[id := proposals[id].(status := status)])
  {}

  lemma {:induction false} InsertedGateMatches(
    db: Db, observed: Proposal, sessionId: string, agentId: string, gateId: string
  )
    requires Inv(db) && StillObserved(db, observed) && !HasGate(db, observed.id)
    ensures db.proposals[observed.id] == observed
    ensures GateMatches(gateId, AfterGate(db, observed, sessionId, agentId, gateId).gates[gateId], observed,
      db.decisions.Keys)
  {
    hide DecisionsConsistent, GatesConsistent, CalendarKeyed, ProposalsKeyed;
  }

  lemma {:induction false} GateOfProposal(db: Db, gateId: string)
    requires Inv(db) && gateId in db.gates
    ensures db.gates[gateId].proposalId in db.proposals
    ensures GateMatches(gateId, db.gates[gateId], db.proposals[db.gates[gateId].proposalId], db.decisions.Keys)
  {
    hide DecisionsConsistent, GatesKeyed, CalendarKeyed, ProposalsKeyed;
  }

  /** Keys and gates after a gate was opened, bound or claimed. */
  lemma {:induction false} GateEventKeepsGates(db: Db, e: Event)
    requires Inv(db) && Enabled(db, e) && (e.GateInserted? || e.InterruptBound? || e.ResponseClaimed?)
    ensures var t := After(db, e); GatesKeyed(t.gates) && GatesConsistent(t.gates, t.proposals, t.decisions.Keys)
  {
    hide DecisionsConsistent, GatesKeyed, GatesConsistent, CalendarKeyed, ProposalsKeyed;
    var t := After(db, e);
    match e
    case GateInserted(observed, sessionId, agentId, gateId) =>
      InsertedGateMatches(db, observed, sessionId, agentId, gateId);
      GateReplaced(db.gates, db.proposals, db.decisions.Keys, gateId, t.gates[gateId]);
    case InterruptBound(gateId, _) =>
      GateOfProposal(db, gateId);
      GateReplaced(db.gates, db.proposals, db.decisions.Keys, gateId, t.gates[gateId]);
    case ResponseClaimed(gateId, _) =>
      GateOfProposal(db, gateId);
      GateReplaced(db.gates, db.proposals, db.decisions.Keys, gateId, t.gates[gateId]);
  }

  lemma {:induction false} SettlingKeepsGates(db: Db, e: Event)
    requires Inv(db) && Enabled(db, e) && (e.ResponseWasStale? || e.ResponseDecided?)
    ensures var t := After(db, e);
      GatesKeyed(t.gates) && GatesConsistent(t.gates, t.proposals, t.decisions.Keys) && ProposalsKeyed(t.proposals)
  {
    hide DecisionsConsistent, GatesKeyed, CalendarKeyed, ProposalsKeyed, WorkflowsCurrent, CalendarCurrent,
      CanBeApplied, MovedCalendar, AdvancedWorkflows;
    var r := e.response;
    var t := After(db, e);
    var p := t.proposals[r.proposalId];
    assert GateMatches(r.gateId, db.gates[r.gateId], db.proposals[r.proposalId], db.decisions.Keys);
    StatusChanged(db.proposals, r.proposalId, p.status);
    assert GateMatches(r.gateId, t.gates[r.gateId], p, t.decisions.Keys);
    GateSettled(db.gates, db.proposals, db.decisions.Keys, r.gateId, t.gates[r.gateId], p, t.decisions.Keys);
  }

  lemma {:induction false} RowsStayKeyed(db: Db, e: Event)
    requires Inv(db) && Enabled(db, e)
    ensures CalendarKeyed(After(db, e).calendar, After(db, e).workflows)
  {
    hide DecisionsConsistent, GatesKeyed, GatesConsistent, ProposalsKeyed, MappingConsistent, WorkflowsCurrent,
      CalendarCurrent, CanBeApplied, ExpectedRevisions, AfterById, ClaimedFor;
  }

  lemma {:induction false} GatesStay(db: Db, e: Event)
    requires Inv(db) && Enabled(db, e)
    ensures var t := After(db, e);
      GatesKeyed(t.gates) && GatesConsistent(t.gates, t.proposals, t.decisions.Keys) && ProposalsKeyed(t.proposals)
  {
    hide DecisionsConsistent, GatesKeyed, GatesConsistent, CalendarKeyed, MappingConsistent;
    match e
    case ProposalSaved(p) => ProposalAdded(db.gates, db.proposals, db.decisions.Keys, p);
    case GateInserted(_, _, _, _) => GateEventKeepsGates(db, e);
    case InterruptBound(_, _) => GateEventKeepsGates(db, e);
    case ResponseClaimed(_, _) => GateEventKeepsGates(db, e);
    case ResponseWasStale(_) => SettlingKeepsGates(db, e);
    case ResponseDecided(_) => SettlingKeepsGates(db, e);
    case _ =>
  }

  lemma {:induction false} NewDecision(db: Db, r: Response)
    requires Undecided(db, r) && Current(db, r) && !GateDecided(db, r) && Placeable(db, r)
    ensures DecisionConsistent(AfterDecision(db, r), r)
    ensures r.action.ApproveReplan? ==> Consumed(AfterDecision(db, r), r)
  {
    hide TableBy;
  }

  lemma {:induction false} DecidedProposal(db: Db, r: Response)
    requires DecisionConsistent(db, r)
    ensures r.proposalId in db.proposals
  {}

  /** Every transaction keeps the invariant. */
  lemma {:induction false} EventKeepsInv(db: Db, e: Event)
    requires Inv(db) && Enabled(db, e)
    ensures Inv(After(db, e))
  {
    hide Consumed, DecisionConsistent, GatesConsistent, GatesKeyed, CalendarKeyed, ProposalsKeyed, Advances,
      MappingConsistent, WorkflowsCurrent, CalendarCurrent, CanBeApplied, ExpectedRevisions;
    var t := After(db, e);
    RowsStayKeyed(db, e);
    GatesStay(db, e);
    EventAdvances(db, e);
    if e.ResponseDecided? {
      NewDecision(db, e.response);
    }
    forall r | r in t.decisions
      ensures DecisionConsistent(t, r)
      ensures r.action.ApproveReplan? ==> r.proposalId in t.proposals && Consumed(t, r)
    {
      if r in db.decisions {
        DecisionStays(db, t, r);
      }
      DecidedProposal(t, r);
    }
  }

  // ---------------------------------------------------------------- whole runs

  lemma {:induction false} NothingAdvances(db: Db)
    ensures Advances(db, db)
  {}

  /** The invariant holds after every run, and every run only advances the tables: revisions never decrease, a
      proposal leaves PENDING at most once, a claimed gate keeps its response, decisions are permanent. */
  lemma {:induction false} RunKeeps(db: Db, events: seq<Event>)
    requires Inv(db) && IsRun(db, events)
    ensures Inv(End(db, events)) && Advances(db, End(db, events))
    decreases |events|
  {
    hide Inv, Enabled, After;
    if events == [] {
      NothingAdvances(db);
    } else {
      var next := After(db, events[0]);
      EventKeepsInv(db, events[0]);
      EventAdvances(db, events[0]);
      RunKeeps(next, events[1..]);
      AdvancesTransitively(db, next, End(db, events));
    }
  }

  /** The gate and the proposal of a committed decision. */
  ghost predicate IsDecided(db: Db, r: Response) {
    && r.gateId in db.gates && r.proposalId in db.proposals && !r.action.Unknown?
    && db.gates[r.gateId].proposalId == r.proposalId && db.gates[r.gateId].status.Resolved?
    && db.gates[r.gateId].decision == Some(r) && db.gates[r.gateId].response == Some(r)
    && db.gates[r.gateId].fingerprint == r.fingerprint
    && db.proposals[r.proposalId].status == DecidedStatus(r.action)
    && r in db.operations && db.operations[r] == r
  }

  lemma {:induction false} DecidedGate(db: Db, r: Response)
    requires Inv(db) && r in db.decisions
    ensures IsDecided(db, r)
  {
    hide Consumed, ProposalsKeyed, CalendarKeyed, GatesKeyed;
    assert DecisionConsistent(db, r);
    assert GateMatches(r.gateId, db.gates[r.gateId], db.proposals[db.gates[r.gateId].proposalId], db.decisions.Keys);
  }

  lemma {:induction false} ResolvedGate(db: Db, g: string)
    requires Inv(db) && g in db.gates && db.gates[g].status.Resolved?
    ensures db.gates[g].decision.Some? && db.gates[g].decision.value in db.decisions
    ensures db.gates[g].decision.value.gateId == g
  {
    hide DecisionsConsistent, ProposalsKeyed, CalendarKeyed, GatesKeyed;
    assert GateMatches(g, db.gates[g], db.proposals[db.gates[g].proposalId], db.decisions.Keys);
  }

  lemma {:induction false} OneGatePerProposal(db: Db, g: string, h: string)
    requires Inv(db) && g in db.gates && h in db.gates && db.gates[g].proposalId == db.gates[h].proposalId
    ensures g == h
  {
    hide DecisionsConsistent, GatesConsistent, ProposalsKeyed, CalendarKeyed;
  }

  /** A proposal gets at most one owner decision, and a gate is resolved exactly when its decision exists. */
  lemma {:induction false} OneDecisionPerProposal(events: seq<Event>)
    requires IsRun(EMPTY, events)
    ensures var db := End(EMPTY, events);
      && (forall r, q | r in db.decisions && q in db.decisions && r.proposalId == q.proposalId :: r == q)
      && (forall g | g in db.gates ::
            db.gates[g].status.Resolved? <==> exists r | r in db.decisions :: r.gateId == g)
  {
    hide IsRun, End, Inv, Advances;
    EmptyIsConsistent();
    RunKeeps(EMPTY, events);
    var db := End(EMPTY, events);
    forall r | r in db.decisions ensures IsDecided(db, r) {
      DecidedGate(db, r);
    }
    forall g, h | g in db.gates && h in db.gates && db.gates[g].proposalId == db.gates[h].proposalId ensures g == h {
      OneGatePerProposal(db, g, h);
    }
    forall g | g in db.gates && db.gates[g].status.Resolved? ensures exists r | r in db.decisions :: r.gateId == g {
      ResolvedGate(db, g);
    }
  }

  /** Both proposals expect the same revision of assignment `k`. */
  ghost predicate ShareRevision(p: Proposal, q: Proposal, k: string) {
    && k in ExpectedRevisions(p.expectedCalendarRevisions) && k in ExpectedRevisions(q.expectedCalendarRevisions)
    && ExpectedRevisions(p.expectedCalendarRevisions)[k].1 == ExpectedRevisions(q.expectedCalendarRevisions)[k].1
  }

  ghost predicate ApprovalsDisjoint(db: Db) {
    forall r, q, k | r in db.decisions && q in db.decisions && r != q && r.action.ApproveReplan?
      && q.action.ApproveReplan?
      && r.proposalId in db.proposals && q.proposalId in db.proposals ::
      !ShareRevision(db.proposals[r.proposalId], db.proposals[q.proposalId], k)
  }

  lemma {:induction false} SharedAlike(p: Proposal, p': Proposal, q: Proposal, q': Proposal, k: string)
    requires p'.expectedCalendarRevisions == p.expectedCalendarRevisions
    requires q'.expectedCalendarRevisions == q.expectedCalendarRevisions
    ensures ShareRevision(p', q', k) <==> ShareRevision(p, q, k)
  {}

  lemma {:induction false} SameExpectations(db: Db, e: Event, r: Response)
    requires Inv(db) && Enabled(db, e) && r in After(db, e).decisions
    ensures var t := After(db, e);
      && r.proposalId in db.proposals && r.proposalId in t.proposals
      && t.proposals[r.proposalId].expectedCalendarRevisions == db.proposals[r.proposalId].expectedCalendarRevisions
    ensures r !in db.decisions ==> e.ResponseDecided? && r == e.response
  {
    hide Consumed, GatesConsistent, MappingConsistent, WorkflowsCurrent, CalendarCurrent, CanBeApplied;
    EventAdvances(db, e);
    if r in db.decisions {
      assert DecisionConsistent(db, r);
    }
    assert ProposalAdvances(db.proposals[r.proposalId], After(db, e).proposals[r.proposalId]);
  }

  lemma {:induction false} EarlierApprovalConsumed(db: Db, r: Response, earlier: Response, k: string)
    requires Inv(db) && Undecided(db, r) && Current(db, r)
    requires earlier in db.decisions && earlier.action.ApproveReplan?
    ensures earlier.proposalId in db.proposals
    ensures !ShareRevision(db.proposals[r.proposalId], db.proposals[earlier.proposalId], k)
    ensures !ShareRevision(db.proposals[earlier.proposalId], db.proposals[r.proposalId], k)
  {
    hide ExpectedRevisions, GatesConsistent;
    assert DecisionConsistent(db, earlier);
    assert Consumed(db, earlier);
  }

  lemma {:induction false} ApprovalsStayDisjoint(db: Db, e: Event)
    requires Inv(db) && ApprovalsDisjoint(db) && Enabled(db, e)
    ensures ApprovalsDisjoint(After(db, e))
  {
    hide Inv, ExpectedRevisions, Consumed, MappingConsistent, Advances, ShareRevision;
    var t := After(db, e);
    forall r, q, k | r in t.decisions && q in t.decisions && r != q && r.action.ApproveReplan?
      && q.action.ApproveReplan?
      && r.proposalId in t.proposals && q.proposalId in t.proposals
      ensures !ShareRevision(t.proposals[r.proposalId], t.proposals[q.proposalId], k)
    {
      SameExpectations(db, e, r);
      SameExpectations(db, e, q);
      SharedAlike(db.proposals[r.proposalId], t.proposals[r.proposalId], db.proposals[q.proposalId],
                  t.proposals[q.proposalId], k);
      if r !in db.decisions {
        EarlierApprovalConsumed(db, e.response, q, k);
      } else if q !in db.decisions {
        EarlierApprovalConsumed(db, e.response, r, k);
      }
    }
  }

  lemma {:induction false} RunKeepsApprovalsDisjoint(db: Db, events: seq<Event>)
    requires Inv(db) && ApprovalsDisjoint(db) && IsRun(db, events)
    ensures ApprovalsDisjoint(End(db, events))
    decreases |events|
  {
    hide Inv, ApprovalsDisjoint, Enabled, After;
    if events != [] {
      EventKeepsInv(db, events[0]);
      ApprovalsStayDisjoint(db, events[0]);
      RunKeepsApprovalsDisjoint(After(db, events[0]), events[1..]);
    }
  }

  lemma {:induction false} DecidedProposalIsStored(db: Db, r: Response)
    requires Inv(db) && r in db.decisions
    ensures r.proposalId in db.proposals
  {
    hide Inv;
    DecidedGate(db, r);
  }

  /** No two approvals of a run ever consumed the same revision of the same assignment. */
  lemma {:induction false} NoRevisionIsConsumedTwice(events: seq<Event>, r: Response, q: Response, k: string)
    requires IsRun(EMPTY, events)
    requires var db := End(EMPTY, events);
      r in db.decisions && q in db.decisions && r != q && r.action.ApproveReplan? && q.action.ApproveReplan?
    ensures var db := End(EMPTY, events);
      && r.proposalId in db.proposals && q.proposalId in db.proposals && r.proposalId != q.proposalId
      && !ShareRevision(db.proposals[r.proposalId], db.proposals[q.proposalId], k)
  {
    hide IsRun, End, Inv, ShareRevision, IsDecided, Advances;
    EmptyIsConsistent();
    RunKeeps(EMPTY, events);
    RunKeepsApprovalsDisjoint(EMPTY, events);
    DecidedProposalIsStored(End(EMPTY, events), r);
    DecidedProposalIsStored(End(EMPTY, events), q);
    OneDecisionPerProposal(events);
  }

  /** Of two claimed responses that expect the same revision, approving one makes the other stale. */
  lemma {:induction false} ApprovalInvalidatesRivals(db: Db, r: Response, rival: Response, k: string)
    requires Undecided(db, r) && Current(db, r) && Placeable(db, r) && r.action.ApproveReplan?
    requires ClaimedFor(db, rival) && rival.proposalId != r.proposalId
    requires ShareRevision(db.proposals[r.proposalId], db.proposals[rival.proposalId], k)
    ensures !Current(AfterDecision(db, r), rival)
  {
    hide ExpectedRevisions;
    assert db.calendar[k].revision == ExpectedRevisions(db.proposals[r.proposalId].expectedCalendarRevisions)[k].1;
    assert AfterDecision(db, r).calendar[k].revision == db.calendar[k].revision + 1;
  }

  /** Both proposals expect a revision of the same assignment or of the same workflow. */
  ghost predicate ShareRow(p: Proposal, q: Proposal) {
    || (exists k :: k in ExpectedRevisions(p.expectedCalendarRevisions)
          && k in ExpectedRevisions(q.expectedCalendarRevisions))
    || (exists k :: k in ExpectedRevisions(p.expectedWorkflowRevisions)
          && k in ExpectedRevisions(q.expectedWorkflowRevisions))
  }

  /** Exactly the rivals that share no row survive an approval: they can still be committed, whatever else it moved. */
  lemma {:induction false} RivalSurvivesIffNoRowIsShared(db: Db, r: Response, rival: Response)
    requires Undecided(db, r) && Current(db, r) && Placeable(db, r) && r.action.ApproveReplan?
    requires Undecided(db, rival) && Current(db, rival) && rival.proposalId != r.proposalId
    ensures Undecided(AfterDecision(db, r), rival)
    ensures AfterDecision(db, r).proposals[rival.proposalId] == db.proposals[rival.proposalId]
    ensures Current(AfterDecision(db, r), rival) <==>
      !ShareRow(db.proposals[r.proposalId], db.proposals[rival.proposalId])
  {
    hide ExpectedRevisions;
    var p, q, t := db.proposals[r.proposalId], db.proposals[rival.proposalId], AfterDecision(db, r);
    if k :| k in ExpectedRevisions(p.expectedCalendarRevisions) && k in ExpectedRevisions(q.expectedCalendarRevisions) {
      assert t.calendar[k].revision == db.calendar[k].revision + 1;
    }
    if k :| k in ExpectedRevisions(p.expectedWorkflowRevisions) && k in ExpectedRevisions(q.expectedWorkflowRevisions) {
      assert t.workflows[k].revision == db.workflows[k].revision + 1;
    }
  }

  // ---------------------------------------------------------------- what statuses mean

  ghost predicate SavedPending(events: seq<Event>) {
    forall e | e in events :: e.ProposalSaved? ==> e.proposal.status == PendingOwnerApproval
  }

  ghost predicate PendingOrGated(db: Db, id: string) {
    id in db.proposals && (db.proposals[id].status == PendingOwnerApproval || HasGate(db, id))
  }

  /** A proposal that was never given a gate is still pending. */
  ghost predicate UngatedArePending(db: Db) {
    forall k | k in db.proposals :: PendingOrGated(db, k)
  }

  lemma {:induction false} GateRemains(s: Db, t: Db, proposalId: string)
    requires Advances(s, t) && HasGate(s, proposalId)
    ensures HasGate(t, proposalId)
  {
    var g :| g in s.gates && s.gates[g].proposalId == proposalId;
    assert GateAdvances(s.gates[g], t.gates[g]);
  }

  lemma {:induction false} ProposalRemains(s: Db, t: Db, id: string)
    requires Advances(s, t) && id in s.proposals
    ensures id in t.proposals && ProposalAdvances(s.proposals[id], t.proposals[id])
  {}

  /** Only a response through its gate changes the status of a stored proposal. */
  lemma {:induction false} EventKeepsPendingOrGated(db: Db, e: Event, id: string)
    requires Inv(db) && PendingOrGated(db, id) && Enabled(db, e)
    ensures PendingOrGated(After(db, e), id)
  {
    hide Inv, MappingConsistent, WorkflowsCurrent, CalendarCurrent, CanBeApplied, MovedCalendar, AdvancedWorkflows,
      Advances;
    var t := After(db, e);
    EventAdvances(db, e);
    assert id in t.proposals by {
      ProposalRemains(db, t, id);
    }
    if e.ResponseWasStale? || e.ResponseDecided? {
      assert HasGate(db, e.response.proposalId);
    }
    if HasGate(db, id) {
      GateRemains(db, t, id);
    }
  }

  lemma {:induction false} RunKeepsPendingOrGated(db: Db, events: seq<Event>, id: string)
    requires Inv(db) && PendingOrGated(db, id) && IsRun(db, events)
    ensures PendingOrGated(End(db, events), id)
    decreases |events|
  {
    hide Inv, PendingOrGated, Enabled, After;
    if events != [] {
      EventKeepsInv(db, events[0]);
      EventKeepsPendingOrGated(db, events[0], id);
      RunKeepsPendingOrGated(After(db, events[0]), events[1..], id);
    }
  }

  lemma {:induction false} EventKeepsUngatedPending(db: Db, e: Event)
    requires Inv(db) && UngatedArePending(db) && Enabled(db, e)
    requires e.ProposalSaved? ==> e.proposal.status == PendingOwnerApproval
    ensures UngatedArePending(After(db, e))
  {
    hide Inv, MappingConsistent, WorkflowsCurrent, CalendarCurrent, CanBeApplied, MovedCalendar, AdvancedWorkflows,
      HasGate;
    forall k | k in After(db, e).proposals ensures PendingOrGated(After(db, e), k) {
      if k in db.proposals {
        EventKeepsPendingOrGated(db, e, k);
      }
    }
  }

  lemma {:induction false} RunKeepsUngatedPending(db: Db, events: seq<Event>)
    requires Inv(db) && UngatedArePending(db) && IsRun(db, events) && SavedPending(events)
    ensures UngatedArePending(End(db, events))
    decreases |events|
  {
    hide Inv, UngatedArePending, Enabled, After;
    if events != [] {
      assert events[0] in events;
      EventKeepsInv(db, events[0]);
      EventKeepsUngatedPending(db, events[0]);
      RunKeepsUngatedPending(After(db, events[0]), events[1..]);
    }
  }

  lemma {:induction false} NothingUngated()
    ensures UngatedArePending(EMPTY)
  {}

  lemma {:induction false} GateOfStatus(db: Db, g: string)
    requires Inv(db) && g in db.gates
    ensures db.gates[g].proposalId in db.proposals
    ensures db.gates[g].status.Invalidated? ==> db.proposals[db.gates[g].proposalId].status == Stale
    ensures db.gates[g].status.GatePending? || db.gates[g].status.Resuming? ==>
      db.proposals[db.gates[g].proposalId].status == PendingOwnerApproval
  {
    hide DecisionsConsistent, ProposalsKeyed, CalendarKeyed, GatesKeyed;
    assert GateMatches(g, db.gates[g], db.proposals[db.gates[g].proposalId], db.decisions.Keys);
  }

  lemma {:induction false} StatusOfGated(db: Db, id: string)
    requires Inv(db) && UngatedArePending(db) && id in db.proposals
    ensures var status := db.proposals[id].status;
      && (status == Applied <==> exists r | r in db.decisions :: r.proposalId == id && r.action.ApproveReplan?)
      && (status == Rejected <==> exists r | r in db.decisions :: r.proposalId == id && r.action.RejectReplan?)
      && (status == Stale <==> exists g | g in db.gates ::
            db.gates[g].proposalId == id && db.gates[g].status.Invalidated?)
      && status != Approved
  {
    hide Inv;
    forall r | r in db.decisions && r.proposalId == id ensures IsDecided(db, r) {
      DecidedGate(db, r);
    }
    if HasGate(db, id) {
      var g :| g in db.gates && db.gates[g].proposalId == id;
      GateOfStatus(db, g);
      if db.gates[g].status.Resolved? {
        ResolvedGate(db, g);
        DecidedGate(db, db.gates[g].decision.value);
      }
      forall h | h in db.gates && db.gates[h].proposalId == id ensures h == g {
        OneGatePerProposal(db, g, h);
      }
    }
  }

  /** When every proposal is saved pending, its status tells exactly what happened to it. */
  lemma {:induction false} StatusTellsHistory(events: seq<Event>, id: string)
    requires IsRun(EMPTY, events) && SavedPending(events) && id in End(EMPTY, events).proposals
    ensures var db := End(EMPTY, events);
      var status := db.proposals[id].status;
      && (status == Applied <==> exists r | r in db.decisions :: r.proposalId == id && r.action.ApproveReplan?)
      && (status == Rejected <==> exists r | r in db.decisions :: r.proposalId == id && r.action.RejectReplan?)
      && (status == Stale <==> exists g | g in db.gates ::
            db.gates[g].proposalId == id && db.gates[g].status.Invalidated?)
      && status != Approved
  {
    hide IsRun, End, Consumed, UngatedArePending;
    EmptyIsConsistent();
    RunKeeps(EMPTY, events);
    NothingUngated();
    RunKeepsUngatedPending(EMPTY, events);
    var db := End(EMPTY, events);
    StatusOfGated(db, id);
  }

  // ---------------------------------------------------------------- what cannot go wrong

  /** A pending gate with an interrupt can always be claimed: its proposal is never found inconsistent. */
  lemma {:induction false} ClaimNeverFindsInconsistency(db: Db, gateId: string, action: Action)
    requires Inv(db) && gateId in db.gates && db.gates[gateId].status.GatePending? && !action.Unknown?
    requires db.gates[gateId].interruptId.Some? && db.gates[gateId].interruptId.value != ""
    ensures CanClaim(db, gateId, action)
  {
    hide DecisionsConsistent;
    assert GateMatches(gateId, db.gates[gateId], db.proposals[db.gates[gateId].proposalId], db.decisions.Keys);
  }

  lemma {:induction false} OperationsAreDecisions(db: Db)
    requires Inv(db)
    ensures db.operations.Keys == db.decisions.Keys
    ensures forall d | d in db.decisions :: db.decisions[d].gateId == d.gateId
  {
    hide Consumed, GatesConsistent, ProposalsKeyed, CalendarKeyed, GatesKeyed;
    forall d | d in db.decisions ensures db.decisions[d].gateId == d.gateId {
      assert DecisionConsistent(db, d);
    }
  }

  lemma {:induction false} ClaimedActionIsKnown(db: Db, r: Response)
    requires Inv(db) && ClaimedFor(db, r)
    ensures !r.action.Unknown?
  {
    hide DecisionsConsistent, ProposalsKeyed, CalendarKeyed, GatesKeyed;
    assert GateMatches(r.gateId, db.gates[r.gateId], db.proposals[r.proposalId], db.decisions.Keys);
  }

  /** A claimed response is not yet decided, so recording its decision violates no constraint. */
  lemma {:induction false} ClaimedResponseIsUndecided(db: Db, r: Response)
    requires Inv(db) && ClaimedFor(db, r)
    ensures Undecided(db, r) && !GateDecided(db, r)
  {
    hide Inv;
    OperationsAreDecisions(db);
    forall d | d in db.decisions ensures d != r && db.decisions[d].gateId != r.gateId {
      DecidedGate(db, d);
    }
    ClaimedActionIsKnown(db, r);
  }

  lemma {:induction false} SameRows(s: Db, t: Db, r: Response)
    requires t.workflows == s.workflows && t.calendar == s.calendar && t.proposals == s.proposals
    requires r.proposalId in s.proposals
    ensures Current(t, r) <==> Current(s, r)
    ensures Placeable(t, r) <==> Placeable(s, r)
  {}

  lemma {:induction false} CanBeDecided(db: Db, gateId: string, action: Action)
    requires Inv(db) && CanClaim(db, gateId, action)
    requires var r := Canonical(db, gateId, action); Current(db, r) && Placeable(db, r)
    ensures Enabled(AfterClaim(db, gateId, action), ResponseDecided(Canonical(db, gateId, action)))
  {
    var r, claimed := Canonical(db, gateId, action), AfterClaim(db, gateId, action);
    EventKeepsInv(db, ResponseClaimed(gateId, action));
    hide Inv, MappingConsistent, WorkflowsCurrent, CalendarCurrent, CanBeApplied;
    ClaimedResponseIsUndecided(claimed, r);
    SameRows(db, claimed, r);
  }

  lemma {:induction false} DecisionIsRecorded(db: Db, r: Response)
    requires Enabled(db, ResponseDecided(r))
    ensures r in After(db, ResponseDecided(r)).decisions
  {
    hide MovedCalendar, AdvancedWorkflows, WorkflowsCurrent, CalendarCurrent, CanBeApplied;
  }

  lemma {:induction false} TwoEvents(db: Db, a: Event, b: Event)
    requires Enabled(db, a) && Enabled(After(db, a), b)
    ensures IsRun(db, [a, b]) && End(db, [a, b]) == After(After(db, a), b)
  {
    hide Enabled, After;
    var next := After(db, a);
    assert [b][1..] == [] && [a, b][1..] == [b];
    assert IsRun(After(next, b), []) && End(After(next, b), []) == After(next, b);
    assert IsRun(next, [b]) && End(next, [b]) == After(next, b);
  }

  /** Progress: a pending gate with an interrupt, whose proposal is still current and can be applied, is decided by
      claiming and committing the owner's answer, whichever of the two it is. */
  lemma {:induction false} OwnerAnswerGoesThrough(db: Db, gateId: string, action: Action)
    requires Inv(db) && gateId in db.gates && db.gates[gateId].status.GatePending? && !action.Unknown?
    requires db.gates[gateId].interruptId.Some? && db.gates[gateId].interruptId.value != ""
    requires db.gates[gateId].proposalId in db.proposals
    requires var r := Canonical(db, gateId, action); Current(db, r) && Placeable(db, r)
    ensures var r := Canonical(db, gateId, action);
      var events := [ResponseClaimed(gateId, action), ResponseDecided(r)];
      IsRun(db, events) && r in End(db, events).decisions && IsDecided(End(db, events), r)
  {
    var r := Canonical(db, gateId, action);
    var claim, decide := ResponseClaimed(gateId, action), ResponseDecided(r);
    ClaimNeverFindsInconsistency(db, gateId, action);
    EventKeepsInv(db, claim);
    var claimed := After(db, claim);
    CanBeDecided(db, gateId, action);
    EventKeepsInv(claimed, decide);
    hide Inv, Enabled, IsRun, End, Current, Placeable, Canonical;
    TwoEvents(db, claim, decide);
    DecisionIsRecorded(claimed, r);
    DecidedGate(After(claimed, decide), r);
  }

  lemma {:induction false} DecisionIsAnswered(db: Db, r: Response)
    requires Inv(db) && r in db.decisions
    ensures r in db.operations && db.operations[r] == r && AlreadyAnswered(db, r.gateId, r.action)
  {
    hide Inv;
    DecidedGate(db, r);
  }

  /** Replaying a decided response, at any later time, finds the same decision. */
  lemma {:induction false} ReplayFindsTheDecision(db: Db, events: seq<Event>, r: Response)
    requires Inv(db) && r in db.decisions && IsRun(db, events)
    ensures var t := End(db, events);
      && r in t.operations && t.operations[r] == r && r in t.decisions && t.decisions[r] == db.decisions[r]
      && AlreadyAnswered(t, r.gateId, r.action)
  {
    hide IsRun, End, Inv, AlreadyAnswered;
    RunKeeps(db, events);
    DecisionIsAnswered(End(db, events), r);
  }

  /** The proposal read before the gate transaction is still good enough when the transaction starts: whatever
      happened in between, either a gate exists already or the proposal is still pending and unchanged. */
  lemma {:induction false} ReadStaysValid(db: Db, events: seq<Event>, proposalId: string)
    requires Inv(db) && IsRun(db, events)
    requires proposalId in db.proposals && db.proposals[proposalId].status == PendingOwnerApproval
    ensures StillObserved(End(db, events), db.proposals[proposalId])
  {
    hide IsRun, End, DecisionsConsistent, GatesConsistent, Advances;
    RunKeeps(db, events);
    RunKeepsPendingOrGated(db, events, proposalId);
    ProposalRemains(db, End(db, events), proposalId);
  }

  // ---------------------------------------------------------------- all or nothing

  /** Approval moves exactly the expected assignments to their new placements and raises each expected revision
      by one; nothing else in the calendar or the workflows changes. */
  lemma {:induction false} ApprovalMovesExactlyTheExpected(db: Db, r: Response, k: string)
    requires Undecided(db, r) && Current(db, r) && Placeable(db, r) && r.action.ApproveReplan?
    ensures var p, t := db.proposals[r.proposalId], AfterDecision(db, r);
      && t.calendar.Keys == db.calendar.Keys && t.workflows.Keys == db.workflows.Keys
      && (k in ExpectedRevisions(p.expectedCalendarRevisions) ==>
            t.calendar[k] == db.calendar[k].(
              start := AfterById(p)[k].start, end := AfterById(p)[k].end,
              revision := ExpectedRevisions(p.expectedCalendarRevisions)[k].1 + 1))
      && (k in db.calendar && k !in ExpectedRevisions(p.expectedCalendarRevisions) ==> t.calendar[k] == db.calendar[k])
      && (k in ExpectedRevisions(p.expectedWorkflowRevisions) ==>
            t.workflows[k] == db.workflows[k].(revision := ExpectedRevisions(p.expectedWorkflowRevisions)[k].1 + 1))
      && (k in db.workflows && k !in ExpectedRevisions(p.expectedWorkflowRevisions) ==>
            t.workflows[k] == db.workflows[k])
  {
    hide TableBy;
  }

  /** Rejection and staleness leave the calendar and the workflows untouched. */
  lemma {:induction false} OnlyApprovalTouchesTheCalendar(db: Db, r: Response)
    requires Undecided(db, r)
    ensures AfterStale(db, r).calendar == db.calendar && AfterStale(db, r).workflows == db.workflows
    ensures r.action.RejectReplan? ==>
      AfterDecision(db, r).calendar == db.calendar && AfterDecision(db, r).workflows == db.workflows
  {}
}
