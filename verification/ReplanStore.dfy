/** The durable replan protocol: proposals, owner gates, decisions, calendar and workflow revisions. Each
    `transaction()` is one atomic step: a method works on a copy of the tables and commits it by assigning `db`;
    returning an error without committing is the rollback. */
module ReplanStore {
  import opened Prelude
  import opened DispatchModels

  datatype Workflow = Workflow(jobId: string, revision: nat, state: string, snapshot: string)

  datatype Binding = Binding(sessionId: string, agentId: string)

  datatype Action = ApproveReplan | RejectReplan | Unknown(text: string)

  /** The canonical owner response. It is its own fingerprint, operation identity and decision identity. */
  datatype Response = Response(gateId: string, proposalId: string, action: Action, fingerprint: string)

  datatype GateStatus = GatePending | Resuming | Resolved | Invalidated

  datatype Gate = Gate(
    workflowId: string, proposalId: string, fingerprint: string, sessionId: string, agentId: string,
    interruptId: Option<string>, status: GateStatus, response: Option<Response>, decision: Option<Response>)

  datatype Decision = Decision(id: Response, gateId: string, workflowId: string, proposalId: string, action: Action)

  /** The durable tables, each indexed by its primary key. */
  datatype Db = Db(
    workflows: map<string, Workflow>, bindings: map<string, Binding>, calendar: map<string, AssignmentRecord>,
    proposals: map<string, Proposal>, gates: map<string, Gate>, decisions: map<Response, Decision>,
    operations: map<Response, Response>)

  /** The worker and vehicle tables, which calendar rows refer to. */
  datatype Resources = Resources(workers: set<string>, vehicles: set<string>)
  {
    predicate Hold(a: AssignmentRecord) {
      a.workerId in workers && (a.vehicleId.Some? ==> a.vehicleId.value in vehicles)
    }
  }

  datatype StoreError =
    | NotFound | StaleRevision(id: string) | CrossJobReference | GateConflict | GateInput | RecoveryInconsistency
    | Integrity | MissingPlacement(id: string)

  // ---------------------------------------------------------------- revisions a proposal expects

  function First(pair: (string, nat)): string { pair.0 }

  function PlacementId(p: Placement): string { p.assignmentId }

  /** The dictionary of expected revisions. */
  function ExpectedRevisions(pairs: seq<(string, nat)>): map<string, (string, nat)> {
    TableBy(pairs, First)
  }

  /** The keys of that dictionary in insertion order. */
  function KeysInOrder(pairs: seq<(string, nat)>): (keys: seq<string>)
    ensures forall k :: k in keys <==> k in ExpectedRevisions(pairs)
    ensures forall i, j | 0 <= i < j < |keys| :: keys[i] != keys[j]
  {
    if pairs == [] then []
    else
      var init := KeysInOrder(pairs[..|pairs| - 1]);
      var k := pairs[|pairs| - 1].0;
      if k in init then init else init + [k]
  }

  lemma {:induction false} KeysAppear(pairs: seq<(string, nat)>, k: string)
    ensures k in KeysInOrder(pairs) <==> exists m | 0 <= m < |pairs| :: pairs[m].0 == k
  {
    hide KeysInOrder, TableBy;
    TableKey(pairs, First, k);
    assert HasKey(pairs, First, k) <==> exists m | 0 <= m < |pairs| :: pairs[m].0 == k;
  }

  /** `x` is listed, and not after `y`. */
  ghost predicate AppearsBefore(pairs: seq<(string, nat)>, x: string, y: string) {
    exists m | 0 <= m < |pairs| :: pairs[m].0 == x && forall n | 0 <= n <= m :: pairs[n].0 != y
  }

  lemma {:induction false} StillBefore(pairs: seq<(string, nat)>, x: string, y: string)
    requires pairs != [] && AppearsBefore(pairs[..|pairs| - 1], x, y)
    ensures AppearsBefore(pairs, x, y)
  {
    var init := pairs[..|pairs| - 1];
    var m :| 0 <= m < |init| && init[m].0 == x && forall n | 0 <= n <= m :: init[n].0 != y;
    assert pairs[m].0 == x && forall n | 0 <= n <= m :: pairs[n] == init[n];
  }

  lemma {:induction false} NewKeyIsLast(pairs: seq<(string, nat)>, x: string, y: string)
    requires pairs != [] && x in KeysInOrder(pairs[..|pairs| - 1]) && y !in KeysInOrder(pairs[..|pairs| - 1])
    ensures AppearsBefore(pairs, x, y)
  {
    hide KeysInOrder, ExpectedRevisions;
    var init := pairs[..|pairs| - 1];
    KeysAppear(init, x);
    KeysAppear(init, y);
    var m :| 0 <= m < |init| && init[m].0 == x;
    assert pairs[m].0 == x && forall n | 0 <= n <= m :: pairs[n] == init[n];
  }

  lemma {:induction false} OneMoreKey(pairs: seq<(string, nat)>)
    requires KeysInOrder(pairs) != []
    ensures pairs != []
    ensures var keys, k := KeysInOrder(pairs[..|pairs| - 1]), pairs[|pairs| - 1].0;
      KeysInOrder(pairs) == if k in keys then keys else keys + [k]
  {}

  /** The keys stand in the order in which they first appear. */
  lemma {:induction false} KeysAsTheyAppear(pairs: seq<(string, nat)>, i: nat, j: nat)
    requires i < j < |KeysInOrder(pairs)|
    ensures AppearsBefore(pairs, KeysInOrder(pairs)[i], KeysInOrder(pairs)[j])
  {
    OneMoreKey(pairs);
    hide KeysInOrder, ExpectedRevisions, AppearsBefore;
    var init := pairs[..|pairs| - 1];
    if j < |KeysInOrder(init)| {
      KeysAsTheyAppear(init, i, j);
      StillBefore(pairs, KeysInOrder(pairs)[i], KeysInOrder(pairs)[j]);
    } else {
      NewKeyIsLast(pairs, KeysInOrder(init)[i], KeysInOrder(pairs)[j]);
    }
  }

  /** The revision listed for `k`; the last one counts. */
  ghost predicate IsExpected(pairs: seq<(string, nat)>, k: string, revision: nat) {
    exists i | 0 <= i < |pairs| :: pairs[i] == (k, revision) && forall j | i < j < |pairs| :: pairs[j].0 != k
  }

  lemma {:induction false} ExpectedMeans(pairs: seq<(string, nat)>, k: string)
    ensures forall revision: nat :: IsExpected(pairs, k, revision) <==>
      k in ExpectedRevisions(pairs) && ExpectedRevisions(pairs)[k] == (k, revision)
    ensures k in ExpectedRevisions(pairs) ==> ExpectedRevisions(pairs)[k].0 == k
  {
    hide TableBy;
    TableKey(pairs, First, k);
    if k in TableBy(pairs, First) {
      TableHoldsLast(pairs, First, k);
      var i: nat :| i < |pairs| && pairs[i] == TableBy(pairs, First)[k] && IsLast(pairs, First, i, k);
      assert forall j | i < j < |pairs| :: First(pairs[j]) != k;
      assert forall j | 0 <= j < |pairs| && pairs[j].0 == k :: j <= i;
    } else {
      assert forall i | 0 <= i < |pairs| :: First(pairs[i]) != k;
    }
  }

  predicate WorkflowsCurrent(db: Db, p: Proposal) {
    forall k | k in ExpectedRevisions(p.expectedWorkflowRevisions) ::
      k in db.workflows && db.workflows[k].revision == ExpectedRevisions(p.expectedWorkflowRevisions)[k].1
  }

  predicate CalendarCurrent(db: Db, p: Proposal) {
    forall k | k in ExpectedRevisions(p.expectedCalendarRevisions) ::
      k in db.calendar && db.calendar[k].revision == ExpectedRevisions(p.expectedCalendarRevisions)[k].1
  }

  /** Every row that is listed stands at the listed revision. */
  ghost predicate StandsAtListed(pairs: seq<(string, nat)>, revisions: map<string, nat>) {
    forall k, revision: nat | IsExpected(pairs, k, revision) :: k in revisions && revisions[k] == revision
  }

  lemma {:induction false} ListedMeans(pairs: seq<(string, nat)>, revisions: map<string, nat>)
    ensures StandsAtListed(pairs, revisions) <==>
      forall k | k in ExpectedRevisions(pairs) :: k in revisions && revisions[k] == ExpectedRevisions(pairs)[k].1
  {
    hide ExpectedRevisions, IsExpected;
    forall k, revision: nat
      ensures IsExpected(pairs, k, revision) <==>
        k in ExpectedRevisions(pairs) && ExpectedRevisions(pairs)[k] == (k, revision)
      ensures k in ExpectedRevisions(pairs) ==> ExpectedRevisions(pairs)[k].0 == k
    {
      ExpectedMeans(pairs, k);
    }
    if StandsAtListed(pairs, revisions) {
      forall k | k in ExpectedRevisions(pairs)
        ensures k in revisions && revisions[k] == ExpectedRevisions(pairs)[k].1
      {
        assert IsExpected(pairs, k, ExpectedRevisions(pairs)[k].1);
      }
    }
  }

  /** A proposal is current exactly when every row it lists stands at the listed revision. */
  lemma {:induction false} CurrentMeans(db: Db, p: Proposal)
    ensures WorkflowsCurrent(db, p) <==>
      StandsAtListed(p.expectedWorkflowRevisions, map k | k in db.workflows :: db.workflows[k].revision)
    ensures CalendarCurrent(db, p) <==>
      StandsAtListed(p.expectedCalendarRevisions, map k | k in db.calendar :: db.calendar[k].revision)
  {
    hide ExpectedRevisions, StandsAtListed;
    ListedMeans(p.expectedWorkflowRevisions, map k | k in db.workflows :: db.workflows[k].revision);
    ListedMeans(p.expectedCalendarRevisions, map k | k in db.calendar :: db.calendar[k].revision);
  }

  predicate RowStale(db: Db, p: Proposal, id: string, inCalendar: bool) {
    if inCalendar then
      id in ExpectedRevisions(p.expectedCalendarRevisions)
      && (id in db.calendar ==> db.calendar[id].revision != ExpectedRevisions(p.expectedCalendarRevisions)[id].1)
    else
      id in ExpectedRevisions(p.expectedWorkflowRevisions)
      && (id in db.workflows ==> db.workflows[id].revision != ExpectedRevisions(p.expectedWorkflowRevisions)[id].1)
  }

  /** `id` names a row that is gone or no longer at the expected revision. */
  predicate IsStale(db: Db, p: Proposal, id: string) {
    RowStale(db, p, id, false) || RowStale(db, p, id, true)
  }

  /** `id` is the first stale key of its list. */
  ghost predicate FirstStaleAmong(db: Db, p: Proposal, keys: seq<string>, id: string, inCalendar: bool) {
    exists i | 0 <= i < |keys| :: keys[i] == id && RowStale(db, p, id, inCalendar)
                                  && forall j | 0 <= j < i :: !RowStale(db, p, keys[j], inCalendar)
  }

  /** The row a stale answer names: the first stale workflow, or else the first stale assignment. */
  ghost predicate FirstStale(db: Db, p: Proposal, id: string) {
    || FirstStaleAmong(db, p, KeysInOrder(p.expectedWorkflowRevisions), id, false)
    || (WorkflowsCurrent(db, p) && FirstStaleAmong(db, p, KeysInOrder(p.expectedCalendarRevisions), id, true))
  }

  function AfterById(p: Proposal): map<string, Placement> {
    TableBy(p.afterSchedule, PlacementId)
  }

  /** The placement of an assignment in the plan; the last one counts. */
  ghost predicate IsPlaced(p: Proposal, id: string, to: Placement) {
    exists i | 0 <= i < |p.afterSchedule| :: p.afterSchedule[i] == to && to.assignmentId == id
      && forall j | i < j < |p.afterSchedule| :: p.afterSchedule[j].assignmentId != id
  }

  lemma {:induction false} PlacedMeans(p: Proposal, id: string)
    ensures id in AfterById(p) ==> IsPlaced(p, id, AfterById(p)[id])
    ensures id in AfterById(p) <==> exists placement | placement in p.afterSchedule :: placement.assignmentId == id
  {
    hide TableBy;
    TableKey(p.afterSchedule, PlacementId, id);
    KeyOfMember(p.afterSchedule, PlacementId, id);
    if id in AfterById(p) {
      TableHoldsLast(p.afterSchedule, PlacementId, id);
      var i: nat :| i < |p.afterSchedule| && p.afterSchedule[i] == AfterById(p)[id]
        && IsLast(p.afterSchedule, PlacementId, i, id);
      assert forall j | i < j < |p.afterSchedule| :: PlacementId(p.afterSchedule[j]) != id;
    }
  }

  /** Every assignment to be moved has a placement to move to. */
  predicate CanBeApplied(p: Proposal) {
    forall k | k in ExpectedRevisions(p.expectedCalendarRevisions) :: k in AfterById(p)
  }

  // ---------------------------------------------------------------- the state after a committed response

  function Rescheduled(a: AssignmentRecord, to: Placement): AssignmentRecord {
    a.(start := to.start, end := to.end, revision := a.revision + 1)
  }

  function MovedCalendar(db: Db, p: Proposal): map<string, AssignmentRecord>
    requires CanBeApplied(p)
  {
    map k | k in db.calendar ::
      if k in ExpectedRevisions(p.expectedCalendarRevisions)
      then Rescheduled(db.calendar[k], AfterById(p)[k]) else db.calendar[k]
  }

  function AdvancedWorkflows(db: Db, p: Proposal): map<string, Workflow> {
    map k | k in db.workflows ::
      if k in ExpectedRevisions(p.expectedWorkflowRevisions)
      then db.workflows[k].(revision := db.workflows[k].revision + 1) else db.workflows[k]
  }

  function DecidedStatus(action: Action): ProposalStatus {
    if action.ApproveReplan? then Applied else Rejected
  }

  /** Approval moves the calendar and the revisions; rejection only records the decision. */
  function AfterDecision(db: Db, r: Response): Db
    requires r.gateId in db.gates && r.proposalId in db.proposals
    requires r.action.ApproveReplan? ==> CanBeApplied(db.proposals[r.proposalId])
  {
    var p, gate := db.proposals[r.proposalId], db.gates[r.gateId];
    db.(
      calendar := if r.action.ApproveReplan? then MovedCalendar(db, p) else db.calendar,
      workflows := if r.action.ApproveReplan? then AdvancedWorkflows(db, p) else db.workflows,
      proposals := db.proposals[r.proposalId := p.(status := DecidedStatus(r.action))],
      gates := db.gates[r.gateId := gate.(status := Resolved, decision := Some(r))],
      decisions := db.decisions[r := Decision(r, r.gateId, gate.workflowId, r.proposalId, r.action)],
      operations := db.operations[r := r])
  }

  /** A stale response retires the proposal and its gate and touches nothing else. */
  function AfterStale(db: Db, r: Response): Db
    requires r.gateId in db.gates && r.proposalId in db.proposals
  {
    db.(
      proposals := db.proposals[r.proposalId := db.proposals[r.proposalId].(status := Stale)],
      gates := db.gates[r.gateId := db.gates[r.gateId].(status := Invalidated)])
  }

  // ---------------------------------------------------------------- what every reachable state satisfies

  ghost predicate ProposalsKeyed(proposals: map<string, Proposal>) {
    && (forall k | k in proposals :: proposals[k].id == k)
    && (forall j, k | j in proposals && k in proposals && proposals[j].fingerprint == proposals[k].fingerprint ::
          j == k)
  }

  ghost predicate CalendarKeyed(calendar: map<string, AssignmentRecord>, workflows: map<string, Workflow>) {
    forall k | k in calendar :: calendar[k].id == k && calendar[k].workflowId in workflows
  }

  /** At most one gate for each proposal. */
  ghost predicate GatesKeyed(gates: map<string, Gate>) {
    forall g, h | g in gates && h in gates && gates[g].proposalId == gates[h].proposalId :: g == h
  }

  /** The canonical response to gate `g`, with one of the two known actions. */
  predicate Answers(r: Response, g: string, gate: Gate) {
    && r.gateId == g && r.proposalId == gate.proposalId && r.fingerprint == gate.fingerprint
    && !r.action.Unknown?
  }

  /** What the status of a gate says about its proposal, its response and its decision. */
  ghost predicate GateMatches(g: string, gate: Gate, p: Proposal, decided: set<Response>) {
    && gate.fingerprint == p.fingerprint && gate.workflowId == p.initiatingWorkflow
    && (gate.decision.Some? <==> gate.status.Resolved?)
    && match gate.status
       case GatePending => p.status == PendingOwnerApproval && gate.response == None
       case Resuming =>
         p.status == PendingOwnerApproval && gate.response.Some? && Answers(gate.response.value, g, gate)
       case Resolved =>
         && gate.response == gate.decision && gate.decision.value in decided
         && Answers(gate.decision.value, g, gate) && p.status == DecidedStatus(gate.decision.value.action)
       case Invalidated => p.status == Stale
  }

  ghost predicate GatesConsistent(gates: map<string, Gate>, proposals: map<string, Proposal>, decided: set<Response>) {
    forall g | g in gates ::
      gates[g].proposalId in proposals && GateMatches(g, gates[g], proposals[gates[g].proposalId], decided)
  }

  /** A decision belongs to a resolved gate and is recorded for replay. */
  ghost predicate DecisionConsistent(db: Db, r: Response) {
    && r in db.decisions && db.decisions[r] == Decision(r, r.gateId, db.decisions[r].workflowId, r.proposalId, r.action)
    && r.gateId in db.gates && db.gates[r.gateId].decision == Some(r)
    && r.proposalId in db.proposals
    && r in db.operations && db.operations[r] == r
  }

  /** The revisions an approval consumed are gone for good. */
  ghost predicate Consumed(db: Db, r: Response)
    requires r.proposalId in db.proposals
  {
    var p := db.proposals[r.proposalId];
    && (forall k | k in ExpectedRevisions(p.expectedCalendarRevisions) ::
          k in db.calendar && ExpectedRevisions(p.expectedCalendarRevisions)[k].1 < db.calendar[k].revision)
    && (forall k | k in ExpectedRevisions(p.expectedWorkflowRevisions) ::
          k in db.workflows && ExpectedRevisions(p.expectedWorkflowRevisions)[k].1 < db.workflows[k].revision)
  }

  ghost predicate DecisionsConsistent(db: Db) {
    && (forall r | r in db.decisions :: DecisionConsistent(db, r))
    && (forall r | r in db.decisions && r.action.ApproveReplan? :: r.proposalId in db.proposals && Consumed(db, r))
    && db.operations.Keys == db.decisions.Keys
  }

  /** Keys and uniqueness constraints, gates, and decisions. */
  ghost predicate Inv(db: Db) {
    && ProposalsKeyed(db.proposals) && CalendarKeyed(db.calendar, db.workflows) && GatesKeyed(db.gates)
    && GatesConsistent(db.gates, db.proposals, db.decisions.Keys)
    && DecisionsConsistent(db)
  }

  const EMPTY := Db(map[], map[], map[], map[], map[], map[], map[])

  lemma {:induction false} EmptyIsConsistent()
    ensures Inv(EMPTY)
  {}

  // ---------------------------------------------------------------- compare-and-swap, one row at a time

  /** The calendar after the rows in `done` have been rescheduled. */
  function MoveSome(calendar: map<string, AssignmentRecord>, after: map<string, Placement>, done: seq<string>)
    : map<string, AssignmentRecord>
    requires forall k | k in done :: k in after
  {
    map k | k in calendar :: if k in done then Rescheduled(calendar[k], after[k]) else calendar[k]
  }

  lemma {:induction false} MoveOneMore(
    calendar: map<string, AssignmentRecord>, after: map<string, Placement>, done: seq<string>, k: string
  )
    requires (forall j | j in done :: j in after) && k in after && k in calendar && k !in done
    ensures k in MoveSome(calendar, after, done) && MoveSome(calendar, after, done)[k] == calendar[k]
    ensures MoveSome(calendar, after, done + [k]) ==
      MoveSome(calendar, after, done)[k := Rescheduled(calendar[k], after[k])]
  {}

  lemma {:induction false} MoveAll(db: Db, p: Proposal)
    ensures CanBeApplied(p) <==> forall k | k in KeysInOrder(p.expectedCalendarRevisions) :: k in AfterById(p)
    ensures CanBeApplied(p) ==>
      MoveSome(db.calendar, AfterById(p), KeysInOrder(p.expectedCalendarRevisions)) == MovedCalendar(db, p)
    ensures MoveSome(db.calendar, AfterById(p), []) == db.calendar
  {
    hide TableBy;
  }

  /** The workflow rows after those in `done` have been advanced. */
  function AdvanceSome(workflows: map<string, Workflow>, done: seq<string>): map<string, Workflow> {
    map k | k in workflows ::
      if k in done then workflows[k].(revision := workflows[k].revision + 1) else workflows[k]
  }

  lemma {:induction false} AdvanceOneMore(workflows: map<string, Workflow>, done: seq<string>, k: string)
    requires k in workflows && k !in done
    ensures k in AdvanceSome(workflows, done) && AdvanceSome(workflows, done)[k] == workflows[k]
    ensures AdvanceSome(workflows, done + [k]) ==
      AdvanceSome(workflows, done)[k := workflows[k].(revision := workflows[k].revision + 1)]
  {}

  lemma {:induction false} AdvanceAll(db: Db, p: Proposal)
    ensures AdvanceSome(db.workflows, KeysInOrder(p.expectedWorkflowRevisions)) == AdvancedWorkflows(db, p)
    ensures AdvanceSome(db.workflows, []) == db.workflows
  {
    hide TableBy;
  }

  // ---------------------------------------------------------------- the repository

  /** The gate of `g` is claimed for exactly this response, and its proposal still awaits a decision. */
  predicate ClaimedFor(db: Db, r: Response) {
    && r.gateId in db.gates
    && var gate := db.gates[r.gateId];
       && gate.status.Resuming? && gate.proposalId == r.proposalId && gate.fingerprint == r.fingerprint
       && gate.response == Some(r)
       && r.proposalId in db.proposals && db.proposals[r.proposalId].status == PendingOwnerApproval
  }

  predicate Undecided(db: Db, r: Response) {
    !r.action.Unknown? && r !in db.operations && ClaimedFor(db, r)
  }

  predicate Current(db: Db, r: Response)
    requires r.proposalId in db.proposals
  {
    WorkflowsCurrent(db, db.proposals[r.proposalId]) && CalendarCurrent(db, db.proposals[r.proposalId])
  }

  /** The uniqueness constraints of the decision table would refuse another decision. */
  predicate GateDecided(db: Db, r: Response) {
    r in db.decisions || exists d | d in db.decisions :: db.decisions[d].gateId == r.gateId
  }

  predicate Placeable(db: Db, r: Response)
    requires r.proposalId in db.proposals
  {
    r.action.ApproveReplan? ==> CanBeApplied(db.proposals[r.proposalId])
  }

  datatype Claim = Claimed(response: Response, interruptId: string) | AlreadyDecided(decision: Decision)

  function Canonical(db: Db, gateId: string, action: Action): Response
    requires gateId in db.gates
  {
    Response(gateId, db.gates[gateId].proposalId, action, db.gates[gateId].fingerprint)
  }

  predicate CanClaim(db: Db, gateId: string, action: Action) {
    && !action.Unknown? && gateId in db.gates
    && var gate := db.gates[gateId];
       && gate.status.GatePending? && gate.interruptId.Some? && gate.interruptId.value != ""
       && gate.proposalId in db.proposals && db.proposals[gate.proposalId].status == PendingOwnerApproval
       && db.proposals[gate.proposalId].fingerprint == gate.fingerprint
  }

  function AfterClaim(db: Db, gateId: string, action: Action): Db
    requires gateId in db.gates
  {
    db.(gates := db.gates[gateId :=
          db.gates[gateId].(status := Resuming, response := Some(Canonical(db, gateId, action)))])
  }

  predicate AlreadyAnswered(db: Db, gateId: string, action: Action) {
    && !action.Unknown? && gateId in db.gates
    && var gate := db.gates[gateId];
       && gate.status.Resolved? && gate.decision.Some? && gate.decision.value in db.decisions
       && gate.response == Some(Canonical(db, gateId, action))
  }

  predicate CanBind(db: Db, gateId: string, interruptId: string) {
    && gateId in db.gates && db.gates[gateId].status.GatePending?
    && (db.gates[gateId].interruptId.None? || db.gates[gateId].interruptId.value == interruptId)
  }

  predicate HasGate(db: Db, proposalId: string) {
    exists g | g in db.gates :: db.gates[g].proposalId == proposalId
  }

  function AfterGate(db: Db, observed: Proposal, sessionId: string, agentId: string, gateId: string): Db {
    db.(gates := db.gates[gateId := Gate(
      observed.initiatingWorkflow, observed.id, observed.fingerprint, sessionId, agentId, None, GatePending,
      None, None)])
  }

  predicate CanCreateWorkflow(db: Db, id: string, jobId: string, binding: Binding) {
    && id !in db.workflows && (forall k | k in db.workflows :: db.workflows[k].jobId != jobId)
    && forall k | k in db.bindings :: db.bindings[k].sessionId != binding.sessionId
  }

  function AfterCreate(db: Db, id: string, w: Workflow, binding: Binding): Db {
    db.(workflows := db.workflows[id := w], bindings := db.bindings[id := binding])
  }

  predicate SameTask(a: AssignmentRecord, b: AssignmentRecord) {
    a.jobId == b.jobId && a.taskId == b.taskId
  }

  predicate CanAddAssignment(db: Db, a: AssignmentRecord) {
    && a.workflowId in db.workflows && db.workflows[a.workflowId].jobId == a.jobId
    && a.id !in db.calendar && forall k | k in db.calendar :: !SameTask(db.calendar[k], a)
  }

  predicate KnownFingerprint(db: Db, fingerprint: string) {
    exists k | k in db.proposals :: db.proposals[k].fingerprint == fingerprint
  }

  /** The workflows of the affected calendar rows of one job. */
  function WorkflowsOf(db: Db, p: Proposal, jobId: string): set<string> {
    set k | k in db.calendar && db.calendar[k].jobId == jobId && k in p.affectedAssignments :: db.calendar[k].workflowId
  }

  ghost predicate JobMapped(db: Db, p: Proposal, jobId: string) {
    exists w | w in p.affectedWorkflows :: WorkflowsOf(db, p, jobId) == {w}
  }

  /** Every affected job has its affected tasks in exactly one workflow, and that one is affected. */
  ghost predicate MappingConsistent(db: Db, p: Proposal) {
    forall j | 0 <= j < |p.affectedJobs| :: JobMapped(db, p, p.affectedJobs[j])
  }

  /** The affected calendar rows of the job, and there are some, all belong to one affected workflow. */
  ghost predicate LiesInOneWorkflow(db: Db, p: Proposal, jobId: string) {
    exists w | w in p.affectedWorkflows ::
      && (exists k | k in db.calendar :: k in p.affectedAssignments && db.calendar[k].jobId == jobId)
      && forall k | k in db.calendar && k in p.affectedAssignments && db.calendar[k].jobId == jobId ::
           db.calendar[k].workflowId == w
  }

  lemma {:induction false} JobMappedMeans(db: Db, p: Proposal, jobId: string)
    ensures JobMapped(db, p, jobId) <==> LiesInOneWorkflow(db, p, jobId)
  {
    if JobMapped(db, p, jobId) {
      var w :| w in p.affectedWorkflows && WorkflowsOf(db, p, jobId) == {w};
      assert w in WorkflowsOf(db, p, jobId);
      assert forall k | k in db.calendar && k in p.affectedAssignments && db.calendar[k].jobId == jobId ::
        db.calendar[k].workflowId in WorkflowsOf(db, p, jobId);
    }
    if LiesInOneWorkflow(db, p, jobId) {
      var w :| w in p.affectedWorkflows
        && (exists k | k in db.calendar :: k in p.affectedAssignments && db.calendar[k].jobId == jobId)
        && forall k | k in db.calendar && k in p.affectedAssignments && db.calendar[k].jobId == jobId ::
             db.calendar[k].workflowId == w;
      assert WorkflowsOf(db, p, jobId) == {w};
    }
  }

  lemma {:induction false} MappingMeans(db: Db, p: Proposal)
    ensures MappingConsistent(db, p) <==> forall job | job in p.affectedJobs :: LiesInOneWorkflow(db, p, job)
  {
    hide JobMapped, LiesInOneWorkflow;
    forall job ensures JobMapped(db, p, job) <==> LiesInOneWorkflow(db, p, job) {
      JobMappedMeans(db, p, job);
    }
  }

  lemma {:induction false} NotSingleton(s: set<string>)
    requires |s| != 1
    ensures forall w :: s != {w}
  {}

  lemma {:induction false} SingletonIs(s: set<string>, x: string)
    requires |s| == 1 && x in s
    ensures s == {x}
  {
    assert |s - {x}| == 0;
  }

  predicate CanSaveProposal(db: Db, p: Proposal) {
    && p.id !in db.proposals && p.initiatingWorkflow in db.workflows
    && (forall i, j | 0 <= i < j < |p.affectedAssignments| :: p.affectedAssignments[i] != p.affectedAssignments[j])
    && forall a | a in p.affectedAssignments :: a in db.calendar
  }

  class Repository {
    var db: Db

    constructor ()
      ensures db == EMPTY && Inv(db)
    {
      db := EMPTY;
      new;
      EmptyIsConsistent();
    }

    /** The first expected revision that is no longer current, workflows before calendar. */
    method FindStale(p: Proposal) returns (stale: Option<string>)
      ensures stale.None? <==> WorkflowsCurrent(db, p) && CalendarCurrent(db, p)
      ensures stale.Some? ==> IsStale(db, p, stale.value) && FirstStale(db, p, stale.value)
    {
      hide ExpectedRevisions, KeysInOrder;
      var workflowKeys := KeysInOrder(p.expectedWorkflowRevisions);
      for i := 0 to |workflowKeys|
        invariant forall j | 0 <= j < i :: !RowStale(db, p, workflowKeys[j], false)
      {
        assert workflowKeys[i] in ExpectedRevisions(p.expectedWorkflowRevisions);
        if RowStale(db, p, workflowKeys[i], false) {
          assert FirstStaleAmong(db, p, workflowKeys, workflowKeys[i], false);
          return Some(workflowKeys[i]);
        }
      }
      var calendarKeys := KeysInOrder(p.expectedCalendarRevisions);
      for i := 0 to |calendarKeys|
        invariant forall j | 0 <= j < i :: !RowStale(db, p, calendarKeys[j], true)
      {
        assert calendarKeys[i] in ExpectedRevisions(p.expectedCalendarRevisions);
        if RowStale(db, p, calendarKeys[i], true) {
          assert FirstStaleAmong(db, p, calendarKeys, calendarKeys[i], true);
          return Some(calendarKeys[i]);
        }
      }
      stale := None;
    }

    /** The compare-and-swap updates of the calendar, on a copy. */
    method MoveCalendar(p: Proposal) returns (result: Result<map<string, AssignmentRecord>, StoreError>)
      requires CalendarCurrent(db, p)
      ensures result.Ok? <==> CanBeApplied(p)
      ensures result.Ok? ==> result.value == MovedCalendar(db, p)
      ensures result.Err? ==> result.error.MissingPlacement?
    {
      hide TableBy, MoveSome, KeysInOrder, CanBeApplied, MovedCalendar;
      var keys := KeysInOrder(p.expectedCalendarRevisions);
      var expected, after := ExpectedRevisions(p.expectedCalendarRevisions), AfterById(p);
      var calendar := db.calendar;
      MoveAll(db, p);
      for i := 0 to |keys|
        invariant forall k | k in keys[..i] :: k in after
        invariant calendar == MoveSome(db.calendar, after, keys[..i])
      {
        var k := keys[i];
        assert k in keys;
        if k !in after {
          return Err(MissingPlacement(k));
        }
        assert k !in keys[..i] && keys[..i + 1] == keys[..i] + [k];
        MoveOneMore(db.calendar, after, keys[..i], k);
        if k !in calendar || calendar[k].revision != expected[k].1 {
          return Err(StaleRevision(k));
        }
        calendar := calendar[k := Rescheduled(calendar[k], after[k])];
      }
      assert keys[..|keys|] == keys;
      result := Ok(calendar);
    }

    /** The compare-and-swap updates of the workflow revisions, on a copy. */
    method AdvanceWorkflows(p: Proposal) returns (result: Result<map<string, Workflow>, StoreError>)
      requires WorkflowsCurrent(db, p)
      ensures result == Ok(AdvancedWorkflows(db, p))
    {
      hide TableBy, AdvanceSome, KeysInOrder, AdvancedWorkflows;
      var keys, expected := KeysInOrder(p.expectedWorkflowRevisions), ExpectedRevisions(p.expectedWorkflowRevisions);
      var workflows := db.workflows;
      AdvanceAll(db, p);
      for i := 0 to |keys|
        invariant workflows == AdvanceSome(db.workflows, keys[..i])
      {
        var k := keys[i];
        assert k in keys;
        assert k !in keys[..i] && keys[..i + 1] == keys[..i] + [k];
        AdvanceOneMore(db.workflows, keys[..i], k);
        if k !in workflows || workflows[k].revision != expected[k].1 {
          return Err(StaleRevision(k));
        }
        workflows := workflows[k := workflows[k].(revision := workflows[k].revision + 1)];
      }
      assert keys[..|keys|] == keys;
      result := Ok(workflows);
    }

    /** `create_job_workflow`: a job, its workflow at revision 0 and its session binding. */
    method CreateJobWorkflow(id: string, jobId: string, state: string, snapshot: string, binding: Binding)
      returns (result: Result<Workflow, StoreError>)
      modifies this
      ensures CanCreateWorkflow(old(db), id, jobId, binding) ==>
        && result == Ok(Workflow(jobId, 0, state, snapshot))
        && db == AfterCreate(old(db), id, Workflow(jobId, 0, state, snapshot), binding)
      ensures !CanCreateWorkflow(old(db), id, jobId, binding) ==> result == Err(Integrity) && db == old(db)
      ensures result.Ok? <==>
        && id !in old(db).workflows && (forall k | k in old(db).workflows :: old(db).workflows[k].jobId != jobId)
        && forall k | k in old(db).bindings :: old(db).bindings[k].sessionId != binding.sessionId
      ensures result.Ok? ==>
        db == old(db).(workflows := old(db).workflows[id := Workflow(jobId, 0, state, snapshot)],
                       bindings := old(db).bindings[id := binding])
    {
      if id in db.workflows || (exists k | k in db.workflows :: db.workflows[k].jobId == jobId)
         || exists k | k in db.bindings :: db.bindings[k].sessionId == binding.sessionId {
        return Err(Integrity);
      }
      db := db.(workflows := db.workflows[id := Workflow(jobId, 0, state, snapshot)],
                bindings := db.bindings[id := binding]);
      result := Ok(db.workflows[id]);
    }

    method UpdateWorkflowCas(id: string, expectedRevision: nat, state: string, snapshot: string)
      returns (result: Result<Workflow, StoreError>)
      modifies this
      ensures if id in old(db).workflows && old(db).workflows[id].revision == expectedRevision
        then result.Ok? && result.value == Workflow(old(db).workflows[id].jobId, expectedRevision + 1, state, snapshot)
             && db == old(db).(workflows := old(db).workflows[id := result.value])
        else result == Err(StaleRevision(id)) && db == old(db)
    {
      if id !in db.workflows || db.workflows[id].revision != expectedRevision {
        return Err(StaleRevision(id));
      }
      var row := db.workflows[id];
      db := db.(workflows :=
        db.workflows[id := row.(revision := row.revision + 1, state := state, snapshot := snapshot)]);
      result := Ok(db.workflows[id]);
    }

    method AddCalendarAssignment(a: AssignmentRecord, resources: Resources) returns (result: Result<(), StoreError>)
      modifies this
      ensures result.Ok? <==> CanAddAssignment(old(db), a) && resources.Hold(a)
      ensures result.Ok? <==>
        && a.workflowId in old(db).workflows && old(db).workflows[a.workflowId].jobId == a.jobId
        && a.id !in old(db).calendar
        && (forall k | k in old(db).calendar ::
              old(db).calendar[k].jobId != a.jobId || old(db).calendar[k].taskId != a.taskId)
        && a.workerId in resources.workers && (a.vehicleId.Some? ==> a.vehicleId.value in resources.vehicles)
      ensures result.Ok? ==> db == old(db).(calendar := old(db).calendar[a.id := a])
      ensures result.Err? ==> db == old(db)
      ensures result == Err(CrossJobReference) <==>
        !(a.workflowId in old(db).workflows && old(db).workflows[a.workflowId].jobId == a.jobId)
    {
      if a.workflowId !in db.workflows || db.workflows[a.workflowId].jobId != a.jobId {
        return Err(CrossJobReference);
      }
      if a.id in db.calendar || (exists k | k in db.calendar :: SameTask(db.calendar[k], a)) || !resources.Hold(a) {
        return Err(Integrity);
      }
      db := db.(calendar := db.calendar[a.id := a]);
      result := Ok(());
    }

    /** The loop over the affected jobs of `save_proposal`. */
    method CheckMapping(p: Proposal) returns (mapped: bool)
      ensures mapped <==> MappingConsistent(db, p)
      ensures mapped <==> forall job | job in p.affectedJobs :: LiesInOneWorkflow(db, p, job)
    {
      MappingMeans(db, p);
      hide LiesInOneWorkflow;
      for i := 0 to |p.affectedJobs|
        invariant forall j | 0 <= j < i :: JobMapped(db, p, p.affectedJobs[j])
      {
        var workflows := WorkflowsOf(db, p, p.affectedJobs[i]);
        if |workflows| != 1 {
          NotSingleton(workflows);
          return false;
        }
        var workflow :| workflow in workflows;
        SingletonIs(workflows, workflow);
        if workflow !in p.affectedWorkflows {
          return false;
        }
      }
      mapped := true;
    }

    /** `save_proposal`: a known fingerprint returns the stored proposal. */
    method SaveProposal(p: Proposal) returns (result: Result<Proposal, StoreError>)
      modifies this
      ensures KnownFingerprint(old(db), p.fingerprint) ==>
        && db == old(db) && result.Ok? && result.value.fingerprint == p.fingerprint
        && exists k | k in db.proposals :: db.proposals[k] == result.value
      ensures !KnownFingerprint(old(db), p.fingerprint) && !MappingConsistent(old(db), p) ==>
        result == Err(CrossJobReference) && db == old(db)
      ensures !KnownFingerprint(old(db), p.fingerprint) && MappingConsistent(old(db), p) ==>
        if CanSaveProposal(old(db), p) then result == Ok(p) && db == old(db).(proposals := old(db).proposals[p.id := p])
        else result == Err(Integrity) && db == old(db)
      ensures db != old(db) ==> result == Ok(p) && db == old(db).(proposals := old(db).proposals[p.id := p])
      ensures result.Ok? <==>
        || (exists k | k in old(db).proposals :: old(db).proposals[k].fingerprint == p.fingerprint)
        || (&& (forall job | job in p.affectedJobs :: LiesInOneWorkflow(old(db), p, job))
            && p.id !in old(db).proposals && p.initiatingWorkflow in old(db).workflows
            && (forall i, j | 0 <= i < j < |p.affectedAssignments| ::
                  p.affectedAssignments[i] != p.affectedAssignments[j])
            && forall a | a in p.affectedAssignments :: a in old(db).calendar)
    {
      hide LiesInOneWorkflow;
      MappingMeans(db, p);
      if exists k | k in db.proposals :: db.proposals[k].fingerprint == p.fingerprint {
        var k :| k in db.proposals && db.proposals[k].fingerprint == p.fingerprint;
        return Ok(db.proposals[k]);
      }
      var mapped := CheckMapping(p);
      if !mapped {
        return Err(CrossJobReference);
      }
      if p.id in db.proposals || p.initiatingWorkflow !in db.workflows
         || (exists i, j | 0 <= i < j < |p.affectedAssignments| :: p.affectedAssignments[i] == p.affectedAssignments[j])
         || exists a | a in p.affectedAssignments :: a !in db.calendar {
        return Err(Integrity);
      }
      db := db.(proposals := db.proposals[p.id := p]);
      result := Ok(p);
    }

    /** The reads of `create_replan_gate`, which happen before its transaction. */
    method ReadForGate(
      proposalId: string, sessionId: string, agentId: string
    ) returns (result: Result<Proposal, StoreError>)
      ensures result.Ok? <==>
        && proposalId in db.proposals && db.proposals[proposalId].status == PendingOwnerApproval
        && db.proposals[proposalId].initiatingWorkflow in db.bindings
        && db.bindings[db.proposals[proposalId].initiatingWorkflow] == Binding(sessionId, agentId)
      ensures result.Ok? ==> result.value == db.proposals[proposalId]
      ensures result == Err(NotFound) <==> proposalId !in db.proposals
      ensures result == Err(GateConflict) <==>
        proposalId in db.proposals && db.proposals[proposalId].status != PendingOwnerApproval
    {
      if proposalId !in db.proposals {
        return Err(NotFound);
      }
      var proposal := db.proposals[proposalId];
      if proposal.status != PendingOwnerApproval {
        return Err(GateConflict);
      }
      if proposal.initiatingWorkflow !in db.bindings {
        return Err(RecoveryInconsistency);
      }
      var binding := db.bindings[proposal.initiatingWorkflow];
      if binding.sessionId != sessionId || binding.agentId != agentId {
        return Err(RecoveryInconsistency);
      }
      result := Ok(proposal);
    }

    /** The transaction of `create_replan_gate`, working from the proposal read before it. */
    method InsertGate(observed: Proposal, sessionId: string, agentId: string, gateId: string)
      returns (result: Result<string, StoreError>)
      modifies this
      ensures HasGate(old(db), observed.id) ==>
        db == old(db) && result.Ok? && result.value in db.gates && db.gates[result.value].proposalId == observed.id
      ensures !HasGate(old(db), observed.id) && gateId in old(db).gates ==> result == Err(Integrity) && db == old(db)
      ensures !HasGate(old(db), observed.id) && gateId !in old(db).gates ==>
        result == Ok(gateId) && db == AfterGate(old(db), observed, sessionId, agentId, gateId)
      ensures result.Ok? <==>
        gateId !in old(db).gates || exists g | g in old(db).gates :: old(db).gates[g].proposalId == observed.id
      ensures db != old(db) ==>
        && (forall g | g in old(db).gates :: old(db).gates[g].proposalId != observed.id)
        && db == old(db).(gates := old(db).gates[gateId := Gate(
                            observed.initiatingWorkflow, observed.id, observed.fingerprint, sessionId, agentId, None,
                            GatePending, None, None)])
    {
      if exists g | g in db.gates :: db.gates[g].proposalId == observed.id {
        var g :| g in db.gates && db.gates[g].proposalId == observed.id;
        return Ok(g);
      }
      if gateId in db.gates {
        return Err(Integrity);
      }
      db := db.(gates := db.gates[gateId := Gate(
        observed.initiatingWorkflow, observed.id, observed.fingerprint, sessionId, agentId, None, GatePending,
        None, None)]);
      result := Ok(gateId);
    }

    method BindGateInterrupt(gateId: string, interruptId: string) returns (result: Result<Gate, StoreError>)
      modifies this
      ensures result.Ok? <==> CanBind(old(db), gateId, interruptId)
      ensures result.Ok? <==>
        && gateId in old(db).gates && old(db).gates[gateId].status == GatePending
        && (old(db).gates[gateId].interruptId == None || old(db).gates[gateId].interruptId == Some(interruptId))
      ensures result.Ok? ==>
        && db == old(db).(gates := old(db).gates[gateId := old(db).gates[gateId].(interruptId := Some(interruptId))])
        && result.value == db.gates[gateId]
      ensures result.Err? ==> result.error == GateConflict && db == old(db)
    {
      if gateId !in db.gates || db.gates[gateId].status != GatePending {
        return Err(GateConflict);
      }
      var row := db.gates[gateId];
      if row.interruptId.Some? && row.interruptId.value != interruptId {
        return Err(GateConflict);
      }
      db := db.(gates := db.gates[gateId := row.(interruptId := Some(interruptId))]);
      result := Ok(db.gates[gateId]);
    }

    /** The owner's answer claims a pending gate; a decided gate answers the same response again. Every refusal
        rolls back, including the one that had already marked the gate as invalidated. */
    method ClaimReplanResponse(gateId: string, action: Action) returns (result: Result<Claim, StoreError>)
      modifies this
      ensures CanClaim(old(db), gateId, action) ==>
        && db == AfterClaim(old(db), gateId, action)
        && result == Ok(Claimed(Canonical(old(db), gateId, action), old(db).gates[gateId].interruptId.value))
      ensures !CanClaim(old(db), gateId, action) ==> db == old(db)
      ensures AlreadyAnswered(old(db), gateId, action) ==>
        result == Ok(AlreadyDecided(db.decisions[db.gates[gateId].decision.value]))
      ensures !CanClaim(old(db), gateId, action) && !AlreadyAnswered(old(db), gateId, action) ==> result.Err?
      ensures db != old(db) ==>
        && gateId in old(db).gates && old(db).gates[gateId].status == GatePending && !action.Unknown?
        && var gate := old(db).gates[gateId];
           && gate.interruptId.Some? && gate.interruptId.value != ""
           && gate.proposalId in old(db).proposals
           && old(db).proposals[gate.proposalId].status == PendingOwnerApproval
           && old(db).proposals[gate.proposalId].fingerprint == gate.fingerprint
           && var response := Response(gateId, gate.proposalId, action, gate.fingerprint);
              && db == old(db).(gates := old(db).gates[gateId :=
                                           gate.(status := Resuming, response := Some(response))])
              && result == Ok(Claimed(response, gate.interruptId.value))
      ensures result.Ok? && db == old(db) ==>
        && gateId in db.gates && db.gates[gateId].status == Resolved
        && var gate := db.gates[gateId];
           && gate.decision.Some? && gate.decision.value in db.decisions
           && gate.response == Some(Response(gateId, gate.proposalId, action, gate.fingerprint))
           && result == Ok(AlreadyDecided(db.decisions[gate.decision.value]))
    {
      if action.Unknown? {
        return Err(GateInput);
      }
      if gateId !in db.gates {
        return Err(GateConflict);
      }
      var row := db.gates[gateId];
      var canonical := Response(gateId, row.proposalId, action, row.fingerprint);
      if row.status.Resolved? {
        if row.decision.None? || row.decision.value !in db.decisions {
          return Err(NotFound);
        }
        var decision := db.decisions[row.decision.value];
        if row.response == Some(canonical) {
          return Ok(AlreadyDecided(decision));
        }
        return Err(GateConflict);
      }
      if !row.status.GatePending? {
        return Err(GateConflict);
      }
      if row.interruptId.None? || row.interruptId.value == "" {
        return Err(RecoveryInconsistency);
      }
      var tx := db;
      if row.proposalId !in tx.proposals || tx.proposals[row.proposalId].status != PendingOwnerApproval
         || tx.proposals[row.proposalId].fingerprint != row.fingerprint {
        tx := tx.(gates := tx.gates[gateId := row.(status := Invalidated)]);
        return Err(GateConflict);
      }
      tx := tx.(gates := tx.gates[gateId := row.(status := Resuming, response := Some(canonical))]);
      db := tx;
      result := Ok(Claimed(canonical, row.interruptId.value));
    }

    method ApplyReplanResponse(r: Response) returns (result: Result<Decision, StoreError>)
      modifies this
      ensures r.action.Unknown? ==> result == Err(GateInput) && db == old(db)
      ensures !r.action.Unknown? && r in old(db).operations ==>
        && db == old(db)
        && result == if db.operations[r] in db.decisions then Ok(db.decisions[db.operations[r]]) else Err(NotFound)
      ensures !r.action.Unknown? && r !in old(db).operations && !ClaimedFor(old(db), r) ==>
        result == Err(GateConflict) && db == old(db)
      ensures Undecided(old(db), r) && !Current(old(db), r) ==>
        && result.Err? && result.error.StaleRevision?
        && IsStale(old(db), old(db).proposals[r.proposalId], result.error.id)
        && FirstStale(old(db), old(db).proposals[r.proposalId], result.error.id)
        && db == AfterStale(old(db), r)
      ensures Undecided(old(db), r) && Current(old(db), r) && GateDecided(old(db), r) ==>
        result == Err(Integrity) && db == old(db)
      ensures Undecided(old(db), r) && Current(old(db), r) && !GateDecided(old(db), r) && !Placeable(old(db), r) ==>
        result.Err? && result.error.MissingPlacement? && db == old(db)
      ensures Undecided(old(db), r) && Current(old(db), r) && !GateDecided(old(db), r) && Placeable(old(db), r) ==>
        db == AfterDecision(old(db), r) && result == Ok(db.decisions[r])
      ensures db != old(db) ==>
        && r.gateId in old(db).gates && old(db).gates[r.gateId].status == Resuming
        && old(db).gates[r.gateId].response == Some(r)
        && r.proposalId in old(db).proposals && old(db).proposals[r.proposalId].status == PendingOwnerApproval
        && r.action in {ApproveReplan, RejectReplan} && r !in old(db).operations
      ensures db != old(db) && result.Ok? ==>
        var gate, p := old(db).gates[r.gateId], old(db).proposals[r.proposalId];
        && result.value == Decision(r, r.gateId, gate.workflowId, r.proposalId, r.action)
        && db.bindings == old(db).bindings
        && db.decisions == old(db).decisions[r := result.value] && db.operations == old(db).operations[r := r]
        && db.gates == old(db).gates[r.gateId := gate.(status := Resolved, decision := Some(r))]
        && db.proposals == old(db).proposals[r.proposalId :=
             p.(status := if r.action == ApproveReplan then Applied else Rejected)]
        && (r.action == RejectReplan ==> db.calendar == old(db).calendar && db.workflows == old(db).workflows)
      ensures db != old(db) && result.Err? ==>
        var gate, p := old(db).gates[r.gateId], old(db).proposals[r.proposalId];
        db == old(db).(gates := old(db).gates[r.gateId := gate.(status := Invalidated)],
                       proposals := old(db).proposals[r.proposalId := p.(status := Stale)])
    {
      hide WorkflowsCurrent, CalendarCurrent, IsStale, FirstStale, CanBeApplied, MovedCalendar, AdvancedWorkflows,
        ExpectedRevisions, AfterById;
      if r.action.Unknown? {
        return Err(GateInput);
      }
      if r in db.operations {
        if db.operations[r] !in db.decisions {
          return Err(NotFound);
        }
        return Ok(db.decisions[db.operations[r]]);
      }
      if r.gateId !in db.gates || !db.gates[r.gateId].status.Resuming? {
        return Err(GateConflict);
      }
      var gate := db.gates[r.gateId];
      if gate.proposalId != r.proposalId || gate.fingerprint != r.fingerprint || gate.response != Some(r) {
        return Err(GateConflict);
      }
      if r.proposalId !in db.proposals || db.proposals[r.proposalId].status != PendingOwnerApproval {
        return Err(GateConflict);
      }
      var proposal := db.proposals[r.proposalId];
      var stale := FindStale(proposal);
      var tx := db;
      if stale.Some? {
        tx := tx.(proposals := tx.proposals[r.proposalId := proposal.(status := Stale)]);
        tx := tx.(gates := tx.gates[r.gateId := gate.(status := Invalidated)]);
        db := tx;
        return Err(StaleRevision(stale.value));
      }
      if r in tx.decisions || exists d | d in tx.decisions :: tx.decisions[d].gateId == r.gateId {
        return Err(Integrity);
      }
      tx := tx.(decisions := tx.decisions[r := Decision(r, r.gateId, gate.workflowId, r.proposalId, r.action)]);
      if r.action.ApproveReplan? {
        var calendar := MoveCalendar(proposal);
        if calendar.Err? {
          return Err(calendar.error);
        }
        tx := tx.(calendar := calendar.value);
        var workflows := AdvanceWorkflows(proposal);
        tx := tx.(workflows := workflows.value);
        tx := tx.(proposals := tx.proposals[r.proposalId := proposal.(status := Applied)]);
      } else {
        tx := tx.(proposals := tx.proposals[r.proposalId := proposal.(status := Rejected)]);
      }
      tx := tx.(gates := tx.gates[r.gateId := gate.(status := Resolved, decision := Some(r))]);
      tx := tx.(operations := tx.operations[r := r]);
      db := tx;
      result := Ok(db.decisions[r]);
    }
  }
}
