/** The policy evidence recorder: owner approvals and worker consents, each consuming one captured human action
    exactly once. A record is its own identity, so equal identities mean equal content. */
module EvidenceStore {
  import opened Prelude

  datatype ScopeKind = PrivateVehicleUse | OwnerApprovalRequired

  datatype SubjectType = Commitment | Resource | PrivateVehicle | DecisionSubject

  datatype ScopeRecord = Scope(
    kind: ScopeKind, subjectType: SubjectType, subjectId: string, operationalDate: int, jobId: string,
    workerId: Option<string>)

  /** A private-vehicle scope names the vehicle and its worker. */
  type Scope = s: ScopeRecord | s.kind.PrivateVehicleUse? ==> s.subjectType.PrivateVehicle? && s.workerId.Some?
    witness ScopeRecord.Scope(OwnerApprovalRequired, Commitment, "", 0, "", None)

  datatype ConsentStatus = UnknownConsent | Requested | FreelyGiven | Declined | Pressured | Absent | Revoked

  datatype ActionValue = Approved | Recorded(status: ConsentStatus)

  /** The signed capture of one human action; `previous` is the action it follows in its lineage. */
  datatype Provenance = Provenance(
    value: ActionValue, rootId: string, principalId: string, scope: Scope, occurredAt: int, reference: string,
    sequence: nat, previous: Option<Provenance>, keyId: string)

  datatype Approval = Approval(rootId: string, ownerId: string, scope: Scope, provenance: Provenance)

  datatype Consent = Consent(
    rootId: string, principalId: string, workerId: string, scope: Scope, status: ConsentStatus, provenance: Provenance)

  datatype Evidence = ApprovalEvidence(approval: Approval) | ConsentEvidence(consent: Consent)
  {
    function Action(): Provenance {
      if ApprovalEvidence? then approval.provenance else consent.provenance
    }

    function WorkerId(): Option<string> {
      if ApprovalEvidence? then approval.scope.workerId else Some(consent.workerId)
    }
  }

  datatype Consumption = Consumption(evidence: Evidence, workerId: Option<string>, provenance: Provenance)

  datatype PrincipalKind = Owner | WorkerOf(workerId: string)

  datatype Principal = Principal(id: string, rootId: string, kind: PrincipalKind)

  /** The immutable authority records: company roots with their workers, principals, and capture keys by root. */
  datatype Directory = Directory(
    rootWorkers: map<string, set<string>>, principals: map<string, Principal>, captureKeys: map<string, string>)
  {
    ghost predicate Valid() {
      forall p | p in principals ::
        && principals[p].id == p && principals[p].rootId in rootWorkers
        && (principals[p].kind.WorkerOf? ==> principals[p].kind.workerId in rootWorkers[principals[p].rootId])
    }
  }

  datatype Tables = Tables(approvals: seq<Approval>, consents: seq<Consent>, consumptions: seq<Consumption>)

  datatype EvidenceError =
    | RootNotFound | CaptureRootNotFound | CaptureKeyMismatch | PrincipalNotFound | NotRootOwner
    | ScopeWorkerUnknown | PrincipalOrScopeMismatch | ReplayConflict | ApprovalConflict | RecordingConflict
    | ConsumptionCardinality | ConsumptionMismatch | ProvenanceInvalid | EvidenceNotFound | EvidenceBinding
    | ChronologyInvalid | ScopeMismatch | InvalidScope

  // ---------------------------------------------------------------- captures

  /** What makes a captured action unique: the deployment key and the human-action reference. */
  function CaptureOf(p: Provenance): (string, string) { (p.keyId, p.reference) }

  function ConsumedCapture(c: Consumption): (string, string) { CaptureOf(c.provenance) }

  function ConsumptionFor(e: Evidence): Consumption {
    Consumption(e, e.WorkerId(), e.Action())
  }

  predicate Verified(d: Directory, p: Provenance) {
    p.rootId in d.captureKeys && p.keyId == d.captureKeys[p.rootId]
  }

  function ConsumptionsOf(consumptions: seq<Consumption>, capture: (string, string)): seq<Consumption> {
    if consumptions == [] then []
    else
      var last := consumptions[|consumptions| - 1];
      ConsumptionsOf(consumptions[..|consumptions| - 1], capture)
      + if ConsumedCapture(last) == capture then [last] else []
  }

  /** `_verify_capture_consumption`. */
  function ConsumptionError(d: Directory, t: Tables, e: Evidence): Option<EvidenceError> {
    var rows := ConsumptionsOf(t.consumptions, CaptureOf(e.Action()));
    if |rows| != 1 then Some(ConsumptionCardinality)
    else if !Verified(d, rows[0].provenance) then Some(ProvenanceInvalid)
    else if rows[0] != ConsumptionFor(e) then Some(ConsumptionMismatch)
    else None
  }

  function ApprovalError(d: Directory, t: Tables, a: Approval): Option<EvidenceError> {
    if a !in t.approvals then Some(EvidenceNotFound)
    else if a.rootId !in d.rootWorkers then Some(RootNotFound)
    else if a.ownerId !in d.principals then Some(PrincipalNotFound)
    else if !d.principals[a.ownerId].kind.Owner? then Some(EvidenceBinding)
    else if a.scope.workerId.Some? && a.scope.workerId.value !in d.rootWorkers[a.rootId] then Some(ScopeWorkerUnknown)
    else if !Verified(d, a.provenance) then Some(ProvenanceInvalid)
    else ConsumptionError(d, t, ApprovalEvidence(a))
  }

  function ConsentError(d: Directory, t: Tables, c: Consent): Option<EvidenceError> {
    if c !in t.consents then Some(EvidenceNotFound)
    else if c.rootId !in d.rootWorkers then Some(RootNotFound)
    else if c.principalId !in d.principals then Some(PrincipalNotFound)
    else if d.principals[c.principalId].kind != WorkerOf(c.workerId) || c.scope.workerId != Some(c.workerId) then
      Some(PrincipalOrScopeMismatch)
    else if !Verified(d, c.provenance) then Some(ProvenanceInvalid)
    else ConsumptionError(d, t, ConsentEvidence(c))
  }

  // ---------------------------------------------------------------- consent lineages

  datatype LineageKey = LineageKey(rootId: string, principalId: string, workerId: string, scope: Scope)

  function KeyOf(c: Consent): LineageKey {
    LineageKey(c.rootId, c.principalId, c.workerId, c.scope)
  }

  /** The consents of one key, in the order of recording. */
  function Lineage(consents: seq<Consent>, key: LineageKey): seq<Consent> {
    if consents == [] then []
    else
      var last := consents[|consents| - 1];
      Lineage(consents[..|consents| - 1], key) + if KeyOf(last) == key then [last] else []
  }

  function Head(chain: seq<Consent>): Option<Provenance> {
    if chain == [] then None else Some(chain[|chain| - 1].provenance)
  }

  predicate Continues(p: Provenance, sequence: nat, previous: Option<Provenance>) {
    p.sequence == sequence && p.previous == previous
  }

  /** Numbered 1, 2, 3, ... with each record naming its predecessor. */
  ghost predicate IsChain(chain: seq<Consent>) {
    forall i | 0 <= i < |chain| :: Continues(chain[i].provenance, i + 1, Head(chain[..i]))
  }

  predicate BySequence(a: Consent, b: Consent) {
    a.provenance.sequence <= b.provenance.sequence
  }

  // ---------------------------------------------------------------- what every reachable store satisfies

  ghost predicate ConsentBound(d: Directory, c: Consent) {
    && c.rootId in d.rootWorkers && c.principalId in d.principals
    && d.principals[c.principalId].rootId == c.rootId && d.principals[c.principalId].kind == WorkerOf(c.workerId)
    && c.scope.workerId == Some(c.workerId) && c.scope.kind.PrivateVehicleUse?
    && Verified(d, c.provenance)
    && c.provenance.value == Recorded(c.status) && c.provenance.rootId == c.rootId
    && c.provenance.principalId == c.principalId && c.provenance.scope == c.scope
  }

  ghost predicate ApprovalBound(d: Directory, a: Approval) {
    && a.rootId in d.rootWorkers && a.ownerId in d.principals
    && d.principals[a.ownerId].rootId == a.rootId && d.principals[a.ownerId].kind.Owner?
    && (a.scope.workerId.Some? ==> a.scope.workerId.value in d.rootWorkers[a.rootId])
    && Verified(d, a.provenance)
    && a.provenance.value == Approved && a.provenance.rootId == a.rootId && a.provenance.principalId == a.ownerId
    && a.provenance.scope == a.scope && a.provenance.sequence == 1 && a.provenance.previous == None
  }

  predicate InTables(t: Tables, e: Evidence) {
    match e
    case ApprovalEvidence(a) => a in t.approvals
    case ConsentEvidence(c) => c in t.consents
  }

  /** Consumptions and evidence records correspond one to one, and no capture is consumed twice. */
  ghost predicate CapturesConsumedOnce(t: Tables) {
    && UniqueBy(t.consumptions, ConsumedCapture)
    && |t.consumptions| == |t.approvals| + |t.consents|
    && (forall k | k in t.consumptions :: k == ConsumptionFor(k.evidence) && InTables(t, k.evidence))
    && (forall a | a in t.approvals :: ConsumptionFor(ApprovalEvidence(a)) in t.consumptions)
    && (forall c | c in t.consents :: ConsumptionFor(ConsentEvidence(c)) in t.consumptions)
  }

  ghost predicate ChainsIntact(t: Tables) {
    forall key :: IsChain(Lineage(t.consents, key))
  }

  function RootScope(a: Approval): (string, Scope) { (a.rootId, a.scope) }

  ghost predicate Inv(d: Directory, t: Tables) {
    && d.Valid()
    && (forall c | c in t.consents :: ConsentBound(d, c))
    && (forall a | a in t.approvals :: ApprovalBound(d, a))
    && UniqueBy(t.approvals, RootScope)
    && CapturesConsumedOnce(t)
    && ChainsIntact(t)
  }

  const EMPTY := Tables([], [], [])

  lemma {:induction false} EmptyIsConsistent(d: Directory)
    requires d.Valid()
    ensures Inv(d, EMPTY)
  {}

  // ---------------------------------------------------------------- loading under the invariant

  lemma {:induction false} NotConsumed(consumptions: seq<Consumption>, capture: (string, string))
    ensures ConsumptionsOf(consumptions, capture) == [] <==>
      forall i | 0 <= i < |consumptions| :: ConsumedCapture(consumptions[i]) != capture
  {
    if consumptions != [] {
      var n := |consumptions| - 1;
      NotConsumed(consumptions[..n], capture);
      assert forall i | 0 <= i < n :: consumptions[..n][i] == consumptions[i];
    }
  }

  lemma {:induction false} OnlyConsumption(consumptions: seq<Consumption>, k: Consumption)
    requires UniqueBy(consumptions, ConsumedCapture) && k in consumptions
    ensures ConsumptionsOf(consumptions, ConsumedCapture(k)) == [k]
  {
    var n := |consumptions| - 1;
    var init, last := consumptions[..n], consumptions[n];
    assert consumptions == init + [last];
    assert forall i | 0 <= i < n :: init[i] == consumptions[i];
    if k == last {
      assert forall i | 0 <= i < n :: ConsumedCapture(consumptions[i]) != ConsumedCapture(consumptions[n]);
      NotConsumed(init, ConsumedCapture(k));
    } else {
      var i :| 0 <= i < n && init[i] == k;
      assert ConsumedCapture(consumptions[i]) != ConsumedCapture(consumptions[n]);
      OnlyConsumption(init, k);
    }
  }

  lemma {:induction false} RecordsLoad(d: Directory, t: Tables)
    requires Inv(d, t)
    ensures forall c | c in t.consents :: ConsentError(d, t, c) == None
    ensures forall a | a in t.approvals :: ApprovalError(d, t, a) == None
  {
    hide ConsumptionsOf, IsChain, Lineage;
    forall c | c in t.consents ensures ConsentError(d, t, c) == None {
      assert ConsentBound(d, c);
      OnlyConsumption(t.consumptions, ConsumptionFor(ConsentEvidence(c)));
    }
    forall a | a in t.approvals ensures ApprovalError(d, t, a) == None {
      assert ApprovalBound(d, a);
      OnlyConsumption(t.consumptions, ConsumptionFor(ApprovalEvidence(a)));
    }
  }

  lemma {:induction false} LineageMembers(consents: seq<Consent>, key: LineageKey)
    ensures forall c :: c in Lineage(consents, key) <==> c in consents && KeyOf(c) == key
  {
    if consents != [] {
      var n := |consents| - 1;
      assert consents == consents[..n] + [consents[n]];
      LineageMembers(consents[..n], key);
    }
  }

  /** A chain is already in the order of its sequence numbers. */
  lemma {:induction false} ChainIsSorted(chain: seq<Consent>)
    requires IsChain(chain)
    ensures Sort(chain, BySequence) == chain
  {
    hide Sort;
    SortPermutes(chain, BySequence);
    SortSorts(chain, BySequence);
    assert forall i | 0 <= i < |chain| :: chain[i].provenance.sequence == i + 1;
    SortedListingsAgree(chain, Sort(chain, BySequence), BySequence);
  }

  // ---------------------------------------------------------------- a request against a consumed capture

  /** A human action as it is submitted: by whom, on what, when, and under which capture reference. */
  datatype Submission = Submission(
    value: ActionValue, rootId: string, principalId: string, workerId: Option<string>, scope: Scope, reference: string,
    occurredAt: int)

  predicate SameAction(k: Consumption, s: Submission) {
    && k.provenance.value == s.value && k.provenance.rootId == s.rootId && k.provenance.principalId == s.principalId
    && k.workerId == s.workerId && k.provenance.scope == s.scope && k.provenance.occurredAt == s.occurredAt
  }

  /** Some action was captured with this key under this reference. */
  ghost predicate CaptureConsumed(t: Tables, capture: (string, string)) {
    exists k | k in t.consumptions :: k.provenance.keyId == capture.0 && k.provenance.reference == capture.1
  }

  /** The record states exactly what was submitted: the value, the root, the principal, the worker, the scope, the time
      and the reference, captured with this key. */
  ghost predicate Records(e: Evidence, keyId: string, s: Submission) {
    match e
    case ApprovalEvidence(a) =>
      && s.value == Approved && a.rootId == s.rootId && a.ownerId == s.principalId
      && a.scope.workerId == s.workerId && a.scope == s.scope && a.provenance.occurredAt == s.occurredAt
      && a.provenance.reference == s.reference && a.provenance.keyId == keyId
    case ConsentEvidence(c) =>
      && s.value == Recorded(c.status) && c.rootId == s.rootId && c.principalId == s.principalId
      && Some(c.workerId) == s.workerId && c.scope == s.scope && c.provenance.occurredAt == s.occurredAt
      && c.provenance.reference == s.reference && c.provenance.keyId == keyId
  }

  /** The stored record an exact retry of `s` finds. */
  ghost predicate RecordedFor(t: Tables, keyId: string, s: Submission, e: Evidence) {
    InTables(t, e) && Records(e, keyId, s)
  }

  /** The trigger that refuses to replace or repeat a consumption. */
  predicate CanConsume(t: Tables, k: Consumption) {
    forall j | j in t.consumptions ::
      ConsumedCapture(j) != ConsumedCapture(k) && j.evidence != k.evidence && j.provenance != k.provenance
  }

  /** The triggers on the consent table: no repetition, and the chronology of the lineage. */
  predicate CanRecordConsent(t: Tables, c: Consent) {
    && (forall o | o in t.consents ::
          o.provenance != c.provenance && CaptureOf(o.provenance) != CaptureOf(c.provenance))
    && (forall o | o in t.consents && KeyOf(o) == KeyOf(c) :: o.provenance.sequence != c.provenance.sequence)
    && (c.provenance.sequence == 1 ==> forall o | o in t.consents :: KeyOf(o) != KeyOf(c))
    && (c.provenance.sequence > 1 ==>
          exists o | o in t.consents :: KeyOf(o) == KeyOf(c) && o.provenance.keyId == c.provenance.keyId
            && o.provenance.sequence == c.provenance.sequence - 1 && Some(o.provenance) == c.provenance.previous)
  }

  predicate CanRecordApproval(t: Tables, a: Approval) {
    forall o | o in t.approvals :: RootScope(o) != RootScope(a)
  }

  /** The triggers that re-check the authority of a new record: the capture key of its root, the principal, the worker
      of the scope, and the consumption inserted before it. */
  predicate Authorised(d: Directory, consumptions: seq<Consumption>, e: Evidence) {
    var p := e.Action();
    && p.rootId in d.rootWorkers && Verified(d, p)
    && p.principalId in d.principals && d.principals[p.principalId].rootId == p.rootId
    && ConsumptionFor(e) in consumptions
    && match e
       case ApprovalEvidence(a) =>
         && d.principals[p.principalId].kind.Owner?
         && (a.scope.workerId.Some? ==> a.scope.workerId.value in d.rootWorkers[p.rootId])
       case ConsentEvidence(c) =>
         && d.principals[p.principalId].kind == WorkerOf(c.workerId)
         && c.scope.workerId == Some(c.workerId) && c.workerId in d.rootWorkers[p.rootId]
  }

  // ---------------------------------------------------------------- what recording may add

  /** The recorder holds the root's capture key and the principal is the worker named by the scope. */
  ghost predicate MayConsent(d: Directory, key: string, s: Submission) {
    && s.rootId in d.rootWorkers && s.rootId in d.captureKeys && d.captureKeys[s.rootId] == key
    && s.principalId in d.principals && d.principals[s.principalId].rootId == s.rootId
    && s.workerId.Some? && d.principals[s.principalId].kind == WorkerOf(s.workerId.value)
    && s.scope.workerId == s.workerId
  }

  /** The recorder holds the root's capture key, the principal owns the root, and the scope's worker is known. */
  ghost predicate MayApprove(d: Directory, key: string, s: Submission) {
    && s.rootId in d.rootWorkers && s.rootId in d.captureKeys && d.captureKeys[s.rootId] == key
    && s.principalId in d.principals && d.principals[s.principalId].rootId == s.rootId
    && d.principals[s.principalId].kind.Owner?
    && (s.scope.workerId.Some? ==> s.scope.workerId.value in d.rootWorkers[s.rootId])
  }

  /** A consumed capture changes nothing: an exact retry gets the stored record, anything else is refused. */
  ghost predicate RetryAnswered(
    key: string, s: Submission, before: Tables, after: Tables, answer: Result<Evidence, EvidenceError>
  ) {
    && after == before
    && match answer
       case Ok(e) => RecordedFor(before, key, s, e)
       case Err(error) => error == ReplayConflict && !exists x :: RecordedFor(before, key, s, x)
  }

  ghost function ConsentOf(result: Result<Consent, EvidenceError>): Result<Evidence, EvidenceError> {
    match result case Ok(c) => Ok(ConsentEvidence(c)) case Err(e) => Err(e)
  }

  ghost function ApprovalOf(result: Result<Approval, EvidenceError>): Result<Evidence, EvidenceError> {
    match result case Ok(a) => Ok(ApprovalEvidence(a)) case Err(e) => Err(e)
  }

  /** The consent that continues the lineage of its key. */
  ghost function NextConsent(t: Tables, key: string, s: Submission, status: ConsentStatus, workerId: string): Consent {
    var chain := Lineage(t.consents, LineageKey(s.rootId, s.principalId, workerId, s.scope));
    Consent(s.rootId, s.principalId, workerId, s.scope, status,
            Provenance(Recorded(status), s.rootId, s.principalId, s.scope, s.occurredAt, s.reference, |chain| + 1,
                       Head(chain), key))
  }

  ghost function WithConsent(t: Tables, c: Consent): Tables {
    Tables(t.approvals, t.consents + [c], t.consumptions + [ConsumptionFor(ConsentEvidence(c))])
  }

  ghost function NewApproval(key: string, s: Submission): Approval {
    Approval(s.rootId, s.principalId, s.scope,
             Provenance(Approved, s.rootId, s.principalId, s.scope, s.occurredAt, s.reference, 1, None, key))
  }

  ghost function WithApproval(t: Tables, a: Approval): Tables {
    Tables(t.approvals + [a], t.consents, t.consumptions + [ConsumptionFor(ApprovalEvidence(a))])
  }

  ghost predicate ScopeApproved(t: Tables, rootId: string, scope: Scope) {
    exists a | a in t.approvals :: RootScope(a) == (rootId, scope)
  }

  /** The head of its lineage, and freely given. */
  ghost predicate Resolves(t: Tables, c: Consent) {
    var chain := Lineage(t.consents, KeyOf(c));
    chain != [] && chain[|chain| - 1] == c && c.status.FreelyGiven?
  }

  lemma {:induction false} ConsentLoads(d: Directory, t: Tables, c: Consent)
    requires Inv(d, t)
    ensures ConsentError(d, t, c) == None <==> c in t.consents
    ensures c in t.consents ==> c in Lineage(t.consents, KeyOf(c))
  {
    hide IsChain, Lineage, ConsumptionError;
    RecordsLoad(d, t);
    LineageMembers(t.consents, KeyOf(c));
  }

  lemma {:induction false} LineageLoads(d: Directory, t: Tables, key: LineageKey)
    requires Inv(d, t)
    ensures var chain := Lineage(t.consents, key);
      && Sort(chain, BySequence) == chain && IsChain(chain)
      && (forall c | c in chain :: ConsentError(d, t, c) == None && KeyOf(c) == key && Verified(d, c.provenance)
            && c.provenance.rootId == key.rootId)
      && (forall c | KeyOf(c) == key :: c in chain <==> c in t.consents)
  {
    hide IsChain, Lineage, ConsumptionError, Sort;
    RecordsLoad(d, t);
    LineageMembers(t.consents, key);
    ChainIsSorted(Lineage(t.consents, key));
    assert forall c | c in Lineage(t.consents, key) :: ConsentBound(d, c);
  }

  lemma {:induction false} FreshCapture(d: Directory, t: Tables, e: Evidence)
    requires Inv(d, t) && !CaptureConsumed(t, CaptureOf(e.Action()))
    ensures CanConsume(t, ConsumptionFor(e))
    ensures forall x | InTables(t, x) :: CaptureOf(x.Action()) != CaptureOf(e.Action())
  {
    hide IsChain, Lineage;
    forall x | InTables(t, x) ensures CaptureOf(x.Action()) != CaptureOf(e.Action()) {
      assert ConsumptionFor(x) in t.consumptions;
    }
  }

  lemma {:induction false} NextConsentIsAuthorised(
    d: Directory, t: Tables, key: string, s: Submission, status: ConsentStatus, workerId: string
  )
    requires Inv(d, t)
    ensures var c := NextConsent(t, key, s, status, workerId);
      MayConsent(d, key, s) && s.workerId == Some(workerId) ==>
        Authorised(d, WithConsent(t, c).consumptions, ConsentEvidence(c))
  {
    hide Lineage, IsChain, CapturesConsumedOnce, ChainsIntact, UniqueBy;
  }

  lemma {:induction false} SequencesOf(d: Directory, t: Tables, chain: seq<Consent>, key: LineageKey)
    requires Inv(d, t) && chain == Lineage(t.consents, key) && IsChain(chain)
    requires forall c | c in chain :: c in t.consents && KeyOf(c) == key
    ensures forall c | c in chain :: 1 <= c.provenance.sequence <= |chain|
    ensures chain != [] ==> chain[|chain| - 1].provenance.sequence == |chain|
  {
    hide Lineage, Inv;
    forall c | c in chain ensures 1 <= c.provenance.sequence <= |chain| {
      var i :| 0 <= i < |chain| && chain[i] == c;
      assert Continues(chain[i].provenance, i + 1, Head(chain[..i]));
    }
    if chain != [] {
      var n := |chain| - 1;
      assert Continues(chain[n].provenance, n + 1, Head(chain[..n]));
    }
  }

  lemma {:induction false} NextConsentIsNext(
    d: Directory, t: Tables, key: string, s: Submission, status: ConsentStatus, workerId: string
  )
    requires Inv(d, t) && s.rootId in d.captureKeys && d.captureKeys[s.rootId] == key
    ensures var c := NextConsent(t, key, s, status, workerId);
      && (forall o | o in t.consents && KeyOf(o) == KeyOf(c) :: o.provenance.sequence < c.provenance.sequence)
      && (c.provenance.sequence == 1 ==> forall o | o in t.consents :: KeyOf(o) != KeyOf(c))
      && (c.provenance.sequence > 1 ==>
            exists o | o in t.consents :: KeyOf(o) == KeyOf(c) && o.provenance.keyId == c.provenance.keyId
              && o.provenance.sequence == c.provenance.sequence - 1 && Some(o.provenance) == c.provenance.previous)
  {
    hide Lineage, IsChain, ConsentError, Inv;
    var c := NextConsent(t, key, s, status, workerId);
    var chain := Lineage(t.consents, KeyOf(c));
    LineageLoads(d, t, KeyOf(c));
    SequencesOf(d, t, chain, KeyOf(c));
    if chain != [] {
      assert chain[|chain| - 1] in chain;
    }
  }

  /** The next consent of an unbroken chain passes every trigger, those that re-check its authority included. */
  lemma {:induction false} NextConsentFits(
    d: Directory, t: Tables, key: string, s: Submission, status: ConsentStatus, workerId: string
  )
    requires Inv(d, t) && s.value == Recorded(status) && s.rootId in d.captureKeys && d.captureKeys[s.rootId] == key
    ensures var c := NextConsent(t, key, s, status, workerId);
      && (!CaptureConsumed(t, (key, s.reference)) ==>
            CanConsume(t, ConsumptionFor(ConsentEvidence(c))) && CanRecordConsent(t, c))
      && (MayConsent(d, key, s) && s.workerId == Some(workerId) ==>
            Authorised(d, WithConsent(t, c).consumptions, ConsentEvidence(c)))
  {
    NextConsentIsAuthorised(d, t, key, s, status, workerId);
    NextConsentIsNext(d, t, key, s, status, workerId);
    hide Lineage, CaptureConsumed, Inv, Authorised, MayConsent, CanConsume;
    var c := NextConsent(t, key, s, status, workerId);
    if !CaptureConsumed(t, (key, s.reference)) {
      FreshCapture(d, t, ConsentEvidence(c));
      assert forall o | o in t.consents ::
        InTables(t, ConsentEvidence(o)) && ConsentEvidence(o).Action() == o.provenance;
    }
  }

  lemma {:induction false} NewApprovalFits(d: Directory, t: Tables, key: string, s: Submission)
    requires Inv(d, t)
    ensures var a := NewApproval(key, s);
      && (!CaptureConsumed(t, (key, s.reference)) ==>
            CanConsume(t, ConsumptionFor(ApprovalEvidence(a))) && a !in t.approvals)
      && (forall o | o in t.approvals :: ApprovalError(d, t, o) == None)
      && (MayApprove(d, key, s) ==> Authorised(d, WithApproval(t, a).consumptions, ApprovalEvidence(a)))
  {
    hide Lineage, IsChain, ApprovalError, CaptureConsumed, Inv;
    RecordsLoad(d, t);
    var a := NewApproval(key, s);
    if !CaptureConsumed(t, (key, s.reference)) {
      FreshCapture(d, t, ApprovalEvidence(a));
      assert !InTables(t, ApprovalEvidence(a));
    }
  }

  lemma {:induction false} ConsumptionIsBound(d: Directory, t: Tables, k: Consumption)
    requires Inv(d, t) && k in t.consumptions
    ensures Verified(d, k.provenance) && k == ConsumptionFor(k.evidence) && InTables(t, k.evidence)
    ensures k.provenance.value.Approved? <==> k.evidence.ApprovalEvidence?
  {
    hide IsChain, Lineage;
    match k.evidence
    case ApprovalEvidence(a) => assert ApprovalBound(d, a);
    case ConsentEvidence(c) => assert ConsentBound(d, c);
  }

  /** The consumption of a capture matches a submission exactly when some record answers it. */
  lemma {:induction false} ConsumedMatches(d: Directory, t: Tables, keyId: string, s: Submission, k: Consumption)
    requires Inv(d, t) && k in t.consumptions && ConsumedCapture(k) == (keyId, s.reference)
    ensures SameAction(k, s) ==> RecordedFor(t, keyId, s, k.evidence)
    ensures forall x | RecordedFor(t, keyId, s, x) :: SameAction(k, s)
  {
    hide IsChain, Lineage, Verified;
    ConsumptionIsBound(d, t, k);
    forall x | RecordedFor(t, keyId, s, x) ensures SameAction(k, s) {
      assert ConsumptionFor(x) in t.consumptions;
      SameItem(t.consumptions, k, ConsumptionFor(x), ConsumedCapture);
    }
  }

  /** Under the invariant the capture has at most one consumption, and its record loads. */
  lemma {:induction false} ReplayIsDecided(d: Directory, t: Tables, keyId: string, s: Submission)
    requires Inv(d, t)
    ensures var rows := ConsumptionsOf(t.consumptions, (keyId, s.reference));
      if !CaptureConsumed(t, (keyId, s.reference)) then rows == []
      else
        && |rows| == 1 && rows[0] in t.consumptions && Verified(d, rows[0].provenance)
        && ConsumedCapture(rows[0]) == (keyId, s.reference)
        && (match rows[0].evidence
            case ApprovalEvidence(a) => ApprovalError(d, t, a) == None
            case ConsentEvidence(c) => ConsentError(d, t, c) == None)
        && (SameAction(rows[0], s) ==> RecordedFor(t, keyId, s, rows[0].evidence))
        && (forall x | RecordedFor(t, keyId, s, x) :: SameAction(rows[0], s))
  {
    hide IsChain, Lineage, ConsumptionsOf, ApprovalError, ConsentError, RecordedFor, SameAction, Verified;
    var capture := (keyId, s.reference);
    NotConsumed(t.consumptions, capture);
    if CaptureConsumed(t, capture) {
      var k :| k in t.consumptions && ConsumedCapture(k) == capture;
      OnlyConsumption(t.consumptions, k);
      RecordsLoad(d, t);
      ConsumptionIsBound(d, t, k);
      ConsumedMatches(d, t, keyId, s, k);
    } else {
      assert forall i | 0 <= i < |t.consumptions| :: t.consumptions[i] in t.consumptions;
    }
  }

  /** A record answers no submission that differs from it, whatever is submitted under its capture. */
  lemma {:induction false} DifferingRetryFindsNothing(
    d: Directory, t: Tables, keyId: string, s: Submission, stored: Evidence
  )
    requires Inv(d, t) && InTables(t, stored) && !Records(stored, keyId, s)
    requires stored.Action().keyId == keyId && stored.Action().reference == s.reference
    ensures CaptureConsumed(t, (keyId, s.reference)) && !exists x :: RecordedFor(t, keyId, s, x)
  {
    hide IsChain, Lineage, Verified;
    assert ConsumptionFor(stored) in t.consumptions;
    forall x | RecordedFor(t, keyId, s, x) ensures false {
      assert ConsumptionFor(x) in t.consumptions;
      SameItem(t.consumptions, ConsumptionFor(stored), ConsumptionFor(x), ConsumedCapture);
    }
  }

  /** Some stored record was captured with this key under the reference of `s`, but states something else. */
  ghost predicate CapturedOtherwise(t: Tables, keyId: string, s: Submission) {
    exists stored :: InTables(t, stored) && !Records(stored, keyId, s)
      && stored.Action().keyId == keyId && stored.Action().reference == s.reference
  }

  lemma {:induction false} CapturedOtherwiseIsRefused(d: Directory, t: Tables, keyId: string, s: Submission)
    requires Inv(d, t)
    ensures CapturedOtherwise(t, keyId, s) ==>
      CaptureConsumed(t, (keyId, s.reference)) && !exists x :: RecordedFor(t, keyId, s, x)
  {
    hide Inv, Records, InTables, CaptureConsumed, RecordedFor;
    if CapturedOtherwise(t, keyId, s) {
      var stored :| InTables(t, stored) && !Records(stored, keyId, s)
        && stored.Action().keyId == keyId && stored.Action().reference == s.reference;
      DifferingRetryFindsNothing(d, t, keyId, s, stored);
    }
  }

  /** What may be recorded is exactly what a consistent store can hold. */
  lemma {:induction false} MayRecordIffBound(
    d: Directory, t: Tables, key: string, s: Submission, status: ConsentStatus, workerId: string
  )
    requires s.workerId == Some(workerId)
    ensures MayConsent(d, key, s) && s.scope.kind == PrivateVehicleUse <==>
      ConsentBound(d, NextConsent(t, key, s, status, workerId))
    ensures MayApprove(d, key, s) <==> ApprovalBound(d, NewApproval(key, s))
  {
    hide Lineage;
  }

  /** Two consents of one worker for one scope, as one principal of one root. */
  ghost predicate SameSubject(x: Consent, c: Consent) {
    x.rootId == c.rootId && x.principalId == c.principalId && x.workerId == c.workerId && x.scope == c.scope
  }

  /** A lineage holds exactly the consents of one root, principal, worker and scope. */
  lemma {:induction false} LineageIsOfOneKey(consents: seq<Consent>, c: Consent, x: Consent)
    ensures x in Lineage(consents, KeyOf(c)) <==> x in consents && SameSubject(x, c)
  {
    hide Lineage;
    LineageMembers(consents, KeyOf(c));
  }

  lemma {:induction false} EarlierInChain(chain: seq<Consent>, c: Consent)
    requires IsChain(chain) && c in chain && chain[|chain| - 1] != c
    ensures c.provenance.sequence < |chain|
  {
    var i :| 0 <= i < |chain| && chain[i] == c;
    assert Continues(chain[i].provenance, i + 1, Head(chain[..i]));
  }

  /** A stored consent resolves exactly when it is freely given and no consent of the same root, principal, worker and
      scope was recorded after it. */
  lemma {:induction false} NewestFreelyGivenResolves(d: Directory, t: Tables, c: Consent)
    requires Inv(d, t) && c in t.consents
    ensures Resolves(t, c) <==>
      && c.status == FreelyGiven
      && forall x | x in t.consents && SameSubject(x, c) :: x.provenance.sequence <= c.provenance.sequence
  {
    hide Lineage, IsChain, SameSubject;
    var chain := Lineage(t.consents, KeyOf(c));
    LineageLoads(d, t, KeyOf(c));
    LineageMembers(t.consents, KeyOf(c));
    SequencesOf(d, t, chain, KeyOf(c));
    forall x ensures x in chain <==> x in t.consents && SameSubject(x, c) {
      LineageIsOfOneKey(t.consents, c, x);
    }
    var last := chain[|chain| - 1];
    assert last in chain;
    if last != c {
      EarlierInChain(chain, c);
    }
  }

  class Recorder {
    const directory: Directory
    const signingKey: string
    var tables: Tables

    constructor (directory: Directory, signingKey: string)
      requires directory.Valid()
      ensures this.directory == directory && this.signingKey == signingKey
      ensures tables == EMPTY && Inv(directory, tables)
    {
      this.directory, this.signingKey, this.tables := directory, signingKey, EMPTY;
      new;
      EmptyIsConsistent(directory);
    }

    /** The capture key of a root, if this recorder holds it. */
    method RequireCaptureKey(rootId: string) returns (error: Option<EvidenceError>)
      ensures error == None <==>
        rootId in directory.rootWorkers && rootId in directory.captureKeys
          && directory.captureKeys[rootId] == signingKey
      ensures error == Some(RootNotFound) <==> rootId !in directory.rootWorkers
      ensures error == Some(CaptureRootNotFound) <==>
        rootId in directory.rootWorkers && rootId !in directory.captureKeys
    {
      if rootId !in directory.rootWorkers {
        return Some(RootNotFound);
      }
      if rootId !in directory.captureKeys {
        return Some(CaptureRootNotFound);
      }
      error := if directory.captureKeys[rootId] != signingKey then Some(CaptureKeyMismatch) else None;
    }

    /** An earlier record of the same captured action, or a refusal when the capture was used for another one. */
    method FindCaptureReplay(s: Submission) returns (result: Result<Option<Evidence>, EvidenceError>)
      ensures Inv(directory, tables) ==>
        if !CaptureConsumed(tables, (signingKey, s.reference)) then result == Ok(None)
        else match result
          case Ok(found) => found.Some? && RecordedFor(tables, signingKey, s, found.value)
          case Err(e) => e == ReplayConflict && !exists x :: RecordedFor(tables, signingKey, s, x)
      ensures Inv(directory, tables) && CapturedOtherwise(tables, signingKey, s) ==> result == Err(ReplayConflict)
    {
      hide IsChain, Lineage, ConsumptionsOf, CapturedOtherwise;
      var rows := ConsumptionsOf(tables.consumptions, (signingKey, s.reference));
      ghost var consistent := Inv(directory, tables);
      if consistent {
        ReplayIsDecided(directory, tables, signingKey, s);
        CapturedOtherwiseIsRefused(directory, tables, signingKey, s);
      }
      if rows == [] {
        return Ok(None);
      }
      if |rows| != 1 {
        return Err(ConsumptionCardinality);
      }
      var consumption := rows[0];
      if !Verified(directory, consumption.provenance) {
        return Err(ProvenanceInvalid);
      }
      if !SameAction(consumption, s) {
        return Err(ReplayConflict);
      }
      var error :=
        match consumption.evidence
        case ApprovalEvidence(a) => ApprovalError(directory, tables, a)
        case ConsentEvidence(c) => ConsentError(directory, tables, c);
      result := if error.Some? then Err(error.value) else Ok(Some(consumption.evidence));
    }

    /** The chronology loop of `_load_consent_lineage`, carrying the previous record. */
    static method CheckChronology(lineage: seq<Consent>) returns (unbroken: bool)
      ensures unbroken <==> IsChain(lineage)
    {
      var previous: Option<Provenance> := None;
      for i := 0 to |lineage|
        invariant previous == Head(lineage[..i])
        invariant forall j | 0 <= j < i :: Continues(lineage[j].provenance, j + 1, Head(lineage[..j]))
      {
        var current := lineage[i].provenance;
        if current.sequence != i + 1 || current.previous != previous {
          assert !Continues(lineage[i].provenance, i + 1, Head(lineage[..i]));
          return false;
        }
        previous := Some(current);
      }
      unbroken := true;
    }

    /** `_load_consent_lineage`: every consent of the key, each loaded, in an unbroken chronology. */
    method LoadConsentLineage(c: Consent) returns (result: Result<seq<Consent>, EvidenceError>)
      ensures result.Ok? ==> IsChain(result.value) && c in result.value
      ensures Inv(directory, tables) ==>
        if c in tables.consents then result == Ok(Lineage(tables.consents, KeyOf(c))) else result.Err?
    {
      hide Inv, Lineage, ConsentError, Sort, IsChain;
      var lineage := Sort(Lineage(tables.consents, KeyOf(c)), BySequence);
      ghost var consistent := Inv(directory, tables);
      if consistent {
        LineageLoads(directory, tables, KeyOf(c));
      }
      for i := 0 to |lineage| {
        var error := ConsentError(directory, tables, lineage[i]);
        if error.Some? {
          return Err(error.value);
        }
      }
      var unbroken := CheckChronology(lineage);
      if !unbroken {
        return Err(ChronologyInvalid);
      }
      if lineage == [] || c !in lineage {
        return Err(ChronologyInvalid);
      }
      result := Ok(lineage);
    }

    /** Loads the lineage a new consent would extend. */
    method LoadPrior(key: LineageKey) returns (result: Result<seq<Consent>, EvidenceError>)
      ensures Inv(directory, tables) ==> result == Ok(Lineage(tables.consents, key))
    {
      hide Inv, Lineage, ConsentError, Sort;
      var prior := Sort(Lineage(tables.consents, key), BySequence);
      ghost var consistent := Inv(directory, tables);
      if consistent {
        LineageLoads(directory, tables, key);
      }
      for i := 0 to |prior| {
        var error := ConsentError(directory, tables, prior[i]);
        if error.Some? {
          return Err(error.value);
        }
      }
      if prior != [] {
        var lineage := LoadConsentLineage(prior[|prior| - 1]);
        if lineage.Err? {
          return Err(lineage.error);
        }
      }
      result := Ok(prior);
    }

    /** `record_worker_consent`. */
    method RecordWorkerConsent(
      rootId: string, principalId: string, workerId: string, scope: Scope, status: ConsentStatus, reference: string,
      occurredAt: int
    ) returns (result: Result<Consent, EvidenceError>)
      modifies this
      ensures result.Err? ==> tables == old(tables)
      ensures Inv(directory, old(tables)) ==>
        var s := Submission(Recorded(status), rootId, principalId, Some(workerId), scope, reference, occurredAt);
        if !MayConsent(directory, signingKey, s) then result.Err?
        else if CaptureConsumed(old(tables), (signingKey, reference)) then
          RetryAnswered(signingKey, s, old(tables), tables, ConsentOf(result))
        else if !scope.kind.PrivateVehicleUse? then result == Err(InvalidScope)
        else
          && result == Ok(NextConsent(old(tables), signingKey, s, status, workerId))
          && tables == WithConsent(old(tables), result.value)
      ensures Inv(directory, old(tables)) ==>
        var s := Submission(Recorded(status), rootId, principalId, Some(workerId), scope, reference, occurredAt);
        && (result.Ok? ==> result.value in tables.consents && Records(ConsentEvidence(result.value), signingKey, s))
        && (CapturedOtherwise(old(tables), signingKey, s) ==> result.Err?)
      ensures rootId !in directory.rootWorkers ==> result == Err(RootNotFound)
      ensures rootId in directory.rootWorkers && rootId !in directory.captureKeys ==> result == Err(CaptureRootNotFound)
    {
      hide Inv, CaptureConsumed, Lineage, CanConsume, CanRecordConsent, Authorised, SameAction, CapturedOtherwise;
      var s := Submission(Recorded(status), rootId, principalId, Some(workerId), scope, reference, occurredAt);
      ghost var consistent := Inv(directory, tables);
      if consistent {
        CapturedOtherwiseIsRefused(directory, tables, signingKey, s);
      }
      var keyError := RequireCaptureKey(rootId);
      if keyError.Some? {
        return Err(keyError.value);
      }
      if principalId !in directory.principals {
        return Err(PrincipalNotFound);
      }
      var principal := directory.principals[principalId];
      if principal.kind != WorkerOf(workerId) || principal.rootId != rootId || scope.workerId != Some(workerId) {
        return Err(PrincipalOrScopeMismatch);
      }
      var replay := FindCaptureReplay(s);
      if replay.Err? {
        return Err(replay.error);
      }
      if replay.value.Some? {
        if !replay.value.value.ConsentEvidence? {
          return Err(ConsumptionMismatch);
        }
        return Ok(replay.value.value.consent);
      }
      var prior := LoadPrior(LineageKey(rootId, principalId, workerId, scope));
      if prior.Err? {
        return Err(prior.error);
      }
      var provenance := Provenance(s.value, rootId, principalId, scope, occurredAt, reference, |prior.value| + 1,
                                   Head(prior.value), signingKey);
      if !scope.kind.PrivateVehicleUse? {
        return Err(InvalidScope);
      }
      var consent := Consent(rootId, principalId, workerId, scope, status, provenance);
      if consistent {
        NextConsentFits(directory, tables, signingKey, s, status, workerId);
      }
      var consumptions := tables.consumptions + [ConsumptionFor(ConsentEvidence(consent))];
      if !CanConsume(tables, ConsumptionFor(ConsentEvidence(consent))) || !CanRecordConsent(tables, consent)
         || !Authorised(directory, consumptions, ConsentEvidence(consent)) {
        return Err(RecordingConflict);
      }
      tables := tables.(consumptions := consumptions, consents := tables.consents + [consent]);
      result := Ok(consent);
    }

    /** `record_owner_approval`. */
    method RecordOwnerApproval(rootId: string, ownerId: string, scope: Scope, reference: string, occurredAt: int)
      returns (result: Result<Approval, EvidenceError>)
      modifies this
      ensures result.Err? ==> tables == old(tables)
      ensures Inv(directory, old(tables)) ==>
        var s := Submission(Approved, rootId, ownerId, scope.workerId, scope, reference, occurredAt);
        if !MayApprove(directory, signingKey, s) then result.Err?
        else if CaptureConsumed(old(tables), (signingKey, reference)) then
          RetryAnswered(signingKey, s, old(tables), tables, ApprovalOf(result))
        else if ScopeApproved(old(tables), rootId, scope) then result == Err(ApprovalConflict)
        else result == Ok(NewApproval(signingKey, s)) && tables == WithApproval(old(tables), result.value)
      ensures Inv(directory, old(tables)) ==>
        var s := Submission(Approved, rootId, ownerId, scope.workerId, scope, reference, occurredAt);
        && (result.Ok? ==> result.value in tables.approvals && Records(ApprovalEvidence(result.value), signingKey, s))
        && (CapturedOtherwise(old(tables), signingKey, s) ==> result.Err?)
      ensures rootId !in directory.rootWorkers ==> result == Err(RootNotFound)
      ensures rootId in directory.rootWorkers && rootId !in directory.captureKeys ==> result == Err(CaptureRootNotFound)
    {
      hide Inv, CaptureConsumed, CanConsume, Authorised, SameAction, CapturedOtherwise;
      var s := Submission(Approved, rootId, ownerId, scope.workerId, scope, reference, occurredAt);
      ghost var consistent := Inv(directory, tables);
      if consistent {
        CapturedOtherwiseIsRefused(directory, tables, signingKey, s);
      }
      var keyError := RequireCaptureKey(rootId);
      if keyError.Some? {
        return Err(keyError.value);
      }
      if ownerId !in directory.principals {
        return Err(PrincipalNotFound);
      }
      var owner := directory.principals[ownerId];
      if !owner.kind.Owner? || owner.rootId != rootId {
        return Err(NotRootOwner);
      }
      if scope.workerId.Some? && scope.workerId.value !in directory.rootWorkers[rootId] {
        return Err(ScopeWorkerUnknown);
      }
      var replay := FindCaptureReplay(s);
      if replay.Err? {
        return Err(replay.error);
      }
      if replay.value.Some? {
        if !replay.value.value.ApprovalEvidence? {
          return Err(ConsumptionMismatch);
        }
        return Ok(replay.value.value.approval);
      }
      var provenance := Provenance(Approved, rootId, ownerId, scope, occurredAt, reference, 1, None, signingKey);
      var approval := Approval(rootId, ownerId, scope, provenance);
      if consistent {
        NewApprovalFits(directory, tables, signingKey, s);
      }
      if exists a | a in tables.approvals :: RootScope(a) == (rootId, scope) {
        var stored :| stored in tables.approvals && RootScope(stored) == (rootId, scope);
        var error := ApprovalError(directory, tables, stored);
        if error.Some? {
          return Err(error.value);
        }
        if stored != approval {
          return Err(ApprovalConflict);
        }
        return Ok(stored);
      }
      var consumptions := tables.consumptions + [ConsumptionFor(ApprovalEvidence(approval))];
      if !CanConsume(tables, ConsumptionFor(ApprovalEvidence(approval))) || !CanRecordApproval(tables, approval)
         || !Authorised(directory, consumptions, ApprovalEvidence(approval)) {
        return Err(RecordingConflict);
      }
      tables := tables.(consumptions := consumptions, approvals := tables.approvals + [approval]);
      result := Ok(approval);
    }

    /** `resolve_worker_consent`: only the current, freely given consent of the expected scope resolves. */
    method ResolveWorkerConsent(consent: Option<Consent>, rootId: string, workerId: string, expected: Scope)
      returns (result: Result<Option<Consent>, EvidenceError>)
      ensures consent == None ==> result == Ok(None)
      ensures consent.Some? && Inv(directory, tables) ==>
        var c := consent.value;
        if c !in tables.consents then result.Err?
        else if c.rootId != rootId || c.workerId != workerId || c.scope != expected then result == Err(ScopeMismatch)
        else result == Ok(if Resolves(tables, c) then consent else None)
    {
      hide Inv, Lineage, ConsentError;
      if consent.None? {
        return Ok(None);
      }
      var c := consent.value;
      if Inv(directory, tables) {
        ConsentLoads(directory, tables, c);
      }
      var error := ConsentError(directory, tables, c);
      if error.Some? {
        return Err(error.value);
      }
      if c.rootId != rootId || c.workerId != workerId || c.scope != expected {
        return Err(ScopeMismatch);
      }
      var lineage := LoadConsentLineage(c);
      if lineage.Err? {
        return Err(lineage.error);
      }
      var current := lineage.value[|lineage.value| - 1];
      if current != c || !current.status.FreelyGiven? {
        return Ok(None);
      }
      result := Ok(Some(current));
    }
  }
}
