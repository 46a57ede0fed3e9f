/** Runs of the evidence recorder: every sequence of accepted recordings, from the empty store. */
module EvidenceRuns {
  import opened Prelude
  import opened EvidenceStore

  /** One accepted recording by the recorder that holds the capture key `key`; refusals and retries change nothing. */
  datatype Step =
    | ConsentStep(key: string, submission: Submission, status: ConsentStatus, workerId: string)
    | ApprovalStep(key: string, submission: Submission)

  ghost predicate Accepted(d: Directory, t: Tables, step: Step) {
    var s, key := step.submission, step.key;
    && !CaptureConsumed(t, (key, s.reference))
    && match step
       case ConsentStep(_, _, status, workerId) =>
         s.value == Recorded(status) && s.workerId == Some(workerId) && MayConsent(d, key, s)
           && s.scope.kind.PrivateVehicleUse?
       case ApprovalStep(_, _) =>
         s.value == Approved && MayApprove(d, key, s) && !ScopeApproved(t, s.rootId, s.scope)
  }

  ghost function After(t: Tables, step: Step): Tables {
    match step
    case ConsentStep(key, s, status, workerId) => WithConsent(t, NextConsent(t, key, s, status, workerId))
    case ApprovalStep(key, s) => WithApproval(t, NewApproval(key, s))
  }

  ghost predicate IsRun(d: Directory, t: Tables, steps: seq<Step>)
    decreases |steps|
  {
    steps == [] || (Accepted(d, t, steps[0]) && IsRun(d, After(t, steps[0]), steps[1..]))
  }

  ghost function End(t: Tables, steps: seq<Step>): Tables
    decreases |steps|
  {
    if steps == [] then t else End(After(t, steps[0]), steps[1..])
  }

  // ---------------------------------------------------------------- one recording

  lemma {:induction false} LineageOfAppended(consents: seq<Consent>, c: Consent, key: LineageKey)
    ensures Lineage(consents + [c], key) == Lineage(consents, key) + if KeyOf(c) == key then [c] else []
  {
    assert (consents + [c])[..|consents|] == consents;
  }

  lemma {:induction false} ChainExtends(chain: seq<Consent>, c: Consent)
    requires IsChain(chain) && Continues(c.provenance, |chain| + 1, Head(chain))
    ensures IsChain(chain + [c])
  {
    var longer := chain + [c];
    forall i | 0 <= i < |longer| ensures Continues(longer[i].provenance, i + 1, Head(longer[..i])) {
      assert longer[..i] == chain[..i];
      if i < |chain| {
        assert Continues(chain[i].provenance, i + 1, Head(chain[..i]));
      } else {
        assert chain[..i] == chain;
      }
    }
  }

  lemma {:induction false} ChainsExtend(t: Tables, c: Consent)
    requires ChainsIntact(t)
    requires var chain := Lineage(t.consents, KeyOf(c)); Continues(c.provenance, |chain| + 1, Head(chain))
    ensures ChainsIntact(WithConsent(t, c))
  {
    hide Lineage, IsChain;
    forall key ensures IsChain(Lineage(t.consents + [c], key)) {
      LineageOfAppended(t.consents, c, key);
      if key == KeyOf(c) {
        ChainExtends(Lineage(t.consents, key), c);
      } else {
        assert Lineage(t.consents, key) + [] == Lineage(t.consents, key);
      }
    }
  }

  /** A fresh capture is consumed by exactly the record it is stored with. */
  lemma {:induction false} CaptureStaysUnique(before: Tables, after: Tables, e: Evidence)
    requires CapturesConsumedOnce(before) && !CaptureConsumed(before, CaptureOf(e.Action()))
    requires after == match e
      case ApprovalEvidence(a) => WithApproval(before, a)
      case ConsentEvidence(c) => WithConsent(before, c)
    ensures CapturesConsumedOnce(after)
  {
    var k := ConsumptionFor(e);
    forall i, j | 0 <= i < j < |after.consumptions|
      ensures ConsumedCapture(after.consumptions[i]) != ConsumedCapture(after.consumptions[j])
    {
      assert after.consumptions[i] in before.consumptions;
    }
    forall x | x in after.consumptions ensures x == ConsumptionFor(x.evidence) && InTables(after, x.evidence) {
      assert x in before.consumptions || x == k;
    }
    forall a | a in after.approvals ensures ConsumptionFor(ApprovalEvidence(a)) in after.consumptions {
      assert a in before.approvals ==> ConsumptionFor(ApprovalEvidence(a)) in before.consumptions;
    }
    forall c | c in after.consents ensures ConsumptionFor(ConsentEvidence(c)) in after.consumptions {
      assert c in before.consents ==> ConsumptionFor(ConsentEvidence(c)) in before.consumptions;
    }
  }

  lemma {:induction false} ScopesStayUnique(approvals: seq<Approval>, a: Approval)
    requires UniqueBy(approvals, RootScope) && forall o | o in approvals :: RootScope(o) != RootScope(a)
    ensures UniqueBy(approvals + [a], RootScope)
  {
    var longer := approvals + [a];
    forall i, j | 0 <= i < j < |longer| ensures RootScope(longer[i]) != RootScope(longer[j]) {
      assert longer[i] in approvals;
    }
  }

  lemma {:induction false} SameConsents(t: Tables, u: Tables)
    requires ChainsIntact(t) && u.consents == t.consents
    ensures ChainsIntact(u)
  {}

  /** Every accepted recording keeps the invariant. */
  lemma {:induction false} StepKeepsInv(d: Directory, t: Tables, step: Step)
    requires Inv(d, t) && Accepted(d, t, step)
    ensures Inv(d, After(t, step))
  {
    hide CapturesConsumedOnce, ChainsIntact, UniqueBy, CaptureConsumed, Lineage;
    match step
    case ConsentStep(key, s, status, workerId) =>
      var c := NextConsent(t, key, s, status, workerId);
      CaptureStaysUnique(t, WithConsent(t, c), ConsentEvidence(c));
      ChainsExtend(t, c);
    case ApprovalStep(key, s) =>
      var a := NewApproval(key, s);
      CaptureStaysUnique(t, WithApproval(t, a), ApprovalEvidence(a));
      ScopesStayUnique(t.approvals, a);
      SameConsents(t, WithApproval(t, a));
  }

  /** Every store reachable from the empty one satisfies the invariant: unbroken consent chains, one approval for
      each root and scope, and captures in one-to-one correspondence with records. */
  lemma {:induction false} ReachableStoresAreConsistent(d: Directory, t: Tables, steps: seq<Step>)
    requires Inv(d, t) && IsRun(d, t, steps)
    ensures Inv(d, End(t, steps))
    decreases |steps|
  {
    hide Inv, Accepted, After;
    if steps != [] {
      StepKeepsInv(d, t, steps[0]);
      ReachableStoresAreConsistent(d, After(t, steps[0]), steps[1..]);
    }
  }

  /** A capture identifies its record: two stored records never share one. */
  lemma {:induction false} CaptureIdentifiesRecord(d: Directory, t: Tables, e: Evidence, f: Evidence)
    requires Inv(d, t) && InTables(t, e) && InTables(t, f) && CaptureOf(e.Action()) == CaptureOf(f.Action())
    ensures e == f
  {
    hide ChainsIntact;
    assert ConsumptionFor(e) in t.consumptions && ConsumptionFor(f) in t.consumptions;
    SameItem(t.consumptions, ConsumptionFor(e), ConsumptionFor(f), ConsumedCapture);
  }

  // ---------------------------------------------------------------- which consent is current

  /** Recording a consent decides its key alone: it resolves exactly when freely given, every earlier consent of the
      key stops resolving, and no other key is affected. */
  lemma {:induction false} NewestConsentDecides(t: Tables, c: Consent, x: Consent)
    ensures KeyOf(x) == KeyOf(c) ==> (Resolves(WithConsent(t, c), x) <==> x == c && c.status.FreelyGiven?)
    ensures KeyOf(x) != KeyOf(c) ==> (Resolves(WithConsent(t, c), x) <==> Resolves(t, x))
  {
    hide Lineage;
    LineageOfAppended(t.consents, c, KeyOf(x));
    if KeyOf(x) != KeyOf(c) {
      assert Lineage(t.consents, KeyOf(x)) + [] == Lineage(t.consents, KeyOf(x));
    }
  }

  lemma {:induction false} AtMostOneConsentResolves(t: Tables, x: Consent, y: Consent)
    requires Resolves(t, x) && Resolves(t, y) && KeyOf(x) == KeyOf(y)
    ensures x == y
  {}

  /** A stored consent that is no longer the newest of its key. */
  ghost predicate Superseded(t: Tables, c: Consent) {
    var chain := Lineage(t.consents, KeyOf(c));
    c in chain && chain[|chain| - 1] != c
  }

  lemma {:induction false} StepKeepsSuperseded(d: Directory, t: Tables, step: Step, c: Consent)
    requires Inv(d, t) && Accepted(d, t, step) && Superseded(t, c)
    ensures Superseded(After(t, step), c)
  {
    hide Lineage, IsChain, Inv;
    if step.ConsentStep? {
      var next := NextConsent(t, step.key, step.submission, step.status, step.workerId);
      LineageOfAppended(t.consents, next, KeyOf(c));
      assert Lineage(t.consents, KeyOf(c)) + [] == Lineage(t.consents, KeyOf(c));
      LineageMembers(t.consents, KeyOf(c));
      FreshCapture(d, t, ConsentEvidence(next));
      assert InTables(t, ConsentEvidence(c));
    }
  }

  /** A superseded consent never resolves again, whatever is recorded later. */
  lemma {:induction false} SupersededForever(d: Directory, t: Tables, steps: seq<Step>, c: Consent)
    requires Inv(d, t) && IsRun(d, t, steps) && Superseded(t, c)
    ensures Superseded(End(t, steps), c) && !Resolves(End(t, steps), c)
    decreases |steps|
  {
    hide Inv, Accepted, Lineage, After;
    if steps != [] {
      StepKeepsInv(d, t, steps[0]);
      StepKeepsSuperseded(d, t, steps[0], c);
      SupersededForever(d, After(t, steps[0]), steps[1..], c);
    }
  }
}
