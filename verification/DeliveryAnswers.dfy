/** Where the results of a delivery come from: the answers of the authority and the return sealed first
    (packages/adapter-kit/src/index.ts and adapters/pi/src/index.ts). */
module DeliveryAnswers {
  import opened Wrappers
  import opened Delivery

  // ----- Another return -----

  /** The receipt and the two published digests of a return. */
  predicate SameDigests(w: WorkerReturn, v: WorkerReturn) {
    w.receiptDigest == v.receiptDigest && w.artifactDigest == v.artifactDigest && w.evidenceDigest == v.evidenceDigest
  }

  /**
   * A delivery begins on the record that is there only if its receipt and its published digests are
   * those of the return; otherwise the process leaves, the lock is free, and the record is as it was.
   */
  lemma BeginsOnItsOwnReturn(s: System, p: nat, sealed: WorkerReturn)
    requires SystemInv(s) && s.record.Some? && Do(s, Begin(p, sealed)).Some?
    ensures var t := Do(s, Begin(p, sealed)).value;
            && t.record == s.record && t.trace == s.trace
            && if SameDigests(s.record.value.workerReturn, sealed) then PlaceOf(t, p) == At(1, Results(None, None, None)) && t.lock == Some(p)
               else PlaceOf(t, p) == Idle && t.lock == None
  {
    HoldsLock(s, p);
    hide SystemInv;
  }

  /** A first delivery creates the record of its return, with nothing completed. */
  lemma BeginCreates(s: System, p: nat, sealed: WorkerReturn)
    requires SystemInv(s) && s.record.None? && Do(s, Begin(p, sealed)).Some?
    ensures var t := Do(s, Begin(p, sealed)).value;
            && t.record == Some(Record(sealed, PREPARED, None, None, None)) && PlaceOf(t, p) == At(1, Results(None, None, None))
            && sealed.decisionResume.proposalId == sealed.proposalId && sealed.decisionResume.proposalDigest == sealed.proposalDigest
            && sealed.decisionResume.resumeToken == None
  {
    hide SystemInv;
  }

  /** Behind every record there is the delivery that created it; only the resume token of its return was filled in since. */
  lemma {:induction false} RecordWasCreated(systems: seq<System>, actions: seq<Action>, n: nat)
    returns (i: nat, p: nat, sealed: WorkerReturn)
    requires IsRun(systems, actions) && n < |systems| && systems[n].record.Some?
    ensures i < n && i < |actions| && actions[i] == Begin(p, sealed) && systems[i].record.None?
    ensures systems[n].record.value.workerReturn == sealed.(decisionResume := sealed.decisionResume.(
              resumeToken := systems[n].record.value.workerReturn.decisionResume.resumeToken))
  {
    hide Do, SystemInv;
    assert n > 0;
    RunStep(systems, actions, n - 1);
    RunInv(systems, actions, n - 1);
    if systems[n - 1].record.Some? {
      i, p, sealed := RecordWasCreated(systems, actions, n - 1);
      hide IsRun;
      ReturnStays(systems[n - 1], actions[n - 1]);
    } else {
      hide IsRun;
      OnlyBeginCreates(systems[n - 1], actions[n - 1]);
      i, p, sealed := n - 1, actions[n - 1].p, actions[n - 1].sealed;
      BeginCreates(systems[n - 1], p, sealed);
    }
  }

  lemma OnlyBeginCreates(s: System, a: Action)
    requires SystemInv(s) && s.record.None? && Do(s, a).Some? && Do(s, a).value.record.Some?
    ensures a.Begin?
  {
    if !Outside(PlaceOf(s, a.p)) { HoldsLock(s, a.p); }
    hide SystemInv, Legal, PhaseOf, RecordInv, ResultsMatch, EndsWithCall, Collect, Retained, InScope, Answers, Completing;
  }

  // ----- The answers on record -----

  /** Action `i` stores the answer that a call of the step was given. */
  predicate Stores(systems: seq<System>, actions: seq<Action>, i: nat, step: int, answer: Answer)
    requires i < |actions| < |systems|
  {
    && actions[i].Write?
    && var place := PlaceOf(systems[i], actions[i].p);
       place.Answered? && place.step == step && place.answer == answer
  }

  /** Before system `n` a call of the step was given this answer, and it was stored. */
  predicate Given(systems: seq<System>, actions: seq<Action>, n: nat, step: int, answer: Answer)
    requires n <= |actions| < |systems|
  {
    exists i :: 0 <= i < n && Stores(systems, actions, i, step, answer)
  }

  /** What a record holds of the authority's answers: the last token is that of the decision, once it is there. */
  ghost predicate FromAnswers(systems: seq<System>, actions: seq<Action>, n: nat, r: Record)
    requires n <= |actions| < |systems|
  {
    && (r.phase >= RECEIPT ==> r.receiptDigest.Some? && Given(systems, actions, n, RECEIPT, ReceiptStored(r.receiptDigest.value)))
    && (r.phase == SUBSCRIPTION ==> r.resumeToken.Some? && Given(systems, actions, n, SUBSCRIPTION, Subscribed(r.resumeToken.value)))
    && (r.phase >= DECISION ==>
          r.resumeToken.Some? && r.decision.Some? && Given(systems, actions, n, DECISION, Decided(r.resumeToken.value, r.decision.value)))
  }

  lemma GivenLater(systems: seq<System>, actions: seq<Action>, n: nat, m: nat, r: Record)
    requires n <= m <= |actions| < |systems| && FromAnswers(systems, actions, n, r)
    ensures FromAnswers(systems, actions, m, r)
  {
    hide Stores;
    forall step, answer | Given(systems, actions, n, step, answer) ensures Given(systems, actions, m, step, answer) {
      var i :| 0 <= i < n && Stores(systems, actions, i, step, answer);
    }
    hide Given;
  }

  /** Only creations and writes of completed steps change the record. */
  lemma RecordChanges(s: System, a: Action)
    requires SystemInv(s) && Do(s, a).Some? && Do(s, a).value.record != s.record
    ensures s.record.None? ==> a.Begin? && Do(s, a).value.record == Some(Record(a.sealed, PREPARED, None, None, None))
    ensures s.record.Some? ==>
              var place := PlaceOf(s, a.p);
              && a.Write? && place.Answered? && Answers(place.step, place.answer) && s.record == Some(place.loaded)
              && place.step == place.loaded.phase + 1 && RecordInv(place.loaded)
              && Completing(place.loaded, place.step, place.answer).Some?
              && Do(s, a).value.record == Completing(place.loaded, place.step, place.answer)
  {
    if !Outside(PlaceOf(s, a.p)) { HoldsLock(s, a.p); }
    assert s.record.Some? ==> RecordInv(s.record.value);
    hide SystemInv, Legal, PhaseOf, RecordInv, ResultsMatch, EndsWithCall, Collect, Retained, InScope, Answers, Completing;
  }

  /** Completing a step puts its answer on record, and leaves the other answers. */
  lemma AnswerStored(r: Record, step: int, a: Answer)
    requires RecordInv(r) && step == r.phase + 1 && step <= DECISION && Answers(step, a) && Completing(r, step, a).Some?
    ensures var next := Completing(r, step, a).value;
            && next.phase == step
            && (step == RECEIPT ==> next.receiptDigest.Some? && a == ReceiptStored(next.receiptDigest.value))
            && (step != RECEIPT ==> next.receiptDigest == r.receiptDigest)
            && (step == SUBSCRIPTION ==> next.resumeToken.Some? && a == Subscribed(next.resumeToken.value))
            && (step == DECISION ==> next.resumeToken.Some? && next.decision.Some? && a == Decided(next.resumeToken.value, next.decision.value))
  {
  }

  lemma {:induction false} RecordFromAnswers(systems: seq<System>, actions: seq<Action>, n: nat)
    requires IsRun(systems, actions) && n < |systems| && systems[n].record.Some?
    ensures n <= |actions| < |systems| && FromAnswers(systems, actions, n, systems[n].record.value)
  {
    hide Do, SystemInv;
    assert n > 0;
    RunStep(systems, actions, n - 1);
    RunInv(systems, actions, n - 1);
    var s, t := systems[n - 1], systems[n];
    if t.record == s.record {
      RecordFromAnswers(systems, actions, n - 1);
      hide IsRun, FromAnswers;
      GivenLater(systems, actions, n - 1, n, t.record.value);
    } else {
      RecordChanges(s, actions[n - 1]);
      if s.record.Some? {
        RecordFromAnswers(systems, actions, n - 1);
        var place := PlaceOf(s, actions[n - 1].p);
        assert Stores(systems, actions, n - 1, place.step, place.answer);
        hide IsRun;
        GivenLater(systems, actions, n - 1, n, s.record.value);
        StepAtMost(s, actions[n - 1].p);
        AnswerStored(place.loaded, place.step, place.answer);
        assert Given(systems, actions, n, place.step, place.answer);
        hide Given, Stores, Completing, RecordInv, Answers;
      }
    }
  }

  lemma StepAtMost(s: System, p: nat)
    requires SystemInv(s) && PlaceOf(s, p).Answered?
    ensures PlaceOf(s, p).step <= DECISION
  {
    HoldsLock(s, p);
  }

  /**
   * Whatever a finished delivery returns was given by the authority in this run: the receipt in answer
   * to a receipt that was submitted, and the token and the decision in answer to one observation.  The
   * return itself is the one that was sealed when the record was created, with that token.
   */
  lemma FinishedReturnsAnswers(systems: seq<System>, actions: seq<Action>, n: nat, q: nat)
    returns (i: nat, p: nat, sealed: WorkerReturn)
    requires IsRun(systems, actions) && n < |systems| && PlaceOf(systems[n], q).Finished?
    ensures n <= |actions| < |systems|
    ensures var returned := PlaceOf(systems[n], q).returned;
            && Given(systems, actions, n, RECEIPT, ReceiptStored(returned.receiptDigest))
            && Given(systems, actions, n, DECISION, Decided(returned.resumeToken, returned.decision))
            && i < n && actions[i] == Begin(p, sealed) && systems[i].record.None?
            && returned.workerReturn == sealed.(decisionResume := sealed.decisionResume.(resumeToken := Some(returned.resumeToken)))
  {
    FinishedReturnsPersisted(systems, actions, n, q, n, q);
    RecordFromAnswers(systems, actions, n);
    i, p, sealed := RecordWasCreated(systems, actions, n);
    RunInv(systems, actions, n);
    TokenOfReturn(systems[n]);
    hide IsRun, Given, SystemInv;
  }

  lemma TokenOfReturn(s: System)
    requires SystemInv(s) && s.record.Some? && s.record.value.phase == DECISION
    ensures s.record.value.workerReturn.decisionResume.resumeToken == s.record.value.resumeToken
  {
    hide Legal, PhaseOf, PlaceInv;
  }

  /** The decision is observed with the token that is on record. */
  lemma ObservedWithToken(systems: seq<System>, actions: seq<Action>, n: nat, p: nat, answer: Option<Answer>)
    requires IsRun(systems, actions) && n < |actions| && actions[n] == Call(p, answer) && PlaceOf(systems[n], p).Calling?
    requires PlaceOf(systems[n], p).step == DECISION
    ensures systems[n].record.Some? && systems[n].record.value.resumeToken.Some? && systems[n].record.value.resumeToken.value != ""
    ensures systems[n + 1].trace == systems[n].trace + [Called(DECISION, systems[n].record.value.resumeToken)]
  {
    RunStep(systems, actions, n);
    RunInv(systems, actions, n);
    hide IsRun;
    HoldsLock(systems[n], p);
    assert RecordInv(systems[n].record.value);
    hide SystemInv, Legal, PhaseOf, EndsWithCall;
  }
}
