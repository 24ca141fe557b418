/** Deliveries whose proposal the authority substituted: the phase is persisted before the answer is compared
    (adapters/pi/src/index.ts and packages/adapter-kit/src/index.ts). */
module DeliverySubstitution {
  import opened Wrappers
  import opened Delivery

  // ----- Who answered -----

  /** None of the actions from one place to another is the process's. */
  predicate Quiet(actions: seq<Action>, from: nat, to: nat, p: nat)
    requires to <= |actions|
  {
    forall k :: from <= k < to ==> actions[k].p != p
  }

  /** Action `c` is the call whose answer process `p` still holds in system `i`. */
  predicate CalledBefore(actions: seq<Action>, c: nat, i: nat, p: nat, answer: Answer)
    requires i <= |actions|
  {
    c < i && actions[c] == Call(p, Some(answer)) && Quiet(actions, c + 1, i, p)
  }

  lemma OthersStay(s: System, a: Action, p: nat)
    requires Do(s, a).Some? && a.p != p
    ensures PlaceOf(Do(s, a).value, p) == PlaceOf(s, p)
  {
    hide HasCompleted, Retained, InScope, Collect, Completing, Answers;
  }

  lemma OnlyCallsAnswer(s: System, a: Action, p: nat)
    requires Do(s, a).Some? && a.p == p && PlaceOf(Do(s, a).value, p).Answered?
    ensures a == Call(p, Some(PlaceOf(Do(s, a).value, p).answer))
  {
    hide HasCompleted, Retained, InScope, Collect, Completing, Answers;
  }

  /** The answer a process holds is that of its last action, a call. */
  lemma {:induction false} AnswerOfCall(systems: seq<System>, actions: seq<Action>, i: nat, p: nat) returns (c: nat)
    requires IsRun(systems, actions) && i < |systems| && PlaceOf(systems[i], p).Answered?
    ensures CalledBefore(actions, c, i, p, PlaceOf(systems[i], p).answer)
  {
    hide Do;
    assert i > 0;
    RunStep(systems, actions, i - 1);
    hide IsRun;
    if actions[i - 1].p == p {
      OnlyCallsAnswer(systems[i - 1], actions[i - 1], p);
      c := i - 1;
    } else {
      OthersStay(systems[i - 1], actions[i - 1], p);
      c := AnswerOfCall(systems, actions, i - 1, p);
    }
  }

  // ----- Persisted first, compared afterwards -----

  /** Action `i` persists the phase of a proposal that was answered with `answer`. */
  predicate StoresProposal(systems: seq<System>, actions: seq<Action>, i: nat, p: nat, answer: Answer)
    requires i < |actions| < |systems|
  {
    && actions[i] == Write(p)
    && PlaceOf(systems[i], p).Answered? && PlaceOf(systems[i], p).step == PROPOSAL && PlaceOf(systems[i], p).answer == answer
  }

  lemma ProposalWritten(s: System, p: nat)
    requires SystemInv(s) && PlaceOf(s, p).Answered? && PlaceOf(s, p).step == PROPOSAL && Do(s, Write(p)).Some?
    ensures var (t, answer) := (Do(s, Write(p)).value, PlaceOf(s, p).answer);
            && s.record.Some? && s.record.value.phase == PROPOSAL - 1
            && t.record == Some(s.record.value.(phase := PROPOSAL)) && answer.ProposalStored?
            && if InScope(s.record.value.workerReturn, answer) then PlaceOf(t, p) == At(SUBSCRIPTION, Collect(PlaceOf(s, p).results, answer))
               else PlaceOf(t, p) == Idle && t.lock.None?
  {
    HoldsLock(s, p);
    hide SystemInv, Legal, PhaseOf, RecordInv, ResultsMatch, EndsWithCall, Collect;
  }

  /**
   * The answer to a proposal is persisted as completed whatever it says; the process goes on if and
   * only if the answer that the authority gave names the proposal of the decision.
   */
  lemma ComparedAfterwards(systems: seq<System>, actions: seq<Action>, i: nat, p: nat, answer: Answer)
    requires IsRun(systems, actions) && i < |actions| && StoresProposal(systems, actions, i, p, answer)
    ensures exists c :: CalledBefore(actions, c, i, p, answer)
    ensures answer.ProposalStored? && systems[i + 1].record.Some? && systems[i + 1].record.value.phase == PROPOSAL
    ensures var w := systems[i + 1].record.value.workerReturn;
            && (PlaceOf(systems[i + 1], p).At? && PlaceOf(systems[i + 1], p).step == SUBSCRIPTION <==>
                  answer.proposalId == w.decisionResume.proposalId && answer.proposalDigest == w.decisionResume.proposalDigest)
            && (!InScope(w, answer) ==> PlaceOf(systems[i + 1], p) == Idle && systems[i + 1].lock.None?)
  {
    RunInv(systems, actions, i);
    RunStep(systems, actions, i);
    hide SystemInv, Do;
    ghost var c := AnswerOfCall(systems, actions, i, p);
    hide IsRun;
    ProposalWritten(systems[i], p);
  }

  // ----- How a delivery passes the proposal -----

  /** The process asked for the proposal itself, and the answer was the one its decision resumes. */
  predicate AskedInScope(systems: seq<System>, actions: seq<Action>, j: nat, p: nat)
    requires j < |actions| < |systems|
  {
    var place := PlaceOf(systems[j], p);
    && actions[j] == Write(p) && place.Answered? && place.step == PROPOSAL
    && systems[j].record.Some? && InScope(systems[j].record.value.workerReturn, place.answer)
  }

  /** The process found the proposal completed in the record. */
  predicate FoundRetained(systems: seq<System>, actions: seq<Action>, j: nat, p: nat)
    requires j < |actions| < |systems|
  {
    var place := PlaceOf(systems[j], p);
    && actions[j] == Load(p) && place.At? && place.step == PROPOSAL
    && systems[j].record.Some? && HasCompleted(systems[j].record.value, PROPOSAL)
  }

  /** The step a process is about to do or doing, if it is at one; a finished one has done them all. */
  function Reached(place: Place): int {
    match place
    case At(step, _) => step
    case Calling(step, _, _) => step
    case Answered(step, _, _, _) => step
    case Finished(_) => DECISION + 1
    case _ => PREPARED
  }

  predicate PastProposal(place: Place) {
    Reached(place) > PROPOSAL
  }

  /** Process `p` passed its proposal in action `j`, and has not begun another delivery before system `i`. */
  predicate PassedAt(systems: seq<System>, actions: seq<Action>, j: nat, i: nat, p: nat)
    requires i <= |actions| < |systems|
  {
    && j < i
    && (AskedInScope(systems, actions, j, p) || FoundRetained(systems, actions, j, p))
    && forall k :: j < k < i ==> actions[k] != Acquire(p)
  }

  /** One action of a process past its proposal came from there, or passed it. */
  lemma PassingAction(s: System, a: Action, p: nat)
    requires SystemInv(s) && Do(s, a).Some? && a.p == p && PastProposal(PlaceOf(Do(s, a).value, p))
    ensures a != Acquire(p)
    ensures !PastProposal(PlaceOf(s, p)) ==>
              && s.record.Some?
              && Reached(PlaceOf(s, p)) == PROPOSAL
              && if PlaceOf(s, p).Answered? then a == Write(p) && InScope(s.record.value.workerReturn, PlaceOf(s, p).answer)
                 else PlaceOf(s, p).At? && a == Load(p) && HasCompleted(s.record.value, PROPOSAL)
  {
    if !Outside(PlaceOf(s, p)) { HoldsLock(s, p); }
    hide SystemInv, Legal, PhaseOf, RecordInv, Retained, Collect, EndsWithCall, Answers;
  }

  /**
   * A delivery that is past its proposal, or finished, either asked for the proposal itself and got
   * the answer its decision resumes, or found the proposal completed in the record.
   */
  lemma {:induction false} PassedSomehow(systems: seq<System>, actions: seq<Action>, i: nat, p: nat) returns (j: nat)
    requires IsRun(systems, actions) && i < |systems| && PastProposal(PlaceOf(systems[i], p))
    ensures PassedAt(systems, actions, j, i, p)
  {
    hide Do, SystemInv;
    assert i > 0;
    RunStep(systems, actions, i - 1);
    RunInv(systems, actions, i - 1);
    hide IsRun, AskedInScope, FoundRetained;
    if actions[i - 1].p != p {
      OthersStay(systems[i - 1], actions[i - 1], p);
      j := PassedSomehow(systems, actions, i - 1, p);
    } else {
      PassingAction(systems[i - 1], actions[i - 1], p);
      if PastProposal(PlaceOf(systems[i - 1], p)) {
        j := PassedSomehow(systems, actions, i - 1, p);
      } else {
        j := i - 1;
        Passed(systems, actions, j, p);
      }
    }
  }

  lemma Passed(systems: seq<System>, actions: seq<Action>, j: nat, p: nat)
    requires j < |actions| < |systems| && systems[j].record.Some?
    requires Reached(PlaceOf(systems[j], p)) == PROPOSAL
    requires if PlaceOf(systems[j], p).Answered? then actions[j] == Write(p) && InScope(systems[j].record.value.workerReturn, PlaceOf(systems[j], p).answer)
             else PlaceOf(systems[j], p).At? && actions[j] == Load(p) && HasCompleted(systems[j].record.value, PROPOSAL)
    ensures AskedInScope(systems, actions, j, p) || FoundRetained(systems, actions, j, p)
  {
  }

  /** Until it acquires the lock again, a process that passed its proposal is past it or gone. */
  predicate PastOrGone(place: Place) {
    PastProposal(place) || place.Idle?
  }

  lemma StaysPast(s: System, a: Action, p: nat)
    requires Do(s, a).Some? && a != Acquire(p) && PastOrGone(PlaceOf(s, p)) && SystemInv(s)
    ensures PastOrGone(PlaceOf(Do(s, a).value, p))
  {
    if a.p != p {
      OthersStay(s, a, p);
    } else {
      if !Outside(PlaceOf(s, p)) { HoldsLock(s, p); }
      hide SystemInv, Legal, PhaseOf, RecordInv, Retained, Collect, EndsWithCall, Answers, InScope;
    }
  }

  lemma PassingLeads(s: System, a: Action, p: nat)
    requires SystemInv(s) && Do(s, a).Some? && s.record.Some? && Reached(PlaceOf(s, p)) == PROPOSAL
    requires if PlaceOf(s, p).Answered? then a == Write(p) && InScope(s.record.value.workerReturn, PlaceOf(s, p).answer)
             else PlaceOf(s, p).At? && a == Load(p) && HasCompleted(s.record.value, PROPOSAL)
    ensures PastOrGone(PlaceOf(Do(s, a).value, p))
  {
    HoldsLock(s, p);
    hide SystemInv, Legal, PhaseOf, RecordInv, Collect, EndsWithCall;
  }

  lemma {:induction false} PastUntilNext(systems: seq<System>, actions: seq<Action>, j: nat, i: nat, p: nat)
    requires IsRun(systems, actions) && j < i < |systems| && PassedAt(systems, actions, j, i, p)
    ensures PastOrGone(PlaceOf(systems[i], p))
    decreases i
  {
    hide Do, SystemInv;
    RunStep(systems, actions, i - 1);
    RunInv(systems, actions, i - 1);
    hide IsRun;
    if i == j + 1 {
      PassingLeads(systems[j], actions[j], p);
    } else {
      PastUntilNext(systems, actions, j, i - 1, p);
      StaysPast(systems[i - 1], actions[i - 1], p);
    }
  }

  /** A delivery passes its proposal once, so it either asked or found it retained, and not both. */
  lemma PassedOnce(systems: seq<System>, actions: seq<Action>, i: nat, p: nat, j: nat, k: nat)
    requires IsRun(systems, actions) && i < |systems|
    requires PassedAt(systems, actions, j, i, p) && PassedAt(systems, actions, k, i, p)
    ensures j == k
    ensures !(AskedInScope(systems, actions, j, p) && FoundRetained(systems, actions, j, p))
  {
    hide Do;
    if j < k {
      PastUntilNext(systems, actions, j, k, p);
    } else if k < j {
      PastUntilNext(systems, actions, k, j, p);
    }
  }

  // ----- After a substitution -----

  lemma PhaseRises(s: System, a: Action)
    requires SystemInv(s) && Do(s, a).Some? && s.record.Some?
    ensures Do(s, a).value.record.Some? && s.record.value.phase <= Do(s, a).value.record.value.phase
  {
    if !Outside(PlaceOf(s, a.p)) { HoldsLock(s, a.p); }
    hide SystemInv, Legal, PhaseOf, RecordInv, Retained, Collect, EndsWithCall, Answers, InScope;
  }

  lemma {:induction false} PhasesRise(systems: seq<System>, actions: seq<Action>, i: nat, j: nat)
    requires IsRun(systems, actions) && i <= j < |systems| && systems[i].record.Some?
    ensures systems[j].record.Some? && systems[i].record.value.phase <= systems[j].record.value.phase
    decreases j
  {
    hide Do, SystemInv;
    if i < j {
      PhasesRise(systems, actions, i, j - 1);
      RunStep(systems, actions, j - 1);
      RunInv(systems, actions, j - 1);
      hide IsRun;
      PhaseRises(systems[j - 1], actions[j - 1]);
    }
  }

  /** The proposal of a return is stored once in any run. */
  lemma StoredOnce(systems: seq<System>, actions: seq<Action>, i: nat, p: nat, a: Answer, j: nat, q: nat, b: Answer)
    requires IsRun(systems, actions) && i < |actions| && j < |actions|
    requires StoresProposal(systems, actions, i, p, a) && StoresProposal(systems, actions, j, q, b)
    ensures i == j && p == q && a == b
  {
    var m, n := if i < j then i else j, if i < j then j else i;
    RunInv(systems, actions, m);
    RunInv(systems, actions, n);
    RunStep(systems, actions, m);
    RunStep(systems, actions, n);
    hide Do, SystemInv;
    ProposalWritten(systems[m], actions[m].p);
    ProposalWritten(systems[n], actions[n].p);
    if m < n {
      PhasesRise(systems, actions, m + 1, n);
    }
  }

  /**
   * Once the authority answered the proposal of a return with an answer `a`, the deliveries that are
   * past their proposal made the comparison exactly when they are the one that asked: if `a` names
   * another proposal, every one of them found the proposal retained, and none noticed.
   */
  lemma SubstitutionPasses(systems: seq<System>, actions: seq<Action>, i: nat, p: nat, a: Answer, n: nat, q: nat, j: nat)
    requires IsRun(systems, actions) && i < |actions| && n < |systems|
    requires StoresProposal(systems, actions, i, p, a) && PassedAt(systems, actions, j, n, q)
    ensures systems[i].record.Some?
    ensures AskedInScope(systems, actions, j, q) <==> j == i
    ensures FoundRetained(systems, actions, j, q) <==> j > i
    ensures !InScope(systems[i].record.value.workerReturn, a) ==> FoundRetained(systems, actions, j, q) && i < j
  {
    hide Do, SystemInv;
    RunInv(systems, actions, i);
    RunInv(systems, actions, j);
    RunStep(systems, actions, i);
    RunStep(systems, actions, j);
    ProposalWritten(systems[i], p);
    if AskedInScope(systems, actions, j, q) {
      StoredOnce(systems, actions, i, p, a, j, q, PlaceOf(systems[j], q).answer);
    } else if j <= i {
      PhasesRise(systems, actions, j, i);
    }
  }

  lemma StoringAction(s: System, a: Action)
    requires SystemInv(s) && Do(s, a).Some?
    requires s.record.None? || s.record.value.phase < PROPOSAL
    requires var t := Do(s, a).value; t.record.Some? && t.record.value.phase >= PROPOSAL
    ensures a == Write(a.p) && PlaceOf(s, a.p).Answered? && PlaceOf(s, a.p).step == PROPOSAL
  {
    if !Outside(PlaceOf(s, a.p)) { HoldsLock(s, a.p); }
    hide SystemInv, Legal, PhaseOf, RecordInv, Retained, Collect, EndsWithCall, Answers, InScope;
  }

  lemma {:induction false} ProposalWasStored(systems: seq<System>, actions: seq<Action>, n: nat)
    returns (i: nat, p: nat, answer: Answer)
    requires IsRun(systems, actions) && n < |systems|
    requires systems[n].record.Some? && systems[n].record.value.phase >= PROPOSAL
    ensures i < n && StoresProposal(systems, actions, i, p, answer)
  {
    hide Do, SystemInv;
    assert n > 0;
    RunStep(systems, actions, n - 1);
    RunInv(systems, actions, n - 1);
    hide IsRun;
    var s := systems[n - 1];
    if s.record.Some? && s.record.value.phase >= PROPOSAL {
      i, p, answer := ProposalWasStored(systems, actions, n - 1);
    } else {
      StoringAction(s, actions[n - 1]);
      i, p, answer := n - 1, actions[n - 1].p, PlaceOf(s, actions[n - 1].p).answer;
    }
  }

  /**
   * Behind every finished delivery there is one answer of the authority to the proposal, stored in
   * action `i`, and one action `j` in which the delivery passed its proposal.  The delivery compared
   * the answer exactly when it is the one that asked; so if the answer names another proposal, the
   * delivery found it retained.
   */
  lemma FinishedDelivery(systems: seq<System>, actions: seq<Action>, n: nat, q: nat)
    returns (i: nat, p: nat, answer: Answer, j: nat)
    requires IsRun(systems, actions) && n < |systems| && PlaceOf(systems[n], q).Finished?
    ensures i < n && StoresProposal(systems, actions, i, p, answer) && systems[i].record.Some?
    ensures PassedAt(systems, actions, j, n, q)
    ensures AskedInScope(systems, actions, j, q) <==> i == j
    ensures FoundRetained(systems, actions, j, q) <==> i < j
    ensures !InScope(systems[i].record.value.workerReturn, answer) ==> i < j
  {
    hide Do, SystemInv;
    FinishedReturnsPersisted(systems, actions, n, q, n, q);
    i, p, answer := ProposalWasStored(systems, actions, n);
    j := PassedSomehow(systems, actions, n, q);
    SubstitutionPasses(systems, actions, i, p, answer, n, q, j);
  }

  // ----- A substituted proposal that is delivered all the same -----

  lemma Continued(systems: seq<System>, actions: seq<Action>, a: Action)
    returns (more: seq<System>, done: seq<Action>)
    requires IsRun(systems, actions) && Do(systems[|actions|], a).Some?
    ensures done == actions + [a] && more == systems + [Do(systems[|actions|], a).value] && IsRun(more, done)
  {
    hide Do;
    more, done := systems + [Do(systems[|actions|], a).value], actions + [a];
  }

  /** A process at a step that is not completed loads the record, asks, and writes. */
  lemma AsksAndWrites(systems: seq<System>, actions: seq<Action>, p: nat, answer: Answer)
    returns (more: seq<System>, done: seq<Action>)
    requires IsRun(systems, actions)
    requires var s := systems[|actions|];
             && PlaceOf(s, p).At? && PlaceOf(s, p).step <= DECISION && s.record.Some? && s.record.value.phase == PlaceOf(s, p).step - 1
             && Answers(PlaceOf(s, p).step, answer) && Completing(s.record.value, PlaceOf(s, p).step, answer).Some?
    ensures var (s, n) := (systems[|actions|], |actions|);
            var place, next := PlaceOf(s, p), Completing(s.record.value, PlaceOf(s, p).step, answer);
            && IsRun(more, done) && actions <= done && systems <= more && |done| == n + 3
            && done[n + 2] == Write(p) && PlaceOf(more[n + 2], p) == Answered(place.step, s.record.value, answer, place.results)
            && more[n + 2].record == s.record
            && more[n + 3].record == next && more[n + 3].lock == (if InScope(next.value.workerReturn, answer) || s.lock != Some(p) then s.lock else None)
            && PlaceOf(more[n + 3], p) == if InScope(next.value.workerReturn, answer) then At(place.step + 1, Collect(place.results, answer)) else Idle
  {
    more, done := Continued(systems, actions, Load(p));
    more, done := Continued(more, done, Call(p, Some(answer)));
    hide InScope, Collect, Completing, Answers, IsRun;
    more, done := Continued(more, done, Write(p));
  }

  /** A process at a completed step loads the record and goes on. */
  lemma FindsCompleted(systems: seq<System>, actions: seq<Action>, p: nat)
    returns (more: seq<System>, done: seq<Action>)
    requires IsRun(systems, actions)
    requires var s := systems[|actions|];
             && PlaceOf(s, p).At? && PlaceOf(s, p).step <= DECISION && s.record.Some? && HasCompleted(s.record.value, PlaceOf(s, p).step)
             && Retained(s.record.value, PlaceOf(s, p).step).Some?
             && InScope(s.record.value.workerReturn, Retained(s.record.value, PlaceOf(s, p).step).value)
    ensures var (s, n) := (systems[|actions|], |actions|);
            && IsRun(more, done) && actions <= done && systems <= more && |done| == n + 1
            && more[n + 1].record == s.record && more[n + 1].lock == s.lock
            && PlaceOf(more[n + 1], p)
            == At(PlaceOf(s, p).step + 1, Collect(PlaceOf(s, p).results, Retained(s.record.value, PlaceOf(s, p).step).value))
  {
    hide Collect, Retained, InScope, HasCompleted;
    more, done := Continued(systems, actions, Load(p));
  }

  /** A first delivery of `w`, up to its proposal. */
  lemma UpToTheProposal(w: WorkerReturn) returns (systems: seq<System>, actions: seq<Action>)
    requires Sealed(w)
    ensures IsRun(systems, actions)
    ensures var s := systems[|actions|];
            && s.lock == Some(0) && PlaceOf(s, 0) == At(PROPOSAL, Results(Some(w.receiptDigest), None, None))
            && s.record == Some(Record(w, RECEIPT, Some(w.receiptDigest), None, None))
  {
    systems, actions := [START], [];
    systems, actions := Continued(systems, actions, Acquire(0));
    systems, actions := Continued(systems, actions, Begin(0, w));
    hide IsRun, Do;
    systems, actions := AsksAndWrites(systems, actions, 0, Published);
    systems, actions := AsksAndWrites(systems, actions, 0, Published);
    systems, actions := AsksAndWrites(systems, actions, 0, ReceiptStored(w.receiptDigest));
  }

  /** A first delivery of `w`, in which the authority answers the proposal with `answer`. */
  lemma FirstDelivery(w: WorkerReturn, answer: Answer) returns (systems: seq<System>, actions: seq<Action>)
    requires Sealed(w) && answer.ProposalStored? && !InScope(w, answer)
    ensures IsRun(systems, actions) && actions != [] && StoresProposal(systems, actions, |actions| - 1, 0, answer)
    ensures systems[|actions| - 1].record.Some? && systems[|actions| - 1].record.value.workerReturn == w
    ensures var s := systems[|actions|];
            && s.lock.None? && PlaceOf(s, 0) == Idle
            && s.record == Some(Record(w, PROPOSAL, Some(w.receiptDigest), None, None))
  {
    systems, actions := UpToTheProposal(w);
    hide IsRun, Do;
    systems, actions := AsksAndWrites(systems, actions, 0, answer);
  }

  /** A second delivery of the same return finds the proposal retained. */
  lemma SecondDelivery(w: WorkerReturn, before: seq<System>, done: seq<Action>) returns (systems: seq<System>, actions: seq<Action>)
    requires Sealed(w) && IsRun(before, done)
    requires var s := before[|done|];
             && s.lock.None? && PlaceOf(s, 0) == Idle
             && s.record == Some(Record(w, PROPOSAL, Some(w.receiptDigest), None, None))
    ensures IsRun(systems, actions) && done <= actions && before <= systems
    ensures var s := systems[|actions|];
            && s.record == Some(Record(w, PROPOSAL, Some(w.receiptDigest), None, None))
            && PlaceOf(s, 0) == At(SUBSCRIPTION, Results(Some(w.receiptDigest), None, None))
  {
    systems, actions := Continued(before, done, Acquire(0));
    systems, actions := Continued(systems, actions, Begin(0, w));
    hide IsRun, Do;
    systems, actions := FindsCompleted(systems, actions, 0);
    systems, actions := FindsCompleted(systems, actions, 0);
    systems, actions := FindsCompleted(systems, actions, 0);
    systems, actions := FindsCompleted(systems, actions, 0);
  }

  /** Past the proposal, the decision is subscribed to, observed and returned. */
  lemma RunsToTheEnd(before: seq<System>, done: seq<Action>, r: Record, results: Results)
    returns (systems: seq<System>, actions: seq<Action>)
    requires IsRun(before, done) && before[|done|].record == Some(r) && r.phase == PROPOSAL
    requires PlaceOf(before[|done|], 0) == At(SUBSCRIPTION, results) && results.receiptDigest.Some?
    ensures IsRun(systems, actions) && done <= actions && before <= systems && PlaceOf(systems[|actions|], 0).Finished?
  {
    hide IsRun, Do;
    systems, actions := AsksAndWrites(before, done, 0, Subscribed("token"));
    systems, actions := AsksAndWrites(systems, actions, 0, Decided("token", "accepted"));
    systems, actions := Finishes(systems, actions);
  }

  lemma Finishes(before: seq<System>, done: seq<Action>) returns (systems: seq<System>, actions: seq<Action>)
    requires IsRun(before, done)
    requires var s := before[|done|];
             && PlaceOf(s, 0).At? && PlaceOf(s, 0).step == DECISION + 1 && s.record.Some? && s.record.value.phase == DECISION
             && PlaceOf(s, 0).results.receiptDigest.Some? && PlaceOf(s, 0).results.observed.Some?
    ensures IsRun(systems, actions) && done <= actions && before <= systems && PlaceOf(systems[|actions|], 0).Finished?
  {
    systems, actions := Continued(before, done, Finish(0));
  }

  /**
   * Every return has a run in which the authority answers its proposal with a different one and a
   * delivery finishes all the same.
   */
  lemma SubstitutedAndFinished(w: WorkerReturn, answer: Answer) returns (systems: seq<System>, actions: seq<Action>, i: nat)
    requires Sealed(w) && answer.ProposalStored? && !InScope(w, answer)
    ensures IsRun(systems, actions) && i < |actions| && StoresProposal(systems, actions, i, 0, answer)
    ensures systems[i].record.Some? && !InScope(systems[i].record.value.workerReturn, answer)
    ensures PlaceOf(systems[|actions|], 0).Finished?
  {
    var before, done := FirstDelivery(w, answer);
    hide IsRun, Do, InScope;
    i := |done| - 1;
    systems, actions := SecondDelivery(w, before, done);
    systems, actions := RunsToTheEnd(systems, actions, Record(w, PROPOSAL, Some(w.receiptDigest), None, None),
                                     Results(Some(w.receiptDigest), None, None));
    RunLength(before, done);
    RunLength(systems, actions);
    assert systems[i] == before[i] && actions[i] == done[i];
  }

  lemma RunLength(systems: seq<System>, actions: seq<Action>)
    requires IsRun(systems, actions)
    ensures |systems| == |actions| + 1
  {
  }
}
