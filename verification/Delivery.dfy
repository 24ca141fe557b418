/** Delivery of a worker's return: six remote steps over a retained record, and crashes anywhere
    (packages/adapter-kit/src/index.ts and adapters/pi/src/index.ts). */
module Delivery {
  import opened Wrappers

  // ----- The retained record -----

  datatype DecisionResume = DecisionResume(proposalId: string, proposalDigest: string, subscriptionId: string, resumeToken: Option<string>)

  datatype WorkerReturn = WorkerReturn(receiptDigest: string, artifactDigest: string, evidenceDigest: string,
                                       proposalId: string, proposalDigest: string, decisionResume: DecisionResume)

  /**
   * The phases of a record: 0 prepared, 1 and 2 the two publications, 3 the receipt, 4 the proposal,
   * 5 the decision subscription, 6 the decision.  Step `k` of a delivery completes phase `k`.
   */
  const PREPARED := 0
  const RECEIPT := 3
  const PROPOSAL := 4
  const SUBSCRIPTION := 5
  const DECISION := 6

  datatype Record = Record(workerReturn: WorkerReturn, phase: int, receiptDigest: Option<string>,
                           resumeToken: Option<string>, decision: Option<string>)

  /** What a remote call answers. */
  datatype Answer =
    | Published
    | ReceiptStored(receiptDigest: string)
    | ProposalStored(proposalId: string, proposalDigest: string)
    | Subscribed(resumeToken: string)
    | Decided(resumeToken: string, decision: string)

  predicate Answers(step: int, a: Answer) {
    if step == RECEIPT then a.ReceiptStored?
    else if step == PROPOSAL then a.ProposalStored?
    else if step == SUBSCRIPTION then a.Subscribed?
    else if step == DECISION then a.Decided?
    else a.Published?
  }

  function WithToken(w: WorkerReturn, token: string): WorkerReturn {
    w.(decisionResume := w.decisionResume.(resumeToken := Some(token)))
  }

  /** The record that `perform` writes after a step, or nothing if it throws. */
  function Completing(r: Record, step: int, a: Answer): Option<Record>
    requires Answers(step, a)
  {
    if step == RECEIPT then Some(r.(phase := step, receiptDigest := Some(a.receiptDigest)))
    else if step == SUBSCRIPTION then
      if a.resumeToken == "" then None
      else Some(r.(phase := step, resumeToken := Some(a.resumeToken), workerReturn := WithToken(r.workerReturn, a.resumeToken)))
    else if step == DECISION then
      if r.resumeToken.None? || a.resumeToken == "" then None
      else Some(r.(phase := step, resumeToken := Some(a.resumeToken), decision := Some(a.decision),
                   workerReturn := WithToken(r.workerReturn, a.resumeToken)))
    else Some(r.(phase := step))
  }

  /** `completed`: the answer a record retains for a step, or nothing if it throws. */
  function Retained(r: Record, step: int): Option<Answer> {
    if step == RECEIPT then if r.receiptDigest.None? then None else Some(ReceiptStored(r.receiptDigest.value))
    else if step == PROPOSAL then Some(ProposalStored(r.workerReturn.proposalId, r.workerReturn.proposalDigest))
    else if step == SUBSCRIPTION then if r.resumeToken.None? then None else Some(Subscribed(r.resumeToken.value))
    else if step == DECISION then
      if r.resumeToken.None? || r.decision.None? then None else Some(Decided(r.resumeToken.value, r.decision.value))
    else Some(Published)
  }

  predicate HasCompleted(r: Record, step: int) {
    r.phase >= step
  }

  /** What a delivery has collected: the receipt digest, the subscription's token and the decision. */
  datatype Results = Results(receiptDigest: Option<string>, token: Option<string>, observed: Option<(string, string)>)

  function Collect(r: Results, a: Answer): Results {
    match a
    case ReceiptStored(d) => r.(receiptDigest := Some(d))
    case Subscribed(token) => r.(token := Some(token))
    case Decided(token, decision) => r.(observed := Some((token, decision)))
    case _ => r
  }

  /** The answer to the proposal names the proposal that the decision resumes; other answers always fit. */
  predicate InScope(w: WorkerReturn, a: Answer) {
    a.ProposalStored? ==> a.proposalId == w.decisionResume.proposalId && a.proposalDigest == w.decisionResume.proposalDigest
  }

  datatype Returned = Returned(receiptDigest: string, decision: string, resumeToken: string, workerReturn: WorkerReturn)

  // ----- Processes -----

  /** Where a process is in `deliver`. */
  datatype Place =
    | Idle
    | Entered
    | At(step: int, results: Results)
    | Calling(step: int, loaded: Record, results: Results)
    | Answered(step: int, loaded: Record, answer: Answer, results: Results)
    | Stuck
    | Finished(returned: Returned)

  /** What happened outside the processes: writes of the record and calls of delivery steps. */
  datatype Event = Wrote(phase: int) | Called(step: int, token: Option<string>)

  datatype System = System(record: Option<Record>, lock: Option<nat>, places: map<nat, Place>, trace: seq<Event>)

  const START := System(None, None, map[], [])

  function PlaceOf(s: System, p: nat): Place {
    if p in s.places then s.places[p] else Idle
  }

  datatype Action =
    | Acquire(p: nat)
    | Begin(p: nat, sealed: WorkerReturn)
    | Load(p: nat)
    | Call(p: nat, answer: Option<Answer>)
    | Write(p: nat)
    | Finish(p: nat)
    | Crash(p: nat)

  function Go(s: System, p: nat, place: Place): System {
    s.(places := s.places[p := place])
  }

  /** The process leaves `runExclusive`: the lock is free again. */
  function Leave(s: System, p: nat, place: Place): System {
    Go(s, p, place).(lock := if s.lock == Some(p) then None else s.lock)
  }

  /** A sealed return: its decision is that of its proposal, and no token was issued yet. */
  predicate Sealed(w: WorkerReturn) {
    w.decisionResume.proposalId == w.proposalId && w.decisionResume.proposalDigest == w.proposalDigest && w.decisionResume.resumeToken.None?
  }

  predicate SameTuple(w: WorkerReturn, sealed: WorkerReturn) {
    w.receiptDigest == sealed.receiptDigest && w.artifactDigest == sealed.artifactDigest && w.evidenceDigest == sealed.evidenceDigest
  }

  /** After a step: on to the next one, unless the proposal is not the one the decision resumes. */
  function Onward(s: System, p: nat, step: int, w: WorkerReturn, a: Answer, results: Results): System {
    if InScope(w, a) then Go(s, p, At(step + 1, Collect(results, a))) else Leave(s, p, Idle)
  }

  /** One action, if it is possible; a process that meets an impossible error gets stuck. */
  function Do(s: System, a: Action): Option<System> {
    match a
    case Acquire(p) =>
      if s.lock.None? && (PlaceOf(s, p).Idle? || PlaceOf(s, p).Finished?) then Some(Go(s, p, Entered).(lock := Some(p))) else None
    case Begin(p, sealed) =>
      if !PlaceOf(s, p).Entered? || !Sealed(sealed) then None
      else if s.record.None? then
        Some(Go(s, p, At(1, Results(None, None, None))).(record := Some(Record(sealed, PREPARED, None, None, None)), trace := s.trace + [Wrote(PREPARED)]))
      else if SameTuple(s.record.value.workerReturn, sealed) then Some(Go(s, p, At(1, Results(None, None, None))))
      else Some(Leave(s, p, Idle))
    case Load(p) =>
      var place := PlaceOf(s, p);
      if !place.At? || place.step > DECISION then None
      else if s.record.None? then Some(Go(s, p, Stuck))
      else
        var r := s.record.value;
        if !HasCompleted(r, place.step) then Some(Go(s, p, Calling(place.step, r, place.results)))
        else if Retained(r, place.step).None? then Some(Go(s, p, Stuck))
        else Some(Onward(s, p, place.step, r.workerReturn, Retained(r, place.step).value, place.results))
    case Call(p, answer) =>
      var place := PlaceOf(s, p);
      if !place.Calling? || (answer.Some? && !Answers(place.step, answer.value)) then None
      else
        var called := s.(trace := s.trace + [Called(place.step, if place.step == DECISION then place.results.token else None)]);
        Some(if answer.None? then Leave(called, p, Idle) else Go(called, p, Answered(place.step, place.loaded, answer.value, place.results)))
    case Write(p) =>
      var place := PlaceOf(s, p);
      if !place.Answered? || !Answers(place.step, place.answer) then None
      else
        var next := Completing(place.loaded, place.step, place.answer);
        if next.None? then Some(Leave(s, p, Idle))
        else if s.record.None? || s.record.value.phase != place.loaded.phase then Some(Go(s, p, Stuck))
        else
          var written := s.(record := next, trace := s.trace + [Wrote(place.step)]);
          Some(Onward(written, p, place.step, next.value.workerReturn, place.answer, place.results))
    case Finish(p) =>
      var place := PlaceOf(s, p);
      if !place.At? || place.step <= DECISION then None
      else if s.record.None? || s.record.value.phase != DECISION || place.results.receiptDigest.None? || place.results.observed.None? then Some(Go(s, p, Stuck))
      else
        var (token, decision) := place.results.observed.value;
        Some(Leave(s, p, Finished(Returned(place.results.receiptDigest.value, decision, token, s.record.value.workerReturn))))
    case Crash(p) =>
      if PlaceOf(s, p).Idle? || PlaceOf(s, p).Finished? then None else Some(Leave(s, p, Idle))
  }

  // ----- What every run keeps -----

  /** The last phase that was written, -1 before the first. */
  function PhaseOf(trace: seq<Event>): int {
    if trace == [] then -1
    else
      match trace[|trace| - 1]
      case Wrote(phase) => phase
      case Called(_, _) => PhaseOf(trace[..|trace| - 1])
  }

  /** A legal trace calls only the step after the last phase written, and writes a phase only right after its call. */
  predicate Legal(trace: seq<Event>) {
    trace == [] ||
    (var front := trace[..|trace| - 1];
     && Legal(front)
     && match trace[|trace| - 1]
        case Wrote(phase) =>
          phase == PhaseOf(front) + 1 && phase <= DECISION && (phase > PREPARED ==> EndsWithCall(front, phase))
        case Called(step, _) => step == PhaseOf(front) + 1 && PREPARED < step <= DECISION)
  }

  predicate EndsWithCall(trace: seq<Event>, step: int) {
    trace != [] && trace[|trace| - 1].Called? && trace[|trace| - 1].step == step
  }

  /** The record holds what its phase promises. */
  predicate RecordInv(r: Record) {
    && PREPARED <= r.phase <= DECISION
    && (r.phase >= RECEIPT ==> r.receiptDigest.Some?)
    && (r.phase >= SUBSCRIPTION ==> r.resumeToken.Some? && r.resumeToken.value != "" && r.workerReturn.decisionResume.resumeToken == r.resumeToken)
    && (r.phase >= DECISION ==> r.decision.Some?)
    && r.workerReturn.decisionResume.proposalId == r.workerReturn.proposalId
    && r.workerReturn.decisionResume.proposalDigest == r.workerReturn.proposalDigest
  }

  /** Before step `k` a delivery has collected what the record retains of the earlier steps. */
  predicate ResultsMatch(r: Record, step: int, results: Results) {
    && 1 <= step <= r.phase + 1
    && (step > RECEIPT ==> results.receiptDigest == r.receiptDigest)
    && (step == DECISION ==> results.token == r.resumeToken)
    && (step > DECISION ==> r.resumeToken.Some? && r.decision.Some? && results.observed == Some((r.resumeToken.value, r.decision.value)))
  }

  predicate PlaceInv(place: Place, record: Option<Record>, trace: seq<Event>) {
    match place
    case Idle => true
    case Entered => true
    case At(step, results) => record.Some? && ResultsMatch(record.value, step, results)
    case Calling(step, loaded, results) => record == Some(loaded) && step == loaded.phase + 1 <= DECISION && ResultsMatch(loaded, step, results)
    case Answered(step, loaded, answer, results) =>
      && record == Some(loaded) && step == loaded.phase + 1 <= DECISION && ResultsMatch(loaded, step, results)
      && Answers(step, answer) && EndsWithCall(trace, step)
    case Stuck => false
    case Finished(returned) => record.Some? && Persisted(record.value, returned)
  }

  /** The result of a delivery is what the decided record says. */
  predicate Persisted(r: Record, returned: Returned) {
    && r.phase == DECISION
    && r.receiptDigest == Some(returned.receiptDigest) && r.decision == Some(returned.decision) && r.resumeToken == Some(returned.resumeToken)
    && r.workerReturn == returned.workerReturn
  }

  predicate Outside(place: Place) {
    place.Idle? || place.Finished?
  }

  predicate SystemInv(s: System) {
    && Legal(s.trace)
    && (s.record.None? ==> PhaseOf(s.trace) == -1)
    && (s.record.Some? ==> RecordInv(s.record.value) && PhaseOf(s.trace) == s.record.value.phase)
    && (forall p :: p in s.places ==> PlaceInv(s.places[p], s.record, s.trace))
    && (forall p :: p in s.places && !Outside(s.places[p]) ==> s.lock == Some(p))
  }

  lemma OneMoreEvent(trace: seq<Event>, e: Event)
    ensures (trace + [e])[..|trace|] == trace && (trace + [e])[|trace|] == e
    ensures PhaseOf(trace + [e]) == if e.Wrote? then e.phase else PhaseOf(trace)
    ensures e.Called? ==> EndsWithCall(trace + [e], e.step)
    ensures Legal(trace + [e]) <==>
            && Legal(trace)
            && (e.Wrote? ==> e.phase == PhaseOf(trace) + 1 && e.phase <= DECISION && (e.phase > PREPARED ==> EndsWithCall(trace, e.phase)))
            && (e.Called? ==> e.step == PhaseOf(trace) + 1 && PREPARED < e.step <= DECISION)
  {
    assert (trace + [e])[..|trace|] == trace;
  }

  /** Only the holder of the lock can be inside, so the others do not notice what it does. */
  lemma OthersUnmoved(s: System, t: System, p: nat)
    requires SystemInv(s) && s.lock == Some(p)
    requires t.places == s.places[p := PlaceOf(t, p)] && (t.lock == s.lock || (t.lock.None? && Outside(PlaceOf(t, p))))
    requires Legal(t.trace)
    requires t.record.None? ==> PhaseOf(t.trace) == -1
    requires t.record.Some? ==> RecordInv(t.record.value) && PhaseOf(t.trace) == t.record.value.phase
    requires PlaceInv(PlaceOf(t, p), t.record, t.trace)
    requires s.record.Some? && s.record.value.phase == DECISION ==> t.record == s.record
    ensures SystemInv(t)
  {
    hide Legal, PhaseOf, RecordInv, ResultsMatch;
    forall q | q in t.places ensures PlaceInv(t.places[q], t.record, t.trace) {
      if q != p {
        assert Outside(s.places[q]);
        assert PlaceInv(s.places[q], s.record, s.trace);
      }
    }
  }

  lemma HoldsLock(s: System, p: nat)
    requires SystemInv(s) && !Outside(PlaceOf(s, p))
    ensures s.lock == Some(p) && PlaceInv(PlaceOf(s, p), s.record, s.trace)
  {
  }

  /** A step completed in the record gives the answer that was retained. */
  lemma RetainedAnswer(r: Record, step: int, results: Results)
    requires RecordInv(r) && ResultsMatch(r, step, results) && HasCompleted(r, step) && step <= DECISION
    ensures Retained(r, step).Some? && InScope(r.workerReturn, Retained(r, step).value)
    ensures ResultsMatch(r, step + 1, Collect(results, Retained(r, step).value))
  {
  }

  /** Completing the next step keeps the record in order. */
  lemma CompletedRecord(r: Record, step: int, a: Answer, results: Results)
    requires RecordInv(r) && ResultsMatch(r, step, results) && step == r.phase + 1 <= DECISION && Answers(step, a)
    requires Completing(r, step, a).Some?
    ensures RecordInv(Completing(r, step, a).value) && Completing(r, step, a).value.phase == step
    ensures ResultsMatch(Completing(r, step, a).value, step + 1, Collect(results, a))
  {
  }

  lemma AcquireKeeps(s: System, p: nat)
    requires SystemInv(s) && Do(s, Acquire(p)).Some?
    ensures SystemInv(Do(s, Acquire(p)).value)
  {
    hide Legal, PhaseOf, RecordInv, ResultsMatch;
  }

  lemma BeginKeeps(s: System, p: nat, sealed: WorkerReturn)
    requires SystemInv(s) && Do(s, Begin(p, sealed)).Some?
    ensures SystemInv(Do(s, Begin(p, sealed)).value)
  {
    HoldsLock(s, p);
    OneMoreEvent(s.trace, Wrote(PREPARED));
    var t := Do(s, Begin(p, sealed)).value;
    assert t.record.Some? ==> RecordInv(t.record.value);
    hide SystemInv, Legal, PhaseOf;
    OthersUnmoved(s, t, p);
  }

  lemma LoadKeeps(s: System, p: nat)
    requires SystemInv(s) && Do(s, Load(p)).Some?
    ensures SystemInv(Do(s, Load(p)).value)
  {
    HoldsLock(s, p);
    var place, t := PlaceOf(s, p), Do(s, Load(p)).value;
    if HasCompleted(s.record.value, place.step) {
      RetainedAnswer(s.record.value, place.step, place.results);
    }
    hide SystemInv, Legal, PhaseOf, RecordInv, Retained, InScope, Collect;
    OthersUnmoved(s, t, p);
  }

  lemma CallKeeps(s: System, p: nat, answer: Option<Answer>)
    requires SystemInv(s) && Do(s, Call(p, answer)).Some?
    ensures SystemInv(Do(s, Call(p, answer)).value)
  {
    HoldsLock(s, p);
    var place, t := PlaceOf(s, p), Do(s, Call(p, answer)).value;
    OneMoreEvent(s.trace, Called(place.step, if place.step == DECISION then place.results.token else None));
    assert RecordInv(s.record.value);
    hide SystemInv, Legal, PhaseOf, EndsWithCall, ResultsMatch, Answers;
    OthersUnmoved(s, t, p);
  }

  lemma WriteKeeps(s: System, p: nat)
    requires SystemInv(s) && Do(s, Write(p)).Some?
    ensures SystemInv(Do(s, Write(p)).value)
  {
    HoldsLock(s, p);
    var place, t := PlaceOf(s, p), Do(s, Write(p)).value;
    OneMoreEvent(s.trace, Wrote(place.step));
    if Completing(place.loaded, place.step, place.answer).Some? {
      CompletedRecord(place.loaded, place.step, place.answer, place.results);
    }
    hide SystemInv, Legal, PhaseOf, RecordInv, ResultsMatch, Completing, InScope, Collect, EndsWithCall, Answers;
    OthersUnmoved(s, t, p);
  }

  lemma LeaveKeeps(s: System, p: nat, place: Place)
    requires SystemInv(s) && !Outside(PlaceOf(s, p)) && Outside(place) && PlaceInv(place, s.record, s.trace)
    ensures SystemInv(Leave(s, p, place))
  {
    HoldsLock(s, p);
    var t := Leave(s, p, place);
    hide Legal, PhaseOf, RecordInv, PlaceInv;
    OthersUnmoved(s, t, p);
  }

  lemma DoKeeps(s: System, a: Action)
    requires SystemInv(s) && Do(s, a).Some?
    ensures SystemInv(Do(s, a).value)
  {
    hide SystemInv, Do;
    match a
    case Acquire(p) => AcquireKeeps(s, p);
    case Begin(p, sealed) => BeginKeeps(s, p, sealed);
    case Load(p) => LoadKeeps(s, p);
    case Call(p, answer) => CallKeeps(s, p, answer);
    case Write(p) => WriteKeeps(s, p);
    case Finish(p) => FinishKeeps(s, p);
    case Crash(p) => CrashKeeps(s, p);
  }

  lemma FinishKeeps(s: System, p: nat)
    requires SystemInv(s) && Do(s, Finish(p)).Some?
    ensures SystemInv(Do(s, Finish(p)).value)
  {
    HoldsLock(s, p);
    assert RecordInv(s.record.value);
    hide SystemInv, Legal, PhaseOf;
    var t := Do(s, Finish(p)).value;
    LeaveKeeps(s, p, PlaceOf(t, p));
  }

  lemma CrashKeeps(s: System, p: nat)
    requires SystemInv(s) && Do(s, Crash(p)).Some?
    ensures SystemInv(Do(s, Crash(p)).value)
  {
    hide SystemInv;
    LeaveKeeps(s, p, Idle);
  }

  // ----- Whole runs -----

  /** The systems a run goes through; any number of processes may deliver and crash between any two actions. */
  predicate IsRun(systems: seq<System>, actions: seq<Action>) {
    && |systems| == |actions| + 1 && systems[0] == START
    && forall i :: 0 <= i < |actions| ==> Do(systems[i], actions[i]) == Some(systems[i + 1])
  }

  lemma {:induction false} RunInv(systems: seq<System>, actions: seq<Action>, i: nat)
    requires IsRun(systems, actions) && i < |systems|
    ensures SystemInv(systems[i])
  {
    hide Do;
    if i > 0 {
      RunInv(systems, actions, i - 1);
      hide SystemInv;
      DoKeeps(systems[i - 1], actions[i - 1]);
    }
  }

  /** No process is ever stuck: the compare-and-set never conflicts and every retained value is there. */
  lemma NeverStuck(systems: seq<System>, actions: seq<Action>, i: nat, p: nat)
    requires IsRun(systems, actions) && i < |systems|
    ensures !PlaceOf(systems[i], p).Stuck?
    ensures PlaceOf(systems[i], p).Answered? ==> systems[i].record == Some(PlaceOf(systems[i], p).loaded)
  {
    RunInv(systems, actions, i);
    hide Do;
    assert p in systems[i].places ==> PlaceInv(systems[i].places[p], systems[i].record, systems[i].trace);
  }

  /** The phases written before a place of the trace. */
  function Writes(trace: seq<Event>): seq<int> {
    if trace == [] then []
    else
      match trace[|trace| - 1]
      case Wrote(phase) => Writes(trace[..|trace| - 1]) + [phase]
      case Called(_, _) => Writes(trace[..|trace| - 1])
  }

  lemma {:induction false} LegalWrites(trace: seq<Event>)
    requires Legal(trace)
    ensures |Writes(trace)| == PhaseOf(trace) + 1 && forall k :: 0 <= k < |Writes(trace)| ==> Writes(trace)[k] == k
  {
    if trace != [] {
      LegalWrites(trace[..|trace| - 1]);
    }
  }

  lemma {:induction false} LegalPrefix(trace: seq<Event>, i: nat)
    requires Legal(trace) && i <= |trace|
    ensures Legal(trace[..i]) && PhaseOf(trace[..i]) <= PhaseOf(trace)
    decreases |trace|
  {
    if i == |trace| {
      assert trace[..i] == trace;
    } else {
      var front := trace[..|trace| - 1];
      assert front[..i] == trace[..i];
      LegalPrefix(front, i);
    }
  }

  /** Each event of a legal trace fits what was written before it. */
  lemma LegalEvent(trace: seq<Event>, i: nat)
    requires Legal(trace) && i < |trace|
    ensures trace[i].Called? ==> trace[i].step == PhaseOf(trace[..i]) + 1
    ensures trace[i].Wrote? ==> trace[i].phase == PhaseOf(trace[..i]) + 1 == PhaseOf(trace[..i + 1])
    ensures trace[i].Wrote? && trace[i].phase > PREPARED ==> EndsWithCall(trace[..i], trace[i].phase)
  {
    LegalPrefix(trace, i + 1);
    assert trace[..i + 1][..i] == trace[..i];
  }

  /**
   * Over any run: the persisted phases are 0, 1, 2 and so on, one per write; a phase is written only
   * right after its step was called; and a step is called only while the phase before it is the last
   * one written, so the calls keep their order and none is repeated once its completion is persisted.
   */
  lemma DeliveryOrder(systems: seq<System>, actions: seq<Action>, n: nat, i: nat, j: nat)
    requires IsRun(systems, actions) && n < |systems| && i < j < |systems[n].trace|
    ensures var trace := systems[n].trace;
            && (forall k :: 0 <= k < |Writes(trace)| ==> Writes(trace)[k] == k)
            && (trace[i].Wrote? && trace[j].Called? ==> trace[i].phase < trace[j].step)
            && (trace[i].Called? && trace[j].Called? ==> trace[i].step <= trace[j].step)
            && (trace[j].Wrote? && trace[j].phase > PREPARED ==> EndsWithCall(trace[..j], trace[j].phase))
  {
    RunInv(systems, actions, n);
    var trace := systems[n].trace;
    hide Do, SystemInv;
    assert Legal(trace) by { LegalOf(systems[n]); }
    LegalWrites(trace);
    LegalEvent(trace, i);
    LegalEvent(trace, j);
    LegalPrefix(trace, j);
    assert trace[..j][..i] == trace[..i] && trace[..j][..i + 1] == trace[..i + 1];
    hide Legal, PhaseOf;
    LegalPrefix(trace[..j], i);
    LegalPrefix(trace[..j], i + 1);
  }

  lemma LegalOf(s: System)
    requires SystemInv(s)
    ensures Legal(s.trace)
  {
  }

  /** Once the decision is persisted, no step is called and nothing is written again. */
  lemma {:induction false} DecidedIsFinal(systems: seq<System>, actions: seq<Action>, i: nat, j: nat)
    requires IsRun(systems, actions) && i <= j < |systems|
    requires systems[i].record.Some? && systems[i].record.value.phase == DECISION
    ensures systems[j].record == systems[i].record && systems[j].trace == systems[i].trace
    decreases j
  {
    hide Do, SystemInv, SameReturn;
    if i < j {
      DecidedIsFinal(systems, actions, i, j - 1);
      RunInv(systems, actions, j - 1);
      hide IsRun;
      RunStep(systems, actions, j - 1);
      DecidedStays(systems[j - 1], actions[j - 1]);
    }
  }

  lemma RunStep(systems: seq<System>, actions: seq<Action>, i: nat)
    requires IsRun(systems, actions) && i < |actions|
    ensures Do(systems[i], actions[i]) == Some(systems[i + 1])
  {
    hide Do;
  }

  lemma DecidedStays(s: System, a: Action)
    requires SystemInv(s) && s.record.Some? && s.record.value.phase == DECISION && Do(s, a).Some?
    ensures Do(s, a).value.record == s.record && Do(s, a).value.trace == s.trace
  {
    hide Legal, PhaseOf, RecordInv, Retained, InScope, Collect, Completing, Answers;
    assert a.p in s.places ==> PlaceInv(s.places[a.p], s.record, s.trace);
  }

  /** Every finished delivery returned what the decided record says, so any two returned the same. */
  lemma FinishedReturnsPersisted(systems: seq<System>, actions: seq<Action>, i: nat, p: nat, j: nat, q: nat)
    requires IsRun(systems, actions) && i <= j < |systems|
    requires PlaceOf(systems[i], p).Finished? && PlaceOf(systems[j], q).Finished?
    ensures systems[i].record.Some? && Persisted(systems[i].record.value, PlaceOf(systems[i], p).returned)
    ensures systems[j].record == systems[i].record
    ensures PlaceOf(systems[i], p).returned == PlaceOf(systems[j], q).returned
  {
    RunInv(systems, actions, i);
    RunInv(systems, actions, j);
    assert PlaceInv(systems[i].places[p], systems[i].record, systems[i].trace);
    assert PlaceInv(systems[j].places[q], systems[j].record, systems[j].trace);
    hide IsRun, SystemInv;
    DecidedIsFinal(systems, actions, i, j);
  }

  /** What was sealed at creation is what every later record carries; only the resume token is filled in. */
  predicate SameReturn(w: WorkerReturn, v: WorkerReturn) {
    v == w.(decisionResume := w.decisionResume.(resumeToken := v.decisionResume.resumeToken))
  }

  lemma SameReturnTransitive(u: WorkerReturn, v: WorkerReturn, w: WorkerReturn)
    requires SameReturn(u, v) && SameReturn(v, w)
    ensures SameReturn(u, w)
  {
  }

  lemma {:induction false} SealedReturnStays(systems: seq<System>, actions: seq<Action>, i: nat, j: nat)
    requires IsRun(systems, actions) && i <= j < |systems| && systems[i].record.Some?
    ensures systems[j].record.Some? && SameReturn(systems[i].record.value.workerReturn, systems[j].record.value.workerReturn)
    decreases j
  {
    assert i == j ==> SameReturn(systems[i].record.value.workerReturn, systems[j].record.value.workerReturn);
    hide Do, SystemInv, SameReturn;
    if i < j {
      SealedReturnStays(systems, actions, i, j - 1);
      RunInv(systems, actions, j - 1);
      hide IsRun;
      RunStep(systems, actions, j - 1);
      ReturnStays(systems[j - 1], actions[j - 1]);
      SameReturnTransitive(systems[i].record.value.workerReturn, systems[j - 1].record.value.workerReturn, systems[j].record.value.workerReturn);
    }
  }

  lemma ReturnStays(s: System, a: Action)
    requires SystemInv(s) && s.record.Some? && Do(s, a).Some?
    ensures Do(s, a).value.record.Some? && SameReturn(s.record.value.workerReturn, Do(s, a).value.record.value.workerReturn)
  {
    hide Legal, PhaseOf, RecordInv, Retained, InScope, Collect, Answers;
    assert a.p in s.places ==> PlaceInv(s.places[a.p], s.record, s.trace);
  }
}
