/** One delivery as the adapter runs it, step by step on the retained record
    (packages/adapter-kit/src/index.ts and adapters/pi/src/index.ts). */
module DeliveryRuntime {
  import opened Wrappers
  import opened Delivery

  /** The client of the authority: what it answers to each step, if it answers, and the steps it was asked. */
  class Client {
    const answers: int -> Option<Answer>
    var calls: seq<int>

    constructor (answers: int -> Option<Answer>)
      ensures this.answers == answers && calls == []
    {
      this.answers := answers;
      calls := [];
    }

    method Ask(step: int) returns (r: Option<Answer>)
      modifies this
      ensures calls == old(calls) + [step] && r == answers(step)
    {
      calls := calls + [step];
      r := answers(step);
    }
  }

  /** The client answers each step with the kind of answer the step has. */
  ghost predicate Typed(answers: int -> Option<Answer>) {
    forall k, a :: answers(k) == Some(a) ==> Answers(k, a)
  }

  /** What `perform` leaves: the record, the answer if it does not throw, and whether the client was asked. */
  function Performed(r: Record, step: int, answer: Option<Answer>): (Record, Option<Answer>, bool)
    requires answer.Some? ==> Answers(step, answer.value)
  {
    if HasCompleted(r, step) then (r, Retained(r, step), false)
    else if answer.None? || Completing(r, step, answer.value).None? then (r, None, true)
    else (Completing(r, step, answer.value).value, answer, true)
  }

  /** The steps from one to another. */
  function Steps(first: int, last: int): (r: seq<int>)
    ensures |r| == if last < first then 0 else last - first + 1
    ensures forall i :: 0 <= i < |r| ==> r[i] == first + i
    decreases last - first
  {
    if last < first then [] else [first] + Steps(first + 1, last)
  }

  /** The client answers the step so that the delivery goes on. */
  predicate Satisfies(answers: int -> Option<Answer>, step: int, w: WorkerReturn) {
    && answers(step).Some? && Answers(step, answers(step).value) && InScope(w, answers(step).value)
    && (step == SUBSCRIPTION || step == DECISION ==> answers(step).value.resumeToken != "")
  }

  /** The phase a delivery starts from. */
  function StartPhase(record: Option<Record>): int {
    if record.None? then PREPARED else record.value.phase
  }

  /** The delivery may start: there is no record yet, or it is of the same return. */
  predicate MayStart(record: Option<Record>, sealed: WorkerReturn) {
    record.Some? ==>
      && record.value.workerReturn.receiptDigest == sealed.receiptDigest
      && record.value.workerReturn.artifactDigest == sealed.artifactDigest
      && record.value.workerReturn.evidenceDigest == sealed.evidenceDigest
  }

  function ReturnOf(record: Option<Record>, sealed: WorkerReturn): WorkerReturn {
    if record.None? then sealed else record.value.workerReturn
  }

  /** Every step after a phase is answered so that the delivery goes on. */
  ghost predicate ClientServes(answers: int -> Option<Answer>, start: int, w: WorkerReturn) {
    forall step :: start < step <= DECISION ==> Satisfies(answers, step, w)
  }

  /**
   * The delivery failed at the first step that the client does not satisfy.  That step is not
   * persisted, except that a proposal is once it is answered: the answer is compared afterwards.
   */
  ghost predicate FailedAt(answers: int -> Option<Answer>, start: int, w: WorkerReturn, before: seq<int>, calls: seq<int>,
                           record: Option<Record>, last: int) {
    && start < last <= DECISION
    && (forall k :: start < k < last ==> Satisfies(answers, k, w)) && !Satisfies(answers, last, w)
    && calls == before + Steps(start + 1, last)
    && record.Some? && SameReturn(w, record.value.workerReturn)
    && record.value.phase == if last == PROPOSAL && answers(last).Some? then last else last - 1
  }

  /** A delivery of the return `w` that started in phase `start` is about to perform a step. */
  ghost predicate Underway(answers: int -> Option<Answer>, w: WorkerReturn, start: int, before: seq<int>,
                           r: Record, calls: seq<int>, step: int, results: Results) {
    && 1 <= step <= DECISION + 1
    && RecordInv(r) && ResultsMatch(r, step, results)
    && r.phase == (if step - 1 <= start then start else step - 1)
    && calls == before + Steps(start + 1, step - 1)
    && SameReturn(w, r.workerReturn)
    && (forall k :: start < k < step ==> Satisfies(answers, k, w))
  }

  class RetainedDelivery {
    const client: Client
    var record: Option<Record>

    constructor (client: Client, record: Option<Record>)
      ensures this.client == client && this.record == record
    {
      this.client := client;
      this.record := record;
    }

    ghost predicate Valid()
      reads this
    {
      (record.Some? ==> RecordInv(record.value)) && Typed(client.answers)
    }

    /** The store's `compareAndSet`. */
    method CompareAndSet(expectedPhase: int, next: Record) returns (ok: bool)
      modifies this
      ensures ok == (old(record).Some? && old(record).value.phase == expectedPhase)
      ensures record == if ok then Some(next) else old(record)
    {
      ok := record.Some? && record.value.phase == expectedPhase;
      if ok {
        record := Some(next);
      }
    }

    /** `perform`. */
    method Perform(step: int) returns (r: Option<Answer>)
      requires record.Some? && Typed(client.answers)
      modifies this, client
      ensures var (next, answer, asked) := Performed(old(record).value, step, client.answers(step));
              && record == Some(next) && r == answer
              && client.calls == old(client.calls) + (if asked then [step] else [])
    {
      var loaded := record.value;
      if HasCompleted(loaded, step) {
        return Retained(loaded, step);
      }
      var result := client.Ask(step);
      if result.None? {
        return None;
      }
      var next := Completing(loaded, step, result.value);
      if next.None? {
        return None;
      }
      var ok := CompareAndSet(loaded.phase, next.value);
      if !ok {
        return None;
      }
      r := result;
    }

    /**
     * One delivery under the lock.  It asks the client exactly the steps that are not retained, in
     * order, up to the first that fails, and tells from the record how far it came; it succeeds
     * exactly when none fails, and then returns what the decided record says.
     */
    method Deliver(sealed: WorkerReturn) returns (r: Option<Returned>)
      requires Valid() && Sealed(sealed)
      modifies this, client
      ensures Valid()
      ensures r.Some? <==> MayStart(old(record), sealed)
                           && ClientServes(client.answers, StartPhase(old(record)), ReturnOf(old(record), sealed))
      ensures r.Some? ==> record.Some? && Persisted(record.value, r.value)
                          && client.calls == old(client.calls) + Steps(StartPhase(old(record)) + 1, DECISION)
      ensures !MayStart(old(record), sealed) ==> record == old(record) && client.calls == old(client.calls)
      ensures MayStart(old(record), sealed) && r.None? ==>
                exists last :: FailedAt(client.answers, StartPhase(old(record)), ReturnOf(old(record), sealed),
                                        old(client.calls), client.calls, record, last)
    {
      ghost var start, w := StartPhase(record), ReturnOf(record, sealed);
      if record.Some? && !SameTuple(record.value.workerReturn, sealed) {
        return None;
      }
      if record.None? {
        record := Some(Record(sealed, PREPARED, None, None, None));
      }
      var results := Results(None, None, None);
      var step := 1;
      Started(client.answers, w, start, client.calls, record.value);
      hide RecordInv, ResultsMatch, Performed, Underway, SameTuple, FailedAt, Steps, SameReturn, Typed, Satisfies, InScope, Collect;
      while step <= DECISION
        invariant Typed(client.answers)
        invariant record.Some? && Underway(client.answers, w, start, old(client.calls), record.value, client.calls, step, results)
        invariant step <= DECISION + 1
      {
        UnderwayNext(client.answers, w, start, old(client.calls), record.value, client.calls, step, results);
        var answer := Perform(step);
        if answer.None? || !InScope(record.value.workerReturn, answer.value) {
          assert FailedAt(client.answers, start, w, old(client.calls), client.calls, record, step);
          StepUnserved(client.answers, start, w, old(client.calls), client.calls, record, step);
          return None;
        }
        results := Collect(results, answer.value);
        step := step + 1;
      }
      Delivered(client.answers, w, start, old(client.calls), record.value, client.calls, results);
      var (token, decision) := results.observed.value;
      r := Some(Returned(results.receiptDigest.value, decision, token, record.value.workerReturn));
    }
  }

  lemma Started(answers: int -> Option<Answer>, w: WorkerReturn, start: int, calls: seq<int>, r: Record)
    requires RecordInv(r) && r.phase == start && r.workerReturn == w
    ensures Underway(answers, w, start, calls, r, calls, 1, Results(None, None, None))
  {
  }

  lemma Delivered(answers: int -> Option<Answer>, w: WorkerReturn, start: int, before: seq<int>, r: Record, calls: seq<int>, results: Results)
    requires Underway(answers, w, start, before, r, calls, DECISION + 1, results) && start <= DECISION
    ensures results.receiptDigest.Some? && results.observed.Some?
    ensures Persisted(r, Returned(results.receiptDigest.value, results.observed.value.1, results.observed.value.0, r.workerReturn))
    ensures ClientServes(answers, start, w) && calls == before + Steps(start + 1, DECISION) && RecordInv(r)
  {
  }

  lemma StepUnserved(answers: int -> Option<Answer>, start: int, w: WorkerReturn, before: seq<int>, calls: seq<int>,
                     record: Option<Record>, last: int)
    requires FailedAt(answers, start, w, before, calls, record, last)
    ensures !ClientServes(answers, start, w)
  {
  }

  lemma UnderwayNext(answers: int -> Option<Answer>, w: WorkerReturn, start: int, before: seq<int>,
                     r: Record, calls: seq<int>, step: int, results: Results)
    requires Typed(answers) && PREPARED <= start <= DECISION
    requires Underway(answers, w, start, before, r, calls, step, results) && step <= DECISION
    ensures answers(step).Some? ==> Answers(step, answers(step).value)
    ensures var (next, answer, asked) := Performed(r, step, answers(step));
            var after := calls + (if asked then [step] else []);
            && RecordInv(next)
            && (answer.Some? && InScope(next.workerReturn, answer.value) ==>
                  Underway(answers, w, start, before, next, after, step + 1, Collect(results, answer.value)))
            && (!(answer.Some? && InScope(next.workerReturn, answer.value)) ==>
                  FailedAt(answers, start, w, before, after, Some(next), step))
  {
    hide RecordInv, ResultsMatch, Retained, Steps, Collect, Performed, Satisfies, InScope, SameReturn;
    PerformedKeeps(r, step, answers(step), results);
    StepsGrow(start + 1, step);
    StepServed(answers, r, w, step);
    SameReturnTransitive(w, r.workerReturn, Performed(r, step, answers(step)).0.workerReturn);
    hide Typed;
    var (next, answer, asked) := Performed(r, step, answers(step));
    if answer.Some? && InScope(next.workerReturn, answer.value) {
      GoesOn(answers, w, start, before, r, calls, step, results, next, answer.value, asked);
    }
  }

  lemma GoesOn(answers: int -> Option<Answer>, w: WorkerReturn, start: int, before: seq<int>, r: Record, calls: seq<int>, step: int,
               results: Results, next: Record, answer: Answer, asked: bool)
    requires Underway(answers, w, start, before, r, calls, step, results) && step <= DECISION
    requires RecordInv(next) && SameReturn(w, next.workerReturn) && ResultsMatch(next, step + 1, Collect(results, answer))
    requires asked == (step == r.phase + 1) && next.phase == (if asked then step else r.phase)
    requires asked ==> Satisfies(answers, step, w)
    requires Steps(start + 1, step) == if step <= start then Steps(start + 1, step - 1) else Steps(start + 1, step - 1) + [step]
    ensures Underway(answers, w, start, before, next, calls + (if asked then [step] else []), step + 1, Collect(results, answer))
  {
    hide RecordInv, ResultsMatch, Steps, Collect, Satisfies, SameReturn;
  }

  /** An asked step fails exactly when the client does not satisfy it. */
  lemma StepServed(answers: int -> Option<Answer>, r: Record, w: WorkerReturn, step: int)
    requires Typed(answers) && RecordInv(r) && SameReturn(w, r.workerReturn) && step <= DECISION
    requires !HasCompleted(r, step) ==> step == r.phase + 1
    requires answers(step).Some? ==> Answers(step, answers(step).value)
    ensures var (next, answer, asked) := Performed(r, step, answers(step));
            && (asked ==> (answer.Some? && InScope(next.workerReturn, answer.value) <==> Satisfies(answers, step, w)))
            && (asked && answer.None? ==> !(step == PROPOSAL && answers(step).Some?))
            && (asked && answer.Some? && !InScope(next.workerReturn, answer.value) ==> step == PROPOSAL && answers(step).Some?)
            && (!asked ==> step <= r.phase)
  {
  }

  lemma {:induction false} StepsGrow(first: int, last: int)
    ensures first <= last ==> Steps(first, last) == Steps(first, last - 1) + [last]
    ensures last < first ==> Steps(first, last) == [] && Steps(first, last - 1) == []
    decreases last - first
  {
    if first < last {
      StepsGrow(first + 1, last);
    }
  }

  /** One step keeps the record in order, and fails exactly when the client does not serve it. */
  lemma PerformedKeeps(r: Record, step: int, answer: Option<Answer>, results: Results)
    requires RecordInv(r) && ResultsMatch(r, step, results) && step <= DECISION && (answer.Some? ==> Answers(step, answer.value))
    ensures var (next, result, asked) := Performed(r, step, answer);
            && RecordInv(next) && SameReturn(r.workerReturn, next.workerReturn)
            && asked == (step == r.phase + 1)
            && (!asked ==> next == r && result.Some? && InScope(r.workerReturn, result.value))
            && (result.Some? ==> next.phase == (if asked then step else r.phase) && ResultsMatch(next, step + 1, Collect(results, result.value)))
            && (result.None? ==> next == r)
            && (asked && result.Some? ==> result == answer)
  {
    if HasCompleted(r, step) {
      RetainedAnswer(r, step, results);
    } else if answer.Some? && Completing(r, step, answer.value).Some? {
      CompletedRecord(r, step, answer.value, results);
    }
  }
}
