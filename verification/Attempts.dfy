/** Task lifecycle, attempt dispatch and task resolution (packages/domain/src/tasks.ts). */
module Attempts {
  import opened Wrappers
  import opened Identity
  import opened Lists

  // ----- Lifecycle -----

  datatype Lifecycle = Draft | Active | Resolved(resolution: TerminalState)

  datatype LifecycleInput = Activate | Resolve(resolution: TerminalState)

  function ReduceTaskLifecycle(state: Lifecycle, input: LifecycleInput): Result<Lifecycle> {
    if state.Draft? && input.Activate? then Ok(Active)
    else if state.Draft? && input.Resolve? && input.resolution.Cancelled? then Ok(Resolved(Cancelled))
    else if state.Active? && input.Resolve? then Ok(Resolved(input.resolution))
    else Err(ILLEGAL_TASK_TRANSITION)
  }

  // ----- Dispatch -----

  datatype DispatchState =
    | Planned
    | LaunchIntentCommitted
    | ProviderHandleRecorded
    | Acknowledged
    | CancelRequested
    | CancelHandedOff
    | ReconciliationRequired
    | UnknownOutcome
    | Terminal(outcome: TerminalState)

  datatype Attempt = Attempt(
    attemptId: string,
    generation: int,
    state: DispatchState,
    bindingDigest: Digest,
    idempotencyKeyDigest: Digest,
    providerHandle: Option<string>,
    terminalEventSequence: Option<int>,
    findingCodes: seq<ErrorCode>)

  datatype DispatchInput =
    | CommitLaunchIntent
    | RecordHandle(handle: string)
    | Acknowledge
    | RequestCancel
    | HandOffCancel
    | RequireReconciliation
    | ReconcileFound(handle: string)
    | ReconcileNotFoundIdempotent
    | ReconcileAmbiguous
    | TerminalReceipt(outcome: TerminalState, eventSequence: int, receiptHandle: Option<string>)
    | ManualResolution(outcome: TerminalState, eventSequence: int)

  function Finding(a: Attempt, code: ErrorCode): Attempt {
    if code in a.findingCodes then a else a.(findingCodes := a.findingCodes + [code])
  }

  /** A recorded handle; the empty text counts as none. */
  predicate HasHandle(h: Option<string>) {
    h.Some? && h.value != ""
  }

  predicate AcceptsHandle(s: DispatchState) {
    !s.Planned? && !s.Terminal?
  }

  function ReduceDispatch(a: Attempt, input: DispatchInput): Result<Attempt> {
    if a.generation < 1 || (a.terminalEventSequence.Some? && !a.state.Terminal?) then Err(INVALID_ATTEMPT_STATE)
    else if input.TerminalReceipt? then ReduceReceipt(a, input)
    else if a.state.Terminal? then Ok(Finding(a, LATE_DISPATCH_FACT))
    else
      var illegal := Err(ILLEGAL_DISPATCH_TRANSITION);
      match input
      case CommitLaunchIntent =>
        if a.state.Planned? then Ok(a.(state := LaunchIntentCommitted)) else illegal
      case RecordHandle(handle) =>
        if !AcceptsHandle(a.state) then illegal
        else if handle == "" then Err(INVALID_PROVIDER_HANDLE)
        else if HasHandle(a.providerHandle) && a.providerHandle.value != handle then
          Ok(Finding(a, CONFLICTING_PROVIDER_HANDLE))
        else
          var recorded := a.state.LaunchIntentCommitted? || a.state.ReconciliationRequired?;
          Ok(a.(state := if recorded then ProviderHandleRecorded else a.state, providerHandle := Some(handle)))
      case Acknowledge =>
        if a.state.ProviderHandleRecorded? || a.state.Acknowledged? then Ok(a.(state := Acknowledged)) else illegal
      case RequestCancel =>
        if a.state.LaunchIntentCommitted? || a.state.ProviderHandleRecorded? || a.state.Acknowledged?
           || a.state.ReconciliationRequired? || a.state.UnknownOutcome?
        then Ok(a.(state := CancelRequested)) else illegal
      case HandOffCancel =>
        if a.state.CancelRequested? then Ok(a.(state := CancelHandedOff)) else illegal
      case RequireReconciliation =>
        if a.state.LaunchIntentCommitted? || a.state.ProviderHandleRecorded? || a.state.Acknowledged?
           || a.state.CancelRequested? || a.state.CancelHandedOff?
        then Ok(a.(state := ReconciliationRequired)) else illegal
      case ReconcileFound(handle) =>
        if !a.state.ReconciliationRequired? then illegal
        else if handle == "" then Err(INVALID_PROVIDER_HANDLE)
        else if HasHandle(a.providerHandle) && a.providerHandle.value != handle then
          Ok(Finding(a, CONFLICTING_PROVIDER_HANDLE))
        else Ok(a.(state := ProviderHandleRecorded, providerHandle := Some(handle)))
      case ReconcileNotFoundIdempotent =>
        if a.state.ReconciliationRequired? then Ok(a.(state := Planned, providerHandle := None)) else illegal
      case ReconcileAmbiguous =>
        if a.state.ReconciliationRequired? then Ok(a.(state := UnknownOutcome)) else illegal
      case ManualResolution(outcome, eventSequence) =>
        if a.state.UnknownOutcome? && eventSequence > 0
        then Ok(a.(state := Terminal(outcome), terminalEventSequence := Some(eventSequence))) else illegal
  }

  function ReduceReceipt(a: Attempt, input: DispatchInput): Result<Attempt>
    requires input.TerminalReceipt?
  {
    if input.eventSequence < 1 then Err(INVALID_EVENT_SEQUENCE)
    else if a.state.Terminal? then
      Ok(Finding(a, if input.outcome == a.state.outcome then LATE_TERMINAL_RECEIPT else CONFLICTING_LATE_TERMINAL_RECEIPT))
    else if a.state.Planned? then Err(RECEIPT_PRE_HANDOFF)
    else if HasHandle(input.receiptHandle) && HasHandle(a.providerHandle) && input.receiptHandle != a.providerHandle then
      Ok(Finding(a, CONFLICTING_PROVIDER_HANDLE))
    else
      Ok(a.(state := Terminal(input.outcome),
            providerHandle := if a.providerHandle.Some? then a.providerHandle else input.receiptHandle,
            terminalEventSequence := Some(input.eventSequence)))
  }

  /** A terminal attempt is exactly one that has a terminal event. */
  predicate Settled(a: Attempt) {
    a.generation >= 1 && (a.terminalEventSequence.Some? <==> a.state.Terminal?)
  }

  /**
   * How an attempt may change from one state of a run to a later one: its identity is fixed, a
   * terminal outcome and its sequence are final, a new terminal event comes after `bound`, and
   * an attempt that has left `Planned` never returns to it.
   */
  predicate Evolves(a: Attempt, b: Attempt, bound: int) {
    && b.attemptId == a.attemptId && b.generation == a.generation
    && b.bindingDigest == a.bindingDigest && b.idempotencyKeyDigest == a.idempotencyKeyDigest
    && (a.state.Terminal? ==> b.state == a.state && b.terminalEventSequence == a.terminalEventSequence)
    && (!a.state.Terminal? && b.state.Terminal? ==> b.terminalEventSequence.Some? && b.terminalEventSequence.value > bound)
    && (!a.state.Planned? ==> !b.state.Planned?)
  }

  /** Every accepted input but the idempotent relaunch keeps attempts settled and makes them evolve. */
  lemma DispatchEvolves(a: Attempt, input: DispatchInput, bound: int)
    requires Settled(a) && ReduceDispatch(a, input).Ok?
    requires !input.ReconcileNotFoundIdempotent?
    requires input.TerminalReceipt? || input.ManualResolution? ==> input.eventSequence > bound
    ensures Settled(ReduceDispatch(a, input).value)
    ensures Evolves(a, ReduceDispatch(a, input).value, bound)
  {
  }

  // ----- Resolution -----

  datatype GenerationOutcome = GenerationOutcome(generation: int, outcome: TerminalState, terminalEventSequence: int)

  datatype TaskResolution = TaskResolution(
    taskId: TaskId,
    consideredGenerationOutcomes: seq<GenerationOutcome>,
    winningGeneration: Option<int>,
    retryPolicyDigest: string,
    arbitrationReason: string,
    observationCursor: string,
    resolution: TerminalState)

  datatype ResolutionInput = ResolutionInput(
    taskId: TaskId,
    retryPolicyDigest: string,
    retryPermitted: bool,
    cancellationRequested: bool,
    observationCursor: string)

  function InsertByGeneration(a: Attempt, xs: seq<Attempt>): seq<Attempt> {
    if xs == [] then [a]
    else if a.generation <= xs[0].generation then [a] + xs
    else [xs[0]] + InsertByGeneration(a, xs[1..])
  }

  function SortByGeneration(xs: seq<Attempt>): seq<Attempt> {
    if xs == [] then [] else InsertByGeneration(xs[0], SortByGeneration(xs[1..]))
  }

  predicate HasTerminalEvent(a: Attempt) {
    a.state.Terminal? && a.terminalEventSequence.Some?
  }

  predicate IsSuccess(a: Attempt) {
    HasTerminalEvent(a) && a.state.outcome.Succeeded?
  }

  predicate ComesFirst(a: Attempt, b: Attempt)
    requires HasTerminalEvent(a) && HasTerminalEvent(b)
  {
    a.terminalEventSequence.value < b.terminalEventSequence.value
    || (a.terminalEventSequence.value == b.terminalEventSequence.value && a.generation <= b.generation)
  }

  /** The success with the smallest terminal event, and among those the smallest generation. */
  function EarliestSuccess(xs: seq<Attempt>): (r: Option<Attempt>)
    ensures r.None? <==> forall x :: x in xs ==> !IsSuccess(x)
    ensures r.Some? ==> r.value in xs && IsSuccess(r.value)
    ensures r.Some? ==> forall x :: x in xs && IsSuccess(x) ==> ComesFirst(r.value, x)
  {
    if xs == [] then None
    else
      var rest := EarliestSuccess(xs[1..]);
      assert forall x :: x in xs ==> x == xs[0] || x in xs[1..];
      if !IsSuccess(xs[0]) then rest
      else if rest.None? || ComesFirst(xs[0], rest.value) then Some(xs[0])
      else rest
  }

  function Considered(xs: seq<Attempt>): seq<GenerationOutcome> {
    if xs == [] then []
    else if HasTerminalEvent(xs[0]) then
      [GenerationOutcome(xs[0].generation, xs[0].state.outcome, xs[0].terminalEventSequence.value)] + Considered(xs[1..])
    else Considered(xs[1..])
  }

  function Generations(xs: seq<Attempt>): set<int> {
    set x | x in xs :: x.generation
  }

  predicate ValidGenerations(xs: seq<Attempt>) {
    |Generations(xs)| == |xs| && forall x :: x in xs ==> x.generation >= 1
  }

  function ResolveTask(input: ResolutionInput, unsorted: seq<Attempt>): Result<Option<TaskResolution>> {
    var generations := SortByGeneration(unsorted);
    if !ValidGenerations(generations) then Err(INVALID_ATTEMPT_GENERATION)
    else
      var success := EarliestSuccess(generations);
      var unresolved := exists x :: x in generations && !x.state.Terminal?;
      var resolved := (winner: Option<int>, reason: string, resolution: TerminalState) =>
        Ok(Some(TaskResolution(input.taskId, Considered(generations), winner, input.retryPolicyDigest,
                               reason, input.observationCursor, resolution)));
      if success.Some? then resolved(Some(success.value.generation), "earliest-terminal-success", Succeeded)
      else if unresolved || input.retryPermitted then Ok(None)
      else if input.cancellationRequested then resolved(None, "explicit-cancellation", Cancelled)
      else resolved(None, "all-generations-terminal-no-success", Failed)
  }

  // ----- Sorting by generation -----

  ghost predicate Increasing(xs: seq<Attempt>) {
    xs != [] ==> (forall x :: x in xs[1..] ==> xs[0].generation <= x.generation) && Increasing(xs[1..])
  }

  lemma {:induction false} InsertSorts(a: Attempt, xs: seq<Attempt>)
    requires Increasing(xs)
    ensures Increasing(InsertByGeneration(a, xs))
    ensures forall x :: x in InsertByGeneration(a, xs) <==> x == a || x in xs
    ensures |InsertByGeneration(a, xs)| == |xs| + 1
  {
    if xs != [] {
      if a.generation <= xs[0].generation {
        assert InsertByGeneration(a, xs)[1..] == xs;
      } else {
        InsertSorts(a, xs[1..]);
        assert InsertByGeneration(a, xs)[1..] == InsertByGeneration(a, xs[1..]);
      }
    }
  }

  lemma {:induction false} SortSorts(xs: seq<Attempt>)
    ensures Increasing(SortByGeneration(xs))
    ensures forall x :: x in SortByGeneration(xs) <==> x in xs
    ensures |SortByGeneration(xs)| == |xs|
  {
    if xs != [] {
      SortSorts(xs[1..]);
      InsertSorts(xs[0], SortByGeneration(xs[1..]));
    }
  }

  lemma DistinctGenerations(xs: seq<Attempt>)
    requires |Generations(xs)| == |xs|
    ensures forall i, j :: 0 <= i < j < |xs| ==> xs[i].generation != xs[j].generation
  {
    var gs := seq(|xs|, i requires 0 <= i < |xs| => xs[i].generation);
    assert Elements(gs) == Generations(xs) by {
      forall g | g in Generations(xs) ensures g in gs {
        var x :| x in xs && x.generation == g;
        var i :| 0 <= i < |xs| && xs[i] == x;
        assert gs[i] == g;
      }
    }
    CountDistinct(gs);
    forall i, j | 0 <= i < j < |xs| ensures xs[i].generation != xs[j].generation {
      assert gs[i] != gs[j];
    }
  }

  /** Two increasing lists of distinct generations with the same members are the same list. */
  lemma {:induction false} SortedListsAgree(xs: seq<Attempt>, ys: seq<Attempt>)
    requires Increasing(xs) && Increasing(ys) && |xs| == |ys|
    requires |Generations(xs)| == |xs| && |Generations(ys)| == |ys|
    requires forall x :: x in xs <==> x in ys
    ensures xs == ys
  {
    if xs != [] {
      DistinctGenerations(xs);
      DistinctGenerations(ys);
      assert xs[0] == ys[0] by {
        assert xs[0] in ys && ys[0] in xs;
      }
      TailOf(xs);
      TailOf(ys);
      SortedListsAgree(xs[1..], ys[1..]);
    }
  }

  lemma TailOf(xs: seq<Attempt>)
    requires xs != [] && |Generations(xs)| == |xs|
    ensures |Generations(xs[1..])| == |xs[1..]|
    ensures forall x :: x in xs[1..] <==> x in xs && x != xs[0]
  {
    DistinctGenerations(xs);
    assert Generations(xs[1..]) == Generations(xs) - {xs[0].generation};
  }

  /** A task resolves the same way in whatever order its attempts are listed. */
  lemma ResolveIgnoresOrder(input: ResolutionInput, xs: seq<Attempt>, ys: seq<Attempt>)
    requires |xs| == |ys| && forall x :: x in xs <==> x in ys
    ensures ResolveTask(input, xs) == ResolveTask(input, ys)
  {
    var sx, sy := SortByGeneration(xs), SortByGeneration(ys);
    SortSorts(xs);
    SortSorts(ys);
    assert Generations(sx) == Generations(sy);
    if |Generations(sx)| == |sx| {
      SortedListsAgree(sx, sy);
    }
  }

  /** When a task resolves, and to what: stated on its attempts in any order. */
  lemma ResolveMeaning(input: ResolutionInput, xs: seq<Attempt>)
    ensures ResolveTask(input, xs).Err? <==> !ValidGenerations(xs)
    ensures ValidGenerations(xs) ==>
              var r := ResolveTask(input, xs).value;
              var success := exists x :: x in xs && IsSuccess(x);
              var live := exists x :: x in xs && !x.state.Terminal?;
              && (r.None? <==> !success && (live || input.retryPermitted))
              && (r.Some? ==> r.value.taskId == input.taskId)
              && (r.Some? ==> (r.value.resolution.Succeeded? <==> success))
              && (r.Some? && !success ==> (r.value.resolution.Cancelled? <==> input.cancellationRequested))
              && (r.Some? ==> (r.value.winningGeneration.Some? <==> success))
              && (r.Some? && success ==>
                    exists w :: w in xs && IsSuccess(w) && w.generation == r.value.winningGeneration.value
                      && forall x :: x in xs && IsSuccess(x) ==> ComesFirst(w, x))
  {
    SortSorts(xs);
    assert Generations(SortByGeneration(xs)) == Generations(xs);
    if ValidGenerations(xs) {
      var sorted := SortByGeneration(xs);
      var e := EarliestSuccess(sorted);
      assert e.Some? ==> e.value in xs && forall x :: x in xs && IsSuccess(x) ==> ComesFirst(e.value, x);
    }
  }

  /**
   * A recorded resolution is stable: if every attempt only evolves, no attempt is added, and new
   * terminal events come after all those already recorded, resolving again with the same input
   * gives the same resolution and the same winner.
   */
  lemma ResolveStable(input: ResolutionInput, xs: seq<Attempt>, ys: seq<Attempt>, bound: int)
    requires |xs| == |ys|
    requires forall i :: 0 <= i < |xs| ==> Settled(xs[i]) && Settled(ys[i]) && Evolves(xs[i], ys[i], bound)
    requires forall i :: 0 <= i < |xs| && xs[i].terminalEventSequence.Some? ==> xs[i].terminalEventSequence.value <= bound
    requires ResolveTask(input, xs).Ok? && ResolveTask(input, xs).value.Some?
    ensures ResolveTask(input, ys).Ok? && ResolveTask(input, ys).value.Some?
    ensures ResolveTask(input, ys).value.value.resolution == ResolveTask(input, xs).value.value.resolution
    ensures ResolveTask(input, ys).value.value.winningGeneration == ResolveTask(input, xs).value.value.winningGeneration
  {
    ResolveMeaning(input, xs);
    ResolveMeaning(input, ys);
    SameGenerations(xs, ys);
    var success := exists x :: x in xs && IsSuccess(x);
    if success {
      var w :| w in xs && IsSuccess(w) && w.generation == ResolveTask(input, xs).value.value.winningGeneration.value
        && forall x :: x in xs && IsSuccess(x) ==> ComesFirst(w, x);
      WinnerStays(xs, ys, w, bound);
    } else {
      forall y | y in ys ensures y.state.Terminal? && !IsSuccess(y) {
        var i :| 0 <= i < |ys| && ys[i] == y;
        assert xs[i] in xs;
      }
    }
  }

  lemma SameGenerations(xs: seq<Attempt>, ys: seq<Attempt>)
    requires |xs| == |ys| && forall i :: 0 <= i < |xs| ==> xs[i].generation == ys[i].generation
    ensures ValidGenerations(xs) ==> ValidGenerations(ys)
  {
    forall y | y in ys ensures y.generation in Generations(xs) {
      var i :| 0 <= i < |ys| && ys[i] == y;
      assert xs[i] in xs;
    }
    forall x | x in xs ensures x.generation in Generations(ys) {
      var i :| 0 <= i < |xs| && xs[i] == x;
      assert ys[i] in ys;
    }
    assert Generations(xs) == Generations(ys);
    if ValidGenerations(xs) {
      forall y | y in ys ensures y.generation >= 1 {
        assert y.generation in Generations(xs);
      }
    }
  }

  /** The earliest success is still there later, and still the strictly earliest. */
  lemma WinnerStays(xs: seq<Attempt>, ys: seq<Attempt>, w: Attempt, bound: int)
    requires |xs| == |ys|
    requires forall i :: 0 <= i < |xs| ==> Settled(xs[i]) && Settled(ys[i]) && Evolves(xs[i], ys[i], bound)
    requires forall i :: 0 <= i < |xs| && xs[i].terminalEventSequence.Some? ==> xs[i].terminalEventSequence.value <= bound
    requires w in xs && IsSuccess(w) && forall x :: x in xs && IsSuccess(x) ==> ComesFirst(w, x)
    ensures exists y :: y in ys && IsSuccess(y)
    ensures forall v :: v in ys && IsSuccess(v) && (forall y :: y in ys && IsSuccess(y) ==> ComesFirst(v, y))
              ==> v.generation == w.generation
  {
    var i :| 0 <= i < |xs| && xs[i] == w;
    assert ys[i] in ys && IsSuccess(ys[i]);
    forall v | v in ys && IsSuccess(v) && (forall y :: y in ys && IsSuccess(y) ==> ComesFirst(v, y))
      ensures v.generation == w.generation
    {
      var j :| 0 <= j < |ys| && ys[j] == v;
      assert ComesFirst(v, ys[i]);
      assert xs[j] in xs;
    }
  }
}
