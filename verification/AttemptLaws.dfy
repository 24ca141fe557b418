/** The moves of an attempt from each state, and what a resolution records (packages/domain/src/tasks.ts). */
module AttemptLaws {
  import opened Wrappers
  import opened Identity
  import opened Attempts

  // ----- Moves -----

  /** Where an input other than a receipt leads from a state that is not terminal, if it is allowed there. */
  function Moves(from: DispatchState, input: DispatchInput): Option<DispatchState> {
    match from
    case Planned =>
      if input.CommitLaunchIntent? then Some(LaunchIntentCommitted) else None
    case LaunchIntentCommitted =>
      if input.RecordHandle? then Some(ProviderHandleRecorded) else CancelOrReconcile(input)
    case ProviderHandleRecorded =>
      if input.RecordHandle? then Some(from) else if input.Acknowledge? then Some(Acknowledged) else CancelOrReconcile(input)
    case Acknowledged =>
      if input.RecordHandle? || input.Acknowledge? then Some(from) else CancelOrReconcile(input)
    case CancelRequested =>
      if input.RecordHandle? then Some(from) else if input.HandOffCancel? then Some(CancelHandedOff)
      else if input.RequireReconciliation? then Some(ReconciliationRequired) else None
    case CancelHandedOff =>
      if input.RecordHandle? then Some(from) else if input.RequireReconciliation? then Some(ReconciliationRequired) else None
    case ReconciliationRequired =>
      if input.RecordHandle? || input.ReconcileFound? then Some(ProviderHandleRecorded)
      else if input.ReconcileNotFoundIdempotent? then Some(Planned)
      else if input.ReconcileAmbiguous? then Some(UnknownOutcome)
      else if input.RequestCancel? then Some(CancelRequested) else None
    case UnknownOutcome =>
      if input.RecordHandle? then Some(from) else if input.RequestCancel? then Some(CancelRequested)
      else if input.ManualResolution? && input.eventSequence > 0 then Some(Terminal(input.outcome)) else None
    case Terminal(_) => None
  }

  function CancelOrReconcile(input: DispatchInput): Option<DispatchState> {
    if input.RequestCancel? then Some(CancelRequested) else if input.RequireReconciliation? then Some(ReconciliationRequired) else None
  }

  predicate NamesHandle(input: DispatchInput) {
    input.RecordHandle? || input.ReconcileFound?
  }

  /** The input names another handle than the one on record. */
  predicate OtherHandle(a: Attempt, input: DispatchInput) {
    NamesHandle(input) && a.providerHandle.Some? && a.providerHandle.value != "" && a.providerHandle.value != input.handle
  }

  function WithFinding(a: Attempt, code: ErrorCode): Attempt {
    a.(findingCodes := if code in a.findingCodes then a.findingCodes else a.findingCodes + [code])
  }

  /**
   * An open attempt takes an input exactly where its state allows it and the handle it names is not
   * empty.  Another handle than the one on record is only a finding; otherwise the state moves, a
   * named handle is recorded, and nothing else changes but the terminal event of a manual resolution.
   */
  lemma OpenAttemptMoves(a: Attempt, input: DispatchInput)
    requires Settled(a) && !a.state.Terminal? && !input.TerminalReceipt?
    ensures ReduceDispatch(a, input).Ok? <==> Moves(a.state, input).Some? && (NamesHandle(input) ==> input.handle != "")
    ensures ReduceDispatch(a, input).Ok? ==>
              ReduceDispatch(a, input).value
              == if OtherHandle(a, input) then WithFinding(a, CONFLICTING_PROVIDER_HANDLE)
                 else a.(state := Moves(a.state, input).value,
                         providerHandle := if NamesHandle(input) then Some(input.handle)
                                           else if input.ReconcileNotFoundIdempotent? then None else a.providerHandle,
                         terminalEventSequence := if input.ManualResolution? then Some(input.eventSequence) else None)
  {
  }

  /** A terminal attempt takes every input, as a finding that says what came late. */
  lemma TerminalAttemptFinds(a: Attempt, input: DispatchInput)
    requires Settled(a) && a.state.Terminal? && (input.TerminalReceipt? ==> input.eventSequence >= 1)
    ensures ReduceDispatch(a, input)
         == Ok(WithFinding(a, if !input.TerminalReceipt? then LATE_DISPATCH_FACT
                              else if input.outcome == a.state.outcome then LATE_TERMINAL_RECEIPT else CONFLICTING_LATE_TERMINAL_RECEIPT))
  {
  }

  /** A receipt ends an open attempt that was handed off, unless it names another handle than the one on record. */
  lemma ReceiptMoves(a: Attempt, outcome: TerminalState, sequence: int, handle: Option<string>)
    requires Settled(a) && !a.state.Terminal? && sequence >= 1
    ensures var (r, other) := (ReduceDispatch(a, TerminalReceipt(outcome, sequence, handle)),
                               && handle.Some? && handle.value != "" && handle != a.providerHandle
                               && a.providerHandle.Some? && a.providerHandle.value != "");
            && (r.Ok? <==> a.state != Planned)
            && (r.Ok? ==>
                  r.value == if other then WithFinding(a, CONFLICTING_PROVIDER_HANDLE)
                             else a.(state := Terminal(outcome), terminalEventSequence := Some(sequence),
                                     providerHandle := if a.providerHandle.Some? then a.providerHandle else handle))
  {
  }

  // ----- What a resolution records -----

  predicate OutcomeOf(a: Attempt, g: GenerationOutcome) {
    a.state == Terminal(g.outcome) && a.terminalEventSequence == Some(g.terminalEventSequence) && a.generation == g.generation
  }

  lemma {:induction false} ConsideredAre(xs: seq<Attempt>)
    requires Increasing(xs) && forall i, j :: 0 <= i < j < |xs| ==> xs[i].generation != xs[j].generation
    ensures forall g :: g in Considered(xs) <==> exists x :: x in xs && OutcomeOf(x, g)
    ensures forall i, j :: 0 <= i < j < |Considered(xs)| ==> Considered(xs)[i].generation < Considered(xs)[j].generation
  {
    if xs != [] {
      var rest := xs[1..];
      ConsideredAre(rest);
      assert forall x :: x in xs <==> x == xs[0] || x in rest;
      forall x | x in rest ensures xs[0].generation < x.generation {
        var i :| 0 <= i < |rest| && rest[i] == x;
        assert xs[i + 1] == x;
      }
      forall g | g in Considered(rest) ensures xs[0].generation < g.generation {
        var x :| x in rest && OutcomeOf(x, g);
      }
      hide OutcomeOf;
      var all, tail := Considered(xs), Considered(rest);
      assert all == tail || all == [all[0]] + tail;
    }
  }

  /**
   * A resolution records the outcomes of exactly the attempts that have ended, by rising generation,
   * and says why it was given; the policy and the cursor are those of the request.
   */
  lemma ResolutionRecords(input: ResolutionInput, xs: seq<Attempt>)
    requires ResolveTask(input, xs).Ok? && ResolveTask(input, xs).value.Some?
    ensures var r := ResolveTask(input, xs).value.value;
            && (forall g :: g in r.consideredGenerationOutcomes <==> exists x :: x in xs && OutcomeOf(x, g))
            && (forall i, j :: 0 <= i < j < |r.consideredGenerationOutcomes| ==>
                  r.consideredGenerationOutcomes[i].generation < r.consideredGenerationOutcomes[j].generation)
            && r.taskId == input.taskId && r.retryPolicyDigest == input.retryPolicyDigest && r.observationCursor == input.observationCursor
            && r.arbitrationReason == match r.resolution
                                      case Succeeded => "earliest-terminal-success"
                                      case Cancelled => "explicit-cancellation"
                                      case Failed => "all-generations-terminal-no-success"
  {
    var sorted := SortByGeneration(xs);
    SortSorts(xs);
    DistinctGenerations(sorted);
    ConsideredAre(sorted);
    hide SortByGeneration, Considered, Increasing, EarliestSuccess;
  }
}
