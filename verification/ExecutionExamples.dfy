/** Runs in which a receipt leaves its attempt open, and in which the older event resolves a task without a record. */
module ExecutionExamples {
  import opened Wrappers
  import opened Identity
  import opened Attempts
  import opened Execution
  import opened ExecutionRuns
  import opened ExecutionReceipts
  import opened ExecutionLegacy
  import opened Text

  // ----- A task resolved without a record -----

  /** A task of the older kind, resolved by the older event: its resolution is not recorded. */
  lemma ResolvedWithoutRecord(c: Contract, resolution: TerminalState) returns (r: Run)
    requires c.taskId != Named("")
    ensures ValidRun(r) && |r.states| == 3 && Unrecorded(r.states[2].lifecycles, r.states[2].resolutions, c.taskId)
  {
    EmptyRun();
    r := Run([EMPTY_STATE], [], []);
    hide ValidRun, Step;
    RunExtended(r, LegacyCreate(c), 1);
    r := Extended(r, LegacyCreate(c), 1, Act(EMPTY_STATE, LegacyCreate(c), 1).value);
    var s := r.states[1];
    RunExtended(r, LegacyResolve(c.taskId, resolution), 2);
    r := Extended(r, LegacyResolve(c.taskId, resolution), 2, Act(s, LegacyResolve(c.taskId, resolution), 2).value);
  }

  // ----- An attempt left open by its receipt -----

  const TASK := Named("t")
  const CONTRACT := Contract(TASK, "t", "t", [], Work, None)
  const PROFILE := Profile("a", "h", "1", "p", "m", Work, "")
  const BINDING := Binding("n", 1, "f", "c", "k", "who", "grant")
  const PREPARED := Prepared(None, TASK, "n", 1, PROFILE, ProfileDigest(PROFILE), Join(TASK, ContractDigest(CONTRACT), []), BINDING, 0)
  const KEY := AttemptKey("n", 1)

  /** A receipt that names the provider operation "h2". */
  const RECEIPT := Receipt("w", "r", TASK, "n", 1, BindingDigest(BINDING), "c", "f", "a" + "-native-provider-v1", "h2",
                           IdempotencyKeyDigest("k"), "who", "grant", "horseness-" + "a" + "-v1", "h", "1", TerminalState.Failed, None,
                           Provenance(ProfileDigest(PROFILE), None, None, None, None), "")

  function EventOf(body: Body): Event {
    Event("w", "r", body)
  }

  function TransitionOf(input: DispatchInput): Event {
    EventOf(ExecutionTransition(TASK, "n", 1, ProfileDigest(PROFILE), input))
  }

  function Ready(): State {
    EMPTY_STATE.(contracts := EMPTY_STATE.contracts[TASK := CONTRACT], lifecycles := EMPTY_STATE.lifecycles[TASK := Active])
  }

  /** The state with one attempt of the task. */
  function With(a: Attempt): State {
    Ready().(prepared := EMPTY_STATE.prepared[KEY := PREPARED], attempts := EMPTY_STATE.attempts[KEY := a])
  }

  lemma SameKey<K, V>(m: map<K, V>, k: K, a: V, b: V)
    ensures m[k := a][k := b] == m[k := b]
  {
  }

  lemma NotBlank()
    ensures !IsBlank("t") && !IsBlank("h1")
  {
    assert "t"[0] == 't' && "h1"[0] == 'h';
    assert 't' in "t" && !IsSpace('t') && 'h' in "h1" && !IsSpace('h');
  }

  lemma CreatedAndActivated()
    ensures var s := CreateTask(EMPTY_STATE, CONTRACT).value;
            && Step(EMPTY_STATE, EventOf(TaskCreated(CONTRACT)), 1) == Ok(s)
            && Step(s, EventOf(TaskActivated(TASK)), 2) == Ok(Ready())
  {
    NotBlank();
    SameKey(EMPTY_STATE.lifecycles, TASK, Draft, Active);
    hide IsBlank;
  }

  lemma PreparedOnce()
    ensures Step(Ready(), EventOf(ExecutionPrepared(PREPARED)), 3) == Ok(With(NewAttempt(PREPARED)))
  {
    NotBlank();
    hide IsBlank;
    assert Prepare(Ready(), PREPARED, {}) == Ok(With(NewAttempt(PREPARED)));
    assert ParseCheck(EventOf(ExecutionPrepared(PREPARED))).Pass?;
  }

  lemma Transitions()
    ensures var a := NewAttempt(PREPARED);
            var b, c := a.(state := LaunchIntentCommitted), a.(state := ProviderHandleRecorded, providerHandle := Some("h1"));
            && Step(With(a), TransitionOf(CommitLaunchIntent), 4) == Ok(With(b))
            && Step(With(b), TransitionOf(RecordHandle("h1")), 5) == Ok(With(c))
  {
    NotBlank();
    var a := NewAttempt(PREPARED);
    var b, c := a.(state := LaunchIntentCommitted), a.(state := ProviderHandleRecorded, providerHandle := Some("h1"));
    SameKey(EMPTY_STATE.attempts, KEY, a, b);
    SameKey(EMPTY_STATE.attempts, KEY, b, c);
    hide IsBlank;
    assert "h1" != "";
    assert ReduceDispatch(a, CommitLaunchIntent) == Ok(b) && ReduceDispatch(b, RecordHandle("h1")) == Ok(c);
    hide ReduceDispatch;
    assert TransitionAttempt(With(a), KEY, TASK, ProfileDigest(PROFILE), CommitLaunchIntent) == Ok(With(b));
    assert TransitionAttempt(With(b), KEY, TASK, ProfileDigest(PROFILE), RecordHandle("h1")) == Ok(With(c));
  }

  /** The receipt is recorded; its handle is not the attempt's, so the attempt only gets a finding. */
  lemma ReceiptLeavesOpen()
    ensures var c := NewAttempt(PREPARED).(state := ProviderHandleRecorded, providerHandle := Some("h1"));
            var e := EventOf(ExecutionReceipt(TASK, "n", 1, ProfileDigest(PROFILE), RECEIPT));
            && Step(With(c), e, 6).Ok? && LeftOpen(Step(With(c), e, 6).value, KEY)
  {
    var c := NewAttempt(PREPARED).(state := ProviderHandleRecorded, providerHandle := Some("h1"));
    assert "h1" != "" && "h2" != "" && "h1"[1] != "h2"[1];
    assert ReduceDispatch(c, TerminalReceipt(TerminalState.Failed, 6, Some("h2"))) == Ok(Finding(c, CONFLICTING_PROVIDER_HANDLE));
    hide ReduceDispatch;
    assert ReceiptMatches(EventOf(ExecutionReceipt(TASK, "n", 1, ProfileDigest(PROFILE), RECEIPT)), PREPARED, c, RECEIPT);
    assert ProvenanceMatches(PREPARED, RECEIPT);
    hide ReceiptMatches, ProvenanceMatches;
  }

  /** One more event, accepted in the last state of a run. */
  lemma Applied(r: Run, event: Event, t: State) returns (longer: Run)
    requires ValidRun(r) && Step(r.states[|r.states| - 1], event, |r.states|) == Ok(t) && Before(r, |r.sequences|) < |r.states|
    ensures ValidRun(longer) && longer.states == r.states + [t] && Before(longer, |longer.sequences|) < |longer.states|
  {
    RunLength(r);
    hide ValidRun, Step;
    RunExtended(r, Apply(event), |r.states|);
    longer := Extended(r, Apply(event), |r.states|, t);
  }

  /**
   * An attempt is created, prepared without a workflow, launched and given the handle "h1"; then a
   * receipt is recorded that names "h2", and the attempt is left open.
   */
  lemma RunLeftOpen() returns (r: Run)
    ensures ValidRun(r) && |r.states| == 7 && LeftOpen(r.states[6], KEY)
  {
    var a := NewAttempt(PREPARED);
    var b, c := a.(state := LaunchIntentCommitted), a.(state := ProviderHandleRecorded, providerHandle := Some("h1"));
    EmptyRun();
    CreatedAndActivated();
    PreparedOnce();
    Transitions();
    ReceiptLeavesOpen();
    r := Run([EMPTY_STATE], [], []);
    hide ValidRun, Step, With, Ready, EventOf, TransitionOf, NewAttempt, LeftOpen;
    r := Applied(r, EventOf(TaskCreated(CONTRACT)), CreateTask(EMPTY_STATE, CONTRACT).value);
    r := Applied(r, EventOf(TaskActivated(TASK)), Ready());
    r := Applied(r, EventOf(ExecutionPrepared(PREPARED)), With(a));
    r := Applied(r, TransitionOf(CommitLaunchIntent), With(b));
    r := Applied(r, TransitionOf(RecordHandle("h1")), With(c));
    var e := EventOf(ExecutionReceipt(TASK, "n", 1, ProfileDigest(PROFILE), RECEIPT));
    r := Applied(r, e, Step(With(c), e, 6).value);
  }
}
