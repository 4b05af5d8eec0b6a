/**
 * The main loop over one template: about a dozen counters, fingerprints and flags that are
 * updated and reset in different branches, each proved to be a function of the run's history.
 *
 * The language model, the validators, the simulator and the backtest itself are arbitrary:
 * one Turn holds whatever they answer in one iteration.
 */
module TemplateLoop {
  import opened Common
  import opened TemplateHistory

  // ---- What the outside world answers in one iteration ----

  /** `transientText`: the error text names a transient fault; `blankText`, `unknownEmpty`: an ok result without content. */
  datatype Result = Result(
    error: Option<string>, templateSuccess: bool, qualityPassed: bool, resultUncertain: bool, successCandidate: bool,
    transientText: bool, blankText: bool, unknownEmpty: bool)

  datatype Turn = Turn(
    placeholder: Option<string>, syntax: Option<string>, correlationOk: bool, simulatorSkips: bool, result: Result,
    syntaxText: bool, failureReason: string, mutationAccepted: bool, nextCode: Option<string>)

  /** No submission repeats a skipped fingerprint, or the last one tried. */
  ghost predicate NothingWasted(h: seq<Event>) {
    forall k {:trigger h[k]} | 0 <= k < |h| && h[k].Submitted? ::
      h[k].fingerprint !in SkippedSet(h[..k]) && h[k].fingerprint != LastTried(h[..k])
  }

  // ---- The loop ----

  const NO_PROGRESS_LIMIT: nat := 8
  const RETRY_TOTAL_LIMIT: nat := 9

  datatype Failure = NoProgress(key: string) | SyntaxExhausted | AutomationBudget | UncertainBudget

  datatype Outcome = Continue | Failed(failure: Failure) | Succeeded | NoCode

  /** What the program is configured with, and the two text functions it uses as black boxes. */
  datatype Config = Config(fingerprintOf: string -> string, normalize: string -> string, maxIterations: int, maxSkipsSetting: int)
  {
    function MaxSyntaxErrors(): nat { if maxIterations > 0 then maxIterations else 12 }

    function MaxSkips(): int { if maxSkipsSetting == 0 then 3 else maxSkipsSetting }
  }

  /** The local variables of the loop. */
  datatype Locals = Locals(
    code: string, lastSubmitted: string, automationRetries: nat, automationTotal: nat, platformKey: string,
    platformRepeats: nat, platformCodes: seq<string>, syntaxErrors: nat, pending: Option<nat>, skipped: set<string>,
    consecutiveSkips: nat, skipDisabled: bool, noProgressKey: string, noProgressCount: nat, uncertain: nat)

  function Fresh(code: string): Locals {
    Locals(code, "", 0, 0, "", 0, [], 0, None, {}, 0, false, "", 0, 0)
  }

  /** What the locals should be after `h`: every counter, key and flag is a function of the history. */
  function Recall(h: seq<Event>, c: Config, code: string): Locals {
    Locals(code, LastTried(h), SinceHardRecovery(h), AutomationErrors(h), LastPlatformError(h),
           RepeatCount(h), RecentCodes(h), SyntaxFailures(h), PendingMutation(h), SkippedSet(h),
           SkipStreak(h), SkipLimitReached(h, if c.maxSkipsSetting == 0 then 3 else c.maxSkipsSetting), LastKey(h), KeyRun(h), UncertainResults(h))
  }

  /** While the loop goes on no budget has been used up. */
  predicate WithinBudgets(s: Locals, c: Config) {
    && s.automationTotal < RETRY_TOTAL_LIMIT && s.uncertain < RETRY_TOTAL_LIMIT
    && s.syntaxErrors < c.MaxSyntaxErrors() && s.noProgressCount < NO_PROGRESS_LIMIT
  }

  lemma OneMore(h: seq<Event>, e: Event)
    ensures Before(h + [e]) == h && Latest(h + [e]) == e
  {}

  // ---- One event, as an update of the locals ----

  /** Every event but a submission. */
  function Blocked(s: Locals, e: Event, c: Config): Locals
    requires !e.Submitted?
  {
    match e
    case Placeholder(key) => Keyed(s.(syntaxErrors := s.syntaxErrors + 1), key)
    case SyntaxBlocked(key) => Keyed(s.(syntaxErrors := s.syntaxErrors + 1), key)
    case CorrelationBlocked => s
    case DuplicateRepaired => s
    case SkipRegenerated => s.(pending := None)
    case SimulatorSkipped(f) =>
      s.(skipped := s.skipped + (if f != "" then {f} else {}), consecutiveSkips := s.consecutiveSkips + 1,
         pending := None, lastSubmitted := f,
         skipDisabled := s.skipDisabled || s.consecutiveSkips + 1 >= c.MaxSkips())
  }

  function Keyed(s: Locals, key: string): Locals {
    s.(noProgressKey := key, noProgressCount := if key == s.noProgressKey then s.noProgressCount + 1 else 1)
  }

  function ErrorsForgotten(s: Locals): Locals {
    s.(automationRetries := 0, automationTotal := 0, noProgressKey := "", noProgressCount := 0, syntaxErrors := 0,
       platformRepeats := 0, platformKey := "", platformCodes := [])
  }

  /** A submission with its verdict, made in iteration `n`. */
  function Judged(s: Locals, e: Event, n: nat): Locals
    requires e.Submitted?
  {
    var t := s.(consecutiveSkips := 0);
    match e.verdict
    case UncertainError => t.(lastSubmitted := "", uncertain := t.uncertain + 1)
    case AutomationError =>
      t.(lastSubmitted := "", automationTotal := t.automationTotal + 1,
         automationRetries := if t.automationRetries >= 2 then 0 else t.automationRetries + 1)
    case PlatformError(error, syntaxText) =>
      var repeated := error != "" && error == t.platformKey;
      Keyed(t, e.key).(
        lastSubmitted := e.fingerprint, automationRetries := 0, pending := None,
        syntaxErrors := t.syntaxErrors + (if syntaxText then 1 else 0), platformKey := error,
        platformRepeats := if repeated then t.platformRepeats + 1 else 1,
        platformCodes := Push(if repeated then t.platformCodes else [], e.code))
    case UncertainResult => ErrorsForgotten(t).(lastSubmitted := "", uncertain := t.uncertain + 1)
    case QualityMiss(mutated) =>
      Keyed(ErrorsForgotten(t), e.key).(
        lastSubmitted := e.fingerprint, uncertain := 0, pending := if mutated then Some(n) else None)
    case Success => ErrorsForgotten(t).(lastSubmitted := e.fingerprint, uncertain := 0, pending := None)
  }

  function Update(s: Locals, e: Event, n: nat, c: Config): Locals {
    if e.Submitted? then Judged(s, e, n) else Blocked(s, e, c)
  }

  lemma AutomationStep(h: seq<Event>, e: Event, s: Locals, n: nat, c: Config)
    requires s.automationTotal == AutomationErrors(h)
    ensures Update(s, e, n, c).automationTotal == AutomationErrors(h + [e])
  {
    OneMore(h, e);
  }

  lemma HardRecoveryStep(h: seq<Event>, e: Event, s: Locals, n: nat, c: Config)
    requires s.automationRetries == SinceHardRecovery(h)
    ensures Update(s, e, n, c).automationRetries == SinceHardRecovery(h + [e])
  {
    OneMore(h, e);
  }

  lemma UncertainStep(h: seq<Event>, e: Event, s: Locals, n: nat, c: Config)
    requires s.uncertain == UncertainResults(h)
    ensures Update(s, e, n, c).uncertain == UncertainResults(h + [e])
  {
    OneMore(h, e);
  }

  lemma SyntaxStep(h: seq<Event>, e: Event, s: Locals, n: nat, c: Config)
    requires s.syntaxErrors == SyntaxFailures(h)
    ensures Update(s, e, n, c).syntaxErrors == SyntaxFailures(h + [e])
  {
    OneMore(h, e);
  }

  lemma KeysStep(h: seq<Event>, e: Event, s: Locals, n: nat, c: Config)
    requires s.noProgressKey == LastKey(h) && s.noProgressCount == KeyRun(h)
    ensures var t := Update(s, e, n, c); t.noProgressKey == LastKey(h + [e]) && t.noProgressCount == KeyRun(h + [e])
  {
    OneMore(h, e);
  }

  /** A platform error with the same, non-empty text as the last one. */
  predicate Repeats(key: string, e: Event) { IsPlatformError(e) && e.verdict.error != "" && e.verdict.error == key }

  lemma PlatformKeyStep(h: seq<Event>, e: Event)
    ensures LastPlatformError(h + [e]) ==
            if ErrorFree(e) then "" else if IsPlatformError(e) then e.verdict.error else LastPlatformError(h)
  {
    OneMore(h, e);
  }

  lemma RepeatCountStep(h: seq<Event>, e: Event)
    ensures RepeatCount(h + [e]) ==
            if ErrorFree(e) then 0
            else if IsPlatformError(e) then (if Repeats(LastPlatformError(h), e) then RepeatCount(h) else 0) + 1
            else RepeatCount(h)
  {
    OneMore(h, e);
  }

  lemma RecentCodesStep(h: seq<Event>, e: Event)
    ensures RecentCodes(h + [e]) ==
            if ErrorFree(e) then []
            else if IsPlatformError(e) then Push(if Repeats(LastPlatformError(h), e) then RecentCodes(h) else [], e.code)
            else RecentCodes(h)
  {
    OneMore(h, e);
  }

  /** The locals of the platform-error branch after an event, from those before it. */
  lemma PlatformUpdate(s: Locals, e: Event, n: nat, c: Config)
    ensures var t := Update(s, e, n, c);
      && t.platformKey == (if ErrorFree(e) then "" else if IsPlatformError(e) then e.verdict.error else s.platformKey)
      && t.platformRepeats == (if ErrorFree(e) then 0
                               else if IsPlatformError(e) then (if Repeats(s.platformKey, e) then s.platformRepeats else 0) + 1
                               else s.platformRepeats)
      && t.platformCodes == (if ErrorFree(e) then []
                             else if IsPlatformError(e) then Push(if Repeats(s.platformKey, e) then s.platformCodes else [], e.code)
                             else s.platformCodes)
  {}

  lemma PlatformStep(h: seq<Event>, e: Event, s: Locals, n: nat, c: Config)
    requires s.platformKey == LastPlatformError(h) && s.platformRepeats == RepeatCount(h) && s.platformCodes == RecentCodes(h)
    ensures var t := Update(s, e, n, c); var h' := h + [e];
      t.platformKey == LastPlatformError(h') && t.platformRepeats == RepeatCount(h') && t.platformCodes == RecentCodes(h')
  {
    PlatformUpdate(s, e, n, c);
    PlatformKeyStep(h, e);
    RepeatCountStep(h, e);
    RecentCodesStep(h, e);
  }

  lemma TriedStep(h: seq<Event>, e: Event, s: Locals, n: nat, c: Config)
    requires s.lastSubmitted == LastTried(h)
    ensures Update(s, e, n, c).lastSubmitted == LastTried(h + [e])
  {
    OneMore(h, e);
  }

  lemma SkippedStep(h: seq<Event>, e: Event, s: Locals, n: nat, c: Config)
    requires s.skipped == SkippedSet(h)
    ensures Update(s, e, n, c).skipped == SkippedSet(h + [e])
  {
    OneMore(h, e);
  }

  lemma PendingStep(h: seq<Event>, e: Event, s: Locals, n: nat, c: Config)
    requires s.pending == PendingMutation(h) && n == |h + [e]|
    ensures Update(s, e, n, c).pending == PendingMutation(h + [e])
  {
    OneMore(h, e);
  }

  lemma SkipStreakStep(h: seq<Event>, e: Event, s: Locals, n: nat, c: Config)
    requires s.consecutiveSkips == SkipStreak(h) && s.skipDisabled == SkipLimitReached(h, c.MaxSkips())
    ensures var t := Update(s, e, n, c);
      t.consecutiveSkips == SkipStreak(h + [e]) && t.skipDisabled == SkipLimitReached(h + [e], c.MaxSkips())
  {
    OneMore(h, e);
  }

  ghost predicate ErrorsRecalled(h: seq<Event>, s: Locals) {
    && s.automationRetries == SinceHardRecovery(h) && s.automationTotal == AutomationErrors(h)
    && s.uncertain == UncertainResults(h) && s.syntaxErrors == SyntaxFailures(h)
  }

  ghost predicate KeysRecalled(h: seq<Event>, s: Locals) {
    && s.noProgressKey == LastKey(h) && s.noProgressCount == KeyRun(h)
    && s.platformKey == LastPlatformError(h) && s.platformRepeats == RepeatCount(h) && s.platformCodes == RecentCodes(h)
  }

  ghost predicate TriesRecalled(h: seq<Event>, s: Locals, c: Config) {
    && s.lastSubmitted == LastTried(h) && s.pending == PendingMutation(h) && s.skipped == SkippedSet(h)
    && s.consecutiveSkips == SkipStreak(h) && s.skipDisabled == SkipLimitReached(h, c.MaxSkips())
  }

  lemma RecallInParts(h: seq<Event>, s: Locals, c: Config)
    ensures s == Recall(h, c, s.code) <==> ErrorsRecalled(h, s) && KeysRecalled(h, s) && TriesRecalled(h, s, c)
  {}

  lemma ErrorsStep(h: seq<Event>, e: Event, s: Locals, n: nat, c: Config)
    requires ErrorsRecalled(h, s)
    ensures ErrorsRecalled(h + [e], Update(s, e, n, c))
  {
    AutomationStep(h, e, s, n, c);
    HardRecoveryStep(h, e, s, n, c);
    UncertainStep(h, e, s, n, c);
    SyntaxStep(h, e, s, n, c);
  }

  lemma AllKeysStep(h: seq<Event>, e: Event, s: Locals, n: nat, c: Config)
    requires KeysRecalled(h, s)
    ensures KeysRecalled(h + [e], Update(s, e, n, c))
  {
    KeysStep(h, e, s, n, c);
    PlatformStep(h, e, s, n, c);
  }

  lemma TriesStep(h: seq<Event>, e: Event, s: Locals, n: nat, c: Config)
    requires TriesRecalled(h, s, c) && n == |h + [e]|
    ensures TriesRecalled(h + [e], Update(s, e, n, c), c)
  {
    TriedStep(h, e, s, n, c);
    SkippedStep(h, e, s, n, c);
    SkipStreakStep(h, e, s, n, c);
    PendingStep(h, e, s, n, c);
  }

  lemma CodeStays(s: Locals, e: Event, n: nat, c: Config)
    ensures Update(s, e, n, c).code == s.code
  {}

  /** Updating the locals event by event keeps them equal to the functions of the history. */
  lemma RecallStep(h: seq<Event>, e: Event, s: Locals, n: nat, c: Config)
    requires s == Recall(h, c, s.code) && n == |h + [e]|
    ensures Update(s, e, n, c) == Recall(h + [e], c, s.code)
  {
    RecallInParts(h, s, c);
    ErrorsStep(h, e, s, n, c);
    AllKeysStep(h, e, s, n, c);
    TriesStep(h, e, s, n, c);
    CodeStays(s, e, n, c);
    RecallInParts(h + [e], Update(s, e, n, c), c);
  }

  // ---- The branches of the loop ----

  /** The budget a failure names has just been used up. */
  predicate UsedUp(f: Failure, s: Locals, c: Config) {
    match f
    case NoProgress(key) => s.noProgressCount == NO_PROGRESS_LIMIT && s.noProgressKey == key
    case SyntaxExhausted => s.syntaxErrors == c.MaxSyntaxErrors()
    case AutomationBudget => s.automationTotal == RETRY_TOTAL_LIMIT
    case UncertainBudget => s.uncertain == RETRY_TOTAL_LIMIT
  }

  /** Events after which the same code is tried again. */
  predicate KeepsCode(e: Event) {
    || e.SimulatorSkipped?
    || (e.Submitted? && (e.verdict.UncertainError? || e.verdict.AutomationError? || e.verdict.UncertainResult?))
  }

  function NextCode(code: string, e: Event, next: Option<string>): string {
    if KeepsCode(e) || next == None then code else next.value
  }

  /**
   * How an iteration that amounted to `e` ends: it fails if and only if some budget is used up,
   * and on one that is; it succeeds if and only if the result does; it has no code to go on with
   * if and only if it needed new code and got none; or it goes on with the locals updated.
   */
  predicate EndsWell(s: Locals, s': Locals, o: Outcome, e: Event, next: Option<string>, n: nat, c: Config) {
    var t := Update(s, e, n, c);
    && (o.Failed? <==> !WithinBudgets(t, c))
    && (o.Failed? ==> UsedUp(o.failure, t, c) && (o.failure.NoProgress? ==> IsKeyedError(e)))
    && (o == Succeeded <==> IsSubmission(e, Success))
    && (o == NoCode <==> next == None && !KeepsCode(e) && WithinBudgets(t, c) && !IsSubmission(e, Success))
    && (o == Continue ==> s' == t.(code := NextCode(s.code, e, next)))
  }

  /** Placeholders, local syntax errors and platform errors: all the breaker can trip on. */
  predicate IsKeyedError(e: Event) {
    e.Placeholder? || e.SyntaxBlocked? || (e.Submitted? && e.verdict.PlatformError?)
  }

  /** track_no_progress: the new count, and whether the breaker trips. */
  method TrackNoProgress(key: string, s: Locals) returns (s': Locals, tripped: bool)
    ensures s' == Keyed(s, key) && tripped == (s'.noProgressCount >= NO_PROGRESS_LIMIT)
  {
    var count := if key == s.noProgressKey then s.noProgressCount + 1 else 1;
    s' := s.(noProgressKey := key, noProgressCount := count);
    tripped := count >= NO_PROGRESS_LIMIT;
  }

  /** ensure_code: without usable code the loop ends with an exception. */
  method TakeCode(s: Locals, next: Option<string>) returns (s': Locals, o: Outcome)
    ensures s' == s.(code := s'.code) && o == (if next.Some? then Continue else NoCode)
    ensures next.Some? ==> s'.code == next.value
  {
    if next == None { return s, NoCode; }
    return s.(code := next.value), Continue;
  }

  /** A placeholder or a local syntax error: repaired before anything is submitted. */
  method RepairLocally(s: Locals, e: Event, next: Option<string>, n: nat, c: Config) returns (s': Locals, o: Outcome)
    requires WithinBudgets(s, c) && (e.Placeholder? || e.SyntaxBlocked?)
    ensures EndsWell(s, s', o, e, next, n, c)
  {
    var tripped: bool;
    s', tripped := TrackNoProgress(e.key, s);
    if tripped { return s', Failed(NoProgress(e.key)); }
    s' := s'.(syntaxErrors := s'.syntaxErrors + 1);
    if s'.syntaxErrors >= c.MaxSyntaxErrors() { return s', Failed(SyntaxExhausted); }
    s', o := TakeCode(s', next);
  }

  /** Blocked before the backtest without touching any counter. */
  method Regenerate(s: Locals, e: Event, next: Option<string>, n: nat, c: Config) returns (s': Locals, o: Outcome)
    requires WithinBudgets(s, c) && (e.CorrelationBlocked? || e.SkipRegenerated? || e.DuplicateRepaired?)
    ensures EndsWell(s, s', o, e, next, n, c)
  {
    s' := s;
    if e.SkipRegenerated? { s' := s'.(pending := None); }
    s', o := TakeCode(s', next);
  }

  /** The simulator advises against a backtest: the expression is remembered and never submitted. */
  method SkipBacktest(s: Locals, fingerprint: string, next: Option<string>, n: nat, c: Config) returns (s': Locals)
    requires WithinBudgets(s, c)
    ensures EndsWell(s, s', Continue, SimulatorSkipped(fingerprint), next, n, c)
  {
    s' := s;
    if fingerprint != "" { s' := s'.(skipped := s'.skipped + {fingerprint}); }
    s' := s'.(consecutiveSkips := s'.consecutiveSkips + 1, pending := None, lastSubmitted := fingerprint);
    if s'.consecutiveSkips >= c.MaxSkips() { s' := s'.(skipDisabled := true); }
  }

  /** A result whose error is not the code's fault; every third automation error in a row is recovered the hard way. */
  method RetryLater(s: Locals, e: Event, next: Option<string>, n: nat, c: Config) returns (s': Locals, o: Outcome, hardRecovery: bool)
    requires WithinBudgets(s, c) && s.automationRetries < 3
    requires IsSubmission(e, UncertainError) || IsSubmission(e, AutomationError)
    ensures EndsWell(s, s', o, e, next, n, c)
    ensures hardRecovery ==> e.verdict.AutomationError?
    ensures o == Continue && e.verdict.AutomationError? ==> (hardRecovery <==> s'.automationRetries == 0)
  {
    hardRecovery := false;
    s' := s.(consecutiveSkips := 0, lastSubmitted := e.fingerprint);
    if e.verdict.UncertainError? {
      s' := s'.(uncertain := s'.uncertain + 1);
      if s'.uncertain >= RETRY_TOTAL_LIMIT { return s', Failed(UncertainBudget), false; }
    } else {
      s' := s'.(automationRetries := s'.automationRetries + 1, automationTotal := s'.automationTotal + 1);
      if s'.automationTotal >= RETRY_TOTAL_LIMIT { return s', Failed(AutomationBudget), false; }
      if s'.automationRetries >= 3 {
        hardRecovery := true;
        s' := s'.(automationRetries := 0);
      }
    }
    s' := s'.(lastSubmitted := "");
    o := Continue;
  }

  /** Platform errors in a row with the same, non-empty text. */
  method CountRepeat(s: Locals, error: string) returns (s': Locals)
    ensures var repeated := error != "" && error == s.platformKey;
      s' == s.(platformKey := error, platformRepeats := if repeated then s.platformRepeats + 1 else 1,
               platformCodes := if repeated then s.platformCodes else [])
  {
    if error != "" && error == s.platformKey {
      s' := s.(platformRepeats := s.platformRepeats + 1);
    } else {
      s' := s.(platformRepeats := 1, platformKey := error, platformCodes := []);
    }
  }

  /** The platform rejected the code. */
  method RepairPlatformError(s: Locals, e: Event, next: Option<string>, n: nat, c: Config) returns (s': Locals, o: Outcome)
    requires WithinBudgets(s, c) && e.Submitted? && e.verdict.PlatformError? && e.code == s.code
    ensures EndsWell(s, s', o, e, next, n, c)
  {
    var error := e.verdict.error;
    s' := s.(consecutiveSkips := 0, lastSubmitted := e.fingerprint, automationRetries := 0);
    if e.verdict.syntaxText {
      s' := s'.(syntaxErrors := s'.syntaxErrors + 1);
      if s'.syntaxErrors >= c.MaxSyntaxErrors() { return s', Failed(SyntaxExhausted); }
    }
    s' := CountRepeat(s', error);
    var tripped: bool;
    s', tripped := TrackNoProgress(e.key, s');
    if tripped { return s', Failed(NoProgress(e.key)); }
    s' := s'.(platformCodes := Push(s'.platformCodes, s.code), pending := None);
    s', o := TakeCode(s', next);
  }

  predicate IsUncertain(r: Result) {
    if r.templateSuccess || r.qualityPassed then false
    else if r.resultUncertain || r.successCandidate then true
    else (r.error.Some? && r.error.value != "" && r.transientText) || r.blankText || r.unknownEmpty
  }

  predicate IsAutomation(text: string) { Mentions(text, "[AUTOMATION]") && !Mentions(text, "[FINAL_CORRELATION]") }

  /** The verdict on a result without an error. */
  function VerdictOf(r: Result, mutated: bool): Verdict {
    if IsUncertain(r) then UncertainResult
    else if r.qualityPassed || r.templateSuccess then Success
    else QualityMiss(mutated)
  }

  /** A result without an error: the error counters start over. */
  method JudgeResult(s: Locals, e: Event, r: Result, next: Option<string>, n: nat, c: Config) returns (s': Locals, o: Outcome)
    requires WithinBudgets(s, c) && r.error == None
    requires e.Submitted? && e.verdict == VerdictOf(r, e.verdict.QualityMiss? && e.verdict.mutated)
    ensures EndsWell(s, s', o, e, next, n, c)
    ensures o == Succeeded <==> IsGood(r)
    ensures o == Failed(UncertainBudget) ==> IsUnclear(r) && s'.uncertain == 9
  {
    s' := s.(consecutiveSkips := 0, lastSubmitted := e.fingerprint);
    s' := s'.(automationRetries := 0, automationTotal := 0, noProgressKey := "", noProgressCount := 0,
              syntaxErrors := 0, platformRepeats := 0, platformKey := "", platformCodes := []);
    if IsUncertain(r) {
      s' := s'.(uncertain := s'.uncertain + 1);
      if s'.uncertain >= RETRY_TOTAL_LIMIT { return s', Failed(UncertainBudget); }
      return s'.(lastSubmitted := ""), Continue;
    }
    s' := s'.(uncertain := 0, pending := None);
    if r.qualityPassed || r.templateSuccess { return s', Succeeded; }
    var tripped: bool;
    s', tripped := TrackNoProgress(e.key, s');
    // The count starts over with every result, so a quality miss alone never trips the breaker.
    assert !tripped;
    if e.verdict.mutated { s' := s'.(pending := Some(n)); }
    s', o := TakeCode(s', next);
  }

  // ---- One iteration, and the loop ----

  /** The checks that can keep the code from being submitted, in the program's order. */
  function Gate(s: Locals, turn: Turn, c: Config): Option<Event> {
    var fingerprint := c.fingerprintOf(s.code);
    if turn.placeholder.Some? then Some(Placeholder("placeholder:" + c.normalize(turn.placeholder.value) + "|" + fingerprint))
    else if turn.syntax.Some? then Some(SyntaxBlocked("syntax:" + c.normalize(turn.syntax.value) + "|" + fingerprint))
    else if !turn.correlationOk then Some(CorrelationBlocked)
    else if fingerprint != "" && fingerprint in s.skipped then Some(SkipRegenerated)
    else if fingerprint == s.lastSubmitted then Some(DuplicateRepaired)
    else if turn.simulatorSkips then Some(SimulatorSkipped(fingerprint))
    else None
  }

  /** The event a backtest amounts to. */
  function Submission(s: Locals, turn: Turn, c: Config): (e: Event)
    ensures e.Submitted? && e.fingerprint == c.fingerprintOf(s.code) && e.code == s.code
  {
    var fingerprint := c.fingerprintOf(s.code);
    var r := turn.result;
    if r.error == None then
      Submitted(fingerprint, s.code, VerdictOf(r, turn.mutationAccepted),
                "quality:" + c.normalize(turn.failureReason) + "|" + fingerprint)
    else if IsUncertain(r) then Submitted(fingerprint, s.code, UncertainError, "")
    else if IsAutomation(r.error.value) then Submitted(fingerprint, s.code, AutomationError, "")
    else
      var error := c.normalize(r.error.value);
      Submitted(fingerprint, s.code, PlatformError(error, turn.syntaxText), "platform:" + error + "|" + fingerprint)
  }

  function EventOf(s: Locals, turn: Turn, c: Config): Event {
    if Gate(s, turn, c).Some? then Gate(s, turn, c).value else Submission(s, turn, c)
  }

  // ---- What a turn amounts to, in the turn's own words ----

  /** The event names the first check that stops the code, and is a submission if and only if none does. */
  ghost predicate StopsRightly(e: Event, fingerprint: string, lastTried: string, skipped: set<string>, turn: Turn) {
    var legal := turn.placeholder == None && turn.syntax == None;
    var unlike := legal && turn.correlationOk;
    var known := fingerprint != "" && fingerprint in skipped;
    && (e.Placeholder? <==> turn.placeholder != None)
    && (e.SyntaxBlocked? <==> turn.placeholder == None && turn.syntax != None)
    && (e == CorrelationBlocked <==> legal && !turn.correlationOk)
    && (e == SkipRegenerated <==> unlike && known)
    && (e == DuplicateRepaired <==> unlike && !known && fingerprint == lastTried)
    && (e == SimulatorSkipped(fingerprint) <==> unlike && !known && fingerprint != lastTried && turn.simulatorSkips)
    && (e.Submitted? <==> unlike && !known && fingerprint != lastTried && !turn.simulatorSkips)
  }

  /** A result without an error that the platform or the template's own rule accepts. */
  ghost predicate IsGood(r: Result) { r.error == None && (r.qualityPassed || r.templateSuccess) }

  /** Nothing was accepted, and something says that the page could not be read yet. */
  ghost predicate IsUnclear(r: Result) {
    && !r.qualityPassed && !r.templateSuccess
    && (r.resultUncertain || r.successCandidate || r.blankText || r.unknownEmpty
        || (r.transientText && r.error != None && r.error != Some("")))
  }

  ghost predicate BlamesPage(text: string) { Holds(text, "[AUTOMATION]") && !Holds(text, "[FINAL_CORRELATION]") }

  /** The verdict on a submission is the one its result calls for. */
  ghost predicate JudgesRightly(e: Event, turn: Turn)
    requires e.Submitted?
  {
    var r := turn.result;
    && (e.verdict == Success <==> IsGood(r))
    && (e.verdict == UncertainResult <==> r.error == None && IsUnclear(r))
    && (e.verdict.QualityMiss? <==> r.error == None && !IsUnclear(r) && !r.qualityPassed && !r.templateSuccess)
    && (e.verdict.QualityMiss? ==> e.verdict.mutated == turn.mutationAccepted)
    && (e.verdict == UncertainError <==> r.error != None && IsUnclear(r))
    && (e.verdict == AutomationError <==> r.error != None && !IsUnclear(r) && BlamesPage(r.error.value))
    && (e.verdict.PlatformError? <==> r.error != None && !IsUnclear(r) && !BlamesPage(r.error.value))
    && (e.verdict.PlatformError? ==> e.verdict.syntaxText == turn.syntaxText)
  }

  /** The texts an event carries. */
  ghost predicate NamesRightly(e: Event, code: string, turn: Turn, c: Config) {
    var fingerprint := c.fingerprintOf(code);
    match e
    case Placeholder(key) =>
      turn.placeholder != None && key == "placeholder:" + c.normalize(turn.placeholder.value) + "|" + fingerprint
    case SyntaxBlocked(key) => turn.syntax != None && key == "syntax:" + c.normalize(turn.syntax.value) + "|" + fingerprint
    case SimulatorSkipped(f) => f == fingerprint
    case Submitted(f, tried, verdict, key) =>
      && f == fingerprint && tried == code
      && (verdict.QualityMiss? ==> key == "quality:" + c.normalize(turn.failureReason) + "|" + fingerprint)
      && (verdict.PlatformError? ==>
            && turn.result.error != None && verdict.error == c.normalize(turn.result.error.value)
            && key == "platform:" + verdict.error + "|" + fingerprint)
    case _ => true
  }

  ghost predicate Explains(e: Event, code: string, lastTried: string, skipped: set<string>, turn: Turn, c: Config) {
    && StopsRightly(e, c.fingerprintOf(code), lastTried, skipped, turn)
    && (e.Submitted? ==> JudgesRightly(e, turn))
    && NamesRightly(e, code, turn, c)
  }

  lemma UnclearIff(r: Result)
    ensures IsUncertain(r) <==> IsUnclear(r)
  {}

  lemma BlamesPageIff(text: string)
    ensures IsAutomation(text) <==> BlamesPage(text)
  {
    MentionsIff(text, "[AUTOMATION]");
    MentionsIff(text, "[FINAL_CORRELATION]");
  }

  lemma SubmissionJudges(s: Locals, turn: Turn, c: Config)
    ensures JudgesRightly(Submission(s, turn, c), turn)
  {
    UnclearIff(turn.result);
    if turn.result.error.Some? { BlamesPageIff(turn.result.error.value); }
  }

  /** Whatever the turn holds, the event is the one it calls for. */
  lemma EventExplained(s: Locals, turn: Turn, c: Config)
    ensures Explains(EventOf(s, turn, c), s.code, s.lastSubmitted, s.skipped, turn, c)
  {
    if Gate(s, turn, c) == None { SubmissionJudges(s, turn, c); }
  }

  /** What follows the backtest. */
  method Backtest(s: Locals, e: Event, turn: Turn, n: nat, c: Config) returns (s': Locals, o: Outcome)
    requires WithinBudgets(s, c) && s.automationRetries < 3 && e == Submission(s, turn, c)
    ensures EndsWell(s, s', o, e, turn.nextCode, n, c)
  {
    var r := turn.result;
    if r.error == None {
      s', o := JudgeResult(s, e, r, turn.nextCode, n, c);
    } else if IsUncertain(r) || IsAutomation(r.error.value) {
      var hardRecovery: bool;
      s', o, hardRecovery := RetryLater(s, e, turn.nextCode, n, c);
    } else {
      s', o := RepairPlatformError(s, e, turn.nextCode, n, c);
    }
  }

  method Iterate(s: Locals, turn: Turn, n: nat, c: Config) returns (s': Locals, e: Event, o: Outcome)
    requires WithinBudgets(s, c) && s.automationRetries < 3
    ensures e == EventOf(s, turn, c) && EndsWell(s, s', o, e, turn.nextCode, n, c)
    ensures Explains(e, s.code, s.lastSubmitted, s.skipped, turn, c)
    ensures o == Succeeded <==> e.Submitted? && IsGood(turn.result)
  {
    EventExplained(s, turn, c);
    var gate := Gate(s, turn, c);
    if gate == None {
      e := Submission(s, turn, c);
      s', o := Backtest(s, e, turn, n, c);
      return;
    }
    e := gate.value;
    match e {
      case Placeholder(_) => s', o := RepairLocally(s, e, turn.nextCode, n, c);
      case SyntaxBlocked(_) => s', o := RepairLocally(s, e, turn.nextCode, n, c);
      case SimulatorSkipped(f) =>
        s' := SkipBacktest(s, f, turn.nextCode, n, c);
        o := Continue;
      case _ => s', o := Regenerate(s, e, turn.nextCode, n, c);
    }
  }

  /** Nine page errors or unclear results, the limit of syntax failures, or one key eight times in a row. */
  ghost predicate Exhausted(h: seq<Event>, c: Config) {
    || |Since(h, {PageError}, RESULTS)| >= 9
    || |Since(h, {UnclearError, UnclearResult}, {Miss, Good})| >= 9
    || |Since(h, {AtPlaceholder, AtSyntax, SyntaxError}, RESULTS)| >= SyntaxLimit(c)
    || exists key :: |SameKey(h, key)| >= 8
  }

  ghost function SyntaxLimit(c: Config): int { if c.maxIterations > 0 then c.maxIterations else 12 }

  lemma ExhaustedIff(h: seq<Event>, c: Config, code: string)
    ensures Exhausted(h, c) <==> !WithinBudgets(Recall(h, c, code), c)
  {
    CountersMean(h);
    KeyRunMeans(h);
    forall key | |SameKey(h, key)| >= 8 ensures LastKey(h) == key {
      var i :| i in SameKey(h, key);
      SameKeyIsLast(h, key, i);
    }
  }

  /** The budget a failure names has just been used up; the breaker trips only on placeholders, syntax and platform errors. */
  ghost predicate FailsOnBudget(f: Failure, h: seq<Event>, c: Config) {
    h != [] &&
    match f
    case NoProgress(key) => |SameKey(h, key)| == 8 && KindOf(Latest(h)) in {AtPlaceholder, AtSyntax, CodeError, SyntaxError}
    case SyntaxExhausted => |Since(h, {AtPlaceholder, AtSyntax, SyntaxError}, RESULTS)| == SyntaxLimit(c)
    case AutomationBudget => |Since(h, {PageError}, RESULTS)| == 9
    case UncertainBudget => |Since(h, {UnclearError, UnclearResult}, {Miss, Good})| == 9
  }

  lemma FailureMeans(h: seq<Event>, c: Config, code: string, f: Failure)
    requires h != [] && UsedUp(f, Recall(h, c, code), c) && (f.NoProgress? ==> IsKeyedError(Latest(h)))
    ensures FailsOnBudget(f, h, c)
  {
    CountersMean(h);
    KeyRunMeans(h);
  }

  /** Kinds after which the same code is tried again. */
  ghost const RETRIED: set<Kind> := {BySimulator, UnclearError, PageError, UnclearResult}

  ghost predicate Wins(e: Event, turn: Turn) { e.Submitted? && IsGood(turn.result) }

  ghost predicate LacksCode(e: Event, turn: Turn) { KindOf(e) !in RETRIED && turn.nextCode == None }

  /** After `h` there is a reason to stop neither in the budgets nor in the last turn. */
  ghost predicate GoesOn(h: seq<Event>, turns: seq<Turn>, c: Config)
    requires |h| <= |turns|
  {
    !Exhausted(h, c) && (h != [] ==> !Wins(Latest(h), turns[|h| - 1]) && !LacksCode(Latest(h), turns[|h| - 1]))
  }

  ghost predicate WentOn(h: seq<Event>, turns: seq<Turn>, c: Config)
    requires |h| <= |turns|
  {
    forall k {:trigger h[k]} | 0 <= k < |h| :: GoesOn(h[..k], turns, c)
  }

  lemma WentOnExtends(h: seq<Event>, e: Event, turns: seq<Turn>, c: Config)
    requires |h| < |turns| && WentOn(h, turns, c) && GoesOn(h, turns, c)
    ensures WentOn(h + [e], turns, c)
  {
    var h' := h + [e];
    forall k | 0 <= k < |h'| ensures GoesOn(h'[..k], turns, c) {
      if k == |h| { assert h'[..k] == h; } else { assert h'[..k] == h[..k] && h[k] == h'[k]; }
    }
  }

  lemma ExtendHistory(h: seq<Event>, e: Event, s: Locals, turn: Turn, c: Config)
    requires NothingWasted(h) && s == Recall(h, c, s.code) && e == EventOf(s, turn, c)
    ensures NothingWasted(h + [e])
  {
    SkippedSetNonEmpty(h);
    var h' := h + [e];
    forall k | 0 <= k < |h'| && h'[k].Submitted?
      ensures h'[k].fingerprint !in SkippedSet(h'[..k]) && h'[k].fingerprint != LastTried(h'[..k])
    {
      if k == |h| { assert h'[..k] == h; } else { assert h'[..k] == h[..k] && h[k] == h'[k]; }
    }
  }

  lemma {:induction false} SkippedSetNonEmpty(h: seq<Event>)
    ensures "" !in SkippedSet(h)
  {
    if h != [] { SkippedSetNonEmpty(Before(h)); }
  }

  /** What holds at the head of the loop. */
  ghost predicate InStep(h: seq<Event>, s: Locals, c: Config) {
    s == Recall(h, c, s.code) && WithinBudgets(s, c) && NothingWasted(h)
  }

  lemma InStepInitially(code: string, c: Config)
    ensures InStep([], Fresh(code), c)
  {}

  /** How the iteration that adds `e` to `h` ends, in the world's terms. */
  ghost predicate EndsRightly(o: Outcome, h: seq<Event>, turn: Turn, c: Config)
    requires h != []
  {
    && (o == Succeeded <==> Wins(Latest(h), turn))
    && (o.Failed? <==> Exhausted(h, c))
    && (o.Failed? ==> FailsOnBudget(o.failure, h, c))
    && (o == NoCode <==> LacksCode(Latest(h), turn) && !Wins(Latest(h), turn) && !Exhausted(h, c))
  }

  lemma StepKeeps(h: seq<Event>, s: Locals, turn: Turn, s': Locals, e: Event, o: Outcome, n: nat, c: Config)
    requires InStep(h, s, c) && e == EventOf(s, turn, c) && n == |h + [e]| && EndsWell(s, s', o, e, turn.nextCode, n, c)
    ensures NothingWasted(h + [e])
    ensures o == Continue ==> InStep(h + [e], s', c)
  {
    ExtendHistory(h, e, s, turn, c);
    RecallStep(h, e, s, n, c);
    RecallAnyCode(h + [e], c, s.code, s'.code);
  }

  /** From the locals, which are the functions of the history, to the history itself. */
  lemma EndsOnHistory(h: seq<Event>, turn: Turn, s: Locals, s': Locals, e: Event, o: Outcome, n: nat, c: Config)
    requires h != [] && Latest(h) == e && Update(s, e, n, c) == Recall(h, c, s.code)
    requires EndsWell(s, s', o, e, turn.nextCode, n, c)
    requires IsSubmission(e, Success) <==> Wins(e, turn)
    ensures EndsRightly(o, h, turn, c)
  {
    ExhaustedIff(h, c, s.code);
    if o.Failed? { FailureMeans(h, c, s.code, o.failure); }
  }

  lemma StepEnds(h: seq<Event>, s: Locals, turn: Turn, s': Locals, e: Event, o: Outcome, n: nat, c: Config)
    requires InStep(h, s, c) && e == EventOf(s, turn, c) && n == |h + [e]| && EndsWell(s, s', o, e, turn.nextCode, n, c)
    ensures EndsRightly(o, h + [e], turn, c)
  {
    RecallStep(h, e, s, n, c);
    EventExplained(s, turn, c);
    OneMore(h, e);
    EndsOnHistory(h + [e], turn, s, s', e, o, n, c);
  }

  lemma RecallAnyCode(h: seq<Event>, c: Config, code: string, other: string)
    ensures Recall(h, c, other) == Recall(h, c, code).(code := other)
  {}

  /**
   * `h` is what `turns` make of the template when the codes tried are `codes`: each event is the
   * one its turn calls for after those before it, and new code is taken exactly when it is needed.
   */
  ghost predicate IsRun(h: seq<Event>, codes: seq<string>, initial: string, turns: seq<Turn>, c: Config) {
    && |h| <= |turns| && |h| <= |codes| <= |h| + 1 && codes != [] && codes[0] == initial
    && EventsExplained(h, codes, turns, c) && CodesFollow(codes, h, turns)
  }

  ghost predicate EventsExplained(h: seq<Event>, codes: seq<string>, turns: seq<Turn>, c: Config)
    requires |h| <= |turns| && |h| <= |codes|
  {
    forall k {:trigger h[k]} | 0 <= k < |h| :: ExplainedAfter(h[..k], codes[k], turns[k], h[k], c)
  }

  ghost predicate ExplainedAfter(before: seq<Event>, code: string, turn: Turn, e: Event, c: Config) {
    Explains(e, code, LastTried(before), SkippedSet(before), turn, c)
  }

  ghost predicate CodesFollow(codes: seq<string>, h: seq<Event>, turns: seq<Turn>)
    requires |h| <= |turns| && |codes| <= |h| + 1
  {
    forall k {:trigger codes[k]} | 0 < k < |codes| :: CodeFollows(codes[k - 1], codes[k], h[k - 1], turns[k - 1])
  }

  ghost predicate CodeFollows(code: string, next: string, e: Event, turn: Turn) {
    if KindOf(e) in RETRIED then next == code else turn.nextCode == Some(next)
  }

  lemma RunGrows(h: seq<Event>, codes: seq<string>, initial: string, turns: seq<Turn>, c: Config, e: Event)
    requires IsRun(h, codes, initial, turns, c) && |codes| == |h| + 1 && |h| < |turns|
    requires ExplainedAfter(h, codes[|h|], turns[|h|], e, c)
    ensures IsRun(h + [e], codes, initial, turns, c)
  {
    var h' := h + [e];
    forall k | 0 <= k < |h'| ensures ExplainedAfter(h'[..k], codes[k], turns[k], h'[k], c) {
      assert h'[..k] == h[..k];
      if k == |h| { assert h'[..k] == h; }
    }
  }

  lemma CodesGrow(h: seq<Event>, codes: seq<string>, initial: string, turns: seq<Turn>, c: Config, code: string)
    requires IsRun(h, codes, initial, turns, c) && |codes| == |h| && h != []
    requires CodeFollows(codes[|h| - 1], code, h[|h| - 1], turns[|h| - 1])
    ensures IsRun(h, codes + [code], initial, turns, c)
  {
    forall k | 0 <= k < |h| ensures ExplainedAfter(h[..k], (codes + [code])[k], turns[k], h[k], c) {
      assert (codes + [code])[k] == codes[k];
    }
    FollowsOn(codes, h, turns, code);
  }

  lemma FollowsOn(codes: seq<string>, h: seq<Event>, turns: seq<Turn>, code: string)
    requires |h| <= |turns| && |codes| == |h| && h != [] && CodesFollow(codes, h, turns)
    requires CodeFollows(codes[|h| - 1], code, h[|h| - 1], turns[|h| - 1])
    ensures CodesFollow(codes + [code], h, turns)
  {}

  lemma NextCodeFollows(s: Locals, s': Locals, e: Event, turn: Turn, n: nat, c: Config)
    requires EndsWell(s, s', Continue, e, turn.nextCode, n, c)
    ensures CodeFollows(s.code, s'.code, e, turn)
  {}

  datatype Ending = Ended(outcome: Outcome) | LimitReached | CutShort

  /** Every way to end, with exactly when it is taken. */
  ghost predicate EndsAs(ending: Ending, h: seq<Event>, turns: seq<Turn>, c: Config)
    requires |h| <= |turns|
  {
    && (ending == Ended(Succeeded) <==> h != [] && Wins(Latest(h), turns[|h| - 1]))
    && (ending.Ended? && ending.outcome.Failed? <==> Exhausted(h, c))
    && (ending.Ended? && ending.outcome.Failed? ==> FailsOnBudget(ending.outcome.failure, h, c))
    && (ending.Ended? <==> !GoesOn(h, turns, c))
    && (ending == LimitReached ==> |h| == c.maxIterations)
    && (ending == CutShort <==> GoesOn(h, turns, c) && |h| == |turns|)
  }

  lemma EndedAs(o: Outcome, h: seq<Event>, turns: seq<Turn>, c: Config)
    requires 0 < |h| <= |turns| && EndsRightly(o, h, turns[|h| - 1], c)
    ensures o != Continue ==> EndsAs(Ended(o), h, turns, c)
    ensures o == Continue ==> GoesOn(h, turns, c)
  {}

  lemma StoppedAs(h: seq<Event>, turns: seq<Turn>, c: Config)
    requires |h| <= |turns| && GoesOn(h, turns, c)
    ensures |h| < |turns| && |h| == c.maxIterations ==> EndsAs(LimitReached, h, turns, c)
    ensures |h| == |turns| ==> EndsAs(CutShort, h, turns, c)
  {}

  /** What holds at the head of the loop, `h` being the history and `codes` the codes so far. */
  ghost predicate AtHead(h: seq<Event>, codes: seq<string>, initial: string, turns: seq<Turn>, s: Locals, c: Config) {
    && InStep(h, s, c) && IsRun(h, codes, initial, turns, c) && |codes| == |h| + 1 && codes[|h|] == s.code
    && WentOn(h, turns, c) && GoesOn(h, turns, c)
  }

  lemma AtHeadInitially(initial: string, turns: seq<Turn>, c: Config)
    ensures AtHead([], [initial], initial, turns, Fresh(initial), c)
  {
    InStepInitially(initial, c);
    ExhaustedIff([], c, initial);
  }

  lemma HistoryGoesOn(h: seq<Event>, codes: seq<string>, initial: string, turns: seq<Turn>, s: Locals, c: Config, e: Event)
    requires |h| < |turns| && AtHead(h, codes, initial, turns, s, c) && e == EventOf(s, turns[|h|], c)
    ensures IsRun(h + [e], codes, initial, turns, c) && WentOn(h + [e], turns, c)
  {
    EventExplained(s, turns[|h|], c);
    RunGrows(h, codes, initial, turns, c, e);
    WentOnExtends(h, e, turns, c);
  }

  lemma CodeGoesOn(h: seq<Event>, codes: seq<string>, initial: string, turns: seq<Turn>, s: Locals, c: Config, s': Locals, e: Event)
    requires 0 < |h| <= |turns| && IsRun(h, codes, initial, turns, c) && |codes| == |h| && codes[|h| - 1] == s.code
    requires h[|h| - 1] == e && EndsWell(s, s', Continue, e, turns[|h| - 1].nextCode, |h|, c)
    ensures IsRun(h, codes + [s'.code], initial, turns, c)
  {
    NextCodeFollows(s, s', e, turns[|h| - 1], |h|, c);
    CodesGrow(h, codes, initial, turns, c, s'.code);
  }

  lemma AfterEvent(
      h: seq<Event>, codes: seq<string>, initial: string, turns: seq<Turn>, s: Locals, c: Config, s': Locals, e: Event, o: Outcome)
    requires |h| < |turns| && AtHead(h, codes, initial, turns, s, c)
    requires e == EventOf(s, turns[|h|], c) && EndsWell(s, s', o, e, turns[|h|].nextCode, |h| + 1, c)
    ensures IsRun(h + [e], codes, initial, turns, c) && WentOn(h + [e], turns, c) && NothingWasted(h + [e])
    ensures if o == Continue then GoesOn(h + [e], turns, c) && InStep(h + [e], s', c) else EndsAs(Ended(o), h + [e], turns, c)
  {
    HistoryGoesOn(h, codes, initial, turns, s, c, e);
    StepKeeps(h, s, turns[|h|], s', e, o, |h| + 1, c);
    StepEnds(h, s, turns[|h|], s', e, o, |h| + 1, c);
    EndedAs(o, h + [e], turns, c);
  }

  lemma BackAtHead(
      h: seq<Event>, codes: seq<string>, initial: string, turns: seq<Turn>, s: Locals, c: Config, s': Locals, e: Event)
    requires 0 < |h| <= |turns| && IsRun(h, codes, initial, turns, c) && |codes| == |h| && codes[|h| - 1] == s.code
    requires h[|h| - 1] == e && EndsWell(s, s', Continue, e, turns[|h| - 1].nextCode, |h|, c)
    requires InStep(h, s', c) && WentOn(h, turns, c) && GoesOn(h, turns, c)
    ensures AtHead(h, codes + [s'.code], initial, turns, s', c)
  {
    CodeGoesOn(h, codes, initial, turns, s, c, s', e);
  }

  lemma AfterIteration(
      h: seq<Event>, codes: seq<string>, initial: string, turns: seq<Turn>, s: Locals, c: Config, s': Locals, e: Event, o: Outcome)
    requires |h| < |turns| && AtHead(h, codes, initial, turns, s, c)
    requires e == EventOf(s, turns[|h|], c) && EndsWell(s, s', o, e, turns[|h|].nextCode, |h| + 1, c)
    ensures IsRun(h + [e], codes, initial, turns, c) && WentOn(h + [e], turns, c) && NothingWasted(h + [e])
    ensures if o == Continue then AtHead(h + [e], codes + [s'.code], initial, turns, s', c)
            else EndsAs(Ended(o), h + [e], turns, c)
  {
    AfterEvent(h, codes, initial, turns, s, c, s', e, o);
    if o == Continue { BackAtHead(h + [e], codes, initial, turns, s, c, s', e); }
  }

  /**
   * The loop over whatever `turns` the world provides. `h` is its history. It goes on until one
   * of three things first happens, and ends accordingly: a submission is good, a budget is used
   * up, or new code is needed and there is none; otherwise at the iteration limit. No submission
   * repeats what was skipped or tried last.
   */
  method ProcessTemplate(initial: string, turns: seq<Turn>, c: Config) returns (ending: Ending, h: seq<Event>, codes: seq<string>)
    ensures IsRun(h, codes, initial, turns, c) && NothingWasted(h)
    ensures WentOn(h, turns, c) && EndsAs(ending, h, turns, c)
    ensures c.maxIterations > 0 ==> |h| <= c.maxIterations
  {
    var s := Fresh(initial);
    h, codes := [], [initial];
    AtHeadInitially(initial, turns, c);
    var iteration := 0;
    while iteration < |turns|
      invariant iteration == |h| <= |turns| && (c.maxIterations > 0 ==> iteration <= c.maxIterations)
      invariant AtHead(h, codes, initial, turns, s, c)
    {
      if c.maxIterations > 0 && iteration >= c.maxIterations {
        StoppedAs(h, turns, c);
        return LimitReached, h, codes;
      }
      var turn := turns[iteration];
      iteration := iteration + 1;
      var s', e, o := Iterate(s, turn, iteration, c);
      AfterIteration(h, codes, initial, turns, s, c, s', e, o);
      h := h + [e];
      if o != Continue { return Ended(o), h, codes; }
      s := s';
      codes := codes + [s.code];
    }
    StoppedAs(h, turns, c);
    ending := CutShort;
  }

  // ---- What NothingWasted is worth ----

  /** An expression once skipped by the simulator is never backtested later in that template. */
  lemma {:induction false} SkippedIsNeverSubmitted(h: seq<Event>, i: nat, k: nat)
    requires NothingWasted(h) && i < k < |h| && h[i].SimulatorSkipped? && h[i].fingerprint != "" && h[k].Submitted?
    ensures h[k].fingerprint != h[i].fingerprint
  {
    StaysSkipped(h, i, k);
  }

  lemma {:induction false} StaysSkipped(h: seq<Event>, i: nat, k: nat)
    requires i < k <= |h| && h[i].SimulatorSkipped? && h[i].fingerprint != ""
    ensures h[i].fingerprint in SkippedSet(h[..k])
    decreases k
  {
    assert Before(h[..k]) == h[..k - 1];
    if i < k - 1 { StaysSkipped(h, i, k - 1); }
  }

  /**
   * A submission never repeats the fingerprint most recently submitted or skipped, unless that
   * submission ended in an automation error or an uncertain result.
   */
  lemma {:induction false} NeverTwiceInARow(h: seq<Event>, i: nat, k: nat)
    requires NothingWasted(h) && i < k < |h| && h[k].Submitted?
    requires h[i].SimulatorSkipped? || (h[i].Submitted? && (h[i].verdict.PlatformError? || IsCertain(h[i].verdict)))
    requires forall j | i < j < k :: !h[j].Submitted? && !h[j].SimulatorSkipped?
    ensures h[k].fingerprint != h[i].fingerprint
  {
    StillLastTried(h, i, k);
  }

  lemma {:induction false} StillLastTried(h: seq<Event>, i: nat, k: nat)
    requires i < k <= |h|
    requires h[i].SimulatorSkipped? || (h[i].Submitted? && (h[i].verdict.PlatformError? || IsCertain(h[i].verdict)))
    requires forall j | i < j < k :: !h[j].Submitted? && !h[j].SimulatorSkipped?
    ensures LastTried(h[..k]) == h[i].fingerprint
    decreases k
  {
    assert Before(h[..k]) == h[..k - 1];
    if i < k - 1 { StillLastTried(h, i, k - 1); }
  }
}
