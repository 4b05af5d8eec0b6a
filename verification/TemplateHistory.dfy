/**
 * What can happen in one iteration over a template, and the histories such events make up: what
 * every counter, key and flag of the loop should be is read off the positions of the events.
 */
module TemplateHistory {
  import opened Common

  // ---- What one iteration amounts to ----

  datatype Verdict =
    | UncertainError
    | AutomationError
    | PlatformError(error: string, syntaxText: bool)
    | UncertainResult
    | QualityMiss(mutated: bool)
    | Success

  datatype Event =
    | Placeholder(key: string)
    | SyntaxBlocked(key: string)
    | CorrelationBlocked
    | SkipRegenerated
    | DuplicateRepaired
    | SimulatorSkipped(fingerprint: string)
    | Submitted(fingerprint: string, code: string, verdict: Verdict, key: string)

  /** A result without an error, and one that is certain as well. */
  predicate ErrorFree(e: Event) { e.Submitted? && (e.verdict.UncertainResult? || IsCertain(e.verdict)) }

  predicate IsCertain(v: Verdict) { v.QualityMiss? || v.Success? }

  predicate IsSubmission(e: Event, v: Verdict) { e.Submitted? && e.verdict == v }

  /** Automation errors since the last result without an error. */
  function AutomationErrors(h: seq<Event>): nat {
    if h == [] || ErrorFree(Latest(h)) then 0
    else AutomationErrors(Before(h)) + if IsSubmission(Latest(h), AutomationError) then 1 else 0
  }

  /** Automation errors since the last submission that got past the page. */
  function AutomationStreak(h: seq<Event>): nat {
    if h == [] || ErrorFree(Latest(h)) || (Latest(h).Submitted? && Latest(h).verdict.PlatformError?) then 0
    else AutomationStreak(Before(h)) + if IsSubmission(Latest(h), AutomationError) then 1 else 0
  }

  /** The same count, starting over at every third one, when the page is recovered the hard way. */
  function SinceHardRecovery(h: seq<Event>): (n: nat)
    ensures n < 3
  {
    if h == [] || ErrorFree(Latest(h)) || (Latest(h).Submitted? && Latest(h).verdict.PlatformError?) then 0
    else
      var before := SinceHardRecovery(Before(h));
      if !IsSubmission(Latest(h), AutomationError) then before
      else if before == 2 then 0
      else before + 1
  }

  /** So hard recovery happens exactly at every third automation error of a streak. */
  lemma {:induction false} HardRecoveryEveryThird(h: seq<Event>)
    ensures SinceHardRecovery(h) == AutomationStreak(h) % 3
  {
    if h != [] { HardRecoveryEveryThird(Before(h)); }
  }

  /** Uncertain results since the last certain result without an error. */
  function UncertainResults(h: seq<Event>): nat {
    if h == [] || (Latest(h).Submitted? && IsCertain(Latest(h).verdict)) then 0
    else
      UncertainResults(Before(h))
      + if IsSubmission(Latest(h), UncertainError) || IsSubmission(Latest(h), UncertainResult) then 1 else 0
  }

  predicate IsSyntaxFailure(e: Event) {
    e.Placeholder? || e.SyntaxBlocked? || (e.Submitted? && e.verdict.PlatformError? && e.verdict.syntaxText)
  }

  /** Syntax failures, local or reported by the platform, since the last result without an error. */
  function SyntaxFailures(h: seq<Event>): nat {
    if h == [] || ErrorFree(Latest(h)) then 0
    else SyntaxFailures(Before(h)) + if IsSyntaxFailure(Latest(h)) then 1 else 0
  }

  /** Events that count for the no-progress breaker, with their key. */
  predicate IsKeyed(e: Event) {
    e.Placeholder? || e.SyntaxBlocked? || (e.Submitted? && (e.verdict.PlatformError? || e.verdict.QualityMiss?))
  }

  /** The key of the last keyed event since the last error-free result, that result included. */
  function LastKey(h: seq<Event>): string {
    if h == [] then ""
    else if IsKeyed(Latest(h)) then Latest(h).key
    else if ErrorFree(Latest(h)) then ""
    else LastKey(Before(h))
  }

  /** How many keyed events in a row, since the last error-free result, carry that key. */
  function KeyRun(h: seq<Event>): nat {
    if h == [] then 0
    else if ErrorFree(Latest(h)) then (if IsKeyed(Latest(h)) then 1 else 0)
    else if IsKeyed(Latest(h)) then (if Latest(h).key == LastKey(Before(h)) then KeyRun(Before(h)) + 1 else 1)
    else KeyRun(Before(h))
  }

  /** The codes of the current run of platform errors with one and the same text. */
  function RepeatedErrors(h: seq<Event>): seq<string> {
    if h == [] || ErrorFree(Latest(h)) then []
    else if IsPlatformError(Latest(h)) then (if RepeatsLast(h) then RepeatedErrors(Before(h)) else []) + [Latest(h).code]
    else RepeatedErrors(Before(h))
  }

  lemma {:induction false} RecentCodesMeans(h: seq<Event>)
    ensures var all := RepeatedErrors(h);
      RepeatCount(h) == |all| && RecentCodes(h) == if |all| <= 3 then all else all[|all| - 3..]
  {
    if h != [] { RecentCodesMeans(Before(h)); }
  }

  /** How long that run is, and its last three codes. */
  function RepeatCount(h: seq<Event>): nat {
    if h == [] || ErrorFree(Latest(h)) then 0
    else if IsPlatformError(Latest(h)) then (if RepeatsLast(h) then RepeatCount(Before(h)) else 0) + 1
    else RepeatCount(Before(h))
  }

  function RecentCodes(h: seq<Event>): seq<string> {
    if h == [] || ErrorFree(Latest(h)) then []
    else if IsPlatformError(Latest(h)) then Push(if RepeatsLast(h) then RecentCodes(Before(h)) else [], Latest(h).code)
    else RecentCodes(Before(h))
  }

  predicate IsPlatformError(e: Event) { e.Submitted? && e.verdict.PlatformError? }

  predicate RepeatsLast(h: seq<Event>)
    requires h != [] && IsPlatformError(Latest(h))
  {
    Latest(h).verdict.error != "" && Latest(h).verdict.error == LastPlatformError(Before(h))
  }

  /** Append a code and keep the last three. */
  function Push(codes: seq<string>, code: string): seq<string> {
    var all := codes + [code];
    if |all| <= 3 then all else all[|all| - 3..]
  }

  function LastPlatformError(h: seq<Event>): string {
    if h == [] || ErrorFree(Latest(h)) then ""
    else if Latest(h).Submitted? && Latest(h).verdict.PlatformError? then Latest(h).verdict.error
    else LastPlatformError(Before(h))
  }

  /** Fingerprints the simulator has skipped in this template. */
  function SkippedSet(h: seq<Event>): set<string> {
    if h == [] then {}
    else SkippedSet(Before(h)) +
         if Latest(h).SimulatorSkipped? && Latest(h).fingerprint != "" then {Latest(h).fingerprint} else {}
  }

  /** Skips since the last submission. */
  function SkipStreak(h: seq<Event>): nat {
    if h == [] || Latest(h).Submitted? then 0
    else SkipStreak(Before(h)) + if Latest(h).SimulatorSkipped? then 1 else 0
  }

  predicate SkipLimitReached(h: seq<Event>, limit: int) {
    h != [] && (SkipLimitReached(Before(h), limit) || (Latest(h).SimulatorSkipped? && SkipStreak(h) >= limit))
  }

  /** The last submitted or skipped fingerprint, forgotten after an automation or uncertain result. */
  function LastTried(h: seq<Event>): string {
    if h == [] then ""
    else match Latest(h)
      case SimulatorSkipped(f) => f
      case Submitted(f, _, v, _) => if v.PlatformError? || IsCertain(v) then f else ""
      case _ => LastTried(Before(h))
  }

  /** The iteration whose mutation is waiting for its result. */
  function PendingMutation(h: seq<Event>): Option<nat> {
    if h == [] then None
    else match Latest(h)
      case SkipRegenerated | SimulatorSkipped(_) => None
      case Submitted(_, _, PlatformError(_, _), _) => None
      case Submitted(_, _, QualityMiss(mutated), _) => if mutated then Some(|h|) else None
      case Submitted(_, _, Success, _) => None
      case _ => PendingMutation(Before(h))
  }

  // ---- The same, by positions ----

  /** Every event is of one of these kinds. */
  datatype Kind =
    | AtPlaceholder | AtSyntax | AtCorrelation | AtKnownSkip | AtDuplicate | BySimulator
    | UnclearError | PageError | CodeError | SyntaxError | UnclearResult | Miss | Good

  ghost function KindOf(e: Event): Kind {
    match e
    case Placeholder(_) => AtPlaceholder
    case SyntaxBlocked(_) => AtSyntax
    case CorrelationBlocked => AtCorrelation
    case SkipRegenerated => AtKnownSkip
    case DuplicateRepaired => AtDuplicate
    case SimulatorSkipped(_) => BySimulator
    case Submitted(_, _, UncertainError, _) => UnclearError
    case Submitted(_, _, AutomationError, _) => PageError
    case Submitted(_, _, PlatformError(_, syntaxText), _) => if syntaxText then SyntaxError else CodeError
    case Submitted(_, _, UncertainResult, _) => UnclearResult
    case Submitted(_, _, QualityMiss(_), _) => Miss
    case Submitted(_, _, Success, _) => Good
  }

  /** Results without an error, and all submissions. */
  ghost const RESULTS: set<Kind> := {UnclearResult, Miss, Good}
  ghost const SUBMISSIONS: set<Kind> := {UnclearError, PageError, CodeError, SyntaxError, UnclearResult, Miss, Good}

  /** Where events of the kinds `counts` stand with none of the kinds `resets` there or later. */
  ghost function Since(h: seq<Event>, counts: set<Kind>, resets: set<Kind>): set<nat> {
    set i: nat {:trigger h[i]} | i < |h| && KindOf(h[i]) in counts && NoneFrom(h, i, resets)
  }

  ghost predicate NoneFrom(h: seq<Event>, i: nat, resets: set<Kind>) {
    forall j {:trigger h[j]} | i <= j < |h| :: KindOf(h[j]) !in resets
  }

  lemma NoneFromStep(h: seq<Event>, i: nat, resets: set<Kind>)
    requires i < |h|
    ensures NoneFrom(h, i, resets) <==> NoneFrom(Before(h), i, resets) && KindOf(Latest(h)) !in resets
  {
    var b := Before(h);
    assert h[|h| - 1] == Latest(h);
    forall j | i <= j < |b| ensures b[j] == h[j] {}
  }

  lemma StaysSince(h: seq<Event>, counts: set<Kind>, resets: set<Kind>, i: nat)
    requires h != [] && i < |h| - 1
    ensures i in Since(h, counts, resets) <==> i in Since(Before(h), counts, resets) && KindOf(Latest(h)) !in resets
  {
    NoneFromStep(h, i, resets);
    assert Before(h)[i] == h[i];
  }

  /** From the positions before the last event to those after it: they all stay or all go, and the last may join. */
  lemma OnePositionMore(before: set<nat>, after: set<nat>, n: nat, stay: bool, joins: bool)
    requires (forall i | i in before :: i < n) && (forall i | i in after :: i <= n)
    requires n in after <==> joins
    requires forall i: nat | i < n :: i in after <==> i in before && stay
    ensures |after| == (if stay then |before| else 0) + if joins then 1 else 0
  {
    var kept := if stay then before else {};
    if joins { assert after == kept + {n}; } else { assert after == kept; }
  }

  lemma SinceStep(h: seq<Event>, counts: set<Kind>, resets: set<Kind>)
    requires h != []
    ensures |Since(h, counts, resets)| ==
            if KindOf(Latest(h)) in resets then 0
            else |Since(Before(h), counts, resets)| + if KindOf(Latest(h)) in counts then 1 else 0
  {
    var stays := KindOf(Latest(h)) !in resets;
    forall i: nat | i < |h| - 1
      ensures i in Since(h, counts, resets) <==> i in Since(Before(h), counts, resets) && stays
    {
      StaysSince(h, counts, resets, i);
    }
    OnePositionMore(Since(Before(h), counts, resets), Since(h, counts, resets), |h| - 1, stays,
                    stays && KindOf(Latest(h)) in counts);
  }

  lemma {:induction false} PageErrorsMean(h: seq<Event>)
    ensures AutomationErrors(h) == |Since(h, {PageError}, RESULTS)|
    ensures AutomationStreak(h) == |Since(h, {PageError}, RESULTS + {CodeError, SyntaxError})|
  {
    if h != [] {
      PageErrorsMean(Before(h));
      SinceStep(h, {PageError}, RESULTS);
      SinceStep(h, {PageError}, RESULTS + {CodeError, SyntaxError});
    }
  }

  lemma {:induction false} UnclearMean(h: seq<Event>)
    ensures UncertainResults(h) == |Since(h, {UnclearError, UnclearResult}, {Miss, Good})|
  {
    if h != [] {
      UnclearMean(Before(h));
      SinceStep(h, {UnclearError, UnclearResult}, {Miss, Good});
    }
  }

  lemma {:induction false} SyntaxMean(h: seq<Event>)
    ensures SyntaxFailures(h) == |Since(h, {AtPlaceholder, AtSyntax, SyntaxError}, RESULTS)|
  {
    if h != [] {
      SyntaxMean(Before(h));
      SinceStep(h, {AtPlaceholder, AtSyntax, SyntaxError}, RESULTS);
    }
  }

  lemma {:induction false} SkipsMean(h: seq<Event>)
    ensures SkipStreak(h) == |Since(h, {BySimulator}, SUBMISSIONS)|
  {
    if h != [] {
      SkipsMean(Before(h));
      SinceStep(h, {BySimulator}, SUBMISSIONS);
    }
  }

  /** What each counter of the loop counts, and since when. */
  lemma CountersMean(h: seq<Event>)
    ensures AutomationErrors(h) == |Since(h, {PageError}, RESULTS)|
    ensures AutomationStreak(h) == |Since(h, {PageError}, RESULTS + {CodeError, SyntaxError})|
    ensures UncertainResults(h) == |Since(h, {UnclearError, UnclearResult}, {Miss, Good})|
    ensures SyntaxFailures(h) == |Since(h, {AtPlaceholder, AtSyntax, SyntaxError}, RESULTS)|
    ensures SkipStreak(h) == |Since(h, {BySimulator}, SUBMISSIONS)|
  {
    PageErrorsMean(h);
    UnclearMean(h);
    SyntaxMean(h);
    SkipsMean(h);
  }

  /** The skipped fingerprints are those of the simulator's skips, the empty one aside. */
  lemma {:induction false} SkippedMeans(h: seq<Event>, fingerprint: string)
    ensures fingerprint in SkippedSet(h) <==>
            fingerprint != "" && exists i {:trigger h[i]} | 0 <= i < |h| :: h[i] == SimulatorSkipped(fingerprint)
  {
    if h != [] {
      var b := Before(h);
      SkippedMeans(b, fingerprint);
      assert h[|h| - 1] == Latest(h);
      forall i | 0 <= i < |b| ensures b[i] == h[i] {}
    }
  }

  /** Skipping is switched off by the first skip that is `limit` or more in a row, and for good. */
  lemma {:induction false} SkipLimitMeans(h: seq<Event>, limit: int)
    ensures SkipLimitReached(h, limit) <==>
            exists i {:trigger h[i]} | 0 <= i < |h| ::
              h[i].SimulatorSkipped? && |Since(h[..i + 1], {BySimulator}, SUBMISSIONS)| >= limit
  {
    if h != [] {
      var b, n := Before(h), |h| - 1;
      SkipLimitMeans(b, limit);
      SkipsMean(h);
      assert h[..n + 1] == h && h[n] == Latest(h);
      forall i | 0 <= i < n ensures b[i] == h[i] && b[..i + 1] == h[..i + 1] {}
    }
  }

  /** The fingerprint that may not be tried again at once. */
  ghost predicate IsTry(e: Event) { e.SimulatorSkipped? || e.Submitted? }

  ghost predicate NoTryFrom(h: seq<Event>, i: nat) { forall j {:trigger h[j]} | i <= j < |h| :: !IsTry(h[j]) }

  /** `i` is the last submission or skip: its fingerprint counts unless the page or an unclear result is to blame. */
  lemma {:induction false} LastTriedMeans(h: seq<Event>, i: nat)
    requires i < |h| && IsTry(h[i]) && NoTryFrom(h, i + 1)
    ensures LastTried(h) ==
            if KindOf(h[i]) in {BySimulator, CodeError, SyntaxError, Miss, Good} then h[i].fingerprint else ""
  {
    if i < |h| - 1 {
      var b := Before(h);
      assert h[|h| - 1] == Latest(h) && b[i] == h[i];
      forall j | i + 1 <= j < |b| ensures !IsTry(b[j]) { assert b[j] == h[j]; }
      LastTriedMeans(b, i);
    }
  }

  lemma {:induction false} NothingTried(h: seq<Event>)
    requires NoTryFrom(h, 0)
    ensures LastTried(h) == ""
  {
    if h != [] {
      assert h[|h| - 1] == Latest(h);
      forall j | 0 <= j < |Before(h)| ensures !IsTry(Before(h)[j]) { assert Before(h)[j] == h[j]; }
      NothingTried(Before(h));
    }
  }

  /** A mutation waits from the miss that accepted it until the next skip, platform error or certain result. */
  lemma {:induction false} PendingMeans(h: seq<Event>, n: nat)
    ensures PendingMutation(h) == Some(n) <==>
            && 0 < n <= |h| && h[n - 1].Submitted? && h[n - 1].verdict == QualityMiss(true)
            && NoneFrom(h, n, {AtKnownSkip, BySimulator, CodeError, SyntaxError, Miss, Good})
  {
    if h != [] {
      var b, m := Before(h), |h| - 1;
      PendingMeans(b, n);
      assert h[m] == Latest(h);
      if 0 < n <= m {
        assert b[n - 1] == h[n - 1];
        NoneFromStep(h, n, {AtKnownSkip, BySimulator, CodeError, SyntaxError, Miss, Good});
      }
    }
  }

  /** The kinds that count for the no-progress breaker. */
  ghost const KEYED: set<Kind> := {AtPlaceholder, AtSyntax, CodeError, SyntaxError, Miss}

  /** Where `key` stands with no other key and no result without an error after it. */
  ghost function SameKey(h: seq<Event>, key: string): set<nat> {
    set i: nat {:trigger h[i]} | i < |h| && KindOf(h[i]) in KEYED && h[i].key == key && OnlyKey(h, i + 1, key)
  }

  ghost predicate OnlyKey(h: seq<Event>, i: nat, key: string) {
    NoneFrom(h, i, RESULTS) && forall j {:trigger h[j]} | i <= j < |h| && KindOf(h[j]) in KEYED :: h[j].key == key
  }

  lemma IsKeyedMeans(e: Event)
    ensures IsKeyed(e) <==> KindOf(e) in KEYED
    ensures ErrorFree(e) <==> KindOf(e) in RESULTS
  {}

  lemma OnlyKeyStep(h: seq<Event>, i: nat, key: string)
    requires i < |h|
    ensures OnlyKey(h, i, key) <==>
            && OnlyKey(Before(h), i, key) && KindOf(Latest(h)) !in RESULTS
            && (KindOf(Latest(h)) in KEYED ==> Latest(h).key == key)
  {
    NoneFromStep(h, i, RESULTS);
    assert h[|h| - 1] == Latest(h);
    forall j | i <= j < |h| - 1 ensures Before(h)[j] == h[j] {}
  }

  /** Whichever key has such a position is the one remembered. */
  lemma {:induction false} SameKeyIsLast(h: seq<Event>, key: string, i: nat)
    requires i in SameKey(h, key)
    ensures LastKey(h) == key
  {
    IsKeyedMeans(Latest(h));
    if i < |h| - 1 {
      OnlyKeyStep(h, i + 1, key);
      assert Before(h)[i] == h[i];
      if KindOf(Latest(h)) !in KEYED { SameKeyIsLast(Before(h), key, i); }
    }
  }

  lemma SameKeyStays(h: seq<Event>, key: string, i: nat)
    requires h != [] && i < |h| - 1
    ensures i in SameKey(h, key) <==>
            && i in SameKey(Before(h), key) && KindOf(Latest(h)) !in RESULTS
            && (KindOf(Latest(h)) in KEYED ==> Latest(h).key == key)
  {
    OnlyKeyStep(h, i + 1, key);
    assert Before(h)[i] == h[i];
  }

  lemma SameKeyStep(h: seq<Event>, key: string)
    requires h != []
    ensures var stays := KindOf(Latest(h)) !in RESULTS && (KindOf(Latest(h)) in KEYED ==> Latest(h).key == key);
      |SameKey(h, key)| == (if stays then |SameKey(Before(h), key)| else 0)
                           + if KindOf(Latest(h)) in KEYED && Latest(h).key == key then 1 else 0
  {
    var stays := KindOf(Latest(h)) !in RESULTS && (KindOf(Latest(h)) in KEYED ==> Latest(h).key == key);
    forall i: nat | i < |h| - 1 ensures i in SameKey(h, key) <==> i in SameKey(Before(h), key) && stays {
      SameKeyStays(h, key, i);
    }
    OnePositionMore(SameKey(Before(h), key), SameKey(h, key), |h| - 1, stays, KindOf(Latest(h)) in KEYED && Latest(h).key == key);
  }

  /** The breaker counts how often the last key has come in a row since the last result. */
  lemma {:induction false} KeyRunMeans(h: seq<Event>)
    ensures KeyRun(h) == |SameKey(h, LastKey(h))|
  {
    if h != [] {
      IsKeyedMeans(Latest(h));
      KeyRunMeans(Before(h));
      SameKeyStep(h, LastKey(h));
      if IsKeyed(Latest(h)) && Latest(h).key != LastKey(Before(h)) {
        forall i: nat ensures i !in SameKey(Before(h), Latest(h).key) {
          if i in SameKey(Before(h), Latest(h).key) { SameKeyIsLast(Before(h), Latest(h).key, i); }
        }
        assert SameKey(Before(h), Latest(h).key) == {};
      }
    }
  }

  /** The key remembered is that of the last keyed event, the empty one if there is none since the last result. */
  lemma {:induction false} LastKeyMeans(h: seq<Event>, i: nat)
    requires i < |h| && KindOf(h[i]) in KEYED && NoneFrom(h, i + 1, KEYED)
    ensures LastKey(h) == if NoneFrom(h, i + 1, RESULTS) then h[i].key else ""
  {
    IsKeyedMeans(Latest(h));
    if i < |h| - 1 {
      NoneFromStep(h, i + 1, KEYED);
      NoneFromStep(h, i + 1, RESULTS);
      assert Before(h)[i] == h[i];
      LastKeyMeans(Before(h), i);
    }
  }

  lemma {:induction false} NoKeyYet(h: seq<Event>)
    requires NoneFrom(h, 0, KEYED)
    ensures LastKey(h) == ""
  {
    if h != [] {
      IsKeyedMeans(Latest(h));
      NoneFromStep(h, 0, KEYED);
      NoKeyYet(Before(h));
    }
  }

  /** Platform errors with no result and no other platform error text after them. */
  ghost function SameText(h: seq<Event>): set<nat> {
    set i: nat {:trigger h[i]} | i < |h| && KindOf(h[i]) in {CodeError, SyntaxError} && OnlyText(h, i + 1, h[i].verdict.error)
  }

  ghost predicate OnlyText(h: seq<Event>, i: nat, text: string) {
    && NoneFrom(h, i, RESULTS)
    && forall j {:trigger h[j]} | i <= j < |h| && KindOf(h[j]) in {CodeError, SyntaxError} :: h[j].verdict.error == text != ""
  }

  lemma OnlyTextStep(h: seq<Event>, i: nat, text: string)
    requires i < |h|
    ensures OnlyText(h, i, text) <==>
            && OnlyText(Before(h), i, text) && KindOf(Latest(h)) !in RESULTS
            && (KindOf(Latest(h)) in {CodeError, SyntaxError} ==> Latest(h).verdict.error == text != "")
  {
    NoneFromStep(h, i, RESULTS);
    assert h[|h| - 1] == Latest(h);
    forall j | i <= j < |h| - 1 ensures Before(h)[j] == h[j] {}
  }

  lemma {:induction false} SameTextIsLast(h: seq<Event>, i: nat)
    requires i in SameText(h)
    ensures LastPlatformError(h) == h[i].verdict.error
  {
    IsKeyedMeans(Latest(h));
    if i < |h| - 1 {
      OnlyTextStep(h, i + 1, h[i].verdict.error);
      assert Before(h)[i] == h[i];
      SameTextIsLast(Before(h), i);
    }
  }

  /** The last event leaves the run of platform errors with one text as it is, or longer. */
  ghost predicate TextStays(h: seq<Event>)
    requires h != []
  {
    KindOf(Latest(h)) !in RESULTS && (KindOf(Latest(h)) in {CodeError, SyntaxError} ==> RepeatsLast(h))
  }

  lemma SameTextStays(h: seq<Event>, i: nat)
    requires h != [] && i < |h| - 1
    ensures i in SameText(h) <==> i in SameText(Before(h)) && TextStays(h)
  {
    assert Before(h)[i] == h[i];
    if KindOf(h[i]) in {CodeError, SyntaxError} {
      OnlyTextStep(h, i + 1, h[i].verdict.error);
      if i in SameText(Before(h)) { SameTextIsLast(Before(h), i); }
    }
  }

  lemma LastJoinsText(h: seq<Event>)
    requires h != []
    ensures |h| - 1 in SameText(h) <==> KindOf(Latest(h)) in {CodeError, SyntaxError}
    ensures (forall i | i in SameText(h) :: i <= |h| - 1) && (forall i | i in SameText(Before(h)) :: i < |h| - 1)
  {}

  lemma SameTextStep(h: seq<Event>)
    requires h != []
    ensures |SameText(h)| == (if TextStays(h) then |SameText(Before(h))| else 0)
                             + if KindOf(Latest(h)) in {CodeError, SyntaxError} then 1 else 0
  {
    forall i: nat | i < |h| - 1 ensures i in SameText(h) <==> i in SameText(Before(h)) && TextStays(h) { SameTextStays(h, i); }
    LastJoinsText(h);
    OnePositionMore(SameText(Before(h)), SameText(h), |h| - 1, TextStays(h), KindOf(Latest(h)) in {CodeError, SyntaxError});
  }

  /** The codes of all platform errors so far. */
  ghost function PlatformCodes(h: seq<Event>): seq<string> {
    if h == [] then [] else PlatformCodes(Before(h)) + if KindOf(Latest(h)) in {CodeError, SyntaxError} then [Latest(h).code] else []
  }

  lemma {:induction false} RepeatCountMeans(h: seq<Event>)
    ensures RepeatCount(h) == |SameText(h)|
  {
    if h != [] {
      IsKeyedMeans(Latest(h));
      RepeatCountMeans(Before(h));
      SameTextStep(h);
    }
  }

  /** Those codes are the last of all the codes rejected so far. */
  lemma {:induction false} RepeatedCodesAreLast(h: seq<Event>) returns (earlier: seq<string>)
    ensures PlatformCodes(h) == earlier + RepeatedErrors(h)
  {
    earlier := [];
    if h != [] {
      IsKeyedMeans(Latest(h));
      earlier := RepeatedCodesAreLast(Before(h));
      if ErrorFree(Latest(h)) {
        earlier := PlatformCodes(h);
      } else if IsPlatformError(Latest(h)) {
        if RepeatsLast(h) {
          Regroup(earlier, RepeatedErrors(Before(h)), [Latest(h).code]);
        } else {
          earlier := PlatformCodes(Before(h));
          assert RepeatedErrors(h) == [Latest(h).code];
        }
      }
    }
  }
}
