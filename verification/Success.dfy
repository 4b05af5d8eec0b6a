/**
 * The success verdict: detection on one text, confirmation of a candidate, and the polling
 * loop that lets a candidate become a success.
 */
module Success {
  import opened Common

  datatype Signal = StrongZeroFail | AverageZeroFail | ValidPayload | ScoreThreshold | ExpressionPresent

  datatype Reason =
    | NotRevealed | FailCountNonzero | GradeMissing | FailCountMissing | ScopeMissing
    | StrongWithZeroFail | AverageWithZeroFail | CandidateStabilized

  /** What the recognisers report about a result text. */
  datatype Features = Features(
    hasScope: bool, average: bool, strong: bool, failCount: Option<nat>, needsImprovement: bool,
    validPayload: bool, thresholdsMet: bool, expressionPresent: bool, blank: bool, hasStatusCounts: bool)

  datatype Detection = Detection(
    templateSuccess: bool, average: bool, failCount: Option<nat>, revealed: bool, reason: Reason, strong: bool,
    candidate: bool, uncertain: bool, signals: seq<Signal>)

  function When(condition: bool, s: Signal): seq<Signal> { if condition then [s] else [] }

  function Signals(f: Features): seq<Signal> {
    if !f.hasScope || (f.failCount.Some? && f.failCount.value != 0) || f.needsImprovement then []
    else
      When(f.strong && f.failCount == Some(0), StrongZeroFail)
      + When(f.average && f.failCount == Some(0), AverageZeroFail)
      + When(f.validPayload, ValidPayload) + When(f.thresholdsMet, ScoreThreshold)
      + When(f.expressionPresent, ExpressionPresent)
  }

  predicate FailsNonzero(d: Detection) { d.failCount.Some? && d.failCount.value != 0 }

  /** detect_template_success, branch by branch. */
  function Detect(f: Features, revealed: bool): (d: Detection) {
    var signals := Signals(f);
    var candidate := signals != [] && (f.failCount == None || f.failCount == Some(0));
    var uncertain := candidate || f.blank || (f.hasScope && !f.hasStatusCounts);
    if !revealed then
      Detection(false, f.average, f.failCount, false, NotRevealed, f.strong, candidate, uncertain, signals)
    else if f.failCount.Some? && f.failCount.value != 0 then
      Detection(false, f.average, f.failCount, true, FailCountNonzero, f.strong, false, false, [])
    else if !f.average && !f.strong then
      Detection(false, false, f.failCount, true, GradeMissing, false, candidate, uncertain, signals)
    else if f.failCount == None then
      Detection(false, f.average, None, true, FailCountMissing, f.strong, candidate, uncertain, signals)
    else if !f.hasScope then
      Detection(false, f.average, f.failCount, true, ScopeMissing, f.strong, false, false, [])
    else if f.strong then
      Detection(true, f.average, Some(0), true, StrongWithZeroFail, true, true, false,
                if signals != [] then signals else [StrongZeroFail])
    else
      Detection(true, true, Some(0), true, AverageWithZeroFail, false, true, false,
                if signals != [] then signals else [AverageZeroFail])
  }

  ghost predicate NoFailures(f: Features) { f.failCount == None || f.failCount == Some(0) }

  /** In scope, without failures or a call for improvement, graded with an explicit zero, or past the thresholds, or with the expression. */
  ghost predicate ShowsStrongSign(f: Features) {
    && f.hasScope && !f.needsImprovement && NoFailures(f)
    && ((f.failCount == Some(0) && (f.strong || f.average)) || f.thresholdsMet || f.expressionPresent)
  }

  /** The same, or with a payload that parses. */
  ghost predicate ShowsSign(f: Features) {
    ShowsStrongSign(f) || (f.hasScope && !f.needsImprovement && NoFailures(f) && f.validPayload)
  }

  lemma SuccessIff(f: Features, revealed: bool)
    ensures Detect(f, revealed).templateSuccess <==> revealed && f.hasScope && f.failCount == Some(0) && (f.average || f.strong)
  {}

  lemma CandidateIff(f: Features, revealed: bool)
    ensures Detect(f, revealed).candidate <==> Detect(f, revealed).templateSuccess || ShowsSign(f)
  {
    SignalsIff(f);
    SuccessIff(f, revealed);
  }

  lemma UncertainIff(f: Features, revealed: bool)
    ensures Detect(f, revealed).uncertain <==>
              && (ShowsSign(f) || f.blank || (f.hasScope && !f.hasStatusCounts))
              && !(revealed && f.failCount.Some? && (f.failCount.value > 0 || f.average || f.strong))
  {
    SignalsIff(f);
  }

  /**
   * Direct success, characterised on the text: a revealed result with an explicit zero fail
   * count, inside a result scope, graded average or strong. A candidate is such a result or one
   * that shows a sign; it is uncertain unless the revealed result settles the matter.
   */
  lemma DetectMeans(f: Features, revealed: bool)
    ensures var d := Detect(f, revealed);
      && (d.templateSuccess <==> revealed && f.hasScope && f.failCount == Some(0) && (f.average || f.strong))
      && (d.candidate <==> d.templateSuccess || ShowsSign(f))
      && (d.uncertain <==>
            && (ShowsSign(f) || f.blank || (f.hasScope && !f.hasStatusCounts))
            && !(revealed && f.failCount.Some? && (f.failCount.value > 0 || f.average || f.strong)))
      && d.failCount == f.failCount && d.revealed == revealed && d.average == f.average && d.strong == f.strong
  {
    SuccessIff(f, revealed);
    CandidateIff(f, revealed);
    UncertainIff(f, revealed);
  }

  /** Only a payload that parses is too weak a signal to be confirmed by a second read. */
  lemma CanStabilizeIff(f: Features, revealed: bool)
    ensures CanStabilize(Detect(f, revealed)) <==> Detect(f, revealed).templateSuccess || ShowsStrongSign(f)
  {
    StrongSignalIff(f);
    DetectMeans(f, revealed);
    SignalsIff(f);
    assert Strong(StrongZeroFail) && Strong(AverageZeroFail);
    assert StrongZeroFail in [StrongZeroFail] && AverageZeroFail in [AverageZeroFail];
  }

  lemma SignalsIff(f: Features)
    ensures Signals(f) != [] <==> ShowsSign(f)
  {
    StrongSignalIff(f);
    if ShowsSign(f) && f.validPayload { assert ValidPayload in Signals(f); }
  }

  lemma StrongSignalIff(f: Features)
    ensures (exists s <- Signals(f) :: Strong(s)) <==> ShowsStrongSign(f)
  {
    if ShowsStrongSign(f) {
      assert f.strong && f.failCount == Some(0) ==> StrongZeroFail in Signals(f);
      assert f.average && f.failCount == Some(0) ==> AverageZeroFail in Signals(f);
      assert f.thresholdsMet ==> ScoreThreshold in Signals(f);
      assert f.expressionPresent ==> ExpressionPresent in Signals(f);
    }
  }

  function Confirm(d: Detection, reason: Reason): (c: Detection)
    ensures FailsNonzero(c) <==> FailsNonzero(d)
    ensures c.templateSuccess <==> d.templateSuccess || (d.candidate && !FailsNonzero(d))
  {
    if !d.candidate || FailsNonzero(d) then d
    else d.(templateSuccess := true, uncertain := false, reason := reason)
  }

  predicate Strong(s: Signal) { s != ValidPayload }

  predicate CanStabilize(d: Detection) { exists s <- d.signals :: Strong(s) }

  // ---- The confirmation loop ----

  const SUCCESS_CONFIRM_POLLS: nat := 4
  const SUCCESS_CANDIDATE_STABLE_READS: nat := 2

  /** A result text that was read: its fingerprint, empty only for blank text, and what is recognised in it. */
  datatype Page = Page(fingerprint: string, features: Features, revealed: bool)

  /** The read as the loop sees it: with what was detected. */
  datatype Read = Read(fingerprint: string, d: Detection)

  function ReadOf(page: Page): (r: Read)
    ensures Sound(r.d)
  {
    DetectIsSound(page.features, page.revealed);
    Read(page.fingerprint, Detect(page.features, page.revealed))
  }

  function ReadsOf(polls: seq<Option<Page>>): (r: seq<Option<Read>>)
    ensures |r| == |polls| && forall k | 0 <= k < |r| && r[k].Some? :: Sound(r[k].value.d)
  {
    seq(|polls|, k requires 0 <= k < |polls| => if polls[k].Some? then Some(ReadOf(polls[k].value)) else None)
  }

  /** What every detection satisfies. */
  predicate Sound(d: Detection) {
    && (d.candidate ==> !FailsNonzero(d))
    && (d.templateSuccess ==> d.failCount == Some(0) && d.candidate)
  }

  lemma DetectIsSound(f: Features, revealed: bool)
    ensures Sound(Detect(f, revealed))
  {
    DetectMeans(f, revealed);
  }

  /** The reads that came back, in order; a failed fetch leaves no trace. */
  function Fetched(first: Read, polls: seq<Option<Read>>): (r: seq<Read>)
    ensures r != []
  {
    if polls == [] then [first]
    else
      var before := Fetched(first, polls[..|polls| - 1]);
      match polls[|polls| - 1]
      case None => before
      case Some(read) => before + [read]
  }

  function LastRead(first: Read, polls: seq<Option<Read>>): Read { Latest(Fetched(first, polls)) }

  /** Candidate reads in a row, at the end, with one and the same non-empty fingerprint. */
  function StableRun(seen: seq<Read>): (n: nat)
    ensures n <= |seen|
  {
    if seen == [] then 0
    else
      var last := seen[|seen| - 1];
      var before := seen[..|seen| - 1];
      if !last.d.candidate || last.fingerprint == "" then 0
      else if StableRun(before) > 0 && before[|before| - 1].fingerprint == last.fingerprint then StableRun(before) + 1
      else 1
  }

  /**
   * Why success may be returned after the reads `seen`: the last one is a success by itself, or
   * the last two are candidates with one non-empty fingerprint and the last shows a strong signal.
   */
  predicate Justified(seen: seq<Read>) {
    seen != [] &&
    var last := seen[|seen| - 1];
    || last.d.templateSuccess
    || (&& |seen| >= 2 && last.d.candidate && CanStabilize(last.d)
        && seen[|seen| - 2].d.candidate && seen[|seen| - 2].fingerprint == last.fingerprint != "")
  }

  lemma StableTwice(seen: seq<Read>)
    requires |seen| >= 2
    ensures StableRun(seen) >= 2 <==>
              && seen[|seen| - 1].d.candidate && seen[|seen| - 2].d.candidate
              && seen[|seen| - 2].fingerprint == seen[|seen| - 1].fingerprint != ""
  {
    var before := seen[..|seen| - 1];
    assert before[|before| - 1] == seen[|seen| - 2];
  }

  /** What the loop remembers of the reads `seen`. */
  predicate Remembers(lastFingerprint: string, stableReads: nat, seen: seq<Read>) {
    && seen != [] && stableReads == StableRun(seen)
    && lastFingerprint == if seen[|seen| - 1].d.candidate then seen[|seen| - 1].fingerprint else ""
  }

  /** One successful read: return its detection, the confirmed one, or go on. */
  method Weigh(read: Read, lastFingerprint: string, stableReads: nat, ghost seen: seq<Read>)
    returns (d: Detection, stop: bool, last': string, stable': nat)
    requires Remembers(lastFingerprint, stableReads, seen) && Sound(read.d)
    ensures d.templateSuccess <==> Justified(seen + [read])
    ensures if d.templateSuccess then !FailsNonzero(d) else d == read.d
    ensures stop <==> Justified(seen + [read]) || FailsNonzero(read.d)
    ensures !stop ==> Remembers(last', stable', seen + [read])
  {
    StableTwice(seen + [read]);
    assert (seen + [read])[..|seen|] == seen;
    d, stop, last', stable' := read.d, true, lastFingerprint, stableReads;
    if d.templateSuccess { return; }
    if FailsNonzero(d) { return; }
    if d.candidate {
      if read.fingerprint != "" && read.fingerprint == lastFingerprint {
        stable' := stableReads + 1;
      } else {
        stable' := if read.fingerprint != "" then 1 else 0;
        last' := read.fingerprint;
      }
      if stable' >= SUCCESS_CANDIDATE_STABLE_READS && CanStabilize(d) {
        d := Confirm(d, CandidateStabilized);
        return;
      }
    } else {
      stable' := 0;
      last' := "";
    }
    stop := false;
  }

  /**
   * The loop. `used` polls were made. A returned success has no failed check, and it was
   * detected on the last read or confirmed by the last two successful ones; a failed fetch
   * neither helps nor hurts. Success is returned at the first poll that justifies it, and the
   * loop gives up early only on a nonzero fail count or on a first read that is no candidate.
   */
  method StabilizeSuccessVisibility(first: Page, polls: seq<Option<Page>>) returns (d: Detection, ghost used: nat)
    requires |polls| == 4
    ensures used <= 4
    ensures d.templateSuccess <==> Justified(Fetched(ReadOf(first), ReadsOf(polls)[..used]))
    ensures d.templateSuccess ==> !FailsNonzero(d)
    ensures used > 0 ==> NotYet(ReadOf(first), ReadsOf(polls), used - 1)
    ensures !d.templateSuccess ==> d == LastRead(ReadOf(first), ReadsOf(polls)[..used]).d
    ensures !d.templateSuccess && used < 4 ==>
              FailsNonzero(d) || (used == 0 && !ReadOf(first).d.candidate)
    ensures used > 0 ==> ReadOf(first).d.candidate && NoneFailed(ReadsOf(polls), used - 1)
  {
    d, used := Stabilize(ReadOf(first), ReadsOf(polls));
  }

  /** The same on what was detected. */
  method Stabilize(first: Read, polls: seq<Option<Read>>) returns (d: Detection, ghost used: nat)
    requires |polls| == SUCCESS_CONFIRM_POLLS
    requires Sound(first.d) && forall k | 0 <= k < |polls| && polls[k].Some? :: Sound(polls[k].value.d)
    ensures used <= SUCCESS_CONFIRM_POLLS
    ensures d.templateSuccess <==> Justified(Fetched(first, polls[..used]))
    ensures d.templateSuccess ==> !FailsNonzero(d)
    ensures used > 0 ==> NotYet(first, polls, used - 1)
    ensures !d.templateSuccess ==> d == LastRead(first, polls[..used]).d
    ensures !d.templateSuccess && used < SUCCESS_CONFIRM_POLLS ==> FailsNonzero(d) || (used == 0 && !first.d.candidate)
    ensures used > 0 ==> first.d.candidate && NoneFailed(polls, used - 1)
  {
    used := 0;
    assert polls[..0] == [];
    d := first.d;
    if d.templateSuccess || !d.candidate { return; }
    var lastFingerprint := first.fingerprint;
    var stableReads := if lastFingerprint != "" then 1 else 0;
    ghost var seen := [first];
    assert seen[..0] == [];
    for poll := 0 to SUCCESS_CONFIRM_POLLS
      invariant used == poll && seen == Fetched(first, polls[..poll]) && !d.templateSuccess
      invariant Remembers(lastFingerprint, stableReads, seen) && NotYet(first, polls, poll)
      invariant d == LastRead(first, polls[..poll]).d && NoneFailed(polls, poll)
    {
      used := poll + 1;
      FetchedStep(first, polls, poll);
      OneMoreFetched(first, polls, poll);
      if polls[poll].Some? {
        var stop: bool;
        d, stop, lastFingerprint, stableReads := Weigh(polls[poll].value, lastFingerprint, stableReads, seen);
        seen := seen + [polls[poll].value];
        if stop { return; }
      }
    }
  }

  /** None of the first `n` polls read a nonzero fail count. */
  ghost predicate NoneFailed(polls: seq<Option<Read>>, n: nat)
    requires n <= |polls|
  {
    forall k | 0 <= k < n && polls[k].Some? :: !FailsNonzero(polls[k].value.d)
  }

  /** None of the first reads, up to the n-th poll, justified success. */
  ghost predicate NotYet(first: Read, polls: seq<Option<Read>>, n: nat)
    requires n <= |polls|
  {
    forall k: nat | k <= n :: !Justified(Fetched(first, polls[..k]))
  }

  lemma OneMoreFetched(first: Read, polls: seq<Option<Read>>, n: nat)
    requires n < |polls| && NotYet(first, polls, n)
    ensures NotYet(first, polls, n + 1) <==> !Justified(Fetched(first, polls[..n + 1]))
  {
    forall k: nat | k <= n ensures !Justified(Fetched(first, polls[..k])) {}
  }

  lemma FetchedStep(first: Read, polls: seq<Option<Read>>, k: nat)
    requires k < |polls|
    ensures var before := Fetched(first, polls[..k]);
      Fetched(first, polls[..k + 1]) == if polls[k].Some? then before + [polls[k].value] else before
  {
    assert polls[..k + 1][..k] == polls[..k];
  }
}
