/**
 * What the passes over the result page show, and what they call for: when a view may be believed,
 * when a stable window is complete, and when there is a reason to stop.
 *
 * Pass `k` reads `feed(k)`, an arbitrary page, and is made at `times[k]`; times are milliseconds
 * of a clock that only advances. The text classification is abstract: a page is what the
 * program's recognisers say about it.
 */
module WaitPasses {
  import opened Common

  /** What is recognised in the result text: both fingerprints are empty when nothing is found. */
  datatype View = View(shell: bool, concreteText: bool, fingerprint: string, stableFingerprint: string)
  {
    predicate Concrete() { shell && concreteText }
  }

  datatype Config = Config(
    consistencyValidation: bool, stableReads: int, windowMs: int, pollMs: int, maxWaitS: int, startTimeoutS: int)

  /** One pass over the page, with the time its parts take. */
  datatype Reading = Reading(
    progress: Option<real>, authFails: bool, runningText: bool, readMs: nat, view: View, buttonVisible: bool,
    revealed: View, revealAuthFails: bool, platformErrors: bool, workMs: nat, stillRunningText: bool, loading: bool)

  /** What the page showed before Run was clicked. */
  datatype Baseline = Baseline(fingerprint: string, hadShell: bool)

  datatype Run = Run(baseline: Baseline, observedStart: bool, baselineProgress: Option<real>)

  datatype Path = Window | Shown | Settled | Recovery

  datatype WaitOutcome = Accepted(view: View, path: Path) | AutomationError | PlatformError

  // ---- What has been seen of the run ----

  /** Some of the first `n` passes read a progress of at least `level`. */
  ghost predicate Reached(feed: nat -> Reading, n: nat, level: real) {
    exists k: nat :: k < n && feed(k).progress.Some? && feed(k).progress.value >= level
  }

  /** The page says that something runs, or progress short of the end is not what stood there before. */
  ghost predicate ShowsRunning(r: Reading, before: Option<real>) {
    || r.runningText
    || (&& r.progress.Some? && r.progress.value < 99.9
        && (before == None || r.progress.value >= before.value + 0.1 || r.progress.value <= before.value - 0.1))
  }

  ghost predicate SeenRunning(run: Run, feed: nat -> Reading, n: nat) {
    exists k: nat :: k < n && ShowsRunning(feed(k), run.baselineProgress)
  }

  /** Hidden panels are opened unless progress is short of its end, if anything hints at a result. */
  ghost predicate Opened(feed: nat -> Reading, k: nat) {
    var r := feed(k);
    && (r.progress.Some? ==> r.progress.value >= 99.9)
    && (r.progress.Some? || r.buttonVisible || r.view.shell || Reached(feed, k + 1, 100.0))
  }

  ghost function Seen(feed: nat -> Reading, k: nat): View { if Opened(feed, k) then feed(k).revealed else feed(k).view }

  // ---- What may be believed ----

  /**
   * `v` may be taken as the result of the current run: it differs from the result shown before,
   * or none was shown and the run was seen to start, to reach 15 percent and to last 20 seconds.
   */
  ghost predicate Believable(v: View, b: Baseline, started: bool, progressed: bool, elapsedMs: int) {
    && v.concreteText
    && (b.fingerprint != "" ==> v.fingerprint != "" && v.fingerprint != b.fingerprint)
    && (b.fingerprint == "" ==>
          && started && progressed && elapsedMs >= 20000
          && (b.hadShell ==> v.fingerprint != ""))
  }

  ghost predicate BelievableAt(run: Run, feed: nat -> Reading, k: nat, now: int) {
    && Seen(feed, k).shell
    && Believable(Seen(feed, k), run.baseline, run.observedStart || SeenRunning(run, feed, k + 1), Reached(feed, k + 1, 15.0),
                  now + feed(k).readMs)
  }

  // ---- The stable window ----

  /** The run looked complete: progress reached its end, or vanished behind a believable result. */
  ghost predicate Finished(run: Run, feed: nat -> Reading, k: nat, now: int) {
    || (feed(k).progress.Some? && feed(k).progress.value >= 99.9)
    || Reached(feed, k + 1, 100.0)
    || (feed(k).progress == None && BelievableAt(run, feed, k, now))
  }

  ghost predicate Clean(v: View) { v.shell && v.concreteText && v.stableFingerprint != "" }

  /** From pass `k` on, whenever the run looked complete the page was clean and showed `fingerprint`. */
  ghost predicate OnlyShows(run: Run, feed: nat -> Reading, times: seq<int>, k: nat, fingerprint: string) {
    forall j {:trigger times[j]} | k <= j < |times| && Finished(run, feed, j, times[j]) ::
      Clean(Seen(feed, j)) && Seen(feed, j).stableFingerprint == fingerprint
  }

  /** The passes at which the run looked complete and since which nothing else has been shown. */
  ghost function Uniform(run: Run, feed: nat -> Reading, times: seq<int>): set<nat> {
    set k: nat {:trigger times[k]} |
      k < |times| && Finished(run, feed, k, times[k]) && OnlyShows(run, feed, times, k, Seen(feed, k).stableFingerprint)
  }

  /** There are as many such passes as required, and one of them is a whole window old. */
  ghost predicate WindowFull(config: Config, run: Run, feed: nat -> Reading, times: seq<int>) {
    && times != [] && Finished(run, feed, |times| - 1, times[|times| - 1])
    && |Uniform(run, feed, times)| >= Max(1, config.stableReads)
    && exists k :: k in Uniform(run, feed, times) && times[|times| - 1] - times[k] >= Max(0, config.windowMs)
  }

  /** The last pass completes the stable window and shows a result that may be believed. */
  ghost predicate WindowComplete(config: Config, run: Run, feed: nat -> Reading, times: seq<int>) {
    WindowFull(config, run, feed, times) && BelievableAt(run, feed, |times| - 1, times[|times| - 1])
  }

  // ---- What the last of the passes made at `times` calls for ----

  /** The login is lost, or the run did not start in time. */
  ghost predicate Broken(config: Config, run: Run, feed: nat -> Reading, times: seq<int>)
    requires times != []
  {
    var k := |times| - 1;
    || feed(k).authFails || (Opened(feed, k) && feed(k).revealAuthFails)
    || (&& !run.observedStart && !SeenRunning(run, feed, k + 1)
        && times[k] + feed(k).readMs >= 1000 * Max(1, config.startTimeoutS))
  }

  /** A clean page whose window is not full yet is watched further, whatever else it shows. */
  ghost predicate Watched(config: Config, run: Run, feed: nat -> Reading, times: seq<int>)
    requires times != []
  {
    var k := |times| - 1;
    Finished(run, feed, k, times[k]) && Clean(Seen(feed, k)) && !WindowFull(config, run, feed, times)
  }

  /** Without consistency validation a believable result is taken as soon as it shows; only an observed start counts. */
  ghost predicate TakenAtOnce(config: Config, run: Run, feed: nat -> Reading, times: seq<int>)
    requires times != []
  {
    var k := |times| - 1; var elapsed := times[k] + feed(k).readMs;
    && !config.consistencyValidation && Seen(feed, k).shell && elapsed >= 5000
    && Believable(Seen(feed, k), run.baseline, run.observedStart, Reached(feed, k + 1, 15.0), elapsed)
  }

  /** The progress last taken over: a read that moves by less than a tenth is not. */
  function LastProgress(feed: nat -> Reading, n: nat): Option<real>
    decreases n, 0
  {
    if n == 0 then None
    else if Moves(feed, n - 1) then feed(n - 1).progress
    else LastProgress(feed, n - 1)
  }

  predicate Moves(feed: nat -> Reading, k: nat)
    decreases k, 1
  {
    && feed(k).progress.Some?
    && (|| LastProgress(feed, k) == None
        || feed(k).progress.value >= LastProgress(feed, k).value + 0.1
        || feed(k).progress.value <= LastProgress(feed, k).value - 0.1)
  }

  /** When progress last moved in the passes made at `times`. */
  function ChangedAt(feed: nat -> Reading, times: seq<int>): int {
    if times == [] then 0
    else if Moves(feed, |times| - 1) then times[|times| - 1]
    else ChangedAt(feed, times[..|times| - 1])
  }

  /** Progress moved in the last three minutes and has not reached its end. */
  ghost predicate RecentlyMoved(feed: nat -> Reading, times: seq<int>)
    requires times != []
  {
    var k := |times| - 1;
    && LastProgress(feed, k + 1).Some? && !Reached(feed, k + 1, 100.0)
    && times[k] + feed(k).readMs + feed(k).workMs - ChangedAt(feed, times) < 180000
  }

  /** Something on the page says that the run goes on. */
  ghost predicate Busy(feed: nat -> Reading, times: seq<int>)
    requires times != []
  {
    var r := feed(|times| - 1);
    (r.progress.Some? && r.progress.value < 99.9) || RecentlyMoved(feed, times) || r.stillRunningText || r.loading
  }

  /**
   * A result shown for 75 seconds without recent progress that is not this run's: there is no
   * progress past 15 percent, or nothing goes on any more and the result is not a new one.
   */
  ghost predicate ShowsNoNewResult(run: Run, feed: nat -> Reading, times: seq<int>)
    requires times != []
  {
    var k := |times| - 1; var v := Seen(feed, k);
    && v.shell && v.concreteText && times[k] + feed(k).readMs >= 75000 && !RecentlyMoved(feed, times)
    && (|| (feed(k).progress.Some? ==> feed(k).progress.value < 15.0)
        || ((v.fingerprint == "" || v.fingerprint == run.baseline.fingerprint) && !Busy(feed, times)))
  }

  /** The answer the last pass calls for, if any. */
  ghost predicate Answers(outcome: Option<WaitOutcome>, config: Config, run: Run, feed: nat -> Reading, times: seq<int>)
    requires times != []
  {
    var broken := Broken(config, run, feed, times);
    var refused := feed(|times| - 1).platformErrors;
    var settled := WindowComplete(config, run, feed, times);
    var watched := Watched(config, run, feed, times);
    var taken := TakenAtOnce(config, run, feed, times);
    var v := Seen(feed, |times| - 1);
    && (outcome == Some(PlatformError) <==> !broken && refused)
    && (outcome == Some(Accepted(v, Window)) <==> !broken && !refused && settled)
    && (outcome == Some(Accepted(v, Shown)) <==> !broken && !refused && !settled && !watched && taken)
    && (outcome == Some(AutomationError) <==>
          broken || (!refused && !settled && !watched && !taken && ShowsNoNewResult(run, feed, times)))
    && (outcome.Some? && outcome.value.Accepted? ==> outcome.value.view == v && outcome.value.path in {Window, Shown})
  }

  /** When the next pass is made if the last one calls for nothing. */
  ghost function NextPassAt(config: Config, run: Run, feed: nat -> Reading, times: seq<int>): int
    requires times != []
  {
    var k := |times| - 1;
    times[k] + feed(k).readMs + feed(k).workMs
    + if Busy(feed, times) && !Watched(config, run, feed, times) then 3000 else Max(500, config.pollMs)
  }
}
