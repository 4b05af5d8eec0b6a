/**
 * The polling loop that decides whether a visible result belongs to the run just started: its
 * counters and acceptance rules, proved to give at every pass exactly the answer it calls for.
 */
module WaitResult {
  import opened Common
  import opened WaitPasses

  function StableReads(c: Config): (n: nat) ensures n >= 1 { Max(1, c.stableReads) }

  function WindowMs(c: Config): nat { Max(0, c.windowMs) }

  function PollMs(c: Config): nat { Max(500, c.pollMs) }

  function MaxWaitMs(c: Config): nat { 1000 * Max(240, Min(300, c.maxWaitS)) }

  function StartTimeoutMs(c: Config): nat { 1000 * Max(1, c.startTimeoutS) }

  // ---- The acceptance rule ----

  /** Whether `v` may be taken as the result of the current run. */
  predicate ResultReady(v: View, b: Baseline, observedStart: bool, maxProgress: real, elapsedMs: int) {
    if !v.concreteText then false
    else if b.fingerprint != "" then v.fingerprint != "" && v.fingerprint != b.fingerprint
    else if b.hadShell then
      v.fingerprint != "" && observedStart && maxProgress >= 15.0 && elapsedMs >= 20000
    else observedStart && maxProgress >= 15.0 && elapsedMs >= 20000
  }

  /** The rule accepts exactly what may be believed. */
  lemma ReadyIff(v: View, b: Baseline, started: bool, feed: nat -> Reading, n: nat, elapsedMs: int)
    ensures ResultReady(v, b, started, MaxProgress(feed, n), elapsedMs)
            <==> Believable(v, b, started, Reached(feed, n, 15.0), elapsedMs)
  {
    MaxReached(feed, n, 15.0);
  }

  // ---- What the loop reads of the run's progress ----

  function MaxProgress(feed: nat -> Reading, n: nat): real {
    if n == 0 then 0.0
    else
      var before := MaxProgress(feed, n - 1);
      var progress := feed(n - 1).progress;
      if progress.Some? && progress.value > before then progress.value else before
  }

  /** The largest progress is an upper bound, and unless it is zero it was really read. */
  lemma {:induction false} MaxProgressWasRead(feed: nat -> Reading, n: nat)
    ensures forall k: nat :: k < n && feed(k).progress.Some? ==> feed(k).progress.value <= MaxProgress(feed, n)
    ensures MaxProgress(feed, n) == 0.0 ||
            exists k: nat :: k < n && feed(k).progress == Some(MaxProgress(feed, n))
  {
    if n > 0 { MaxProgressWasRead(feed, n - 1); }
  }

  lemma MaxReached(feed: nat -> Reading, n: nat, level: real)
    requires level > 0.0
    ensures MaxProgress(feed, n) >= level <==> Reached(feed, n, level)
  {
    MaxProgressWasRead(feed, n);
  }

  lemma ReachedStep(feed: nat -> Reading, n: nat, level: real)
    ensures Reached(feed, n + 1, level)
            <==> Reached(feed, n, level) || (feed(n).progress.Some? && feed(n).progress.value >= level)
  {}

  lemma SeenRunningStep(run: Run, feed: nat -> Reading, n: nat)
    ensures SeenRunning(run, feed, n + 1) <==> SeenRunning(run, feed, n) || ShowsRunning(feed(n), run.baselineProgress)
  {}

  predicate ProgressChanged(progress: real, baseline: Option<real>) {
    baseline == None || progress - baseline.value >= 0.1 || baseline.value - progress >= 0.1
  }

  predicate Active(progress: Option<real>) { progress.Some? && progress.value < 99.9 }

  datatype Tracker = Tracker(
    sawRunning: bool, sawProgress100: bool, maxProgress: real, lastProgress: Option<real>, lastProgressChangeAt: int)

  ghost predicate TrackerMatches(t: Tracker, run: Run, feed: nat -> Reading, times: seq<int>) {
    var n := |times|;
    && t.maxProgress == MaxProgress(feed, n) && t.sawProgress100 == Reached(feed, n, 100.0)
    && t.sawRunning == SeenRunning(run, feed, n)
    && t.lastProgress == LastProgress(feed, n) && t.lastProgressChangeAt == ChangedAt(feed, times)
  }

  method Track(t: Tracker, run: Run, reading: Reading, clock: int, ghost feed: nat -> Reading, ghost times: seq<int>)
    returns (t': Tracker)
    requires TrackerMatches(t, run, feed, times) && reading == feed(|times|)
    ensures TrackerMatches(t', run, feed, times + [clock])
  {
    assert (times + [clock])[..|times|] == times;
    ReachedStep(feed, |times|, 100.0);
    SeenRunningStep(run, feed, |times|);
    t' := t;
    if reading.progress.Some? {
      var progress := reading.progress.value;
      t' := t'.(maxProgress := if progress > t.maxProgress then progress else t.maxProgress);
      if t.lastProgress == None || ProgressChanged(progress, t.lastProgress) {
        t' := t'.(lastProgress := reading.progress, lastProgressChangeAt := clock);
      }
      if progress < 99.9 && ProgressChanged(progress, run.baselineProgress) {
        t' := t'.(sawRunning := true);
      }
      if progress >= 100.0 {
        t' := t'.(sawProgress100 := true);
      }
    }
    if reading.runningText {
      t' := t'.(sawRunning := true);
    }
  }

  /** Nothing is taken over while no progress is read. */
  lemma {:induction false} NoProgressIff(feed: nat -> Reading, n: nat)
    ensures LastProgress(feed, n) == None <==> forall k: nat :: k < n ==> feed(k).progress == None
  {
    if n > 0 { NoProgressIff(feed, n - 1); }
  }

  /** Otherwise it was taken over at some pass, and every later read stayed within a tenth of it. */
  lemma {:induction false} ProgressMeans(feed: nat -> Reading, times: seq<int>) returns (m: nat)
    requires LastProgress(feed, |times|).Some?
    ensures m < |times| && Moves(feed, m) && LastProgress(feed, |times|) == feed(m).progress && ChangedAt(feed, times) == times[m]
    ensures LastProgress(feed, m).Some? ==>
              var before, now := LastProgress(feed, m).value, feed(m).progress.value; now >= before + 0.1 || now <= before - 0.1
    ensures forall k: nat :: m < k < |times| && feed(k).progress.Some? ==>
              feed(m).progress.value - 0.1 < feed(k).progress.value < feed(m).progress.value + 0.1
  {
    var last := |times| - 1;
    if Moves(feed, last) { return last; }
    m := ProgressMeans(feed, times[..last]);
  }

  // ---- The stable-window counter as a function of history ----

  /** One pass over the page at which the run looked complete, made at `now`. */
  datatype Candidate = Candidate(now: int, view: View, ready: bool)

  ghost function Observation(run: Run, feed: nat -> Reading, k: nat, now: int): Candidate {
    Candidate(now, Seen(feed, k), BelievableAt(run, feed, k, now))
  }

  /** All passes at which the run looked complete, in order; `times` are the times of the passes. */
  ghost function Candidates(run: Run, feed: nat -> Reading, times: seq<int>): seq<Candidate> {
    if times == [] then []
    else
      var k := |times| - 1;
      Extended(Candidates(run, feed, times[..k]), run, feed, k, times[k])
  }

  /** `h` after pass `k` made at `now`. */
  ghost function Extended(h: seq<Candidate>, run: Run, feed: nat -> Reading, k: nat, now: int): seq<Candidate> {
    if Finished(run, feed, k, now) then h + [Observation(run, feed, k, now)] else h
  }

  predicate Stable(c: Candidate) { c.view.Concrete() && c.view.stableFingerprint != "" }

  /** How many of the last candidates in a row were concrete with one and the same fingerprint. */
  function RunLength(h: seq<Candidate>): (n: nat)
    ensures n <= |h|
  {
    if h == [] || !Stable(Latest(h)) then 0
    else if Continues(Before(h), Latest(h)) then RunLength(Before(h)) + 1
    else 1
  }

  predicate Continues(h: seq<Candidate>, c: Candidate)
  {
    h != [] && Stable(Latest(h)) && Latest(h).view.stableFingerprint == c.view.stableFingerprint
  }

  lemma RunStep(h: seq<Candidate>, c: Candidate)
    ensures RunLength(h + [c]) ==
            if !Stable(c) then 0
            else if RunLength(h) > 0 && h[|h| - 1].view.stableFingerprint == c.view.stableFingerprint then RunLength(h) + 1
            else 1
  {
    assert Before(h + [c]) == h && Latest(h + [c]) == c;
  }

  /** The counter means what it should: the run is uniform, and it could not be longer. */
  lemma {:induction false} RunIsUniformAndMaximal(h: seq<Candidate>)
    ensures var n := RunLength(h);
      && (forall k | |h| - n <= k < |h| ::
            Stable(h[k]) && h[k].view.stableFingerprint == h[|h| - 1].view.stableFingerprint)
      && (n > 0 && n < |h| ==>
            !Stable(h[|h| - n - 1]) || h[|h| - n - 1].view.stableFingerprint != h[|h| - 1].view.stableFingerprint)
      && (n == 0 && h != [] ==> !Stable(h[|h| - 1]))
  {
    if h != [] {
      RunIsUniformAndMaximal(Before(h));
    }
  }

  /** The run is long enough, and its first candidate a window old. */
  predicate RunSuffices(h: seq<Candidate>, needed: nat, windowMs: nat) {
    needed <= RunLength(h) && RunLength(h) > 0 && h[|h| - 1].now - h[|h| - RunLength(h)].now >= windowMs
  }

  /** What the loop remembers between passes. */
  datatype Counters = Counters(count: nat, fingerprint: string, startedAt: Option<int>)

  predicate CountersMatch(c: Counters, h: seq<Candidate>) {
    && c.count == RunLength(h)
    && (c.count == 0 ==> c.fingerprint == "" && c.startedAt == None)
    && (c.count > 0 ==>
          && c.fingerprint == h[|h| - 1].view.stableFingerprint
          && c.startedAt == Some(h[|h| - c.count].now))
  }

  /** One candidate moves the counters exactly as it moves the run length. */
  method Observe(c: Counters, candidate: Candidate, ghost h: seq<Candidate>) returns (c': Counters)
    requires CountersMatch(c, h)
    ensures CountersMatch(c', h + [candidate])
  {
    var stableFingerprint := candidate.view.stableFingerprint;
    if candidate.view.Concrete() && stableFingerprint != "" {
      if stableFingerprint == c.fingerprint {
        c' := c.(count := c.count + 1);
      } else {
        c' := Counters(1, stableFingerprint, Some(candidate.now));
      }
    } else {
      c' := Counters(0, "", None);
    }
    RunStep(h, candidate);
  }

  datatype Verdict = AcceptNow | KeepWatching | NotStable

  /** The stable-window part of a pass at which the run looked complete. */
  method CheckWindow(config: Config, counters: Counters, candidate: Candidate, ghost h: seq<Candidate>)
    returns (counters': Counters, verdict: Verdict)
    requires CountersMatch(counters, h)
    ensures CountersMatch(counters', h + [candidate])
    ensures var full := RunSuffices(h + [candidate], StableReads(config), WindowMs(config));
      && (verdict.AcceptNow? <==> Stable(candidate) && full && candidate.ready)
      && (verdict.KeepWatching? <==> Stable(candidate) && !full)
  {
    counters' := Observe(counters, candidate, h);
    verdict := NotStable;
    if Stable(candidate) {
      var windowElapsed := candidate.now - counters'.startedAt.value;
      if counters'.count < StableReads(config) || windowElapsed < WindowMs(config) {
        verdict := KeepWatching;
      } else if candidate.ready {
        verdict := AcceptNow;
      }
    }
  }

  // ---- The counter means the stable window ----

  predicate Ordered(times: seq<int>) { forall i, j | 0 <= i < j < |times| :: times[i] <= times[j] }

  lemma OnlyShowsStep(run: Run, feed: nat -> Reading, times: seq<int>, i: nat, fingerprint: string)
    requires i < |times|
    ensures var last := |times| - 1;
      OnlyShows(run, feed, times, i, fingerprint) <==>
        && OnlyShows(run, feed, times[..last], i, fingerprint)
        && (Finished(run, feed, last, times[last]) ==>
              Clean(Seen(feed, last)) && Seen(feed, last).stableFingerprint == fingerprint)
  {
    var last := |times| - 1;
    var front := times[..last];
    if OnlyShows(run, feed, times, i, fingerprint) {
      forall j | i <= j < last && Finished(run, feed, j, front[j])
        ensures Clean(Seen(feed, j)) && Seen(feed, j).stableFingerprint == fingerprint
      {
        assert front[j] == times[j];
      }
      assert Finished(run, feed, last, times[last]) ==> Clean(Seen(feed, last));
    }
    if OnlyShows(run, feed, front, i, fingerprint) {
      forall j | i <= j < last && Finished(run, feed, j, times[j])
        ensures Clean(Seen(feed, j)) && Seen(feed, j).stableFingerprint == fingerprint
      {
        assert front[j] == times[j];
      }
    }
  }

  /** A pass stays in the uniform stretch as long as nothing else is shown. */
  lemma UniformStays(run: Run, feed: nat -> Reading, times: seq<int>, i: nat)
    requires times != [] && i < |times| - 1
    ensures var last := |times| - 1;
      i in Uniform(run, feed, times) <==>
        && i in Uniform(run, feed, times[..last])
        && (Finished(run, feed, last, times[last]) ==>
              Clean(Seen(feed, last)) && Seen(feed, last).stableFingerprint == Seen(feed, i).stableFingerprint)
  {
    assert times[..|times| - 1][i] == times[i];
    OnlyShowsStep(run, feed, times, i, Seen(feed, i).stableFingerprint);
  }

  lemma UniformAtLast(run: Run, feed: nat -> Reading, times: seq<int>)
    requires times != []
    ensures var last := |times| - 1;
      last in Uniform(run, feed, times) <==> Finished(run, feed, last, times[last]) && Clean(Seen(feed, last))
  {}

  /** `u` holds `n` passes that showed `fingerprint`, the earliest at `start`. */
  ghost predicate Stretch(u: set<nat>, n: nat, fingerprint: string, start: int, feed: nat -> Reading, times: seq<int>) {
    && |u| == n
    && (forall k | k in u :: k < |times| && Seen(feed, k).stableFingerprint == fingerprint && times[k] >= start)
    && (exists k :: k in u && k < |times| && times[k] == start)
  }

  lemma Unfinished(run: Run, feed: nat -> Reading, times: seq<int>)
    requires times != [] && !Finished(run, feed, |times| - 1, times[|times| - 1])
    ensures Uniform(run, feed, times) == Uniform(run, feed, times[..|times| - 1])
  {
    var last := |times| - 1;
    UniformAtLast(run, feed, times);
    forall i: nat ensures i in Uniform(run, feed, times) <==> i in Uniform(run, feed, times[..last]) {
      if i < last { UniformStays(run, feed, times, i); }
    }
  }

  lemma Unclean(run: Run, feed: nat -> Reading, times: seq<int>)
    requires times != [] && Finished(run, feed, |times| - 1, times[|times| - 1]) && !Clean(Seen(feed, |times| - 1))
    ensures Uniform(run, feed, times) == {}
  {
    UniformAtLast(run, feed, times);
    forall i: nat ensures i !in Uniform(run, feed, times) {
      if i < |times| - 1 { UniformStays(run, feed, times, i); }
    }
  }

  lemma UniformLonger(run: Run, feed: nat -> Reading, times: seq<int>, fingerprint: string)
    requires times != [] && Finished(run, feed, |times| - 1, times[|times| - 1])
    requires Clean(Seen(feed, |times| - 1)) && Seen(feed, |times| - 1).stableFingerprint == fingerprint
    requires forall k | k in Uniform(run, feed, times[..|times| - 1]) :: Seen(feed, k).stableFingerprint == fingerprint
    ensures Uniform(run, feed, times) == Uniform(run, feed, times[..|times| - 1]) + {|times| - 1}
  {
    var last := |times| - 1;
    UniformAtLast(run, feed, times);
    forall i: nat ensures i in Uniform(run, feed, times) <==> i in Uniform(run, feed, times[..last]) + {last} {
      if i < last { UniformStays(run, feed, times, i); }
    }
  }

  lemma UniformAnew(run: Run, feed: nat -> Reading, times: seq<int>, fingerprint: string)
    requires times != [] && Finished(run, feed, |times| - 1, times[|times| - 1])
    requires Clean(Seen(feed, |times| - 1)) && Seen(feed, |times| - 1).stableFingerprint == fingerprint
    requires forall k | k in Uniform(run, feed, times[..|times| - 1]) :: Seen(feed, k).stableFingerprint != fingerprint
    ensures Uniform(run, feed, times) == {|times| - 1}
  {
    var last := |times| - 1;
    UniformAtLast(run, feed, times);
    forall i: nat ensures i in Uniform(run, feed, times) <==> i == last {
      if i < last { UniformStays(run, feed, times, i); }
    }
  }

  lemma StretchStays(u: set<nat>, n: nat, fingerprint: string, start: int, feed: nat -> Reading, times: seq<int>)
    requires times != [] && Stretch(u, n, fingerprint, start, feed, times[..|times| - 1])
    ensures Stretch(u, n, fingerprint, start, feed, times)
  {
    forall k | 0 <= k < |times| - 1 ensures times[..|times| - 1][k] == times[k] {}
    var first :| first in u && first < |times| - 1 && times[..|times| - 1][first] == start;
    assert times[first] == start;
  }

  lemma StretchLonger(u: set<nat>, n: nat, fingerprint: string, start: int, feed: nat -> Reading, times: seq<int>)
    requires times != [] && Stretch(u, n, fingerprint, start, feed, times[..|times| - 1]) && Ordered(times)
    requires Seen(feed, |times| - 1).stableFingerprint == fingerprint
    ensures Stretch(u + {|times| - 1}, n + 1, fingerprint, start, feed, times)
  {
    StretchStays(u, n, fingerprint, start, feed, times);
    var last := |times| - 1;
    assert last !in u;
    var first :| first in u && first < |times| && times[first] == start;
    assert first in u + {last};
  }

  /** What a finished pass makes of the uniform stretch. */
  lemma StretchStep(run: Run, feed: nat -> Reading, times: seq<int>, n: nat, fingerprint: string, start: int)
    requires times != [] && Finished(run, feed, |times| - 1, times[|times| - 1]) && Ordered(times)
    requires var u := Uniform(run, feed, times[..|times| - 1]);
      if n == 0 then u == {} else Stretch(u, n, fingerprint, start, feed, times[..|times| - 1])
    ensures var u, v, now := Uniform(run, feed, times), Seen(feed, |times| - 1), times[|times| - 1];
      if !Clean(v) then u == {}
      else if n > 0 && fingerprint == v.stableFingerprint then Stretch(u, n + 1, fingerprint, start, feed, times)
      else Stretch(u, 1, v.stableFingerprint, now, feed, times)
  {
    var v := Seen(feed, |times| - 1);
    if !Clean(v) {
      Unclean(run, feed, times);
    } else if n > 0 && fingerprint == v.stableFingerprint {
      UniformLonger(run, feed, times, fingerprint);
      StretchLonger(Uniform(run, feed, times[..|times| - 1]), n, fingerprint, start, feed, times);
    } else {
      UniformAnew(run, feed, times, v.stableFingerprint);
    }
  }

  function RunPrint(h: seq<Candidate>): string
    requires h != []
  {
    Latest(h).view.stableFingerprint
  }

  function RunStart(h: seq<Candidate>): int
    requires RunLength(h) > 0
  {
    h[|h| - RunLength(h)].now
  }

  lemma RunStartStep(h: seq<Candidate>, c: Candidate)
    requires Stable(c)
    ensures var longer := RunLength(h) > 0 && RunPrint(h) == c.view.stableFingerprint;
      RunLength(h + [c]) > 0 && RunPrint(h + [c]) == c.view.stableFingerprint
      && RunStart(h + [c]) == if longer then RunStart(h) else c.now
  {
    RunStep(h, c);
    assert Latest(h + [c]) == c;
  }

  /** The uniform stretch is the run the counter counts, and as old. */
  ghost predicate RunMatches(run: Run, feed: nat -> Reading, times: seq<int>, h: seq<Candidate>) {
    var u := Uniform(run, feed, times);
    if RunLength(h) == 0 then u == {} else Stretch(u, RunLength(h), RunPrint(h), RunStart(h), feed, times)
  }

  lemma MatchesFinished(run: Run, feed: nat -> Reading, times: seq<int>, h: seq<Candidate>)
    requires times != [] && RunMatches(run, feed, times[..|times| - 1], h) && Ordered(times)
    requires Finished(run, feed, |times| - 1, times[|times| - 1])
    ensures RunMatches(run, feed, times, h + [Observation(run, feed, |times| - 1, times[|times| - 1])])
  {
    var c := Observation(run, feed, |times| - 1, times[|times| - 1]);
    RunStep(h, c);
    if Stable(c) { RunStartStep(h, c); }
    StretchStep(run, feed, times, RunLength(h),
                if RunLength(h) > 0 then RunPrint(h) else "", if RunLength(h) > 0 then RunStart(h) else 0);
  }

  lemma {:induction false} UniformIsRun(run: Run, feed: nat -> Reading, times: seq<int>)
    requires Ordered(times)
    ensures RunMatches(run, feed, times, Candidates(run, feed, times))
  {
    if times == [] {
      assert Uniform(run, feed, times) == {};
    } else {
      var last := |times| - 1;
      var h := Candidates(run, feed, times[..last]);
      UniformIsRun(run, feed, times[..last]);
      if Finished(run, feed, last, times[last]) {
        MatchesFinished(run, feed, times, h);
      } else {
        Unfinished(run, feed, times);
        if RunLength(h) > 0 {
          StretchStays(Uniform(run, feed, times), RunLength(h), RunPrint(h), RunStart(h), feed, times);
        }
      }
    }
  }

  /** The counter and its start time say that the window is full exactly when it is. */
  lemma WindowFullIff(config: Config, run: Run, feed: nat -> Reading, times: seq<int>)
    requires Ordered(times) && times != [] && Finished(run, feed, |times| - 1, times[|times| - 1])
    ensures RunSuffices(Candidates(run, feed, times), StableReads(config), WindowMs(config))
            <==> WindowFull(config, run, feed, times)
  {
    UniformIsRun(run, feed, times);
    FullIff(config, run, feed, times, Candidates(run, feed, times));
  }

  lemma FullIff(config: Config, run: Run, feed: nat -> Reading, times: seq<int>, h: seq<Candidate>)
    requires times != [] && Finished(run, feed, |times| - 1, times[|times| - 1]) && RunMatches(run, feed, times, h)
    requires h != [] && h[|h| - 1].now == times[|times| - 1]
    ensures RunSuffices(h, StableReads(config), WindowMs(config)) <==> WindowFull(config, run, feed, times)
  {
    var u := Uniform(run, feed, times);
    if RunSuffices(h, StableReads(config), WindowMs(config)) {
      var k :| k in u && times[k] == h[|h| - RunLength(h)].now;
      assert times[|times| - 1] - times[k] >= Max(0, config.windowMs);
    }
  }

  // ---- One pass ----

  /** Open hidden panels if the run no longer looks active, and judge what is visible. */
  method ReadPage(run: Run, reading: Reading, t: Tracker, now: int, ghost feed: nat -> Reading, ghost times: seq<int>,
                  ghost pass: nat)
    returns (candidate: Candidate, looksComplete: bool, authFails: bool)
    requires reading == feed(pass) && |times| == pass + 1 && TrackerMatches(t, run, feed, times)
    ensures candidate == Observation(run, feed, pass, now) && looksComplete == Finished(run, feed, pass, now)
    ensures authFails == (Opened(feed, pass) && reading.revealAuthFails)
  {
    var complete := (reading.progress.Some? && reading.progress.value >= 99.9) || t.sawProgress100;
    var view := reading.view;
    authFails := false;
    if !Active(reading.progress) && (reading.buttonVisible || complete || view.shell) {
      view := reading.revealed;
      authFails := reading.revealAuthFails;
    }
    assert view == Seen(feed, pass);
    ReadyIff(view, run.baseline, run.observedStart || t.sawRunning, feed, pass + 1, now + reading.readMs);
    var ready :=
      view.Concrete()
      && ResultReady(view, run.baseline, run.observedStart || t.sawRunning, t.maxProgress, now + reading.readMs);
    candidate := Candidate(now, view, ready);
    looksComplete := complete || (reading.progress == None && ready);
  }

  /**
   * The rest of a pass: old acceptance rules, given-up old results, and how long to sleep. The
   * second acceptance can never be reached, since the first one takes every case of it.
   */
  method JudgeVisible(config: Config, run: Run, view: View, reading: Reading, recent: bool, readyNow: bool, elapsed: int)
    returns (r: Option<WaitOutcome>, sleepMs: nat)
    ensures var taken := !config.consistencyValidation && view.Concrete() && elapsed >= 5000 && readyNow;
      var busy := Active(reading.progress) || recent || reading.stillRunningText || reading.loading;
      var isNew := view.fingerprint != "" && view.fingerprint != run.baseline.fingerprint;
      && (taken ==> r == Some(Accepted(view, Shown)))
      && (r == Some(AutomationError) <==>
            && !taken && view.Concrete() && elapsed >= 75000 && !recent
            && ((reading.progress.Some? ==> reading.progress.value < 15.0) || (!isNew && !busy)))
      && (r != None && !taken ==> r == Some(AutomationError))
      && (r == None ==> sleepMs == if busy then 3000 else Max(500, config.pollMs))
  {
    var progress := reading.progress;
    sleepMs := PollMs(config);
    if view.shell && (view.Concrete() || !Active(progress)) {
      if !config.consistencyValidation && view.Concrete() && elapsed >= 5000 && readyNow {
        return Some(Accepted(view, Shown)), sleepMs;
      }
      if view.Concrete() && elapsed >= 75000 && !((progress.Some? && progress.value >= 15.0) || recent) {
        return Some(AutomationError), sleepMs;
      }
    }
    if Active(progress) || recent || reading.stillRunningText || reading.loading { return None, 3000; }
    if !config.consistencyValidation && view.Concrete() && elapsed >= 5000 && readyNow {
      return Some(Accepted(view, Settled)), sleepMs;
    }
    var newResult := view.fingerprint != "" && view.fingerprint != run.baseline.fingerprint;
    if view.Concrete() && !newResult && elapsed >= 75000 && !recent {
      return Some(AutomationError), sleepMs;
    }
    return None, sleepMs;
  }

  lemma OnePassMore(run: Run, feed: nat -> Reading, times: seq<int>, now: int)
    ensures Candidates(run, feed, times + [now]) == Extended(Candidates(run, feed, times), run, feed, |times|, now)
  {
    assert (times + [now])[..|times|] == times;
  }

  /** What the checks of a pass amount to at the pass just made. */
  lemma WindowAfterPass(config: Config, run: Run, feed: nat -> Reading, times: seq<int>, now: int)
    requires Ordered(times + [now])
    ensures var h := Candidates(run, feed, times); var c := Observation(run, feed, |times|, now); var times' := times + [now];
      var full := RunSuffices(h + [c], StableReads(config), WindowMs(config));
      && (Finished(run, feed, |times|, now) ==> (full <==> WindowFull(config, run, feed, times')))
      && (Watched(config, run, feed, times') <==> Finished(run, feed, |times|, now) && Stable(c) && !full)
      && (WindowComplete(config, run, feed, times') <==> Finished(run, feed, |times|, now) && full && c.ready)
  {
    OnePassMore(run, feed, times, now);
    if Finished(run, feed, |times|, now) { WindowFullIff(config, run, feed, times + [now]); }
  }

  /** The part of a pass after its login, start and error checks. */
  method Judge(config: Config, run: Run, reading: Reading, candidate: Candidate, looksComplete: bool, t: Tracker,
               counters: Counters, ghost feed: nat -> Reading, ghost times: seq<int>)
    returns (outcome: Option<WaitOutcome>, clock: int, counters': Counters)
    requires reading == feed(|times|) && Ordered(times + [candidate.now])
    requires candidate == Observation(run, feed, |times|, candidate.now)
    requires looksComplete == Finished(run, feed, |times|, candidate.now)
    requires TrackerMatches(t, run, feed, times + [candidate.now]) && CountersMatch(counters, Candidates(run, feed, times))
    requires !reading.platformErrors && !Broken(config, run, feed, times + [candidate.now])
    ensures Answers(outcome, config, run, feed, times + [candidate.now])
    ensures outcome == None ==>
              && clock == NextPassAt(config, run, feed, times + [candidate.now])
              && CountersMatch(counters', Candidates(run, feed, times + [candidate.now]))
  {
    var view, elapsed := candidate.view, candidate.now + reading.readMs;
    OnePassMore(run, feed, times, candidate.now);
    WindowAfterPass(config, run, feed, times, candidate.now);
    clock, counters' := elapsed + reading.workMs, counters;
    if looksComplete {
      var verdict: Verdict;
      counters', verdict := CheckWindow(config, counters, candidate, Candidates(run, feed, times));
      if verdict.AcceptNow? { return Some(Accepted(view, Window)), clock, counters'; }
      if verdict.KeepWatching? { return None, clock + PollMs(config), counters'; }
    }
    var recent := t.lastProgress.Some? && !t.sawProgress100 && clock - t.lastProgressChangeAt < 180000;
    ReadyIff(view, run.baseline, run.observedStart, feed, |times| + 1, elapsed);
    var readyNow := ResultReady(view, run.baseline, run.observedStart, t.maxProgress, elapsed);
    var sleepMs: nat;
    outcome, sleepMs := JudgeVisible(config, run, view, reading, recent, readyNow, elapsed);
    clock := clock + sleepMs;
  }

  /** One pass: it gives exactly the answer it calls for. */
  method OnePass(config: Config, run: Run, reading: Reading, now: int, t: Tracker, counters: Counters,
                 ghost feed: nat -> Reading, ghost times: seq<int>)
    returns (outcome: Option<WaitOutcome>, clock: int, t': Tracker, counters': Counters)
    requires reading == feed(|times|) && Ordered(times + [now])
    requires TrackerMatches(t, run, feed, times) && CountersMatch(counters, Candidates(run, feed, times))
    ensures Answers(outcome, config, run, feed, times + [now])
    ensures outcome == None ==>
              && clock == NextPassAt(config, run, feed, times + [now]) && TrackerMatches(t', run, feed, times + [now])
              && CountersMatch(counters', Candidates(run, feed, times + [now]))
  {
    clock, t', counters' := now + reading.readMs, t, counters;
    if reading.authFails { return Some(AutomationError), clock, t', counters'; }
    t' := Track(t, run, reading, now, feed, times);
    if !t'.sawRunning && !run.observedStart && clock >= StartTimeoutMs(config) {
      return Some(AutomationError), clock, t', counters';
    }
    var candidate, looksComplete, authFails := ReadPage(run, reading, t', now, feed, times + [now], |times|);
    if authFails { return Some(AutomationError), clock, t', counters'; }
    if reading.platformErrors { return Some(PlatformError), clock, t', counters'; }
    outcome, clock, counters' := Judge(config, run, reading, candidate, looksComplete, t', counters, feed, times);
  }

  // ---- The loop ----

  /** The text finally read when the deadline has passed. */
  datatype FinalRead = FinalRead(fetched: bool, blank: bool, view: View, elapsedMs: nat)

  /** After the deadline a result is accepted if and only if it is there and may be believed; only an observed start counts. */
  method FinalRecovery(f: FinalRead, b: Baseline, observedStart: bool, maxProgress: real) returns (r: WaitOutcome)
    ensures var found := f.fetched && !f.blank && Believable(f.view, b, observedStart, maxProgress >= 15.0, f.elapsedMs);
      r == if found then Accepted(f.view, Recovery) else AutomationError
  {
    if !f.fetched || f.blank || !f.view.concreteText { return AutomationError; }
    if !ResultReady(f.view, b, observedStart, maxProgress, f.elapsedMs) { return AutomationError; }
    return Accepted(f.view, Recovery);
  }

  /** Passes follow each other as each one asks for. */
  ghost predicate Paced(config: Config, run: Run, feed: nat -> Reading, times: seq<int>) {
    && (times != [] ==> times[0] == 0)
    && forall k {:trigger times[k]} | 0 < k < |times| :: times[k] == NextPassAt(config, run, feed, times[..k])
  }

  /** Pass `k` called for no answer. */
  ghost predicate SilentAt(config: Config, run: Run, feed: nat -> Reading, times: seq<int>, k: nat)
    requires k < |times|
  {
    Answers(None, config, run, feed, times[..k + 1])
  }

  ghost predicate NoAnswerUpTo(config: Config, run: Run, feed: nat -> Reading, times: seq<int>, n: nat)
    requires n <= |times|
  {
    forall k | 0 <= k < n :: SilentAt(config, run, feed, times, k)
  }

  /** No pass is made later than the deadline. */
  ghost predicate BeforeDeadline(config: Config, times: seq<int>) {
    forall k {:trigger times[k]} | 0 <= k < |times| :: 0 <= times[k] < 1000 * Max(240, Min(300, config.maxWaitS))
  }

  /** The loop ends with what its last pass calls for, or at the deadline with what final recovery finds. */
  ghost predicate EndsWith(r: WaitOutcome, config: Config, run: Run, feed: nat -> Reading, times: seq<int>, final: FinalRead) {
    var n := |times|;
    || (n > 0 && NoAnswerUpTo(config, run, feed, times, n - 1) && Answers(Some(r), config, run, feed, times))
    || (&& n > 0 && NoAnswerUpTo(config, run, feed, times, n)
        && NextPassAt(config, run, feed, times) >= 1000 * Max(240, Min(300, config.maxWaitS))
        && (r == Accepted(final.view, Recovery) <==>
              && final.fetched && !final.blank
              && Believable(final.view, run.baseline, run.observedStart, Reached(feed, n, 15.0), final.elapsedMs))
        && (r == AutomationError || r == Accepted(final.view, Recovery)))
  }

  /** What holds at the head of the loop. */
  ghost predicate AtHead(config: Config, run: Run, feed: nat -> Reading, times: seq<int>, clock: int) {
    && Paced(config, run, feed, times) && NoAnswerUpTo(config, run, feed, times, |times|) && BeforeDeadline(config, times)
    && clock == (if times == [] then 0 else NextPassAt(config, run, feed, times))
    && Ordered(times) && clock >= 0 && (times != [] ==> clock >= times[|times| - 1] + 500)
  }

  lemma NextIsLater(config: Config, run: Run, feed: nat -> Reading, times: seq<int>)
    requires times != []
    ensures NextPassAt(config, run, feed, times) >= times[|times| - 1] + 500
  {}

  lemma StaysOrdered(times: seq<int>, now: int)
    requires Ordered(times) && (times != [] ==> now >= times[|times| - 1])
    ensures Ordered(times + [now])
  {}

  lemma StaysPaced(config: Config, run: Run, feed: nat -> Reading, times: seq<int>, now: int)
    requires Paced(config, run, feed, times) && BeforeDeadline(config, times)
    requires now == (if times == [] then 0 else NextPassAt(config, run, feed, times))
    requires 0 <= now < 1000 * Max(240, Min(300, config.maxWaitS))
    ensures Paced(config, run, feed, times + [now]) && BeforeDeadline(config, times + [now])
  {
    var times' := times + [now];
    forall k | 0 < k < |times'| ensures times'[k] == NextPassAt(config, run, feed, times'[..k]) {
      if k < |times| { assert times'[..k] == times[..k] && times'[k] == times[k]; } else { assert times'[..k] == times; }
    }
    forall k | 0 <= k < |times'| ensures 0 <= times'[k] < 1000 * Max(240, Min(300, config.maxWaitS)) {
      if k < |times| { assert times'[k] == times[k]; }
    }
  }

  lemma NoAnswerStays(config: Config, run: Run, feed: nat -> Reading, times: seq<int>, now: int)
    requires NoAnswerUpTo(config, run, feed, times, |times|)
    ensures NoAnswerUpTo(config, run, feed, times + [now], |times|)
    ensures Answers(None, config, run, feed, times + [now]) ==> NoAnswerUpTo(config, run, feed, times + [now], |times| + 1)
  {
    var times' := times + [now];
    forall k | 0 <= k < |times| ensures SilentAt(config, run, feed, times', k) {
      assert times'[..k + 1] == times[..k + 1];
      assert SilentAt(config, run, feed, times, k);
    }
    assert times'[..|times| + 1] == times';
  }

  /**
   * The loop. `times` are the times of its passes; what each pass saw is then a function of
   * `feed`. It ends at the first pass that calls for an answer, with that answer, or at the
   * deadline with what final recovery finds.
   */
  method WaitForBacktestFinished(config: Config, run: Run, feed: nat -> Reading, final: FinalRead)
    returns (r: WaitOutcome, times: seq<int>)
    ensures Paced(config, run, feed, times) && BeforeDeadline(config, times)
    ensures EndsWith(r, config, run, feed, times, final)
  {
    var clock, pass, deadline := 0, 0, MaxWaitMs(config);
    var tracker, counters := Tracker(false, false, 0.0, None, clock), Counters(0, "", None);
    times := [];
    while clock < deadline
      invariant |times| == pass && AtHead(config, run, feed, times, clock) && (times == [] ==> clock == 0)
      invariant CountersMatch(counters, Candidates(run, feed, times)) && TrackerMatches(tracker, run, feed, times)
      decreases deadline - clock
    {
      var now := clock;
      StaysOrdered(times, now);
      StaysPaced(config, run, feed, times, now);
      var outcome: Option<WaitOutcome>;
      outcome, clock, tracker, counters := OnePass(config, run, feed(pass), now, tracker, counters, feed, times);
      NoAnswerStays(config, run, feed, times, now);
      times := times + [now];
      pass := pass + 1;
      if outcome.Some? { return outcome.value, times; }
      NextIsLater(config, run, feed, times);
    }
    r := FinalRecovery(final, run.baseline, run.observedStart, tracker.maxProgress);
    MaxReached(feed, pass, 15.0);
  }

  // ---- What a result is worth ----

  /** No accepted result carries the fingerprint the page showed before Run was clicked. */
  predicate NotTheOldResult(v: View, b: Baseline) {
    b.fingerprint != "" ==> v.fingerprint != "" && v.fingerprint != b.fingerprint
  }

  /** On every path the old result is rejected, and without one to compare with the run was seen progressing. */
  lemma AcceptedIsTrustworthy(
      r: WaitOutcome, config: Config, run: Run, feed: nat -> Reading, times: seq<int>, final: FinalRead)
    requires EndsWith(r, config, run, feed, times, final) && r.Accepted?
    ensures r.view.concreteText && NotTheOldResult(r.view, run.baseline)
    ensures run.baseline.fingerprint == "" ==> Reached(feed, |times|, 15.0)
    ensures config.consistencyValidation && r.path != Recovery ==>
              && r.path == Window && WindowFull(config, run, feed, times) && r.view == Seen(feed, |times| - 1)
  {}
}
