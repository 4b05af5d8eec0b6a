/**
 * The backtest state machine: the fixed order of states, the per-state retry policies, and
 * one run of the machine as a sequence of steps.
 *
 * A step consumes one reply of the outside world: how the awaited handler or the awaited
 * recovery ended. Every run is a sequence of replies, so a statement over all reply sequences
 * is a statement over every run and, since prefixes are sequences too, over every moment of it.
 */
module Workflow {
  import opened Common

  datatype State =
    | Init | AuthCheck | OpenSimulate | EditorReady | WriteCode | WriteName | ClickRun
    | WaitQueue | WaitResult | ParseResult | QualityCheck | AddFavorite | Finished
    | RecoverPage | RebuildContext | RestartBrowser | RestartTask | FatalError

  function StateName(s: State): string {
    match s
    case Init => "INIT"
    case AuthCheck => "AUTH_CHECK"
    case OpenSimulate => "OPEN_SIMULATE"
    case EditorReady => "EDITOR_READY"
    case WriteCode => "WRITE_CODE"
    case WriteName => "WRITE_NAME"
    case ClickRun => "CLICK_RUN"
    case WaitQueue => "WAIT_QUEUE"
    case WaitResult => "WAIT_RESULT"
    case ParseResult => "PARSE_RESULT"
    case QualityCheck => "QUALITY_CHECK"
    case AddFavorite => "ADD_FAVORITE"
    case Finished => "FINISHED"
    case RecoverPage => "RECOVER_PAGE"
    case RebuildContext => "REBUILD_CONTEXT"
    case RestartBrowser => "RESTART_BROWSER"
    case RestartTask => "RESTART_TASK"
    case FatalError => "FATAL_ERROR"
  }

  datatype Level = ReloadPage | RecreatePage | RebuildLevel | RestartLevel | KillLevel

  datatype Policy = Policy(maxRetry: nat, recovery: State, level: Level)

  const STATE_ORDER: seq<State> := [
    Init, AuthCheck, OpenSimulate, EditorReady, WriteCode, WriteName, ClickRun,
    WaitQueue, WaitResult, ParseResult, QualityCheck, AddFavorite, Finished
  ]

  function PolicyOf(s: State): Policy
    requires s in STATE_ORDER
  {
    match s
    case Init | Finished => Policy(0, RestartBrowser, RestartLevel)
    case WriteCode | WriteName | ClickRun => Policy(1, RecoverPage, ReloadPage)
    case WaitResult => Policy(2, RebuildContext, RebuildLevel)
    case QualityCheck => Policy(0, RestartTask, RebuildLevel)
    case _ => Policy(1, RebuildContext, RebuildLevel)
  }

  // ---- What is logged ----

  datatype EventKind = Enter | Exit | Timeout | Progress | Retry | Recover | Fatal

  datatype RecoveryField = NoRecovery | ToState(state: State) | AtLevel(level: Level)

  datatype Event = Event(kind: EventKind, state: State, retry: nat, recovery: RecoveryField)

  // ---- One run ----

  datatype StateError = StateError(
    state: State, message: string, recovery: State, level: Level, retry: nat, nonrecoverable: bool)

  datatype Reply =
    | HandlerReturned
    | HandlerTimedOut(error: string)
    | HandlerNonRecoverable(error: string)
    | HandlerRaised(error: string)
    | Progressed
    | RecoverReturned
    | RecoverRaised(error: string, timedOut: bool)
    | Cancelled

  datatype Fsm =
    | Running(index: nat, retry: nat)
    | Recovering(index: nat, retry: nat)
    | Done
    | Failed(error: StateError)
    | Escaped(index: nat, message: string, timedOut: bool)
    | Aborted(index: nat, recovering: bool)

  predicate InOrder(f: Fsm) {
    && (f.Running? || f.Recovering? || f.Escaped? || f.Aborted? ==> f.index < |STATE_ORDER|)
    && (f.Running? || f.Recovering? ==> f.retry <= PolicyOf(STATE_ORDER[f.index]).maxRetry)
  }

  predicate Accepts(f: Fsm, r: Reply) {
    match r
    case HandlerReturned | HandlerTimedOut(_) | HandlerNonRecoverable(_) | HandlerRaised(_) | Progressed => f.Running?
    case RecoverReturned | RecoverRaised(_, _) => f.Recovering?
    case Cancelled => f.Running? || f.Recovering?
  }

  /** The machine after `r`, and the events it has logged by the time it awaits again. */
  function Next(f: Fsm, r: Reply): (n: (Fsm, seq<Event>))
    requires InOrder(f) && Accepts(f, r)
    ensures InOrder(n.0)
  {
    if r.Cancelled? then (Aborted(f.index, f.Recovering?), [])
    else if r.RecoverRaised? then (Escaped(f.index, r.error, r.timedOut), [])
    else
      var s := STATE_ORDER[f.index];
      var p := PolicyOf(s);
      match r
      case HandlerReturned =>
        var exit := Event(Exit, s, f.retry, NoRecovery);
        if f.index + 1 == |STATE_ORDER| then (Done, [exit])
        else (Running(f.index + 1, 0), [exit, Event(Enter, STATE_ORDER[f.index + 1], 0, NoRecovery)])
      case HandlerTimedOut(e) =>
        AfterFailure(f, e, [Event(Timeout, s, f.retry, ToState(p.recovery))])
      case HandlerRaised(e) =>
        var kind := if f.retry < p.maxRetry then Retry else Fatal;
        AfterFailure(f, e, [Event(kind, s, f.retry, ToState(p.recovery))])
      case HandlerNonRecoverable(e) =>
        (Failed(StateError(s, e, RestartTask, RebuildLevel, f.retry, true)),
         [Event(Fatal, s, f.retry, ToState(RestartTask))])
      case Progressed => (f, [Event(Progress, s, f.retry, NoRecovery)])
      case _ => (Running(f.index, f.retry), [Event(Enter, s, f.retry, NoRecovery)])
  }

  /** A failed handler is recovered while retries are left, and fatal otherwise. */
  function AfterFailure(f: Fsm, error: string, logged: seq<Event>): (n: (Fsm, seq<Event>))
    requires InOrder(f) && f.Running?
    ensures InOrder(n.0)
  {
    var s := STATE_ORDER[f.index];
    var p := PolicyOf(s);
    if f.retry < p.maxRetry then
      (Recovering(f.index, f.retry + 1), logged + [Event(Recover, p.recovery, f.retry + 1, AtLevel(p.level))])
    else
      (Failed(StateError(s, error, p.recovery, p.level, f.retry, false)),
       logged + [Event(Fatal, FatalError, f.retry, AtLevel(p.level))])
  }

  const START: Fsm := Running(0, 0)

  /** A run so far: each reply is one the machine was waiting for. */
  predicate Valid(replies: seq<Reply>)
    decreases |replies|, 0
  {
    replies != [] ==> Valid(Before(replies)) && Accepts(Final(Before(replies)), Latest(replies))
  }

  function Final(replies: seq<Reply>): (f: Fsm)
    requires Valid(replies)
    ensures InOrder(f)
    decreases |replies|, 1
  {
    if replies == [] then START else Next(Final(Before(replies)), Latest(replies)).0
  }

  /** Everything the run has logged, from its first event on. */
  function RunLog(replies: seq<Reply>): seq<Event>
    requires Valid(replies)
    decreases |replies|
  {
    if replies == [] then [Event(Enter, Init, 0, NoRecovery)]
    else RunLog(Before(replies)) + Next(Final(Before(replies)), Latest(replies)).1
  }

  /** The exits recorded so far: the list a successful run returns. */
  function Trace(replies: seq<Reply>): seq<State>
    requires Valid(replies)
    decreases |replies|
  {
    if replies == [] then [] else Trace(Before(replies)) + ExitOf(Final(Before(replies)), Latest(replies))
  }

  function ExitOf(f: Fsm, r: Reply): seq<State>
    requires InOrder(f) && Accepts(f, r)
  {
    if r.HandlerReturned? then [STATE_ORDER[f.index]] else []
  }

  lemma Extend(replies: seq<Reply>, r: Reply)
    requires Valid(replies) && Accepts(Final(replies), r)
    ensures Valid(replies + [r])
    ensures Final(replies + [r]) == Next(Final(replies), r).0
    ensures RunLog(replies + [r]) == RunLog(replies) + Next(Final(replies), r).1
    ensures Trace(replies + [r]) == Trace(replies) + ExitOf(Final(replies), r)
  {
    assert Before(replies + [r]) == replies;
  }

  // ---- The trace ----

  /**
   * At every moment of every run the trace is a prefix of the state order that stops at the
   * state being executed; it is the whole order exactly when the run succeeded.
   */
  lemma {:induction false} TraceIsPrefix(replies: seq<Reply>)
    requires Valid(replies)
    ensures var t := Trace(replies); var f := Final(replies);
      && t <= STATE_ORDER
      && (t == STATE_ORDER <==> f == Done)
      && (f.Running? || f.Recovering? ==> |t| == f.index)
      && (f.Failed? ==> |t| < |STATE_ORDER| && f.error.state == STATE_ORDER[|t|])
    decreases |replies|
  {
    if replies != [] {
      TraceIsPrefix(Before(replies));
      TraceStep(Trace(Before(replies)), Final(Before(replies)), Latest(replies));
    }
  }

  lemma TraceStep(t: seq<State>, f: Fsm, r: Reply)
    requires InOrder(f) && Accepts(f, r) && t <= STATE_ORDER && |t| == f.index
    ensures var t' := t + ExitOf(f, r); var n := Next(f, r).0;
      && t' <= STATE_ORDER
      && (t' == STATE_ORDER <==> n == Done)
      && (n.Running? || n.Recovering? ==> |t'| == n.index)
      && (n.Failed? ==> |t'| < |STATE_ORDER| && n.error.state == STATE_ORDER[|t'|])
  {}

  // ---- What a run amounts to ----

  /** Handlers that have returned, and how often the current one has failed. */
  ghost function Returns(replies: seq<Reply>): nat {
    if replies == [] then 0 else Returns(Before(replies)) + if Latest(replies) == HandlerReturned then 1 else 0
  }

  ghost function Failures(replies: seq<Reply>): nat {
    if replies == [] || Latest(replies) == HandlerReturned then 0
    else Failures(Before(replies)) + if Latest(replies).HandlerTimedOut? || Latest(replies).HandlerRaised? then 1 else 0
  }

  /** State by state: how often a failed handler is retried, what recovers it, and how high up. */
  ghost const RETRIES: seq<nat> := [0, 1, 1, 1, 1, 1, 1, 1, 2, 1, 0, 1, 0]

  ghost const RECOVERIES: seq<State> := [
    RestartBrowser, RebuildContext, RebuildContext, RebuildContext, RecoverPage, RecoverPage, RecoverPage,
    RebuildContext, RebuildContext, RebuildContext, RestartTask, RebuildContext, RestartBrowser
  ]

  ghost const LEVELS: seq<Level> := [
    RestartLevel, RebuildLevel, RebuildLevel, RebuildLevel, ReloadPage, ReloadPage, ReloadPage,
    RebuildLevel, RebuildLevel, RebuildLevel, RebuildLevel, RebuildLevel, RestartLevel
  ]

  /** The thirteen states in their order, by the names that are logged. */
  lemma OrderIsNamed()
    ensures |STATE_ORDER| == 13
    ensures StateName(STATE_ORDER[0]) == "INIT" && StateName(STATE_ORDER[1]) == "AUTH_CHECK"
    ensures StateName(STATE_ORDER[2]) == "OPEN_SIMULATE" && StateName(STATE_ORDER[3]) == "EDITOR_READY"
    ensures StateName(STATE_ORDER[4]) == "WRITE_CODE" && StateName(STATE_ORDER[5]) == "WRITE_NAME"
    ensures StateName(STATE_ORDER[6]) == "CLICK_RUN" && StateName(STATE_ORDER[7]) == "WAIT_QUEUE"
    ensures StateName(STATE_ORDER[8]) == "WAIT_RESULT" && StateName(STATE_ORDER[9]) == "PARSE_RESULT"
    ensures StateName(STATE_ORDER[10]) == "QUALITY_CHECK" && StateName(STATE_ORDER[11]) == "ADD_FAVORITE"
    ensures StateName(STATE_ORDER[12]) == "FINISHED"
  {}

  lemma PolicyIsTabled(i: nat)
    requires i < |STATE_ORDER|
    ensures PolicyOf(STATE_ORDER[i]) == Policy(RETRIES[i], RECOVERIES[i], LEVELS[i])
  {}

  /** Where a run with `i` handlers returned and `k` failures of the next one stands after its last reply. */
  ghost predicate StandsAt(f: Fsm, i: nat, k: nat, last: Option<Reply>) {
    && (f == Done <==> i == 13)
    && (i >= 13 ==> i == 13 && last == Some(HandlerReturned))
    && (i < 13 ==>
          match last
          case None => f == Running(0, 0) && i == 0 && k == 0
          case Some(HandlerReturned) => f == Running(i, 0) && k == 0
          case Some(Progressed) => f == Running(i, k) && k <= RETRIES[i]
          case Some(RecoverReturned) => f == Running(i, k) && k <= RETRIES[i]
          case Some(HandlerTimedOut(e)) => FailsAs(f, i, k, e)
          case Some(HandlerRaised(e)) => FailsAs(f, i, k, e)
          case Some(HandlerNonRecoverable(e)) => f == Failed(StateError(STATE_ORDER[i], e, RestartTask, RebuildLevel, k, true))
          case Some(RecoverRaised(e, timedOut)) => f == Escaped(i, e, timedOut)
          case Some(Cancelled) => f.Aborted? && f.index == i)
  }

  ghost predicate FailsAs(f: Fsm, i: nat, k: nat, e: string)
    requires i < 13
  {
    && k > 0
    && f == if k <= RETRIES[i] then Recovering(i, k)
            else Failed(StateError(STATE_ORDER[i], e, RECOVERIES[i], LEVELS[i], k - 1, false))
  }

  ghost function LastOf(replies: seq<Reply>): Option<Reply> { if replies == [] then None else Some(Latest(replies)) }

  /**
   * The machine is wherever the number of handlers that returned, the number of failures since,
   * and the last reply put it; it is done exactly when all thirteen handlers have returned.
   */
  lemma {:induction false} RunMeans(replies: seq<Reply>)
    requires Valid(replies)
    ensures StandsAt(Final(replies), Returns(replies), Failures(replies), LastOf(replies))
    decreases |replies|
  {
    if replies != [] {
      var b := Before(replies);
      RunMeans(b);
      StandsStep(Final(b), Returns(b), Failures(b), LastOf(b), Latest(replies));
    }
  }

  lemma StandsReturn(f: Fsm, i: nat, k: nat, last: Option<Reply>)
    requires InOrder(f) && f.Running? && StandsAt(f, i, k, last)
    ensures StandsAt(Next(f, HandlerReturned).0, i + 1, 0, Some(HandlerReturned))
  {}

  lemma StandsFailure(f: Fsm, i: nat, k: nat, last: Option<Reply>, r: Reply)
    requires InOrder(f) && f.Running? && StandsAt(f, i, k, last) && (r.HandlerTimedOut? || r.HandlerRaised?)
    ensures StandsAt(Next(f, r).0, i, k + 1, Some(r))
  {
    PolicyIsTabled(i);
  }

  lemma StandsOther(f: Fsm, i: nat, k: nat, last: Option<Reply>, r: Reply)
    requires InOrder(f) && Accepts(f, r) && StandsAt(f, i, k, last)
    requires r != HandlerReturned && !r.HandlerTimedOut? && !r.HandlerRaised?
    ensures StandsAt(Next(f, r).0, i, k, Some(r))
  {
    PolicyIsTabled(i);
  }

  lemma StandsStep(f: Fsm, i: nat, k: nat, last: Option<Reply>, r: Reply)
    requires InOrder(f) && Accepts(f, r) && StandsAt(f, i, k, last)
    ensures StandsAt(Next(f, r).0, i + (if r == HandlerReturned then 1 else 0),
                     if r == HandlerReturned then 0 else k + if r.HandlerTimedOut? || r.HandlerRaised? then 1 else 0, Some(r))
  {
    if r == HandlerReturned {
      StandsReturn(f, i, k, last);
    } else if r.HandlerTimedOut? || r.HandlerRaised? {
      StandsFailure(f, i, k, last, r);
    } else {
      StandsOther(f, i, k, last, r);
    }
  }

  /** A run fails in the state its returned handlers lead to, and asks for that state's level. */
  lemma FailedMeans(replies: seq<Reply>)
    requires Valid(replies)
    ensures var f, i := Final(replies), Returns(replies); f.Failed? ==>
      && i < 13 && f.error.state == STATE_ORDER[i] && f.error.level != KillLevel
      && f.error.level == if f.error.nonrecoverable then RebuildLevel else LEVELS[i]
  {
    RunMeans(replies);
    if Final(replies).Failed? { FailedLevel(Final(replies), Returns(replies), Failures(replies), LastOf(replies)); }
  }

  lemma FailedLevel(f: Fsm, i: nat, k: nat, last: Option<Reply>)
    requires StandsAt(f, i, k, last) && f.Failed?
    ensures i < 13 && f.error.state == STATE_ORDER[i] && f.error.level != KillLevel
    ensures f.error.level == if f.error.nonrecoverable then RebuildLevel else LEVELS[i]
  {}

  // ---- Termination ----

  /** Lexicographic: states left, then retry budget of the current state. */
  function Rank(f: Fsm): (nat, nat)
    requires InOrder(f)
  {
    match f
    case Running(i, k) => (|STATE_ORDER| - i, 2 * (PolicyOf(STATE_ORDER[i]).maxRetry - k) + 1)
    case Recovering(i, k) => (|STATE_ORDER| - i, 2 * (PolicyOf(STATE_ORDER[i]).maxRetry - k) + 2)
    case _ => (0, 0)
  }

  predicate Below(a: (nat, nat), b: (nat, nat)) { a.0 < b.0 || (a.0 == b.0 && a.1 < b.1) }

  /** Every step but an in-state progress event goes strictly down, so every run ends. */
  lemma EveryStepGoesDown(f: Fsm, r: Reply)
    requires InOrder(f) && Accepts(f, r) && r != Progressed
    ensures Below(Rank(Next(f, r).0), Rank(f))
  {
    if r.HandlerReturned? || r.HandlerTimedOut? || r.HandlerRaised? || r.RecoverReturned? {
      assert Rank(f).0 == |STATE_ORDER| - f.index;
    }
  }

  // ---- With the repository's own recovery handler ----

  /** Levels whose recovery can return to the machine; the others always raise. */
  predicate RecoversInPlace(l: Level) { l == ReloadPage || l == RecreatePage }

  /** Every recovery that returned belongs to a state whose policy level recovers in place. */
  predicate RepoRecovery(replies: seq<Reply>)
    requires Valid(replies)
    decreases |replies|
  {
    replies != [] ==>
      && RepoRecovery(Before(replies))
      && (Latest(replies).RecoverReturned? ==>
            RecoversInPlace(PolicyOf(STATE_ORDER[Final(Before(replies)).index]).level))
  }

  lemma ExtendRepo(replies: seq<Reply>, r: Reply)
    requires Valid(replies) && RepoRecovery(replies) && Accepts(Final(replies), r)
    requires r.RecoverReturned? ==> RecoversInPlace(PolicyOf(STATE_ORDER[Final(replies).index]).level)
    ensures Valid(replies + [r]) && RepoRecovery(replies + [r])
    ensures Final(replies + [r]) == Next(Final(replies), r).0
    ensures RunLog(replies + [r]) == RunLog(replies) + Next(Final(replies), r).1
    ensures Trace(replies + [r]) == Trace(replies) + ExitOf(Final(replies), r)
  {
    Extend(replies, r);
    assert Before(replies + [r]) == replies;
  }

  /** Replies that end an await, that is, all but in-state progress. */
  function Work(replies: seq<Reply>): nat {
    if replies == [] then 0
    else Work(Before(replies)) + if Latest(replies) == Progressed then 0 else 1
  }

  /** States among the first `i` that recover in place. */
  function PageStates(i: nat): nat { Max(0, Min(3, i - 4)) }

  predicate WithinBudget(f: Fsm, work: nat)
    requires InOrder(f)
  {
    && (f.Running? ==> work <= f.index + 2 * PageStates(f.index) + 2 * f.retry)
    && (f.Running? && f.retry > 0 ==> f.retry == 1 && STATE_ORDER[f.index] in {WriteCode, WriteName, ClickRun})
    && (f.Recovering? ==> f.retry == 1 && work <= f.index + 2 * PageStates(f.index) + 1)
    && work <= 19
  }

  /**
   * Composed with the repository's recovery, retries happen in place only in WRITE_CODE,
   * WRITE_NAME and CLICK_RUN, once each, and a run awaits at most nineteen times.
   */
  lemma {:induction false} RetriesOnlyOnPage(replies: seq<Reply>)
    requires Valid(replies) && RepoRecovery(replies)
    ensures WithinBudget(Final(replies), Work(replies))
    decreases |replies|
  {
    if replies != [] {
      RetriesOnlyOnPage(Before(replies));
      BudgetStep(Final(Before(replies)), Latest(replies), Work(Before(replies)));
    }
  }

  lemma BudgetStep(f: Fsm, r: Reply, work: nat)
    requires InOrder(f) && Accepts(f, r) && WithinBudget(f, work)
    requires r.RecoverReturned? ==> RecoversInPlace(PolicyOf(STATE_ORDER[f.index]).level)
    ensures WithinBudget(Next(f, r).0, work + if r == Progressed then 0 else 1)
  {}
}
