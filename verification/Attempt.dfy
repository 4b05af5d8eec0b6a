/**
 * One backtest attempt: the state machine driven over a session, the mapping of its end to a
 * result, and the outer loop that opens sessions and restarts the browser.
 */
module Attempt {
  import opened Common
  import opened Workflow
  import opened Simulate

  function HandlerReply(o: Outcome): Reply {
    match o
    case Returned => HandlerReturned
    case TimedOut(e) => HandlerTimedOut(e)
    case NonRecoverable(e) => HandlerNonRecoverable(e)
    case Raised(e) => HandlerRaised(e)
    case Cancelled => Workflow.Cancelled
  }

  function RecoveryReply(o: Outcome): Reply {
    match o
    case Returned => RecoverReturned
    case Cancelled => Workflow.Cancelled
    case TimedOut(e) => RecoverRaised(e, true)
    case NonRecoverable(e) => RecoverRaised(e, false)
    case Raised(e) => RecoverRaised(e, false)
  }

  /** How one state, or the whole machine, ended. */
  datatype Ending = Passed | Error(error: StateError) | RecoveryRaised(message: string, timedOut: bool) | Stopped

  /** What the step machine says of a failed handler. */
  lemma FailureSteps(index: nat, retry: nat, o: Outcome)
    requires index < |STATE_ORDER| && InOrder(Running(index, retry)) && (o.TimedOut? || o.Raised?)
    ensures var s, p := STATE_ORDER[index], PolicyOf(STATE_ORDER[index]); var n := Next(Running(index, retry), HandlerReply(o));
      if retry < p.maxRetry then
        && n.0 == Recovering(index, retry + 1)
        && n.1 == [Event(if o.TimedOut? then Timeout else Retry, s, retry, ToState(p.recovery)),
                   Event(Recover, p.recovery, retry + 1, AtLevel(p.level))]
      else
        && n.0 == Failed(StateError(s, o.error, p.recovery, p.level, retry, false))
        && n.1 == [Event(if o.TimedOut? then Timeout else Workflow.Fatal, s, retry, ToState(p.recovery)),
                   Event(Workflow.Fatal, FatalError, retry, AtLevel(p.level))]
  {}

  lemma RecoveryEnds(index: nat, retry: nat, o: Outcome)
    requires o.IsFailure() && InOrder(Recovering(index, retry))
    ensures Accepts(Recovering(index, retry), RecoveryReply(o)) && !RecoveryReply(o).RecoverReturned?
    ensures ExitOf(Recovering(index, retry), RecoveryReply(o)) == []
    ensures var n := Next(Recovering(index, retry), RecoveryReply(o));
      && n.1 == [] && HasEnded(n.0)
      && EndingOf(n.0) == if o.Cancelled? then Stopped else RecoveryRaised(o.error, o.TimedOut?)
  {}

  /** One more reply, with the part of its rows that has been logged. */
  lemma RunGrows(replies: seq<Reply>, f: Fsm, r: Reply, log: seq<Event>, written: seq<Event>, pending: seq<Event>)
    requires Valid(replies) && RepoRecovery(replies) && Final(replies) == f && Accepts(f, r)
    requires r.RecoverReturned? ==> RecoversInPlace(PolicyOf(STATE_ORDER[f.index]).level)
    requires log == RunLog(replies) + written && written + pending == Next(f, r).1
    ensures var next := replies + [r];
      && Valid(next) && RepoRecovery(next) && Final(next) == Next(f, r).0
      && log + pending == RunLog(next) && Trace(next) == Trace(replies) + ExitOf(f, r)
  {
    ExtendRepo(replies, r);
    Joined(log, RunLog(replies), written, pending, Next(f, r).1, RunLog(replies + [r]));
  }

  lemma Joined(log: seq<Event>, before: seq<Event>, written: seq<Event>, pending: seq<Event>, step: seq<Event>, all: seq<Event>)
    requires log == before + written && written + pending == step && all == before + step
    ensures log + pending == all
  {
    assert (before + written) + pending == before + (written + pending);
  }

  /** The machine as the program runs it; `replies` records what it has been told so far. */
  class WorkflowFSM {
    const ctx: Session
    var log: seq<Event>
    var trace: seq<State>
    ghost var replies: seq<Reply>

    constructor (ctx: Session)
      ensures this.ctx == ctx && log == [] && trace == [] && replies == []
    {
      this.ctx, log, trace, replies := ctx, [], [], [];
    }

    /** The machine is in `f`; log and trace are those of its run, up to `pending` rows still to be logged. */
    ghost predicate Reflects(f: Fsm, pending: seq<Event>)
      reads this
    {
      && Valid(replies) && RepoRecovery(replies) && Final(replies) == f
      && log + pending == RunLog(replies) && trace == Trace(replies)
    }

    /** Before each pass over a state its ENTER row is still to be logged. */
    ghost predicate Entering(index: nat, retry: nat)
      reads this
    {
      index < |STATE_ORDER| && Reflects(Running(index, retry), [Event(Enter, STATE_ORDER[index], retry, NoRecovery)])
    }

    ghost method Receive(f: Fsm, r: Reply, written: seq<Event>, pending: seq<Event>)
      requires Valid(replies) && RepoRecovery(replies) && Final(replies) == f && Accepts(f, r)
      requires r.RecoverReturned? ==> RecoversInPlace(PolicyOf(STATE_ORDER[f.index]).level)
      requires log == RunLog(replies) + written && written + pending == Next(f, r).1
      requires trace == Trace(replies) + ExitOf(f, r)
      modifies `replies
      ensures Reflects(Next(f, r).0, pending)
    {
      RunGrows(replies, f, r, log, written, pending);
      replies := replies + [r];
    }

    /** Progress events logged by the handler while it runs. */
    method LogProgress(index: nat, retry: nat, count: nat)
      requires index < |STATE_ORDER| && Reflects(Running(index, retry), [])
      modifies `log, `replies
      ensures Reflects(Running(index, retry), [])
    {
      for k := 0 to count
        invariant Reflects(Running(index, retry), [])
      {
        var event := Event(Progress, STATE_ORDER[index], retry, NoRecovery);
        log := log + [event];
        Receive(Running(index, retry), Progressed, [event], []);
      }
    }

    /** Log the entry and await the handler. */
    method Execute(index: nat, retry: nat) returns (o: Outcome)
      requires Entering(index, retry) && ctx.ReadyFor(STATE_ORDER[index])
      modifies `log, `replies, ctx
      ensures Reflects(Running(index, retry), [])
      ensures o.Returned? && index + 1 < |STATE_ORDER| ==> ctx.ReadyFor(STATE_ORDER[index + 1])
      ensures ctx.Answered(old(ctx.tick), o)
      ensures ctx.ClicksAdded(old(ctx.clicks), if STATE_ORDER[index] == ClickRun then 1 else 0)
      ensures o.Returned? && STATE_ORDER[index] == ClickRun ==> ctx.clicks != old(ctx.clicks)
    {
      log := log + [Event(Enter, STATE_ORDER[index], retry, NoRecovery)];
      assert Reflects(Running(index, retry), []) by { assert log + [] == log; }
      var progress: nat;
      o, progress := ctx.Handle(index);
      LogProgress(index, retry, progress);
    }

    method Leave(index: nat, retry: nat)
      requires index < |STATE_ORDER| && Reflects(Running(index, retry), [])
      modifies `log, `trace, `replies
      ensures index + 1 < |STATE_ORDER| ==> Entering(index + 1, 0)
      ensures index + 1 == |STATE_ORDER| ==> Reflects(Done, [])
    {
      var exit := Event(Exit, STATE_ORDER[index], retry, NoRecovery);
      log := log + [exit];
      trace := trace + [STATE_ORDER[index]];
      var pending := if index + 1 < |STATE_ORDER| then [Event(Enter, STATE_ORDER[index + 1], 0, NoRecovery)] else [];
      Receive(Running(index, retry), HandlerReturned, [exit], pending);
    }

    /** The exception branches: raise a state error, or start a recovery while retries are left. */
    method Fail(index: nat, retry: nat, o: Outcome) returns (end: Ending)
      requires index < |STATE_ORDER| && Reflects(Running(index, retry), []) && o.IsFailure()
      modifies `log, `replies
      ensures end.Passed? ==> retry < PolicyOf(STATE_ORDER[index]).maxRetry && Reflects(Recovering(index, retry + 1), [])
      ensures !end.Passed? ==> EndedWith(end)
    {
      if o.Cancelled? {
        Receive(Running(index, retry), Workflow.Cancelled, [], []);
        return Stopped;
      } else if o.NonRecoverable? {
        end := FailBusiness(index, retry, o.error);
      } else if retry < PolicyOf(STATE_ORDER[index]).maxRetry {
        StartRecovery(index, retry, o);
        return Passed;
      } else {
        end := FailFatally(index, retry, o);
      }
    }

    method FailBusiness(index: nat, retry: nat, error: string) returns (end: Ending)
      requires index < |STATE_ORDER| && Reflects(Running(index, retry), [])
      modifies `log, `replies
      ensures end.Error? && EndedWith(end)
    {
      var s := STATE_ORDER[index];
      var event := Event(Workflow.Fatal, s, retry, ToState(RestartTask));
      log := log + [event];
      Receive(Running(index, retry), HandlerNonRecoverable(error), [event], []);
      return Error(StateError(s, error, RestartTask, RebuildLevel, retry, true));
    }

    method StartRecovery(index: nat, retry: nat, o: Outcome)
      requires index < |STATE_ORDER| && Reflects(Running(index, retry), []) && (o.TimedOut? || o.Raised?)
      requires retry < PolicyOf(STATE_ORDER[index]).maxRetry
      modifies `log, `replies
      ensures Reflects(Recovering(index, retry + 1), [])
    {
      var policy := PolicyOf(STATE_ORDER[index]);
      var event := Event(if o.TimedOut? then Timeout else Retry, STATE_ORDER[index], retry, ToState(policy.recovery));
      var recover := Event(Recover, policy.recovery, retry + 1, AtLevel(policy.level));
      FailureSteps(index, retry, o);
      ghost var before := log;
      log := log + [event];
      log := log + [recover];
      assert log == before + [event, recover];
      Receive(Running(index, retry), HandlerReply(o), [event, recover], []);
    }

    method FailFatally(index: nat, retry: nat, o: Outcome) returns (end: Ending)
      requires index < |STATE_ORDER| && Reflects(Running(index, retry), []) && (o.TimedOut? || o.Raised?)
      requires retry >= PolicyOf(STATE_ORDER[index]).maxRetry
      modifies `log, `replies
      ensures end.Error? && EndedWith(end)
    {
      var s := STATE_ORDER[index];
      var policy := PolicyOf(s);
      var event := Event(if o.TimedOut? then Timeout else Workflow.Fatal, s, retry, ToState(policy.recovery));
      var fatal := Event(Workflow.Fatal, FatalError, retry, AtLevel(policy.level));
      FailureSteps(index, retry, o);
      ghost var before := log;
      log := log + [event];
      log := log + [fatal];
      assert log == before + [event, fatal];
      Receive(Running(index, retry), HandlerReply(o), [event, fatal], []);
      return Error(StateError(s, o.error, policy.recovery, policy.level, retry, false));
    }

    /** Await the recovery handler; whatever it raises leaves the machine. */
    method RecoverState(index: nat, retry: nat) returns (end: Ending)
      requires index < |STATE_ORDER| && Reflects(Recovering(index, retry), [])
      modifies `replies, ctx
      ensures ctx.clicks == old(ctx.clicks) && old(ctx.tick) <= ctx.tick
      ensures end.Passed? ==> Entering(index, retry) && ctx.ReadyFor(STATE_ORDER[index])
      ensures !end.Passed? ==> EndedWith(end)
    {
      var f := Recovering(index, retry);
      var o := ctx.FsmRecover(STATE_ORDER[index], PolicyOf(STATE_ORDER[index]).level);
      if o.Returned? {
        Receive(f, RecoverReturned, [], [Event(Enter, STATE_ORDER[index], retry, NoRecovery)]);
        return Passed;
      }
      end := LeaveRecovery(index, retry, o);
    }

    method LeaveRecovery(index: nat, retry: nat, o: Outcome) returns (end: Ending)
      requires index < |STATE_ORDER| && Reflects(Recovering(index, retry), []) && o.IsFailure()
      modifies `replies
      ensures !end.Passed? && EndedWith(end)
    {
      RecoveryEnds(index, retry, o);
      end := if o.Cancelled? then Stopped else RecoveryRaised(o.error, o.TimedOut?);
      Receive(Recovering(index, retry), RecoveryReply(o), [], []);
    }

    /** The machine has stopped, and `end` reports how. */
    ghost predicate EndedWith(end: Ending)
      reads this
    {
      Valid(replies) && Reflects(Final(replies), []) && HasEnded(Final(replies)) && EndingOf(Final(replies)) == end
    }

    method RunState(index: nat) returns (end: Ending)
      requires Entering(index, 0) && ctx.ReadyFor(STATE_ORDER[index])
      modifies this, ctx
      ensures end.Passed? && index + 1 < |STATE_ORDER| ==> Entering(index + 1, 0) && ctx.ReadyFor(STATE_ORDER[index + 1])
      ensures end.Passed? && index + 1 == |STATE_ORDER| ==> Reflects(Done, [])
      ensures !end.Passed? ==> EndedWith(end)
      ensures ctx.ClicksAdded(old(ctx.clicks), if STATE_ORDER[index] == ClickRun then 2 else 0)
      ensures end.Passed? && STATE_ORDER[index] == ClickRun ==> ctx.clicks != old(ctx.clicks)
      ensures !end.Passed? ==> trace == old(trace)
      ensures old(ctx.tick) <= ctx.tick && (ctx.AllFine(old(ctx.tick), ctx.tick) ==> end.Passed?)
    {
      var policy := PolicyOf(STATE_ORDER[index]);
      ghost var clicking := STATE_ORDER[index] == ClickRun;
      PolicyIsTabled(index);
      OrderFacts(index);
      var retry := 0;
      while true
        invariant trace == old(trace) && retry <= policy.maxRetry && Entering(index, retry) && ctx.ReadyFor(STATE_ORDER[index])
        invariant ctx.ClicksAdded(old(ctx.clicks), if clicking then retry else 0)
        invariant old(ctx.tick) <= ctx.tick && (retry > 0 ==> !ctx.AllFine(old(ctx.tick), ctx.tick))
        decreases policy.maxRetry - retry
      {
        var again: bool;
        end, again := Pass(index, retry);
        if !again { return; }
        retry := retry + 1;
      }
    }

    /** One pass over a state: enter it, and leave it, repair it, or end the run. */
    method Pass(index: nat, retry: nat) returns (end: Ending, again: bool)
      requires Entering(index, retry) && ctx.ReadyFor(STATE_ORDER[index])
      modifies this, ctx
      ensures again ==>
        && trace == old(trace) && retry < PolicyOf(STATE_ORDER[index]).maxRetry
        && Entering(index, retry + 1) && ctx.ReadyFor(STATE_ORDER[index])
      ensures !again && end.Passed? && index + 1 < |STATE_ORDER| ==> Entering(index + 1, 0) && ctx.ReadyFor(STATE_ORDER[index + 1])
      ensures !again && end.Passed? && index + 1 == |STATE_ORDER| ==> Reflects(Done, [])
      ensures !again && !end.Passed? ==> EndedWith(end) && trace == old(trace)
      ensures ctx.ClicksAdded(old(ctx.clicks), if STATE_ORDER[index] == ClickRun then 1 else 0)
      ensures !again && end.Passed? && STATE_ORDER[index] == ClickRun ==> ctx.clicks != old(ctx.clicks)
      ensures old(ctx.tick) <= ctx.tick && (ctx.AllFine(old(ctx.tick), ctx.tick) ==> !again && end.Passed?)
    {
      var outcome := Execute(index, retry);
      if outcome.Returned? {
        Leave(index, retry);
        return Passed, false;
      }
      end := Repair(index, retry, outcome);
      again := end.Passed?;
    }

    /** After a failed handler: raise, or recover so that the state can be entered once more. */
    method Repair(index: nat, retry: nat, o: Outcome) returns (end: Ending)
      requires index < |STATE_ORDER| && Reflects(Running(index, retry), []) && o.IsFailure()
      modifies `log, `replies, ctx
      ensures ctx.clicks == old(ctx.clicks) && old(ctx.tick) <= ctx.tick
      ensures end.Passed? ==>
                retry < PolicyOf(STATE_ORDER[index]).maxRetry && Entering(index, retry + 1) && ctx.ReadyFor(STATE_ORDER[index])
      ensures !end.Passed? ==> EndedWith(end)
    {
      end := Fail(index, retry, o);
      if end.Passed? { end := RecoverState(index, retry + 1); }
    }

    lemma NotYetClicked(index: nat)
      requires Entering(index, 0)
      ensures ClickRun in trace ==> index > 6
    {
      TraceIsPrefix(replies);
      if ClickRun in trace {
        var j :| 0 <= j < |trace| && trace[j] == ClickRun;
        assert STATE_ORDER[j] == ClickRun;
        OrderFacts(j);
      }
    }

    /**
     * A whole run. Whatever the browser answers, the log and trace are those of a run of the
     * step machine, Run is clicked at most twice, and every click happens with this alpha's
     * code in the editor and its name written wherever the page has a name field.
     */
    method Run() returns (end: Ending)
      requires log == [] && trace == [] && replies == [] && ctx.clicks == []
      modifies this, ctx
      ensures EndedWith(end)
      ensures |ctx.clicks| <= 2 && forall c <- ctx.clicks :: ctx.GoodClick(c)
      ensures ClickRun in trace ==> ctx.clicks != []
      ensures old(ctx.tick) <= ctx.tick && (ctx.AllFine(old(ctx.tick), ctx.tick) ==> end.Passed?)
    {
      for index := 0 to |STATE_ORDER|
        invariant index < |STATE_ORDER| ==> Entering(index, 0) && ctx.ReadyFor(STATE_ORDER[index])
        invariant index == |STATE_ORDER| ==> Reflects(Done, [])
        invariant ctx.ClicksAdded([], if index <= 6 then 0 else 2)
        invariant index > 6 ==> ctx.clicks != []
        invariant old(ctx.tick) <= ctx.tick
      {
        OrderFacts(index);
        NotYetClicked(index);
        end := RunState(index);
        if !end.Passed? { return; }
      }
      end := Passed;
    }
  }

  predicate HasEnded(f: Fsm) { !f.Running? && !f.Recovering? }

  function EndingOf(f: Fsm): Ending {
    match f
    case Failed(e) => Error(e)
    case Escaped(_, m, timedOut) => RecoveryRaised(m, timedOut)
    case Aborted(_, _) => Stopped
    case _ => Passed
  }

  // ---- From the machine's end to a result ----

  datatype SimulationResult = Success | Failure(error: string, level: Level)

  /**
   * One round of the outer loop as the outside world decides it. The failure artifacts are
   * captured before a failure is reported, which may itself raise; a lost browser is then
   * reported as an unhandled error, if the second capture works.
   */
  datatype Round = Round(
    opens: bool, env: nat -> Answer, browserFailed: bool, fault: string, reporting: bool, reportFault: string,
    reportingAgain: bool, restarted: bool)

  const AUTOMATION := "[AUTOMATION]"
  const FINAL_CORRELATION := "[FINAL_CORRELATION]"

  predicate IsAutomationError(text: string) {
    Mentions(text, AUTOMATION) && !(FINAL_CORRELATION <= text)
  }

  /** The text says that the page is to blame, and does not begin with the one business error. */
  ghost predicate BlamesPage(text: string) {
    Holds(text, "[AUTOMATION]") && !exists rest: string :: text == "[FINAL_CORRELATION]" + rest
  }

  lemma BlamesPageIff(text: string)
    ensures IsAutomationError(text) <==> BlamesPage(text)
  {
    MentionsIff(text, AUTOMATION);
    if FINAL_CORRELATION <= text { assert text == FINAL_CORRELATION + text[|FINAL_CORRELATION|..]; }
  }

  const BROWSER_LOST := "[AUTOMATION] browser_watchdog: "
  const UNHANDLED := "[AUTOMATION] unhandled_fsm_error: "
  const TIMED_OUT := "[AUTOMATION] alpha_watchdog_timeout: "

  function ErrorText(e: StateError): string {
    if e.nonrecoverable then e.message else "[AUTOMATION] " + StateName(e.state) + ": " + e.message
  }

  function Reported(reporting: bool, text: string, level: Level): Option<SimulationResult> {
    if reporting then Some(Failure(text, level)) else None
  }

  /** A browser failure wins over success and over a cancelled run, but not over an exception. */
  function ResultOf(end: Ending, round: Round): Option<SimulationResult> {
    match end
    case Error(e) => Reported(round.reporting, ErrorText(e), e.level)
    case RecoveryRaised(m, timedOut) =>
      Reported(round.reporting, (if timedOut then TIMED_OUT else UNHANDLED) + m, RebuildLevel)
    case _ =>
      if round.browserFailed then
        if round.reporting then Some(Failure(BROWSER_LOST + round.fault, RestartLevel))
        else Reported(round.reportingAgain, UNHANDLED + round.reportFault, RebuildLevel)
      else if end.Passed? then Some(Success)
      else Reported(round.reporting, TIMED_OUT + round.fault, RebuildLevel)
  }

  /** What is reported of a run that ended in `f`. */
  ghost predicate Reports(result: Option<SimulationResult>, f: Fsm, round: Round) {
    var lost := round.browserFailed && (f == Done || f.Aborted?);
    && (result == Some(Success) <==> f == Done && !round.browserFailed)
    && (lost && round.reporting ==> result == Some(Failure(BROWSER_LOST + round.fault, RestartLevel)))
    && (lost && !round.reporting ==>
          result == if round.reportingAgain then Some(Failure(UNHANDLED + round.reportFault, RebuildLevel))
                    else None)
    && (!lost && f != Done ==> (result == None <==> !round.reporting))
    && (f.Failed? && round.reporting ==>
          result == Some(Failure(if f.error.nonrecoverable then f.error.message
                                 else "[AUTOMATION] " + StateName(f.error.state) + ": " + f.error.message, f.error.level)))
    && (f.Escaped? && round.reporting ==>
          result == Some(Failure((if f.timedOut then TIMED_OUT else UNHANDLED) + f.message, RebuildLevel)))
    && (f.Aborted? && !round.browserFailed && round.reporting ==>
          result == Some(Failure(TIMED_OUT + round.fault, RebuildLevel)))
  }

  lemma ResultIsReported(f: Fsm, round: Round)
    requires HasEnded(f)
    ensures Reports(ResultOf(EndingOf(f), round), f, round)
  {}

  lemma StartsWithBlame(text: string)
    requires "[AUTOMATION]" <= text
    ensures BlamesPage(text)
  {
    assert text == "" + "[AUTOMATION]" + text[|"[AUTOMATION]"|..];
    assert "[AUTOMATION]"[1] == 'A' && "[FINAL_CORRELATION]"[1] == 'F';
    forall rest: string ensures text != "[FINAL_CORRELATION]" + rest {
      assert ("[FINAL_CORRELATION]" + rest)[1] == 'F';
      assert text[1] == 'A';
    }
  }

  lemma PrefixBlames(prefix: string, rest: string)
    requires "[AUTOMATION]" <= prefix
    ensures BlamesPage(prefix + rest)
  {
    StartsWithBlame(prefix + rest);
  }

  lemma ReasonsBlame(text: string)
    ensures BlamesPage(BROWSER_LOST + text) && BlamesPage(UNHANDLED + text) && BlamesPage(TIMED_OUT + text)
  {
    PrefixBlames(BROWSER_LOST, text);
    PrefixBlames(UNHANDLED, text);
    PrefixBlames(TIMED_OUT, text);
  }

  lemma ErrorTextBlames(e: StateError)
    ensures BlamesPage(ErrorText(e)) <==> !e.nonrecoverable || BlamesPage(e.message)
  {
    if !e.nonrecoverable { StartsWithBlame(ErrorText(e)); }
  }

  /** What a failure says, as far as it matters to whoever reads it. */
  lemma FailureTexts(result: Option<SimulationResult>, f: Fsm, round: Round)
    requires HasEnded(f) && Reports(result, f, round) && result.Some? && result.value.Failure?
    ensures f.Failed? ==> round.reporting && result.value.error == ErrorText(f.error)
    ensures !f.Failed? ==> exists text :: result.value.error in {BROWSER_LOST + text, UNHANDLED + text, TIMED_OUT + text}
  {}

  /** Only a non-recoverable error can be reported to the template loop as a platform error. */
  lemma PlatformErrorsAreNonRecoverable(result: Option<SimulationResult>, f: Fsm, round: Round)
    requires HasEnded(f) && Reports(result, f, round)
    ensures result.Some? && result.value.Failure? && !BlamesPage(result.value.error) <==>
              round.reporting && f.Failed? && f.error.nonrecoverable && !BlamesPage(f.error.message)
  {
    if f.Failed? { ErrorTextBlames(f.error); }
    if result.Some? && result.value.Failure? {
      FailureTexts(result, f, round);
      if !f.Failed? {
        var text :| result.value.error in {BROWSER_LOST + text, UNHANDLED + text, TIMED_OUT + text};
        ReasonsBlame(text);
      }
    }
  }

  /** The level asked for is that of the failing state, and never a kill. */
  lemma NoRunAsksForKill(replies: seq<Reply>, result: Option<SimulationResult>, round: Round)
    requires Valid(replies) && HasEnded(Final(replies)) && Reports(result, Final(replies), round)
    ensures result.Some? && result.value.Failure? ==> result.value.level != KillLevel
    ensures var f, i := Final(replies), Returns(replies); f.Failed? && result.Some? ==>
      && result.value.Failure? && i < 13 && f.error.state == STATE_ORDER[i]
      && result.value.level == if f.error.nonrecoverable then RebuildLevel else LEVELS[i]
  {
    FailedMeans(replies);
    LevelReported(result, Final(replies), round);
  }

  lemma LevelReported(result: Option<SimulationResult>, f: Fsm, round: Round)
    requires Reports(result, f, round) && HasEnded(f)
    ensures f.Failed? && result.Some? ==> result.value.Failure? && result.value.level == f.error.level
    ensures !f.Failed? && result.Some? && result.value.Failure? ==> result.value.level in {RestartLevel, RebuildLevel}
  {}

  // ---- The outer loop ----

  /** What the browser supervisor has done; `live` sessions are open right now. */
  class BrowserSupervisor {
    var live: nat
    var started: nat
    var closed: nat
    var restarts: nat
    var kills: nat

    constructor ()
      ensures live == 0 && started == 0 && closed == 0 && restarts == 0 && kills == 0
    {
      live, started, closed, restarts, kills := 0, 0, 0, 0, 0;
    }

    /** Bring the browser back the way the level asks for. */
    method Replace(level: Level)
      modifies `restarts, `kills
      ensures restarts == old(restarts) + if level == RestartLevel then 1 else 0
      ensures kills == old(kills) + if level == RestartLevel then 0 else 1
    {
      if level == RestartLevel {
        restarts := restarts + 1;
      } else {
        kills := kills + 1;
      }
    }
  }

  /** The result of a session is that of a whole run of the machine, or of none that could be reported. */
  ghost predicate ReportsRun(result: Option<SimulationResult>, run: seq<Reply>, round: Round) {
    Valid(run) && RepoRecovery(run) && HasEnded(Final(run)) && Reports(result, Final(run), round)
  }

  ghost predicate AllFine(env: nat -> Answer, code: string, alphaName: string) {
    forall k: nat :: Fine(env(k), code, alphaName)
  }

  method RunAlphaFsm(code: string, alphaName: string, round: Round)
    returns (result: Option<SimulationResult>, ghost clicks: seq<Click>, ghost run: seq<Reply>)
    ensures ReportsRun(result, run, round)
    ensures result.Some? && result.value.Failure? ==> result.value.level != KillLevel
    ensures AllRight(clicks, 2, code, alphaName)
    ensures Final(run) == Done ==> clicks != []
    ensures AllFine(round.env, code, alphaName) ==> Final(run) == Done
  {
    var ctx := new Session(round.env, code, alphaName);
    var fsm := new WorkflowFSM(ctx);
    var end := fsm.Run();
    clicks, run := ctx.clicks, fsm.replies;
    result := ResultOf(end, round);
    ResultIsReported(Final(run), round);
    NoRunAsksForKill(run, result, round);
    TraceIsPrefix(run);
  }

  predicate Retryable(r: SimulationResult) { r.Failure? && IsAutomationError(r.error) }

  predicate OnPage(l: Level) { l == ReloadPage || l == RecreatePage || l == RebuildLevel }

  /** How many results are failures that blame the page and ask for one of the levels. */
  ghost function FailedAt(results: seq<SimulationResult>, levels: set<Level>): nat {
    if results == [] then 0
    else FailedAt(Before(results), levels) + if BlamedAt(Latest(results), levels) then 1 else 0
  }

  ghost predicate BlamedAt(r: SimulationResult, levels: set<Level>) { r.Failure? && BlamesPage(r.error) && r.level in levels }

  ghost function PageFailures(results: seq<SimulationResult>): nat {
    FailedAt(results, {ReloadPage, RecreatePage, RebuildLevel})
  }

  ghost function BrowserFailures(results: seq<SimulationResult>): nat { FailedAt(results, {RestartLevel, KillLevel}) }

  /**
   * The rule that ends an attempt, as a condition on the results of its sessions: the last one
   * does not blame the page, or is the third to do so below the browser, or the second above.
   */
  ghost predicate Stops(results: seq<SimulationResult>) {
    && results != []
    && (|| Latest(results) == Success || !BlamesPage(Latest(results).error)
        || PageFailures(results) >= 3 || BrowserFailures(results) >= 2)
  }

  /** No session so far was one to stop after. */
  ghost predicate Continues(results: seq<SimulationResult>) {
    results != [] ==> Continues(Before(results)) && !Stops(results)
  }

  lemma EveryLevel(l: Level)
    ensures l in {ReloadPage, RecreatePage, RebuildLevel} <==> l !in {RestartLevel, KillLevel}
    ensures OnPage(l) <==> l in {ReloadPage, RecreatePage, RebuildLevel}
  {
    match l {
      case ReloadPage =>
      case RecreatePage =>
      case RebuildLevel =>
      case RestartLevel =>
      case KillLevel =>
    }
  }

  /** So at most three sessions can have been survived: two page failures and one browser failure. */
  lemma {:induction false} ContinuesBounds(results: seq<SimulationResult>)
    requires Continues(results)
    ensures PageFailures(results) + BrowserFailures(results) == |results|
    ensures PageFailures(results) <= 2 && BrowserFailures(results) <= 1
  {
    if results != [] {
      ContinuesBounds(Before(results));
      EveryLevel(Latest(results).level);
    }
  }

  lemma AddResult(results: seq<SimulationResult>, r: SimulationResult)
    ensures Before(results + [r]) == results && Latest(results + [r]) == r
    ensures PageFailures(results + [r]) == PageFailures(results) + if Retryable(r) && OnPage(r.level) then 1 else 0
    ensures BrowserFailures(results + [r]) == BrowserFailures(results) + if Retryable(r) && !OnPage(r.level) then 1 else 0
  {
    assert Before(results + [r]) == results;
    if r.Failure? { BlamesPageIff(r.error); }
  }

  /** At most `most` clicks, each on this alpha's code and name. */
  ghost predicate AllRight(clicks: seq<Click>, most: int, code: string, alphaName: string) {
    |clicks| <= most && forall c <- clicks :: RightClick(c, code, alphaName)
  }

  lemma MoreRight(clicks: seq<Click>, more: seq<Click>, most: int, code: string, alphaName: string)
    requires AllRight(clicks, most, code, alphaName) && AllRight(more, 2, code, alphaName)
    ensures AllRight(clicks + more, most + 2, code, alphaName)
  {}

  /** Session by session, each result is that of a whole run of the machine. */
  ghost predicate AreResults(results: seq<SimulationResult>, runs: seq<seq<Reply>>, world: nat -> Round) {
    |results| == |runs| && forall k | 0 <= k < |results| :: ReportsRun(Some(results[k]), runs[k], world(k))
  }

  lemma ResultsGrow(results: seq<SimulationResult>, runs: seq<seq<Reply>>, world: nat -> Round, r: SimulationResult, run: seq<Reply>)
    requires AreResults(results, runs, world) && ReportsRun(Some(r), run, world(|results|))
    ensures AreResults(results + [r], runs + [run], world)
  {}

  /** The session opens, the browser lives, and nothing goes wrong on the page. */
  ghost predicate SmoothRound(round: Round, code: string, alphaName: string) {
    round.opens && !round.browserFailed && AllFine(round.env, code, alphaName)
  }

  /** The session does not open, or ends with a failure that cannot be reported. */
  ghost predicate LostRound(round: Round) { round.opens ==> exists run: seq<Reply> :: ReportsRun(None, run, round) }

  /** Open a session, run the machine in it, and close it whatever happened. */
  method RunSession(supervisor: BrowserSupervisor, code: string, alphaName: string, round: Round)
    returns (result: Option<SimulationResult>, ghost clicks: seq<Click>, ghost run: seq<Reply>)
    requires supervisor.live == 0
    modifies supervisor`live, supervisor`started, supervisor`closed
    ensures supervisor.live == 0
    ensures supervisor.started - old(supervisor.started) == supervisor.closed - old(supervisor.closed)
         == if round.opens then 1 else 0
    ensures if round.opens then ReportsRun(result, run, round) else result == None
    ensures result.Some? && result.value.Failure? ==> result.value.level != KillLevel
    ensures AllRight(clicks, 2, code, alphaName)
    ensures SmoothRound(round, code, alphaName) ==> result == Some(Success)
  {
    if !round.opens { return None, [], []; }
    supervisor.live, supervisor.started := supervisor.live + 1, supervisor.started + 1;
    result, clicks, run := RunAlphaFsm(code, alphaName, round);
    supervisor.live, supervisor.closed := supervisor.live - 1, supervisor.closed + 1;
  }

  /** What the loop knows when it goes on: how many sessions there were, and what each budget has spent. */
  datatype Spent = Spent(sessions: nat, page: nat, browser: nat)

  function Spend(s: Spent, r: SimulationResult): Spent {
    if !Retryable(r) then s.(sessions := s.sessions + 1)
    else if OnPage(r.level) then s.(sessions := s.sessions + 1, page := s.page + 1)
    else s.(sessions := s.sessions + 1, browser := s.browser + 1)
  }

  ghost predicate GoesOn(results: seq<SimulationResult>, s: Spent) {
    Continues(results) && s.sessions == |results| && s.page == PageFailures(results) && s.browser == BrowserFailures(results)
  }

  /** The first result after which the budgets say to stop is returned. */
  ghost predicate StopsWith(results: seq<SimulationResult>, r: SimulationResult) {
    Stops(results) && Continues(Before(results)) && r == Latest(results)
  }

  lemma Judged(results: seq<SimulationResult>, s: Spent, r: SimulationResult)
    requires GoesOn(results, s)
    ensures s.page <= 2 && s.browser <= 1 && s.sessions == s.page + s.browser
    ensures var s' := Spend(s, r);
      if !Retryable(r) || s'.page > 2 || s'.browser > 1 then StopsWith(results + [r], r) else GoesOn(results + [r], s')
  {
    ContinuesBounds(results);
    AddResult(results, r);
    if r.Failure? { BlamesPageIff(r.error); }
  }

  /** Of the results survived, those that asked for the browser. */
  ghost function Restarts(results: seq<SimulationResult>): nat {
    if results == [] then 0
    else Restarts(Before(results)) + if Latest(results).Failure? && Latest(results).level == RestartLevel then 1 else 0
  }

  lemma {:induction false} RestartsAreBrowserFailures(results: seq<SimulationResult>)
    requires Continues(results) && forall r <- results :: r.Failure? ==> r.level != KillLevel
    ensures Restarts(results) == BrowserFailures(results)
  {
    if results != [] {
      assert Latest(results) in results;
      forall r | r in Before(results) ensures r in results {}
      RestartsAreBrowserFailures(Before(results));
    }
  }

  /** No result: a session was lost, or the browser could not be restarted after one that asked for it. */
  ghost predicate GivesNoResult(results: seq<SimulationResult>, world: nat -> Round) {
    || LostRound(world(|results|))
    || (results != [] && Latest(results).Failure? && Latest(results).level == RestartLevel && !world(|results| - 1).restarted)
  }

  lemma RestartsCounted(results: seq<SimulationResult>, runs: seq<seq<Reply>>, world: nat -> Round)
    requires AreResults(results, runs, world) && Continues(results)
    ensures Restarts(results) == BrowserFailures(results)
  {
    forall k | 0 <= k < |results| && results[k].Failure? ensures results[k].level != KillLevel {
      NoRunAsksForKill(runs[k], Some(results[k]), world(k));
    }
    RestartsAreBrowserFailures(results);
  }

  /** What is known when the loop goes on: nothing to stop after, and what has been spent on it. */
  ghost predicate Underway(results: seq<SimulationResult>, runs: seq<seq<Reply>>, clicks: seq<Click>, s: Spent,
                           world: nat -> Round, code: string, alphaName: string) {
    && GoesOn(results, s) && AreResults(results, runs, world) && AllRight(clicks, 2 * s.sessions, code, alphaName)
    && s.browser == Restarts(results)
  }

  /** What is known when it ends with `result`, before any failed restart. */
  ghost predicate Ended(result: Option<SimulationResult>, results: seq<SimulationResult>, runs: seq<seq<Reply>>,
                        clicks: seq<Click>, restarts: int, world: nat -> Round, code: string, alphaName: string) {
    && AreResults(results, runs, world) && AllRight(clicks, 8, code, alphaName)
    && match result
       case None => Continues(results) && GivesNoResult(results, world) && restarts == Restarts(results)
       case Some(r) => StopsWith(results, r) && restarts == Restarts(Before(results))
  }

  lemma AfterResult(results: seq<SimulationResult>, runs: seq<seq<Reply>>, clicks: seq<Click>, s: Spent, world: nat -> Round,
                    code: string, alphaName: string, r: SimulationResult, run: seq<Reply>, more: seq<Click>)
    requires Underway(results, runs, clicks, s, world, code, alphaName) && ReportsRun(Some(r), run, world(s.sessions))
    requires AllRight(more, 2, code, alphaName)
    ensures s.page <= 2 && s.browser <= 1 && s.sessions == s.page + s.browser
    ensures var s' := Spend(s, r);
      if !Retryable(r) || s'.page > 2 || s'.browser > 1
      then Ended(Some(r), results + [r], runs + [run], clicks + more, s.browser, world, code, alphaName)
      else Underway(results + [r], runs + [run], clicks + more, s', world, code, alphaName)
  {
    Judged(results, s, r);
    ResultsGrow(results, runs, world, r, run);
    MoreRight(clicks, more, 2 * s.sessions, code, alphaName);
    AddResult(results, r);
    var s' := Spend(s, r);
    if Retryable(r) && s'.page <= 2 && s'.browser <= 1 { RestartsCounted(results + [r], runs + [run], world); }
  }

  lemma NotRestarted(results: seq<SimulationResult>, runs: seq<seq<Reply>>, clicks: seq<Click>, s: Spent, world: nat -> Round,
                     code: string, alphaName: string)
    requires Underway(results, runs, clicks, s, world, code, alphaName) && results != [] && !world(|results| - 1).restarted
    requires Latest(results).Failure? && Latest(results).level == RestartLevel
    ensures Ended(None, results, runs, clicks, s.browser, world, code, alphaName)
  {
    ContinuesBounds(results);
  }

  /** One turn of the loop, up to the browser restart. */
  method RunAndJudge(supervisor: BrowserSupervisor, code: string, alphaName: string, world: nat -> Round, spent: Spent,
                     ghost results: seq<SimulationResult>, ghost runs: seq<seq<Reply>>, ghost clicks: seq<Click>)
    returns (result: Option<SimulationResult>, goesOn: bool, spent': Spent, ghost results': seq<SimulationResult>,
             ghost runs': seq<seq<Reply>>, ghost clicks': seq<Click>)
    requires supervisor.live == 0 && Underway(results, runs, clicks, spent, world, code, alphaName)
    modifies supervisor`live, supervisor`started, supervisor`closed
    ensures supervisor.live == 0
    ensures supervisor.started - old(supervisor.started) == supervisor.closed - old(supervisor.closed) <= 1
    ensures !goesOn ==> Ended(result, results', runs', clicks', spent.browser, world, code, alphaName)
    ensures goesOn ==>
      && result.Some? && result.value.Failure? && result.value.level != KillLevel && results' == results + [result.value]
      && Underway(results', runs', clicks', spent', world, code, alphaName)
      && spent'.sessions == spent.sessions + 1 && spent'.page <= 2 && spent'.browser <= 1
      && spent'.page == spent.page + (if OnPage(result.value.level) then 1 else 0)
      && spent'.browser == spent.browser + (if OnPage(result.value.level) then 0 else 1)
    ensures SmoothRound(world(spent.sessions), code, alphaName) ==> !goesOn && result == Some(Success) && results' == results + [Success]
  {
    ghost var more: seq<Click>;
    ghost var run: seq<Reply>;
    result, more, run := RunSession(supervisor, code, alphaName, world(spent.sessions));
    goesOn, spent', results', runs', clicks' := false, spent, results, runs, clicks + more;
    if result == None {
      Judged(results, spent, Success);
      MoreRight(clicks, more, 2 * spent.sessions, code, alphaName);
      return;
    }
    AfterResult(results, runs, clicks, spent, world, code, alphaName, result.value, run, more);
    results', runs' := results + [result.value], runs + [run];
    spent' := spent.(sessions := spent.sessions + 1);
    if !Retryable(result.value) { return; }
    if OnPage(result.value.level) {
      spent' := spent'.(page := spent'.page + 1);
    } else {
      spent' := spent'.(browser := spent'.browser + 1);
    }
    goesOn := spent'.page <= 2 && spent'.browser <= 1;
  }

  /** So at most three sessions can have been survived, and at most one of them by a restart. */
  lemma UnderwayBounds(results: seq<SimulationResult>, runs: seq<seq<Reply>>, clicks: seq<Click>, s: Spent,
                       world: nat -> Round, code: string, alphaName: string)
    requires Underway(results, runs, clicks, s, world, code, alphaName)
    ensures s.page <= 2 && s.browser <= 1 && s.sessions == s.page + s.browser
  {
    ContinuesBounds(results);
  }

  lemma EndedBounds(result: Option<SimulationResult>, results: seq<SimulationResult>, runs: seq<seq<Reply>>,
                    clicks: seq<Click>, restarts: int, world: nat -> Round, code: string, alphaName: string)
    requires Ended(result, results, runs, clicks, restarts, world, code, alphaName)
    ensures 0 <= restarts <= 1
  {
    if result == None {
      ContinuesBounds(results);
      RestartsCounted(results, runs, world);
    } else {
      ContinuesBounds(Before(results));
      RestartsCounted(Before(results), Before(runs), world);
    }
  }

  /** Restart the browser unless the level is one of the page. */
  method BringBack(supervisor: BrowserSupervisor, level: Level, restarted: bool) returns (back: bool)
    requires level != KillLevel
    modifies supervisor`restarts, supervisor`kills
    ensures back == (OnPage(level) || restarted) && supervisor.kills == old(supervisor.kills)
    ensures supervisor.restarts == old(supervisor.restarts) + if OnPage(level) then 0 else 1
  {
    back := true;
    if OnPage(level) { return; }
    supervisor.Replace(level);
    back := restarted;
  }

  /** The same, with the browser restarted if the result asks for it; that may fail. */
  method RunAndRestart(supervisor: BrowserSupervisor, code: string, alphaName: string, world: nat -> Round, spent: Spent,
                       ghost results: seq<SimulationResult>, ghost runs: seq<seq<Reply>>, ghost clicks: seq<Click>)
    returns (result: Option<SimulationResult>, goesOn: bool, spent': Spent, ghost results': seq<SimulationResult>,
             ghost runs': seq<seq<Reply>>, ghost clicks': seq<Click>)
    requires supervisor.live == 0 && Underway(results, runs, clicks, spent, world, code, alphaName)
    modifies supervisor
    ensures supervisor.live == 0 && supervisor.kills == old(supervisor.kills)
    ensures supervisor.started - old(supervisor.started) == supervisor.closed - old(supervisor.closed) <= 1
    ensures var restarts := spent.browser + supervisor.restarts - old(supervisor.restarts);
      if goesOn then Underway(results', runs', clicks', spent', world, code, alphaName) && restarts == spent'.browser
         else Ended(result, results', runs', clicks', restarts, world, code, alphaName)
    ensures goesOn ==> spent'.sessions == spent.sessions + 1
    ensures SmoothRound(world(spent.sessions), code, alphaName) ==> !goesOn && result == Some(Success) && results' == results + [Success]
  {
    result, goesOn, spent', results', runs', clicks' :=
      RunAndJudge(supervisor, code, alphaName, world, spent, results, runs, clicks);
    if !goesOn { return; }
    var back := BringBack(supervisor, result.value.level, world(spent.sessions).restarted);
    if !back {
      NotRestarted(results', runs', clicks', spent', world, code, alphaName);
      result, goesOn := None, false;
    }
  }

  /**
   * One attempt. It opens at most four sessions, one at a time, closes each of them, restarts
   * the browser once for every survived result that asks for it, at most once in all, never
   * kills it, and returns after the first session after which the rule says to stop; every
   * click of Run in any session is a right one.
   */
  method RunPlatformBacktestAttempt(supervisor: BrowserSupervisor, code: string, alphaName: string, world: nat -> Round)
    returns (result: Option<SimulationResult>, ghost results: seq<SimulationResult>, ghost runs: seq<seq<Reply>>, ghost clicks: seq<Click>)
    requires supervisor.live == 0
    modifies supervisor
    ensures supervisor.live == 0
    ensures supervisor.started - old(supervisor.started) == supervisor.closed - old(supervisor.closed) <= 4
    ensures Ended(result, results, runs, clicks, supervisor.restarts - old(supervisor.restarts), world, code, alphaName)
    ensures supervisor.restarts <= old(supervisor.restarts) + 1 && supervisor.kills == old(supervisor.kills)
    ensures SmoothRound(world(0), code, alphaName) ==> result == Some(Success) && results == [Success]
  {
    results, runs, clicks := [], [], [];
    var spent := Spent(0, 0, 0);
    while true
      invariant supervisor.live == 0 && supervisor.kills == old(supervisor.kills)
      invariant supervisor.started - old(supervisor.started) == supervisor.closed - old(supervisor.closed) <= spent.sessions
      invariant supervisor.restarts == old(supervisor.restarts) + spent.browser
      invariant Underway(results, runs, clicks, spent, world, code, alphaName)
      invariant SmoothRound(world(0), code, alphaName) ==> results == [] && spent.sessions == 0
      decreases 4 - spent.sessions
    {
      var goesOn: bool;
      UnderwayBounds(results, runs, clicks, spent, world, code, alphaName);
      result, goesOn, spent, results, runs, clicks :=
        RunAndRestart(supervisor, code, alphaName, world, spent, results, runs, clicks);
      if !goesOn {
        EndedBounds(result, results, runs, clicks, supervisor.restarts - old(supervisor.restarts), world, code, alphaName);
        return;
      }
    }
  }
}
