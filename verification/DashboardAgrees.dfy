/**
 * Producer and consumer agree: folding the events of a run of the machine yields the state
 * the machine is really in, whatever other alphas log in between and whatever this alpha
 * logged in earlier runs.
 */
module DashboardAgrees {
  import opened Common
  import opened Workflow
  import D = Dashboard

  function RecoveryName(r: RecoveryField): string {
    match r
    case NoRecovery => ""
    case ToState(s) => StateName(s)
    case AtLevel(ReloadPage) => "LEVEL_1_RELOAD_PAGE"
    case AtLevel(RecreatePage) => "LEVEL_2_RECREATE_PAGE"
    case AtLevel(RebuildLevel) => "LEVEL_3_REBUILD_CONTEXT"
    case AtLevel(RestartLevel) => "LEVEL_4_RESTART_BROWSER"
    case AtLevel(KillLevel) => "LEVEL_5_KILL_CHROMIUM"
  }

  function RowKindOf(k: EventKind): D.RowKind {
    match k
    case Enter => D.StateEnter
    case Exit => D.StateExit
    case Timeout => D.StateTimeout
    case Progress => D.StateProgress
    case Retry => D.StateRetry
    case Recover => D.Other("STATE_RECOVER")
    case Fatal => D.StateFatal
  }

  function RowOf(e: Event, id: string, time: Option<int>): D.Row {
    D.Row(RowKindOf(e.kind), id, StateName(e.state), RecoveryName(e.recovery), time)
  }

  /** `rows` are the rows of `events`, logged for one alpha at times that are not too old. */
  ghost predicate Writes(rows: seq<D.Row>, events: seq<Event>, now: int) {
    && |rows| == |events|
    && forall k | 0 <= k < |rows| ::
         D.Fresh(rows[k], now) && rows[k] == RowOf(events[k], rows[k].alphaId, rows[k].time)
  }

  /** What the dashboard should show for a machine: a state and whether it is fatal. */
  function Visible(f: Fsm): Option<(string, bool)>
    requires InOrder(f)
  {
    match f
    case Running(i, _) => Some((StateName(STATE_ORDER[i]), false))
    case Recovering(i, _) => Some((StateName(PolicyOf(STATE_ORDER[i]).recovery), false))
    case Done => None
    case Failed(e) => Some((if e.nonrecoverable then StateName(e.state) else "FATAL_ERROR", true))
    case Escaped(i, _, _) => Some((StateName(PolicyOf(STATE_ORDER[i]).recovery), false))
    case Aborted(i, recovering) =>
      Some((StateName(if recovering then PolicyOf(STATE_ORDER[i]).recovery else STATE_ORDER[i]), false))
  }

  predicate Agrees(e: Option<D.Entry>, f: Fsm)
    requires InOrder(f)
  {
    Shape(e) == Visible(f)
  }

  function Shape(e: Option<D.Entry>): Option<(string, bool)> {
    if e.Some? then Some((e.value.state, e.value.fatal)) else None
  }

  /** The fold's branches, seen through the events the machine can log. */
  function ShapeAfter(v: Option<(string, bool)>, e: Event): Option<(string, bool)> {
    var name := StateName(e.state);
    match e.kind
    case Enter => Some((name, false))
    case Exit => if v.Some? && v.value.0 == name then None else v
    case Timeout => Some((name, false))
    case Fatal => Some((name, true))
    case Progress | Retry => Some((name, v.Some? && v.value.1))
    case Recover => if v.Some? then Some((name, v.value.1)) else None
  }

  lemma ApplyShape(e: Option<D.Entry>, event: Event, row: D.Row, now: int)
    requires D.Fresh(row, now) && row == RowOf(event, row.alphaId, row.time)
    ensures Shape(D.Apply(e, row, now)) == ShapeAfter(Shape(e), event)
  {
    NamesAreNotEmpty(event.state);
  }

  lemma NamesAreNotEmpty(s: State)
    ensures StateName(s) != ""
  {
    match s { case _ => }
  }

  /** Folding the rows one step logs takes an agreeing entry to an agreeing entry. */
  lemma StepAgrees(e: Option<D.Entry>, f: Fsm, r: Reply, rows: seq<D.Row>, now: int)
    requires InOrder(f) && Accepts(f, r) && Agrees(e, f)
    requires Writes(rows, Next(f, r).1, now)
    ensures Agrees(D.EntryAfter(e, rows, now), Next(f, r).0)
  {
    var events := Next(f, r).1;
    StepShapes(f, r);
    if |rows| == 1 {
      FoldOne(e, rows, now);
      ApplyShape(e, events[0], rows[0], now);
    } else if |rows| == 2 {
      FoldTwo(e, rows, now);
      ApplyShape(e, events[0], rows[0], now);
      ApplyShape(D.Apply(e, rows[0], now), events[1], rows[1], now);
    }
  }

  lemma StepShapes(f: Fsm, r: Reply)
    requires InOrder(f) && Accepts(f, r)
    ensures var events := Next(f, r).1; var after := Visible(Next(f, r).0);
      && |events| <= 2
      && (|events| == 0 ==> Visible(f) == after)
      && (|events| == 1 ==> ShapeAfter(Visible(f), events[0]) == after)
      && (|events| == 2 ==> ShapeAfter(ShapeAfter(Visible(f), events[0]), events[1]) == after)
  {}

  lemma FoldOne(e: Option<D.Entry>, rows: seq<D.Row>, now: int)
    requires |rows| == 1
    ensures D.EntryAfter(e, rows, now) == D.Apply(e, rows[0], now)
  {
    assert rows[..0] == [];
  }

  lemma FoldTwo(e: Option<D.Entry>, rows: seq<D.Row>, now: int)
    requires |rows| == 2
    ensures D.EntryAfter(e, rows, now) == D.Apply(D.Apply(e, rows[0], now), rows[1], now)
  {
    FoldOne(e, rows[..1], now);
  }

  lemma {:induction false} FoldConcat(e: Option<D.Entry>, a: seq<D.Row>, b: seq<D.Row>, now: int)
    ensures D.EntryAfter(e, a + b, now) == D.EntryAfter(D.EntryAfter(e, a, now), b, now)
    decreases |b|
  {
    if b == [] {
      assert a + b == a;
    } else {
      assert (a + b)[..|a + b| - 1] == a + b[..|b| - 1];
      FoldConcat(e, a, b[..|b| - 1], now);
    }
  }

  /** Whatever entry `before` earlier runs of this alpha left, the fold follows the current run. */
  lemma {:induction false} RunAgrees(before: Option<D.Entry>, replies: seq<Reply>, rows: seq<D.Row>, now: int)
    requires Valid(replies) && Writes(rows, RunLog(replies), now)
    ensures Agrees(D.EntryAfter(before, rows, now), Final(replies))
    decreases |replies|
  {
    if replies == [] {
      FoldOne(before, rows, now);
    } else {
      var front, f, r := Before(replies), Final(Before(replies)), Latest(replies);
      var earlier, step := WritesSplit(rows, RunLog(front), Next(f, r).1, now);
      RunAgrees(before, front, earlier, now);
      StepAgrees(D.EntryAfter(before, earlier, now), f, r, step, now);
      FoldConcat(before, earlier, step, now);
    }
  }

  lemma WritesSplit(rows: seq<D.Row>, a: seq<Event>, b: seq<Event>, now: int) returns (first: seq<D.Row>, second: seq<D.Row>)
    requires Writes(rows, a + b, now)
    ensures rows == first + second && Writes(first, a, now) && Writes(second, b, now)
  {
    first, second := rows[..|a|], rows[|a|..];
  }

  /**
   * The refinement. Take the shared log `rows` of any number of alphas, interleaved in any way,
   * in which the events naming `id` are those of finished earlier runs followed by those of
   * the current run. Then the dashboard's entry for `id` is the current machine's state: the
   * current state while it executes, the policy's recovery state while it recovers or after
   * the recovery itself raised, a fatal entry after a state error, nothing after success.
   */
  lemma FoldRefinesMachine(
    rows: seq<D.Row>, id: string, earlier: seq<D.Row>, current: seq<D.Row>, replies: seq<Reply>, now: int)
    requires D.Own(rows, id) == earlier + current
    requires Valid(replies) && Writes(current, RunLog(replies), now)
    ensures Agrees(D.EntryAfter(None, D.Own(rows, id), now), Final(replies))
  {
    FoldConcat(None, earlier, current, now);
    RunAgrees(D.EntryAfter(None, earlier, now), replies, current, now);
  }

  /** When the alpha last gave a sign of life: its last event of any age that counts, exits aside. */
  function LastSign(e: Option<D.Entry>, own: seq<D.Row>, now: int): Option<int> {
    if own == [] then (if e.Some? then Some(e.value.lastSeen) else None)
    else
      var last := own[|own| - 1];
      if D.Fresh(last, now) && !last.event.StateExit? then Some(D.Stamp(last, now)) else LastSign(e, own[..|own| - 1], now)
  }

  /** A worker's age in the table is that of its last sign of life. */
  lemma {:induction false} LastSeenIsLastSign(e: Option<D.Entry>, own: seq<D.Row>, now: int)
    requires D.EntryAfter(e, own, now).Some?
    ensures LastSign(e, own, now) == Some(D.EntryAfter(e, own, now).value.lastSeen)
  {
    if own != [] {
      var before, last := own[..|own| - 1], own[|own| - 1];
      assert D.EntryAfter(e, own, now) == D.Apply(D.EntryAfter(e, before, now), last, now);
      if D.EntryAfter(e, before, now).Some? { LastSeenIsLastSign(e, before, now); }
    }
  }

  /**
   * What the table shows of an alpha is its machine: nothing after success; otherwise, as long as
   * the alpha gave a sign of life recently, a worker whose task is the state the machine is in or
   * the policy's recovery state, and whose health is FATAL if and only if the machine failed.
   */
  lemma TableShowsMachine(
    rows: seq<D.Row>, id: string, earlier: seq<D.Row>, current: seq<D.Row>, replies: seq<Reply>, now: int)
    requires D.Own(rows, id) == earlier + current
    requires Valid(replies) && Writes(current, RunLog(replies), now)
    ensures var f := Final(replies); var shown := D.WorkerShown(D.Own(rows, id), now); var sign := LastSign(None, D.Own(rows, id), now);
      && (shown.Some? <==> f != Done && sign.Some? && now - sign.value < D.WORKER_TTL_SECONDS)
      && (shown.Some? ==>
            && shown.value.task == Visible(f).value.0
            && (shown.value.health == D.FATAL <==> f.Failed?))
  {
    var own := D.Own(rows, id);
    FoldRefinesMachine(rows, id, earlier, current, replies, now);
    var e := D.EntryAfter(None, own, now);
    if e.Some? { LastSeenIsLastSign(None, own, now); }
    RowShowsMachine(e, Final(replies), LastSign(None, own, now), D.Restarts(own, now), now);
  }

  lemma RowShowsMachine(e: Option<D.Entry>, f: Fsm, sign: Option<int>, restarts: nat, now: int)
    requires InOrder(f) && Agrees(e, f) && (e.Some? ==> sign == Some(e.value.lastSeen))
    ensures var shown := D.RowShown(e, restarts, now);
      && (shown.Some? <==> f != Done && sign.Some? && now - sign.value < D.WORKER_TTL_SECONDS)
      && (shown.Some? ==>
            && shown.value.task == Visible(f).value.0
            && (shown.value.health == D.FATAL <==> f.Failed?))
  {
    VisibleIff(f);
  }

  lemma VisibleIff(f: Fsm)
    requires InOrder(f)
    ensures Visible(f).Some? <==> f != Done
    ensures Visible(f).Some? ==> Visible(f).value.0 != "" && (Visible(f).value.1 <==> f.Failed?)
  {
    match f
    case Running(i, _) => NamesAreNotEmpty(STATE_ORDER[i]);
    case Recovering(i, _) => NamesAreNotEmpty(PolicyOf(STATE_ORDER[i]).recovery);
    case Done =>
    case Failed(e) => NamesAreNotEmpty(e.state);
    case Escaped(i, _, _) => NamesAreNotEmpty(PolicyOf(STATE_ORDER[i]).recovery);
    case Aborted(i, _) =>
      NamesAreNotEmpty(STATE_ORDER[i]);
      NamesAreNotEmpty(PolicyOf(STATE_ORDER[i]).recovery);
  }

  // ---- Restart counts ----

  predicate CountsAsRestart(e: Event) {
    || e.state in {RestartBrowser, RestartTask}
    || (e.recovery.ToState? && e.recovery.state in {RestartBrowser, RestartTask})
    || e.recovery == AtLevel(RestartLevel)
  }

  lemma NoRestartIn(s: string)
    requires forall k | 0 <= k < |s| :: !('a' <= s[k] <= 'z')
    requires forall k | 0 < k < |s| :: !(s[k - 1] == 'S' && s[k] == 'T')
    ensures !D.NamesRestart(s)
  {
    assert D.Upper(s) == s;
    forall i | 0 <= i <= |s| ensures !At(s, i, "RESTART") {
      if At(s, i, "RESTART") {
        AtIndex(s, i, "RESTART", 2);
        AtIndex(s, i, "RESTART", 3);
      }
    }
  }

  lemma RestartAt(s: string, i: nat)
    requires (forall k | 0 <= k < |s| :: !('a' <= s[k] <= 'z')) && At(s, i, "RESTART")
    ensures D.NamesRestart(s)
  {
    assert D.Upper(s) == s;
  }

  lemma StateNamesRestart(s: State)
    ensures D.NamesRestart(StateName(s)) <==> s in {RestartBrowser, RestartTask}
  {
    if s in {RestartBrowser, RestartTask} {
      RestartAt(StateName(s), 0);
    } else if s in EARLY_STATES {
      EarlyNames(s);
    } else {
      LateNames(s);
    }
  }

  const EARLY_STATES := {Init, AuthCheck, OpenSimulate, EditorReady, WriteCode, WriteName, ClickRun, WaitQueue}

  lemma EarlyNames(s: State)
    requires s in EARLY_STATES
    ensures !D.NamesRestart(StateName(s))
  {
    match s
    case Init => NoRestartIn("INIT");
    case AuthCheck => NoRestartIn("AUTH_CHECK");
    case OpenSimulate => NoRestartIn("OPEN_SIMULATE");
    case EditorReady => NoRestartIn("EDITOR_READY");
    case WriteCode => NoRestartIn("WRITE_CODE");
    case WriteName => NoRestartIn("WRITE_NAME");
    case ClickRun => NoRestartIn("CLICK_RUN");
    case WaitQueue => NoRestartIn("WAIT_QUEUE");
  }

  lemma LateNames(s: State)
    requires s !in EARLY_STATES && s !in {RestartBrowser, RestartTask}
    ensures !D.NamesRestart(StateName(s))
  {
    match s
    case WaitResult => NoRestartIn("WAIT_RESULT");
    case ParseResult => NoRestartIn("PARSE_RESULT");
    case QualityCheck => NoRestartIn("QUALITY_CHECK");
    case AddFavorite => NoRestartIn("ADD_FAVORITE");
    case Finished => NoRestartIn("FINISHED");
    case RecoverPage => NoRestartIn("RECOVER_PAGE");
    case RebuildContext => NoRestartIn("REBUILD_CONTEXT");
    case FatalError => NoRestartIn("FATAL_ERROR");
  }

  lemma RecoveryNamesRestart(r: RecoveryField)
    ensures D.NamesRestart(RecoveryName(r)) <==>
              (r.ToState? && r.state in {RestartBrowser, RestartTask}) || r == AtLevel(RestartLevel)
  {
    match r
    case NoRecovery => NoRestartIn("");
    case ToState(s) => StateNamesRestart(s);
    case AtLevel(l) => LevelNamesRestart(l);
  }

  lemma LevelNamesRestart(l: Level)
    ensures D.NamesRestart(RecoveryName(AtLevel(l))) <==> l == RestartLevel
  {
    match l
    case RestartLevel => RestartAt("LEVEL_4_RESTART_BROWSER", 8);
    case KillLevel => NoRestartIn("LEVEL_5_KILL_CHROMIUM");
    case _ => PageLevelNames(l);
  }

  lemma PageLevelNames(l: Level)
    requires l != RestartLevel && l != KillLevel
    ensures !D.NamesRestart(RecoveryName(AtLevel(l)))
  {
    match l
    case ReloadPage => NoRestartIn("LEVEL_1_RELOAD_PAGE");
    case RecreatePage => NoRestartIn("LEVEL_2_RECREATE_PAGE");
    case RebuildLevel => NoRestartIn("LEVEL_3_REBUILD_CONTEXT");
  }

  lemma RowCountsAsRestart(e: Event, row: D.Row)
    requires row == RowOf(e, row.alphaId, row.time)
    ensures D.IsRestart(row) <==> CountsAsRestart(e)
  {
    StateNamesRestart(e.state);
    RecoveryNamesRestart(e.recovery);
  }

  /** What one run adds to the restart counter of its alpha, read off how the run ended. */
  function RestartsShown(f: Fsm): nat {
    if !f.Failed? then 0
    else if f.error.nonrecoverable || f.error.recovery == RestartTask then 1
    else if f.error.recovery == RestartBrowser then 2
    else 0
  }

  function CountEvents(events: seq<Event>): nat {
    if events == [] then 0
    else CountEvents(events[..|events| - 1]) + if CountsAsRestart(events[|events| - 1]) then 1 else 0
  }

  lemma {:induction false} CountConcat(a: seq<Event>, b: seq<Event>)
    ensures CountEvents(a + b) == CountEvents(a) + CountEvents(b)
    decreases |b|
  {
    if b == [] {
      assert a + b == a;
    } else {
      assert (a + b)[..|a + b| - 1] == a + b[..|b| - 1];
      CountConcat(a, b[..|b| - 1]);
    }
  }

  /**
   * The counter does not count browser restarts: a run that fails in INIT or FINISHED logs the
   * word twice and shows two restarts, though at most one can follow, a failed quality check
   * or a non-recoverable error shows one, though none follows, and page recoveries show none.
   */
  lemma {:induction false} RestartCountOfRun(replies: seq<Reply>)
    requires Valid(replies)
    ensures CountEvents(RunLog(replies)) == RestartsShown(Final(replies))
    decreases |replies|
  {
    if replies == [] {
      assert RunLog(replies)[..0] == [];
    } else {
      RestartCountOfRun(Before(replies));
      CountConcat(RunLog(Before(replies)), Next(Final(Before(replies)), Latest(replies)).1);
      RestartCountOfStep(Final(Before(replies)), Latest(replies));
    }
  }

  lemma RestartCountOfStep(f: Fsm, r: Reply)
    requires InOrder(f) && Accepts(f, r)
    ensures CountEvents(Next(f, r).1) == RestartsShown(Next(f, r).0)
  {
    var events := Next(f, r).1;
    if |events| == 1 { CountShort(events); }
    if |events| == 2 { CountShort(events); }
  }

  lemma CountShort(events: seq<Event>)
    requires 1 <= |events| <= 2
    ensures CountEvents(events) == (if CountsAsRestart(events[0]) then 1 else 0)
                                 + (if |events| == 2 && CountsAsRestart(events[1]) then 1 else 0)
  {
    assert events[..1] == [events[0]];
    assert [events[0]][..0] == [];
  }

  lemma WritesPrefix(rows: seq<D.Row>, events: seq<Event>, n: nat, now: int)
    requires Writes(rows, events, now) && n < |rows|
    ensures Writes(rows[..n], events[..n], now)
    ensures D.Fresh(rows[n], now) && rows[n] == RowOf(events[n], rows[n].alphaId, rows[n].time)
  {}

  /** The fold's counter over the rows of a run is that number. */
  lemma {:induction false} FoldCountsRestarts(rows: seq<D.Row>, events: seq<Event>, now: int)
    requires Writes(rows, events, now)
    ensures D.Restarts(rows, now) == CountEvents(events)
    decreases |rows|
  {
    if rows != [] {
      var n := |rows| - 1;
      WritesPrefix(rows, events, n, now);
      RowCountsAsRestart(events[n], rows[n]);
      FoldCountsRestarts(rows[..n], events[..n], now);
    }
  }
}
