/**
 * The dashboard's fold: it rebuilds the live worker table from the shared event log alone.
 *
 * DashboardAgrees ties it to the machine in Workflow, which the dashboard never sees.
 */
module Dashboard {
  import opened Common

  /** The event names the fold tells apart; `Other` is any name it has no case for. */
  datatype RowKind =
    | StateEnter | StateExit | StateFatal | StateTimeout
    | StateUpdate | StateProgress | StateRetry | StateHeartbeat
    | Other(name: string)

  datatype Row = Row(event: RowKind, alphaId: string, state: string, recovery: string, time: Option<int>)

  datatype Entry = Entry(state: string, startedAt: int, lastEventAt: int, lastSeen: int, fatal: bool)

  const MAX_EVENT_AGE_SECONDS := 86400
  const WORKER_TTL_SECONDS := 180
  const WORKER_STALE_SECONDS := 180
  const WORKFLOW_STALLED_SECONDS := 1800

  function KeyOf(r: Row): string { if r.alphaId == "" then "unknown" else r.alphaId }

  function Stamp(r: Row, now: int): int {
    if r.time == None || r.time.value == 0 then now else r.time.value
  }

  predicate Fresh(r: Row, now: int) { now - Stamp(r, now) <= MAX_EVENT_AGE_SECONDS }

  predicate IsActiveEvent(k: RowKind) { !k.StateExit? && !k.Other? }

  /** What one event does to the entry of the alpha it names. */
  function Apply(e: Option<Entry>, r: Row, now: int): (e': Option<Entry>) {
    var ts := Stamp(r, now);
    if !Fresh(r, now) then e
    else if r.event.StateEnter? then Some(Entry(r.state, ts, ts, ts, false))
    else if r.event.StateExit? then
      if e.Some? && e.value.state == r.state then None
      else if e.Some? then Some(e.value.(lastEventAt := ts))
      else None
    else if r.event.StateFatal? || r.event.StateTimeout? then
      Some(Entry(if r.state == "" then "FATAL_ERROR" else r.state, ts, ts, ts, r.event.StateFatal?))
    else if IsActiveEvent(r.event) || e.Some? then
      var worker := if e.Some? then e.value else Entry(if r.state == "" then "UNKNOWN" else r.state, ts, ts, ts, false);
      Some(worker.(state := if r.state == "" then worker.state else r.state, lastEventAt := ts, lastSeen := ts))
    else e
  }

  /** The entry left by a sequence of events of one alpha, starting from `e`. */
  function EntryAfter(e: Option<Entry>, own: seq<Row>, now: int): (e': Option<Entry>) {
    if own == [] then e
    else Apply(EntryAfter(e, own[..|own| - 1], now), own[|own| - 1], now)
  }

  function UpperChar(c: char): char { if 'a' <= c <= 'z' then (c as int - 32) as char else c }

  function Upper(s: string): string { seq(|s|, i requires 0 <= i < |s| => UpperChar(s[i])) }

  predicate IsRestart(r: Row) { NamesRestart(r.state) || NamesRestart(r.recovery) }

  predicate NamesRestart(s: string) { Mentions(Upper(s), "RESTART") }

  /** A row counts as a restart if its state or its recovery says so, in any mixture of letters. */
  lemma IsRestartIff(r: Row)
    ensures IsRestart(r) <==> Holds(Upper(r.state), "RESTART") || Holds(Upper(r.recovery), "RESTART")
  {
    MentionsIff(Upper(r.state), "RESTART");
    MentionsIff(Upper(r.recovery), "RESTART");
  }

  /** Capital letters for small ones, everything else as it is. */
  lemma UpperMeans(s: string, k: nat)
    requires k < |s|
    ensures 'a' <= s[k] <= 'z' ==> Upper(s)[k] as int == s[k] as int - 'a' as int + 'A' as int
    ensures !('a' <= s[k] <= 'z') ==> Upper(s)[k] == s[k]
  {}

  /** Events of one alpha that count as restarts. */
  function Restarts(own: seq<Row>, now: int): nat {
    if own == [] then 0
    else Restarts(own[..|own| - 1], now) + (if Fresh(own[|own| - 1], now) && IsRestart(own[|own| - 1]) then 1 else 0)
  }

  /** The subsequence of the log that names `id`. */
  function Own(rows: seq<Row>, id: string): seq<Row> {
    if rows == [] then []
    else Own(rows[..|rows| - 1], id) + (if KeyOf(rows[|rows| - 1]) == id then [rows[|rows| - 1]] else [])
  }

  /** One more row of the shared log moves only the alpha it names. */
  lemma FoldStep(rows: seq<Row>, k: nat, id: string, now: int)
    requires k < |rows|
    ensures var own := Own(rows[..k], id); var own' := Own(rows[..k + 1], id);
      if (if rows[k].alphaId == "" then "unknown" else rows[k].alphaId) == id then
        && own' == own + [rows[k]]
        && EntryAfter(None, own', now) == Apply(EntryAfter(None, own, now), rows[k], now)
        && Restarts(own', now) == Restarts(own, now) + (if Fresh(rows[k], now) && IsRestart(rows[k]) then 1 else 0)
      else own' == own
  {
    var own := Own(rows[..k], id);
    assert rows[..k + 1][..k] == rows[..k];
    if KeyOf(rows[k]) == id {
      assert (own + [rows[k]])[..|own|] == own;
    }
  }

  // ---- The worker table ----

  datatype Health = FATAL | RESTARTING | STALLED | RUNNING

  datatype Worker = Worker(task: string, runtime: int, restartCount: nat, health: Health)

  const STATE_TIMEOUTS: map<string, int> := map[
    "INIT" := 20, "AUTH_CHECK" := 180, "OPEN_SIMULATE" := 150, "EDITOR_READY" := 240, "WRITE_CODE" := 150,
    "WRITE_NAME" := 120, "CLICK_RUN" := 90, "WAIT_QUEUE" := 180, "WAIT_RESULT" := 1200, "PARSE_RESULT" := 120,
    "QUALITY_CHECK" := 90, "ADD_FAVORITE" := 180, "FINISHED" := 60
  ]

  function WorkerOf(e: Entry, restarts: nat, now: int): Worker {
    var task := if e.state == "" then "UNKNOWN" else e.state;
    var startedAt := if e.startedAt == 0 then now else e.startedAt;
    var lastEventAt := if e.lastEventAt == 0 then startedAt else e.lastEventAt;
    var runtime := Max(0, now - startedAt);
    var idle := Max(0, now - lastEventAt);
    var limit := if task in STATE_TIMEOUTS then STATE_TIMEOUTS[task] else WORKFLOW_STALLED_SECONDS;
    var health :=
      if e.fatal then FATAL
      else if NamesRestart(task) then RESTARTING
      else if runtime > limit || idle > WORKER_STALE_SECONDS then STALLED
      else RUNNING;
    Worker(task, runtime, restarts, health)
  }

  /** What the table shows for the alpha whose events are `own`. */
  function WorkerShown(own: seq<Row>, now: int): Option<Worker> {
    RowShown(EntryAfter(None, own, now), Restarts(own, now), now)
  }

  function RowShown(e: Option<Entry>, restarts: nat, now: int): Option<Worker> {
    if e.Some? && now - e.value.lastSeen < WORKER_TTL_SECONDS then Some(WorkerOf(e.value, restarts, now)) else None
  }

  /**
   * The fold over the interleaved log of all alphas. Each worker shown is determined by the
   * subsequence of events that name it, and an alpha is shown exactly when that subsequence
   * leaves an entry seen recently enough.
   */
  method CollectWorkers(rows: seq<Row>, now: int) returns (workers: map<string, Worker>)
    ensures forall id :: Lookup(workers, id) == WorkerShown(Own(rows, id), now)
  {
    var active: map<string, Entry> := map[];
    var restarts: map<string, nat> := map[];
    for k := 0 to |rows|
      invariant Collected(active, restarts, rows[..k], now)
    {
      ghost var active0, restarts0 := active, restarts;
      active, restarts := CollectRow(active, restarts, rows[k], now);
      CollectedStep(active0, restarts0, active, restarts, rows, k, now);
    }
    assert rows[..|rows|] == rows;
    workers := ShowWorkers(active, restarts, now);
  }

  /** The two tables after `rows`: each alpha's entry and restart count come from its own rows. */
  ghost predicate Collected(active: map<string, Entry>, restarts: map<string, nat>, rows: seq<Row>, now: int) {
    && (forall id :: Lookup(active, id) == EntryAfter(None, Own(rows, id), now))
    && (forall id :: Count(restarts, id) == Restarts(Own(rows, id), now))
  }

  /** A row moves the entry and the count of the alpha it names, and no other. */
  ghost predicate RowApplied(
    active: map<string, Entry>, restarts: map<string, nat>, active': map<string, Entry>, restarts': map<string, nat>, r: Row, now: int)
  {
    && (forall id :: Lookup(active', id) == if id == KeyOf(r) then Apply(Lookup(active, id), r, now) else Lookup(active, id))
    && (forall id :: Count(restarts', id) ==
                     Count(restarts, id) + if id == KeyOf(r) && Fresh(r, now) && IsRestart(r) then 1 else 0)
  }

  method CollectRow(active: map<string, Entry>, restarts: map<string, nat>, r: Row, now: int)
    returns (active': map<string, Entry>, restarts': map<string, nat>)
    ensures RowApplied(active, restarts, active', restarts', r, now)
  {
    active', restarts' := active, restarts;
    if Fresh(r, now) {
      if IsRestart(r) {
        restarts' := restarts[KeyOf(r) := Count(restarts, KeyOf(r)) + 1];
      }
      active' := FoldEvent(active, r, now);
    }
  }

  lemma CollectedStep(active: map<string, Entry>, restarts: map<string, nat>, active': map<string, Entry>,
                      restarts': map<string, nat>, rows: seq<Row>, k: nat, now: int)
    requires k < |rows| && Collected(active, restarts, rows[..k], now)
    requires RowApplied(active, restarts, active', restarts', rows[k], now)
    ensures Collected(active', restarts', rows[..k + 1], now)
  {
    forall id
      ensures Lookup(active', id) == EntryAfter(None, Own(rows[..k + 1], id), now)
              && Count(restarts', id) == Restarts(Own(rows[..k + 1], id), now)
    {
      FoldStep(rows, k, id, now);
    }
  }

  /** One row for each entry seen recently enough. */
  method ShowWorkers(active: map<string, Entry>, restarts: map<string, nat>, now: int) returns (workers: map<string, Worker>)
    ensures forall id :: Lookup(workers, id) == RowShown(Lookup(active, id), Count(restarts, id), now)
  {
    workers := map id | id in active && now - active[id].lastSeen < WORKER_TTL_SECONDS
                    :: WorkerOf(active[id], Count(restarts, id), now);
  }

  /** The branches of the fold, as updates of the table. */
  method FoldEvent(active: map<string, Entry>, r: Row, now: int) returns (active': map<string, Entry>)
    requires Fresh(r, now)
    ensures Lookup(active', KeyOf(r)) == Apply(Lookup(active, KeyOf(r)), r, now)
    ensures forall id :: id != KeyOf(r) ==> Lookup(active', id) == Lookup(active, id)
  {
    var id, ts := KeyOf(r), Stamp(r, now);
    active' := active;
    if r.event.StateEnter? {
      active' := active'[id := Entry(r.state, ts, ts, ts, false)];
    } else if r.event.StateExit? {
      if id in active' && active'[id].state == r.state {
        active' := active' - {id};
      } else if id in active' {
        active' := active'[id := active'[id].(lastEventAt := ts)];
      }
    } else if r.event.StateFatal? || r.event.StateTimeout? {
      active' := active'[id := Entry(if r.state == "" then "FATAL_ERROR" else r.state, ts, ts, ts, r.event.StateFatal?)];
    } else if IsActiveEvent(r.event) || id in active' {
      if id !in active' {
        active' := active'[id := Entry(if r.state == "" then "UNKNOWN" else r.state, ts, ts, ts, false)];
      }
      if r.state != "" {
        active' := active'[id := active'[id].(state := r.state)];
      }
      active' := active'[id := active'[id].(lastEventAt := ts, lastSeen := ts)];
    }
  }

  function Lookup<V>(m: map<string, V>, id: string): Option<V> {
    if id in m then Some(m[id]) else None
  }

  function Count(m: map<string, nat>, id: string): nat { if id in m then m[id] else 0 }

  // ---- What an entry says of the rows it came from ----

  /** The row counts: it has no usable time, or one at most a day old. */
  ghost predicate IsRecent(r: Row, now: int) {
    r.time == None || r.time.value == 0 || now - r.time.value <= 86400
  }

  ghost function TimeOf(r: Row, now: int): int {
    if r.time == None || r.time.value == 0 then now else r.time.value
  }

  /** No row from `i` on counts unless it is of one of the harmless kinds. */
  ghost predicate NoStartFrom(own: seq<Row>, i: nat, now: int) {
    forall k | i <= k < |own| && IsRecent(own[k], now) ::
      !own[k].event.StateEnter? && !own[k].event.StateFatal? && !own[k].event.StateTimeout?
  }

  /** `k` is the last row that counts. */
  ghost predicate IsLastRecent(own: seq<Row>, k: nat, now: int) {
    k < |own| && IsRecent(own[k], now) && forall m | k < m < |own| :: !IsRecent(own[m], now)
  }

  /** After the first `k` rows there is an entry. */
  ghost predicate HasEntry(own: seq<Row>, k: nat, now: int)
    requires k <= |own|
  {
    EntryAfter(None, own[..k], now).Some?
  }

  /** A row leaves no entry if and only if there was none to touch, or it is the exit from the state shown. */
  lemma NoEntryIff(e: Option<Entry>, r: Row, now: int)
    ensures Apply(e, r, now) == None <==>
            if e == None then !IsRecent(r, now) || r.event.StateExit? || r.event.Other?
            else IsRecent(r, now) && r.event.StateExit? && r.state == e.value.state
  {}

  /** What one row that counts makes of the parts of an entry that remains. */
  lemma EntryStep(e: Option<Entry>, r: Row, now: int)
    requires IsRecent(r, now) && Apply(e, r, now).Some?
    ensures var a := Apply(e, r, now).value; var t := TimeOf(r, now);
      var begins := e == None || r.event.StateEnter? || r.event.StateFatal? || r.event.StateTimeout?;
      && a.lastEventAt == t
      && a.startedAt == (if begins then t else e.value.startedAt)
      && a.fatal == (if begins then r.event.StateFatal? else e.value.fatal)
      && (begins && r.state != "" ==> a.state == r.state)
      && (begins && r.state == "" ==>
            a.state == if r.event.StateEnter? then "" else if r.event.StateFatal? || r.event.StateTimeout? then "FATAL_ERROR" else "UNKNOWN")
      && (!begins ==> a.state == if r.state == "" || r.event.StateExit? then e.value.state else r.state)
  {}

  /**
   * The entry left by `own` goes back to row `begin`: the last that enters, fails or times out, or
   * a later one that found no entry. It started then, it is fatal if and only if that row is, and
   * its last event is `last`, the last row that counts.
   */
  ghost predicate GoesBackTo(own: seq<Row>, begin: nat, last: nat, now: int) {
    && begin <= last && IsLastRecent(own, last, now) && IsRecent(own[begin], now) && NoStartFrom(own, begin + 1, now)
    && EntryAfter(None, own, now).Some?
    && var e := EntryAfter(None, own, now).value;
    && e.startedAt == TimeOf(own[begin], now) && e.lastEventAt == TimeOf(own[last], now)
    && (e.fatal <==> own[begin].event.StateFatal?)
    && (HasEntry(own, begin, now) ==>
          own[begin].event.StateEnter? || own[begin].event.StateFatal? || own[begin].event.StateTimeout?)
    && forall k | begin < k <= |own| :: HasEntry(own, k, now)
  }

  lemma EntriesStay(own: seq<Row>, front: seq<Row>, begin: nat, now: int)
    requires own != [] && front == own[..|own| - 1] && begin < |front| && EntryAfter(None, own, now).Some?
    requires forall k | begin < k <= |front| :: HasEntry(front, k, now)
    ensures forall k | begin < k <= |own| :: HasEntry(own, k, now)
    ensures HasEntry(front, begin, now) <==> HasEntry(own, begin, now)
  {
    forall k | begin <= k <= |front| ensures HasEntry(own, k, now) <==> HasEntry(front, k, now) {
      assert front[..k] == own[..k];
    }
    assert own[..|own|] == own;
  }

  /** A row that does not count changes nothing. */
  lemma SkipsRow(own: seq<Row>, front: seq<Row>, begin: nat, last: nat, now: int)
    requires own != [] && front == own[..|own| - 1] && GoesBackTo(front, begin, last, now)
    requires !IsRecent(own[|own| - 1], now)
    ensures GoesBackTo(own, begin, last, now)
  {
    EntriesStay(own, front, begin, now);
  }

  /** A row that leaves the entry as begun is its last event. */
  lemma TouchesEntry(own: seq<Row>, front: seq<Row>, begin: nat, last: nat, now: int)
    requires own != [] && front == own[..|own| - 1] && GoesBackTo(front, begin, last, now)
    requires EntryAfter(None, own, now).Some? && IsRecent(own[|own| - 1], now)
    requires var k := own[|own| - 1].event; !k.StateEnter? && !k.StateFatal? && !k.StateTimeout?
    ensures GoesBackTo(own, begin, |own| - 1, now)
  {
    EntryStep(EntryAfter(None, front, now), own[|own| - 1], now);
    EntriesStay(own, front, begin, now);
  }

  /** A row that begins the entry is its first and last event. */
  lemma BeginsEntry(own: seq<Row>, front: seq<Row>, now: int)
    requires own != [] && front == own[..|own| - 1] && EntryAfter(None, own, now).Some? && IsRecent(own[|own| - 1], now)
    requires var k := own[|own| - 1].event;
      EntryAfter(None, front, now) == None || k.StateEnter? || k.StateFatal? || k.StateTimeout?
    ensures GoesBackTo(own, |own| - 1, |own| - 1, now)
  {
    EntryStep(EntryAfter(None, front, now), own[|own| - 1], now);
    assert own[..|own|] == own;
  }

  lemma {:induction false} EntryHistory(own: seq<Row>, now: int) returns (begin: nat, last: nat)
    requires EntryAfter(None, own, now).Some?
    ensures GoesBackTo(own, begin, last, now)
  {
    var front, r := own[..|own| - 1], own[|own| - 1];
    if !IsRecent(r, now) {
      begin, last := EntryHistory(front, now);
      SkipsRow(own, front, begin, last, now);
    } else if EntryAfter(None, front, now) == None || r.event.StateEnter? || r.event.StateFatal? || r.event.StateTimeout? {
      begin, last := |own| - 1, |own| - 1;
      BeginsEntry(own, front, now);
    } else {
      begin, last := EntryHistory(front, now);
      TouchesEntry(own, front, begin, last, now);
      last := |own| - 1;
    }
  }

  /** Health, in the order in which it is decided. */
  lemma HealthMeans(e: Entry, restarts: nat, now: int)
    requires e.startedAt != 0 && e.lastEventAt != 0
    ensures var w := WorkerOf(e, restarts, now); var task := if e.state == "" then "UNKNOWN" else e.state;
      var limit := if task in STATE_TIMEOUTS then STATE_TIMEOUTS[task] else 1800;
      var restarting := Holds(Upper(task), "RESTART");
      var late := now - e.startedAt > Max(0, limit) || now - e.lastEventAt > 180;
      && w.task == task && w.restartCount == restarts && w.runtime == Max(0, now - e.startedAt)
      && (w.health == FATAL <==> e.fatal)
      && (w.health == RESTARTING <==> !e.fatal && restarting)
      && (w.health == STALLED <==> !e.fatal && !restarting && late)
      && (w.health == RUNNING <==> !e.fatal && !restarting && !late)
  {
    MentionsIff(Upper(if e.state == "" then "UNKNOWN" else e.state), "RESTART");
  }

  /** A worker's runtime and health, from the rows: the one its entry goes back to, and the last that counts. */
  lemma WorkerOfRows(own: seq<Row>, now: int) returns (begin: nat, last: nat)
    requires now > 0 && WorkerShown(own, now).Some?
    ensures GoesBackTo(own, begin, last, now)
    ensures var w := WorkerShown(own, now).value;
      var limit := if w.task in STATE_TIMEOUTS then STATE_TIMEOUTS[w.task] else 1800;
      var fatal, restarting := own[begin].event.StateFatal?, Holds(Upper(w.task), "RESTART");
      var late := now - TimeOf(own[begin], now) > Max(0, limit) || now - TimeOf(own[last], now) > 180;
      && w.runtime == Max(0, now - TimeOf(own[begin], now))
      && (w.health == FATAL <==> fatal)
      && (w.health == RESTARTING <==> !fatal && restarting)
      && (w.health == STALLED <==> !fatal && !restarting && late)
      && (w.health == RUNNING <==> !fatal && !restarting && !late)
  {
    begin, last := EntryHistory(own, now);
    assert TimeOf(own[begin], now) != 0 && TimeOf(own[last], now) != 0;
    HealthMeans(EntryAfter(None, own, now).value, Restarts(own, now), now);
  }
}
