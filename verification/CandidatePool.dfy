/**
 * The bounded pool of candidates: an add removes what the new candidate repeats, ranks the rest
 * with it, keeps the best and measures their diversity again.
 */
module CandidatePool {
  import opened Common

  /**
   * A stored row. `realSc` and `estimatedSc` are 0 where no such correlation is known; `blocked`
   * says that its submission quality is bad or blocked by self-correlation.
   */
  datatype Row = Row(
    alphaId: string, expression: string, fingerprint: string, astFingerprint: string, reward: real, sharpe: real, fitness: real,
    similarity: real, realSc: real, estimatedSc: real, passed: bool, blocked: bool, timestamp: string, diversity: real)

  /**
   * What a caller adds. Of its metrics the pool uses the real self-correlation, the largest
   * platform correlation, whether any of the local proxies is usable, and whether they came
   * marked as bad or blocked.
   */
  datatype Request = Request(
    alphaId: string, expression: string, reward: real, sharpe: real, fitness: real, realSelfCorr: Option<real>,
    absMax: Option<real>, hasProxy: bool, marked: bool, estimatedSc: Option<real>, passed: bool, timestamp: string)

  /** The parser, the similarity measures and the estimate, none of which look at stored diversity. */
  datatype World = World(
    fingerprintOf: string -> string, astFingerprintOf: string -> Option<string>, similarityTo: (string, seq<Row>) -> real,
    estimate: (string, seq<Row>) -> real, diversityAmong: (nat, seq<Row>) -> real)

  // ---- Ranking ----

  function Score(row: Row, recency: string -> real): real {
    var bonus := if row.passed && !row.blocked then 0.25 else 0.0;
    row.reward * 0.45 + row.sharpe * 0.2 + row.fitness * 0.15 + row.diversity * 0.18 + recency(row.timestamp) * 0.1 + bonus
    - row.similarity * 0.08 - ScPenalty(row)
  }

  function ScPenalty(row: Row): real {
    if row.realSc >= 0.9 then 1.2 else if row.realSc >= 0.85 then 0.75 else if row.realSc > 0.7 then 0.35
    else if row.estimatedSc >= 0.75 then 0.15 else 0.0
  }

  /** What one more of each is worth, everything else being equal. */
  lemma WorthOfEach(row: Row, x: real, recency: string -> real, later: string -> real)
    ensures Score(row.(reward := row.reward + x), recency) == Score(row, recency) + 0.45 * x
    ensures Score(row.(sharpe := row.sharpe + x), recency) == Score(row, recency) + 0.2 * x
    ensures Score(row.(fitness := row.fitness + x), recency) == Score(row, recency) + 0.15 * x
    ensures Score(row.(diversity := row.diversity + x), recency) == Score(row, recency) + 0.18 * x
    ensures Score(row.(similarity := row.similarity + x), recency) == Score(row, recency) - 0.08 * x
    ensures later(row.timestamp) == recency(row.timestamp) + x ==> Score(row, later) == Score(row, recency) + 0.1 * x
    ensures row.passed ==> Score(row, recency) == Score(row.(passed := false), recency) + if row.blocked then 0.0 else 0.25
  {}

  /** And what its correlation costs it, against a row without one; of nothing at all the score is zero. */
  lemma CostOfCorrelation(row: Row, recency: string -> real)
    ensures var cost := Score(row.(realSc := 0.0, estimatedSc := 0.0), recency) - Score(row, recency);
      && (row.realSc >= 0.9 ==> cost == 1.2)
      && (0.85 <= row.realSc < 0.9 ==> cost == 0.75)
      && (0.7 < row.realSc < 0.85 ==> cost == 0.35)
      && (row.realSc <= 0.7 && row.estimatedSc >= 0.75 ==> cost == 0.15)
      && (row.realSc <= 0.7 && row.estimatedSc < 0.75 ==> cost == 0.0)
    ensures Score(Row("", "", "", "", 0.0, 0.0, 0.0, 0.0, 0.0, 0.0, false, false, "", 0.0), _ => 0.0) == 0.0
  {}

  function Scores(rows: seq<Row>, recency: string -> real): seq<real> {
    seq(|rows|, i requires 0 <= i < |rows| => Score(rows[i], recency))
  }

  /** Higher scores first; between equal ones the earlier row stays first. */
  predicate Outranks(scores: seq<real>, a: nat, b: nat)
    requires a < |scores| && b < |scores|
  {
    scores[a] > scores[b] || (scores[a] == scores[b] && a < b)
  }

  predicate Within(p: seq<nat>, n: nat) { forall i | 0 <= i < |p| :: p[i] < n }

  /** Put row `x`, which comes after all of `p`, into its place. */
  function Insert(p: seq<nat>, scores: seq<real>, x: nat): (q: seq<nat>)
    requires Within(p, x) && x < |scores|
    ensures |q| == |p| + 1 && Within(q, x + 1)
  {
    if p == [] || scores[p[|p| - 1]] >= scores[x] then p + [x]
    else Insert(p[..|p| - 1], scores, x) + [p[|p| - 1]]
  }

  predicate Descending(p: seq<nat>, scores: seq<real>)
    requires Within(p, |scores|)
  {
    forall i, j | 0 <= i < j < |p| :: Outranks(scores, p[i], p[j])
  }

  lemma {:induction false} InsertMeans(p: seq<nat>, scores: seq<real>, x: nat)
    requires x < |scores| && Within(p, x) && Descending(p, scores)
    ensures var q := Insert(p, scores, x);
      && Descending(q, scores)
      && forall y :: y in q <==> y in p || y == x
  {
    if p != [] && scores[p[|p| - 1]] < scores[x] {
      var front, last := p[..|p| - 1], p[|p| - 1];
      InsertMeans(front, scores, x);
      var q := Insert(front, scores, x);
      assert p == front + [last];
      forall i | 0 <= i < |q| ensures Outranks(scores, q[i], last) { assert q[i] in front || q[i] == x; }
      assert forall y :: y in q + [last] <==> y in q || y == last;
    }
  }

  /** The order of the first `n` rows. */
  function Order(scores: seq<real>, n: nat): (p: seq<nat>)
    requires n <= |scores|
    ensures |p| == n && Within(p, n)
  {
    if n == 0 then [] else Insert(Order(scores, n - 1), scores, n - 1)
  }

  /** It holds every row, higher scores first, ties in their old order. */
  lemma {:induction false} OrderMeans(scores: seq<real>, n: nat)
    requires n <= |scores|
    ensures Descending(Order(scores, n), scores) && forall y | 0 <= y < n :: y in Order(scores, n)
  {
    if n > 0 {
      OrderMeans(scores, n - 1);
      InsertMeans(Order(scores, n - 1), scores, n - 1);
    }
  }

  /** A slice up to a limit; a negative one counts from the end. */
  function Cut(n: nat, limit: int): (k: nat)
    ensures k <= n && (limit >= 0 ==> k == Min(n, limit)) && (limit < 0 ==> n - k == Min(n, -limit))
  {
    if limit >= 0 then Min(n, limit) else Max(0, n + limit)
  }

  function Picked(rows: seq<Row>, p: seq<nat>): seq<Row>
    requires Within(p, |rows|)
  {
    seq(|p|, i requires 0 <= i < |p| => rows[p[i]])
  }

  function RankedAndTrimmed(rows: seq<Row>, recency: string -> real, limit: int): seq<Row> {
    Picked(rows, Order(Scores(rows, recency), |rows|)[..Cut(|rows|, limit)])
  }

  // ---- Diversity ----

  function Bare(rows: seq<Row>): seq<Row> { seq(|rows|, i requires 0 <= i < |rows| => rows[i].(diversity := 0.0)) }

  function DiversityScore(i: nat, rows: seq<Row>, w: World): real {
    if |rows| <= 1 then 1.0 else w.diversityAmong(i, Bare(rows))
  }

  function WithDiversity(rows: seq<Row>, w: World): seq<Row> {
    seq(|rows|, i requires 0 <= i < |rows| => rows[i].(diversity := DiversityScore(i, rows, w)))
  }

  /** Measuring again changes nothing: diversity does not depend on itself. */
  lemma WithDiversityTwice(rows: seq<Row>, w: World)
    ensures WithDiversity(WithDiversity(rows, w), w) == WithDiversity(rows, w)
  {
    assert Bare(WithDiversity(rows, w)) == Bare(rows);
  }

  // ---- An add ----

  datatype Match = SameFingerprint(fingerprint: string) | SameAst(ast: string)
  {
    predicate Hits(row: Row) {
      match this
      case SameFingerprint(f) => row.fingerprint == f
      case SameAst(a) => row.astFingerprint == a
    }
  }

  function Without(rows: seq<Row>, m: Match): seq<Row> {
    if rows == [] then [] else (if m.Hits(rows[0]) then [] else [rows[0]]) + Without(rows[1..], m)
  }

  function AstFingerprint(expression: string, w: World): string {
    if w.astFingerprintOf(expression) == None then "" else w.astFingerprintOf(expression).value
  }

  /** The old rows with other text than the new candidate's, and those with another tree too. */
  function Unlike(rows: seq<Row>, expression: string, w: World): seq<Row> {
    Without(rows, SameFingerprint(w.fingerprintOf(expression)))
  }

  function Others(rows: seq<Row>, expression: string, w: World): seq<Row> {
    var unlike, ast := Unlike(rows, expression, w), AstFingerprint(expression, w);
    if ast == "" then unlike else Without(unlike, SameAst(ast))
  }

  // ---- The quality of a correlation ----

  /** A correlation counts by its magnitude, unless it is out of range. */
  function Usable(c: Option<real>): Option<real> {
    if c == None || c.value > 1.000001 || c.value < -1.000001 then None
    else Some(if c.value < 0.0 then -c.value else c.value)
  }

  function RealCorrelation(r: Request): Option<real> {
    if Usable(r.realSelfCorr).Some? then Usable(r.realSelfCorr) else Usable(r.absMax)
  }

  /** A real correlation decides; without one a usable proxy clears the mark the metrics came with. */
  predicate Blocked(r: Request) {
    if RealCorrelation(r).Some? then RealCorrelation(r).value >= 0.85 else r.marked && !r.hasProxy
  }

  /** What the score penalises is the first correlation present, with its sign and whatever its range. */
  function PenalisedSc(r: Request): real {
    if r.realSelfCorr.Some? then r.realSelfCorr.value else if r.absMax.Some? then r.absMax.value else 0.0
  }

  /** The new row; it has no diversity yet, and counts as having none when it is ranked. */
  function Candidate(rows: seq<Row>, r: Request, w: World): Row {
    var unlike, others := Unlike(rows, r.expression, w), Others(rows, r.expression, w);
    Row(r.alphaId, r.expression, w.fingerprintOf(r.expression), AstFingerprint(r.expression, w), r.reward, r.sharpe, r.fitness,
        if w.astFingerprintOf(r.expression) == None then 0.0 else w.similarityTo(r.expression, unlike),
        PenalisedSc(r), if r.estimatedSc.Some? then r.estimatedSc.value else w.estimate(r.expression, others),
        r.passed, Blocked(r), r.timestamp, 0.0)
  }

  /**
   * A row is blocked if its real correlation, taken as the first one in range, is 0.85 or more by
   * magnitude; without one in range, if it came marked and no proxy clears it.
   */
  lemma BlockedIff(r: Request)
    ensures var inRange := (c: Option<real>) => c.Some? && -1.000001 <= c.value <= 1.000001;
      Blocked(r) <==>
        || (inRange(r.realSelfCorr) && (r.realSelfCorr.value >= 0.85 || r.realSelfCorr.value <= -0.85))
        || (!inRange(r.realSelfCorr) && inRange(r.absMax) && (r.absMax.value >= 0.85 || r.absMax.value <= -0.85))
        || (!inRange(r.realSelfCorr) && !inRange(r.absMax) && r.marked && !r.hasProxy)
  {}

  /** Similarity is measured against the rows of other text, the estimate against those of another tree as well. */
  lemma CandidateMeans(rows: seq<Row>, r: Request, w: World) returns (unlike: seq<Row>, others: seq<Row>)
    ensures var c := Candidate(rows, r, w);
      && c.alphaId == r.alphaId && c.expression == r.expression && c.timestamp == r.timestamp && c.passed == r.passed
      && c.reward == r.reward && c.sharpe == r.sharpe && c.fitness == r.fitness
      && c.fingerprint == w.fingerprintOf(r.expression) && c.blocked == Blocked(r) && c.diversity == 0.0
      && (c.realSc == if r.realSelfCorr.Some? then r.realSelfCorr.value else if r.absMax.Some? then r.absMax.value else 0.0)
      && (forall row :: row in unlike <==> row in rows && row.fingerprint != c.fingerprint)
      && (forall row :: row in others <==>
            row in rows && row.fingerprint != c.fingerprint && (c.astFingerprint != "" ==> row.astFingerprint != c.astFingerprint))
      && (c.similarity == if w.astFingerprintOf(r.expression) == None then 0.0 else w.similarityTo(r.expression, unlike))
      && (r.estimatedSc == None ==> c.estimatedSc == w.estimate(r.expression, others))
      && (r.estimatedSc.Some? ==> c.estimatedSc == r.estimatedSc.value)
  {
    var ast := AstFingerprint(r.expression, w);
    unlike, others := Unlike(rows, r.expression, w), Others(rows, r.expression, w);
    WithoutMeans(rows, SameFingerprint(w.fingerprintOf(r.expression)));
    if ast != "" { WithoutMeans(unlike, SameAst(ast)); }
  }

  /** Passing is worth 0.25 to the new row, unless its correlation withholds it. */
  lemma PassingIsWorth(rows: seq<Row>, r: Request, w: World, recency: string -> real)
    ensures var row, failed := Candidate(rows, r, w), Candidate(rows, r.(passed := false), w);
      Score(row, recency) - Score(failed, recency) == if r.passed && !Blocked(r) then 0.25 else 0.0
  {}

  /**
   * Blocking goes by the magnitude of a correlation and the penalty by its sign: exactly the
   * strongly negative ones are blocked without the penalty that is meant for blocked rows.
   */
  lemma BlockedWithoutPenaltyIff(rows: seq<Row>, r: Request, w: World)
    requires r.realSelfCorr.Some? && -1.0 <= r.realSelfCorr.value <= 1.0
    ensures Blocked(r) && ScPenalty(Candidate(rows, r, w)) < 0.75 <==> r.realSelfCorr.value <= -0.85
  {}

  function Contenders(rows: seq<Row>, r: Request, w: World): seq<Row> {
    Others(rows, r.expression, w) + [Candidate(rows, r, w)]
  }

  function Added(rows: seq<Row>, r: Request, w: World, recency: string -> real, limit: int): seq<Row> {
    WithDiversity(RankedAndTrimmed(Contenders(rows, r, w), recency, limit), w)
  }

  class Pool {
    var stored: seq<Row>
    const limit: int
    const w: World

    constructor (limit: int, w: World)
      ensures stored == [] && this.limit == limit && this.w == w
    {
      stored, this.limit, this.w := [], limit, w;
    }

    /** The stored rows with their diversity measured afresh. */
    method Measure(rows: seq<Row>) returns (enriched: seq<Row>)
      ensures enriched == WithDiversity(rows, w)
    {
      enriched := [];
      for i := 0 to |rows|
        invariant enriched == WithDiversity(rows, w)[..i]
      {
        enriched := enriched + [rows[i].(diversity := DiversityScore(i, rows, w))];
      }
    }

    method Drop(rows: seq<Row>, m: Match) returns (kept: seq<Row>)
      ensures kept == Without(rows, m)
    {
      kept := [];
      for i := 0 to |rows|
        invariant kept == Without(rows[..i], m)
      {
        WithoutLast(rows[..i], rows[i], m);
        assert rows[..i] + [rows[i]] == rows[..i + 1];
        if !m.Hits(rows[i]) { kept := kept + [rows[i]]; }
      }
      assert rows[..|rows|] == rows;
    }

    method Add(r: Request, recency: string -> real) returns (candidate: Row)
      modifies this`stored
      ensures stored == Added(old(stored), r, w, recency, limit) && candidate == Candidate(old(stored), r, w)
    {
      var others := Drop(stored, SameFingerprint(w.fingerprintOf(r.expression)));
      var ast := AstFingerprint(r.expression, w);
      if ast != "" { others := Drop(others, SameAst(ast)); }
      candidate := Candidate(stored, r, w);
      stored := Measure(RankedAndTrimmed(others + [candidate], recency, limit));
    }

    /** The parent for the next mutation: the best of the rows as they are now, the first of them if several are. */
    method SelectNextParent(recency: string -> real) returns (parent: Option<Row>)
      ensures parent == None <==> stored == []
      ensures var rows := WithDiversity(stored, w);
        parent.Some? ==> exists k: nat :: OutranksAll(Scores(rows, recency), k) && parent.value == rows[k]
    {
      var rows := Measure(stored);
      if rows == [] { return None; }
      var order := Order(Scores(rows, recency), |rows|);
      FirstOutranksAll(Scores(rows, recency));
      parent := Some(rows[order[0]]);
    }
  }

  // ---- What an add keeps ----

  lemma {:induction false} WithoutMeans(rows: seq<Row>, m: Match)
    ensures |Without(rows, m)| <= |rows|
    ensures forall row :: row in Without(rows, m) <==> row in rows && !m.Hits(row)
    ensures (exists row | row in rows :: m.Hits(row)) ==> |Without(rows, m)| < |rows|
  {
    if rows != [] {
      WithoutMeans(rows[1..], m);
      assert forall row :: row in rows <==> row == rows[0] || row in rows[1..];
    }
  }

  lemma {:induction false} WithoutLast(rows: seq<Row>, row: Row, m: Match)
    ensures Without(rows + [row], m) == Without(rows, m) + if m.Hits(row) then [] else [row]
  {
    if rows == [] {
      WithoutOne(row, m);
      assert [] + [row] == [row];
    } else {
      assert (rows + [row])[1..] == rows[1..] + [row];
      WithoutLast(rows[1..], row, m);
    }
  }

  predicate Differ(a: Row, b: Row) {
    a.fingerprint != b.fingerprint && (a.astFingerprint != "" ==> a.astFingerprint != b.astFingerprint)
  }

  predicate AllDiffer(rows: seq<Row>) { forall i, j | 0 <= i < j < |rows| :: Differ(rows[i], rows[j]) }

  lemma {:induction false} WithoutKeepsApart(rows: seq<Row>, m: Match)
    requires AllDiffer(rows)
    ensures AllDiffer(Without(rows, m))
  {
    if rows != [] {
      WithoutKeepsApart(rows[1..], m);
      WithoutMeans(rows[1..], m);
      var rest := Without(rows[1..], m);
      forall j | 0 <= j < |rest| ensures Differ(rows[0], rest[j]) {
        assert rest[j] in rows[1..];
        var k :| 0 <= k < |rows[1..]| && rows[1..][k] == rest[j];
        assert Differ(rows[0], rows[k + 1]);
      }
    }
  }

  /** The old rows that stay are exactly those the candidate does not repeat. */
  lemma OthersMeans(rows: seq<Row>, r: Request, w: World)
    ensures var others, candidate := Others(rows, r.expression, w), Candidate(rows, r, w);
      && |others| <= |rows|
      && (forall row :: row in others <==> row in rows && Differ(row, candidate))
      && ((exists row | row in rows :: !Differ(row, candidate)) ==> |others| < |rows|)
      && (AllDiffer(rows) ==> AllDiffer(others + [candidate]))
  {
    var fingerprint, ast := SameFingerprint(w.fingerprintOf(r.expression)), SameAst(AstFingerprint(r.expression, w));
    var unlike := Unlike(rows, r.expression, w);
    WithoutMeans(rows, fingerprint);
    WithoutMeans(unlike, ast);
    if AllDiffer(rows) {
      WithoutKeepsApart(rows, fingerprint);
      WithoutKeepsApart(unlike, ast);
      var others := Others(rows, r.expression, w);
      forall i | 0 <= i < |others| ensures Differ(others[i], Candidate(rows, r, w)) { assert others[i] in others; }
    }
  }

  /** `p` picks the best `|p|` rows, best first, each once. */
  ghost predicate PicksBest(p: seq<nat>, scores: seq<real>) {
    && Within(p, |scores|) && Descending(p, scores)
    && forall i, j | 0 <= i < |p| && 0 <= j < |scores| && j !in p :: Outranks(scores, p[i], j)
  }

  lemma PrefixPicksBest(scores: seq<real>, k: nat)
    requires k <= |scores|
    ensures PicksBest(Order(scores, |scores|)[..k], scores)
  {
    var p := Order(scores, |scores|);
    OrderMeans(scores, |scores|);
    assert forall m | 0 <= m < k :: p[m] in p[..k];
    forall i, j | 0 <= i < k && 0 <= j < |scores| && j !in p[..k] ensures Outranks(scores, p[i], j) {
      assert j in p;
      var l :| 0 <= l < |p| && p[l] == j;
      assert k <= l;
    }
  }

  ghost predicate OutranksAll(scores: seq<real>, k: nat) {
    k < |scores| && forall j | 0 <= j < |scores| && j != k :: Outranks(scores, k, j)
  }

  lemma FirstOutranksAll(scores: seq<real>)
    requires scores != []
    ensures OutranksAll(scores, Order(scores, |scores|)[0])
  {
    PrefixPicksBest(scores, 1);
    OnlyPick(Order(scores, |scores|)[..1], scores);
  }

  lemma OnlyPick(p: seq<nat>, scores: seq<real>)
    requires |p| == 1 && PicksBest(p, scores)
    ensures OutranksAll(scores, p[0])
  {
    forall j | 0 <= j < |scores| && j != p[0] ensures Outranks(scores, p[0], j) {
      assert p == [p[0]] && j !in p;
    }
  }

  /** The same row, apart from its diversity. */
  predicate SameButDiversity(a: Row, b: Row) { a.(diversity := 0.0) == b.(diversity := 0.0) }

  /**
   * The kept rows are the best `limit` of the old ones that stay and the new one, best first, and
   * change in nothing but diversity.
   */
  lemma KeptAreBest(rows: seq<Row>, r: Request, w: World, recency: string -> real, limit: int) returns (p: seq<nat>)
    ensures var all, kept := Contenders(rows, r, w), Added(rows, r, w, recency, limit);
      && |p| == |kept| == Cut(|all|, limit) && PicksBest(p, Scores(all, recency))
      && forall i | 0 <= i < |p| :: SameButDiversity(kept[i], all[p[i]])
  {
    var all := Contenders(rows, r, w);
    var scores := Scores(all, recency);
    PrefixPicksBest(scores, Cut(|all|, limit));
    p := Order(scores, |all|)[..Cut(|all|, limit)];
  }

  lemma PickedApart(rows: seq<Row>, kept: seq<Row>, p: seq<nat>, scores: seq<real>)
    requires AllDiffer(rows) && |scores| == |rows| && |p| == |kept| && PicksBest(p, scores)
    requires forall i | 0 <= i < |p| :: SameButDiversity(kept[i], rows[p[i]])
    ensures AllDiffer(kept)
  {
    forall i, j | 0 <= i < j < |kept| ensures Differ(kept[i], kept[j]) {
      assert Outranks(scores, p[i], p[j]);
      if p[i] < p[j] { assert Differ(rows[p[i]], rows[p[j]]); } else { assert Differ(rows[p[j]], rows[p[i]]); }
    }
  }

  // ---- Every sequence of adds ----

  datatype Step = Step(request: Request, recency: string -> real)

  function AfterAdds(steps: seq<Step>, w: World, limit: int): seq<Row> {
    if steps == [] then []
    else
      var last := steps[|steps| - 1];
      Added(AfterAdds(steps[..|steps| - 1], w, limit), last.request, w, last.recency, limit)
  }

  /** Bounded, without repetition, with every diversity up to date. */
  lemma {:induction false} PoolInvariant(steps: seq<Step>, w: World, limit: nat)
    ensures var rows := AfterAdds(steps, w, limit);
      |rows| <= limit && AllDiffer(rows) && WithDiversity(rows, w) == rows
  {
    if steps != [] {
      PoolInvariant(steps[..|steps| - 1], w, limit);
      var before, last := AfterAdds(steps[..|steps| - 1], w, limit), steps[|steps| - 1];
      OthersMeans(before, last.request, w);
      var p := KeptAreBest(before, last.request, w, last.recency, limit);
      var all := Contenders(before, last.request, w);
      PickedApart(all, AfterAdds(steps, w, limit), p, Scores(all, last.recency));
      WithDiversityTwice(RankedAndTrimmed(all, last.recency, limit), w);
    }
  }

  /** An add of an expression the pool knows already trims nothing: the new row replaces what it repeats. */
  lemma KnownIsReplaced(steps: seq<Step>, w: World, limit: nat, r: Request, recency: string -> real)
    requires var rows := AfterAdds(steps, w, limit); exists row | row in rows :: !Differ(row, Candidate(rows, r, w))
    ensures var rows := AfterAdds(steps, w, limit); |Added(rows, r, w, recency, limit)| == |Contenders(rows, r, w)|
  {
    PoolInvariant(steps, w, limit);
    OthersMeans(AfterAdds(steps, w, limit), r, w);
  }

  /** An add evicts at most one row that it does not repeat. */
  lemma AtMostOneEvicted(steps: seq<Step>, w: World, limit: nat, r: Request, recency: string -> real)
    ensures var rows := AfterAdds(steps, w, limit);
      limit > 0 ==> |Contenders(rows, r, w)| - 1 <= |Added(rows, r, w, recency, limit)| <= |Contenders(rows, r, w)|
  {
    PoolInvariant(steps, w, limit);
    OthersMeans(AfterAdds(steps, w, limit), r, w);
  }

  /** The request a row comes from: the last one with its text, and none after it has its tree. */
  ghost predicate LatestOf(steps: seq<Step>, w: World, row: Row, i: nat) {
    && i < |steps| && row.alphaId == steps[i].request.alphaId && row.expression == steps[i].request.expression
    && row.reward == steps[i].request.reward && row.timestamp == steps[i].request.timestamp
    && row.passed == steps[i].request.passed && row.blocked == Blocked(steps[i].request)
    && row.realSc == PenalisedSc(steps[i].request)
    && row.fingerprint == w.fingerprintOf(row.expression) && row.astFingerprint == AstFingerprint(row.expression, w)
    && forall j | i < j < |steps| ::
         && w.fingerprintOf(steps[j].request.expression) != row.fingerprint
         && (row.astFingerprint != "" ==> AstFingerprint(steps[j].request.expression, w) != row.astFingerprint)
  }

  /** A kept row is the new one or an old one that differs from it. */
  lemma RowComesFrom(rows: seq<Row>, r: Request, w: World, recency: string -> real, limit: int, k: nat) returns (l: nat)
    requires k < |Added(rows, r, w, recency, limit)|
    ensures var kept, candidate := Added(rows, r, w, recency, limit), Candidate(rows, r, w);
      if l == |rows| then SameButDiversity(kept[k], candidate)
      else l < |rows| && Differ(rows[l], candidate) && SameButDiversity(kept[k], rows[l])
  {
    var p := KeptAreBest(rows, r, w, recency, limit);
    OthersMeans(rows, r, w);
    var others := Others(rows, r.expression, w);
    if p[k] == |others| { return |rows|; }
    assert others[p[k]] in others;
    l :| 0 <= l < |rows| && rows[l] == others[p[k]];
  }

  lemma StillLatest(steps: seq<Step>, w: World, old_: Row, row: Row, i: nat, last: Step, candidate: Row)
    requires LatestOf(steps, w, old_, i) && SameButDiversity(row, old_) && Differ(old_, candidate)
    requires candidate.fingerprint == w.fingerprintOf(last.request.expression)
    requires candidate.astFingerprint == AstFingerprint(last.request.expression, w)
    ensures LatestOf(steps + [last], w, row, i)
  {}

  /** Every row is what was said last about its expression. */
  lemma {:induction false} LatestWins(steps: seq<Step>, w: World, limit: int, k: nat) returns (i: nat)
    requires k < |AfterAdds(steps, w, limit)|
    ensures LatestOf(steps, w, AfterAdds(steps, w, limit)[k], i)
  {
    var front, last := steps[..|steps| - 1], steps[|steps| - 1];
    assert steps == front + [last];
    var before, row := AfterAdds(front, w, limit), AfterAdds(steps, w, limit)[k];
    var l := RowComesFrom(before, last.request, w, last.recency, limit, k);
    var candidate := Candidate(before, last.request, w);
    if l == |before| {
      i := |steps| - 1;
      NewestIsLatest(front, w, before, row, last);
    } else {
      i := LatestWins(front, w, limit, l);
      StillLatest(front, w, before[l], row, i, last, candidate);
    }
  }

  lemma NewestIsLatest(front: seq<Step>, w: World, before: seq<Row>, row: Row, last: Step)
    requires SameButDiversity(row, Candidate(before, last.request, w))
    ensures LatestOf(front + [last], w, row, |front|)
  {}

  // ---- When the stored order can be trusted ----

  /** Rows stand in descending order of score. */
  ghost predicate Ordered(rows: seq<Row>, recency: string -> real) {
    forall i, j | 0 <= i < j < |rows| :: Score(rows[i], recency) >= Score(rows[j], recency)
  }

  /** Diversity measures lie between 0 and 1. */
  ghost predicate InUnit(measure: (nat, seq<Row>) -> real) {
    forall i, rows :: 0.0 <= measure(i, rows) <= 1.0
  }

  /** The score without the share of diversity. */
  function BareScore(row: Row, recency: string -> real): real { Score(row.(diversity := 0.0), recency) }

  lemma ScoreParts(row: Row, recency: string -> real)
    ensures Score(row, recency) == BareScore(row, recency) + row.diversity * 0.18
  {}

  /** Each row leads every later one by at least what diversity can make up for. */
  ghost predicate LeadsSuffice(rows: seq<Row>, recency: string -> real) {
    forall i, j | 0 <= i < j < |rows| :: BareScore(rows[i], recency) >= BareScore(rows[j], recency) + 0.18
  }

  lemma MeasuredScore(rows: seq<Row>, w: World, recency: string -> real, i: nat)
    requires i < |rows|
    ensures var measured := WithDiversity(rows, w);
      Score(measured[i], recency) == BareScore(rows[i], recency) + DiversityScore(i, rows, w) * 0.18
  {
    ScoreParts(WithDiversity(rows, w)[i], recency);
  }

  lemma LeadsAreEnough(rows: seq<Row>, w: World, recency: string -> real)
    requires |rows| >= 2 && LeadsSuffice(rows, recency) && InUnit(w.diversityAmong)
    ensures Ordered(WithDiversity(rows, w), recency)
  {
    var measured := WithDiversity(rows, w);
    forall i, j | 0 <= i < j < |measured| ensures Score(measured[i], recency) >= Score(measured[j], recency) {
      MeasuredScore(rows, w, recency, i);
      MeasuredScore(rows, w, recency, j);
      assert BareScore(rows[i], recency) >= BareScore(rows[j], recency) + 0.18;
    }
  }

  /** Only the row at `j` is diverse. */
  function Favouring(j: nat): (nat, seq<Row>) -> real { (k, rows) => if k == j then 1.0 else 0.0 }

  lemma LeadsAreNeeded(rows: seq<Row>, w: World, recency: string -> real, i: nat, j: nat)
    requires i < j < |rows| && BareScore(rows[i], recency) < BareScore(rows[j], recency) + 0.18
    ensures InUnit(Favouring(j)) && !Ordered(WithDiversity(rows, w.(diversityAmong := Favouring(j))), recency)
  {
    var w' := w.(diversityAmong := Favouring(j));
    MeasuredScore(rows, w', recency, i);
    MeasuredScore(rows, w', recency, j);
    var measured := WithDiversity(rows, w');
    assert Score(measured[i], recency) < Score(measured[j], recency);
  }

  /**
   * Rows stay in order under every diversity measure if and only if each leads every later one,
   * diversity aside, by its greatest share of the score.
   */
  lemma MeasuredOrderIff(rows: seq<Row>, w: World, recency: string -> real)
    requires |rows| >= 2
    ensures (forall m | InUnit(m) :: Ordered(WithDiversity(rows, w.(diversityAmong := m)), recency))
            <==> LeadsSuffice(rows, recency)
  {
    if LeadsSuffice(rows, recency) {
      forall m | InUnit(m) ensures Ordered(WithDiversity(rows, w.(diversityAmong := m)), recency) {
        LeadsAreEnough(rows, w.(diversityAmong := m), recency);
      }
    } else {
      var i, j :| 0 <= i < j < |rows| && BareScore(rows[i], recency) < BareScore(rows[j], recency) + 0.18;
      LeadsAreNeeded(rows, w, recency, i, j);
    }
  }

  /** Which rows are kept does not depend on how their diversity will be measured. */
  lemma KeptBeforeMeasuring(rows: seq<Row>, r: Request, w: World, m: (nat, seq<Row>) -> real, recency: string -> real, limit: int)
    ensures var w' := w.(diversityAmong := m);
      Added(rows, r, w', recency, limit) == WithDiversity(RankedAndTrimmed(Contenders(rows, r, w), recency, limit), w')
  {
    assert Contenders(rows, r, w.(diversityAmong := m)) == Contenders(rows, r, w);
  }

  /**
   * After an add that keeps at least two rows the stored order is right, at any later time
   * `later`, under every diversity measure if and only if among the kept rows each leads every
   * later one by at least 0.18, diversity aside. The new row was ranked without diversity, so
   * ranking alone does not give that lead.
   */
  lemma StoredOrderIff(rows: seq<Row>, r: Request, w: World, recency: string -> real, later: string -> real, limit: int)
    requires Cut(|Contenders(rows, r, w)|, limit) >= 2
    ensures (forall m | InUnit(m) :: Ordered(Added(rows, r, w.(diversityAmong := m), recency, limit), later))
            <==> LeadsSuffice(RankedAndTrimmed(Contenders(rows, r, w), recency, limit), later)
  {
    var kept := RankedAndTrimmed(Contenders(rows, r, w), recency, limit);
    MeasuredOrderIff(kept, w, later);
    forall m: (nat, seq<Row>) -> real
      ensures Added(rows, r, w.(diversityAmong := m), recency, limit) == WithDiversity(kept, w.(diversityAmong := m))
    {
      KeptBeforeMeasuring(rows, r, w, m, recency, limit);
    }
  }

  // ---- It can be wrong from the second add on ----

  lemma AddOne(r: Request, w: World, recency: string -> real)
    ensures Added([], r, w, recency, 20) == [Candidate([], r, w).(diversity := 1.0)]
  {
    var a := Candidate([], r, w);
    assert Contenders([], r, w) == [a];
    assert Order(Scores([a], recency), 1) == [0];
    assert RankedAndTrimmed([a], recency, 20) == [a];
  }

  lemma WithoutOne(row: Row, m: Match)
    ensures Without([row], m) == if m.Hits(row) then [] else [row]
  {
    assert [row][1..] == [];
  }

  lemma RankTwo(a: Row, b: Row, recency: string -> real)
    requires Score(a, recency) >= Score(b, recency)
    ensures RankedAndTrimmed([a, b], recency, 20) == [a, b]
  {
    var scores := Scores([a, b], recency);
    assert Order(scores, 1) == [0];
    assert Order(scores, 2) == [0, 1];
  }

  /** A second row that ranks below the first, having no diversity yet. */
  lemma AddAnother(old_: Row, r: Request, w: World, recency: string -> real)
    requires var b := Candidate([old_], r, w); Differ(old_, b) && Score(old_, recency) >= Score(b, recency)
    ensures Added([old_], r, w, recency, 20) == WithDiversity([old_, Candidate([old_], r, w)], w)
  {
    WithoutOne(old_, SameFingerprint(w.fingerprintOf(r.expression)));
    WithoutOne(old_, SameAst(AstFingerprint(r.expression, w)));
    RankTwo(old_, Candidate([old_], r, w), recency);
    assert Contenders([old_], r, w) == [old_, Candidate([old_], r, w)];
  }

  /** Two adds at one time after which the first stored row scores below the second. */
  lemma StoredOrderMayBeWrong(w: World, recency: string -> real, first: Request, second: Request, time: string)
    requires w.fingerprintOf(first.expression) != w.fingerprintOf(second.expression)
    requires w.astFingerprintOf(first.expression) == None == w.astFingerprintOf(second.expression)
    requires forall i, rows :: w.diversityAmong(i, rows) == 0.5
    requires first == Request("a", first.expression, 0.0, 0.0, 0.0, None, None, false, false, Some(0.0), false, time)
    requires second == Request("b", second.expression, 0.2, 0.0, 0.0, None, None, false, false, Some(0.0), false, time)
    ensures var rows := AfterAdds([Step(first, recency), Step(second, recency)], w, 20);
      |rows| == 2 && !Ordered(rows, recency)
  {
    var one, two := [Step(first, recency)], [Step(first, recency), Step(second, recency)];
    assert two[..1] == one && one[..0] == [];
    AddOne(first, w, recency);
    var a := Candidate([], first, w).(diversity := 1.0);
    assert AfterAdds(one, w, 20) == [a];
    AddAnother(a, second, w, recency);
    var rows := AfterAdds(two, w, 20);
    assert Score(rows[0], recency) < Score(rows[1], recency);
  }
}
