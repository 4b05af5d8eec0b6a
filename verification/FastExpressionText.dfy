/**
 * What the scanner does on any text at all, however unbalanced: where a call begins, where its
 * arguments end, where they are cut, and what the checks on a call come to.
 */
module FastExpressionText {
  import opened Common
  import opened FastExpression

  // ---- The end of a parenthesized text ----

  datatype Inside = Inside(depth: int, quote: Option<char>)

  /** One more character: inside quotes only the same quote matters. */
  ghost function Entered(at: Inside, c: char): Inside {
    match at.quote
    case Some(q) => if c == q then at.(quote := None) else at
    case None =>
      if c == '"' || c == '\'' then at.(quote := Some(c))
      else if c == '(' then at.(depth := at.depth + 1)
      else if c == ')' then at.(depth := at.depth - 1)
      else at
  }

  /** Where reading `s` from `open` on stands before character `k`. */
  ghost function Standing(s: string, open: nat, k: nat): Inside
    requires open <= k <= |s|
    decreases k
  {
    if k == open then Inside(0, None) else Entered(Standing(s, open, k - 1), s[k - 1])
  }

  /** The parenthesis at `k`, outside quotes, leads back to depth zero. */
  ghost predicate Closes(s: string, open: nat, k: nat)
    requires open <= k < |s|
  {
    s[k] == ')' && Standing(s, open, k) == Inside(1, None)
  }

  lemma {:induction false} ClosesNext(s: string, open: nat, i: nat, depth: int, quote: Option<char>)
    requires open <= i <= |s| && Standing(s, open, i) == Inside(depth, quote)
    ensures var k := CloseIndex(s, i, depth, quote);
      && (forall j | i <= j < k :: !Closes(s, open, j))
      && (k < |s| ==> Closes(s, open, k))
    decreases |s| - i
  {
    if i < |s| && !Closes(s, open, i) {
      var next := Entered(Inside(depth, quote), s[i]);
      ClosesNext(s, open, i + 1, next.depth, next.quote);
    }
  }

  /** The text is cut at the first parenthesis that closes; without one the rest of it is taken. */
  lemma ExtractedMeans(s: string, open: nat)
    requires open < |s| && s[open] == '('
    ensures var (args, end) := Extracted(s, open);
      || (&& open + 1 < end <= |s| && Closes(s, open, end - 1) && args == s[open + 1..end - 1]
          && forall j | open <= j < end - 1 :: !Closes(s, open, j))
      || (end == |s| && args == s[open + 1..] && forall j | open <= j < |s| :: !Closes(s, open, j))
  {
    ClosesNext(s, open, open, 0, None);
  }

  // ---- The calls ----

  ghost predicate IsLetter(c: char) { 'A' <= c <= 'Z' || 'a' <= c <= 'z' || c == '_' }

  ghost predicate IsNameChar(c: char) { IsLetter(c) || '0' <= c <= '9' }

  /** A name that is not the end of a longer one stands at `i..j`; blanks follow, and the parenthesis at `k`. */
  ghost predicate CallSpans(s: string, i: nat, j: nat, k: nat) {
    && i < j <= k < |s| && s[k] == '('
    && IsLetter(s[i]) && (i > 0 ==> !IsNameChar(s[i - 1]))
    && (forall m | i <= m < j :: IsNameChar(s[m]))
    && (forall m | j <= m < k :: IsBlank(s[m]))
  }

  lemma CallAtIff(s: string, i: nat)
    ensures CallAt(s, i) <==> exists j: nat, k: nat :: CallSpans(s, i, j, k)
  {
    if CallAt(s, i) {
      assert CallSpans(s, i, NameEnd(s, i), OpenIndex(s, i));
    }
    forall j: nat, k: nat | CallSpans(s, i, j, k) ensures CallAt(s, i) { SpanIsFound(s, i, j, k); }
  }

  lemma SpanIsFound(s: string, i: nat, j: nat, k: nat)
    requires CallSpans(s, i, j, k)
    ensures CallAt(s, i) && NameEnd(s, i) == j && OpenIndex(s, i) == k
  {
    assert j < |s| && !IsWord(s[j]);
    NameEndIs(s, i, j);
    SpaceEndIs(s, j, k);
  }

  lemma {:induction false} NameEndIs(s: string, i: nat, j: nat)
    requires i <= j < |s| && !IsWord(s[j]) && forall m | i <= m < j :: IsWord(s[m])
    ensures NameEnd(s, i) == j
    decreases j - i
  {
    if i < j { NameEndIs(s, i + 1, j); }
  }

  lemma {:induction false} SpaceEndIs(s: string, j: nat, k: nat)
    requires j <= k < |s| && !IsSpace(s[k]) && forall m | j <= m < k :: IsSpace(s[m])
    ensures SpaceEnd(s, j) == k
    decreases k - j
  {
    if j < k { SpaceEndIs(s, j + 1, k); }
  }

  /** The calls that begin before `n`, in order. */
  ghost function CallsBefore(s: string, n: nat): seq<CallText>
    requires n <= |s|
  {
    if n == 0 then [] else CallsBefore(s, n - 1) + if CallAt(s, n - 1) then CallFound(s, n - 1) else []
  }

  lemma {:induction false} QuietBetween(s: string, i: nat, n: nat)
    requires i <= n <= |s| && forall m | i <= m < n :: !CallAt(s, m)
    ensures CallsBefore(s, n) == CallsBefore(s, i)
    decreases n
  {
    if i < n { QuietBetween(s, i, n - 1); }
  }

  lemma NoCallInsideCall(s: string, i: nat, m: nat)
    requires CallAt(s, i) && i < m <= OpenIndex(s, i)
    ensures !CallAt(s, m)
  {
    var j := NameEnd(s, i);
    if m < j { assert IsWord(s[m - 1]); }
  }

  lemma CallStep(s: string, i: nat)
    requires CallAt(s, i)
    ensures CallsBefore(s, OpenIndex(s, i) + 1) == CallsBefore(s, i) + CallFound(s, i)
  {
    var next := OpenIndex(s, i) + 1;
    forall m | i + 1 <= m < next ensures !CallAt(s, m) { NoCallInsideCall(s, i, m); }
    QuietBetween(s, i + 1, next);
  }

  lemma {:induction false} ScanIsOrdered(s: string, i: nat)
    requires i <= |s|
    ensures CallsBefore(s, i) + CallsFrom(s, i) == CallsBefore(s, |s|)
    decreases |s| - i
  {
    if i < |s| && CallAt(s, i) {
      var next := OpenIndex(s, i) + 1;
      ScanIsOrdered(s, next);
      CallStep(s, i);
      Regroup(CallsBefore(s, i), CallFound(s, i), CallsFrom(s, next));
    } else if i < |s| {
      ScanIsOrdered(s, i + 1);
    }
  }

  /** No position is skipped and none is used twice: the finder lists the calls at all positions, in order. */
  lemma AllCallsAreFound(s: string)
    ensures CallsFrom(s, 0) == CallsBefore(s, |s|)
  {
    ScanIsOrdered(s, 0);
  }

  // ---- The arguments ----

  /** As `Entered`, but a stray closing parenthesis does not count. */
  ghost function Passed(at: Inside, c: char): Inside {
    if at.quote == None && c == ')' && at.depth <= 0 then at.(depth := 0) else Entered(at, c)
  }

  ghost function Level(s: string, k: nat): Inside
    requires k <= |s|
  {
    if k == 0 then Inside(0, None) else Passed(Level(s, k - 1), s[k - 1])
  }

  /** A comma outside quotes and parentheses. */
  ghost predicate Cuts(s: string, k: nat)
    requires k < |s|
  {
    s[k] == ',' && Level(s, k) == Inside(0, None)
  }

  /** Where the piece that reaches up to `k` begins. */
  ghost function PieceStart(s: string, k: nat): (start: nat)
    requires k <= |s|
    ensures start <= k
  {
    if k == 0 then 0 else if Cuts(s, k - 1) then k else PieceStart(s, k - 1)
  }

  /** The pieces that end at a comma before `k`. */
  ghost function PiecesBefore(s: string, k: nat): seq<string>
    requires k <= |s|
  {
    if k == 0 then []
    else PiecesBefore(s, k - 1) + if Cuts(s, k - 1) then Piece(s[PieceStart(s, k - 1)..k - 1]) else []
  }

  lemma {:induction false} LevelIsSound(s: string, k: nat)
    requires k <= |s|
    ensures Level(s, k).depth >= 0
  {
    if k > 0 { LevelIsSound(s, k - 1); }
  }

  lemma {:induction false} PiecesGoOn(s: string, i: nat)
    requires i <= |s| && Level(s, i).depth >= 0
    ensures PiecesBefore(s, i) + PiecesFrom(s, i, PieceStart(s, i), Level(s, i).depth, Level(s, i).quote)
         == PiecesBefore(s, |s|) + Piece(s[PieceStart(s, |s|)..])
    decreases |s| - i
  {
    if i < |s| {
      LevelIsSound(s, i + 1);
      PiecesGoOn(s, i + 1);
      OneCharacter(s, i);
    }
  }

  lemma OneCharacter(s: string, i: nat)
    requires i < |s| && Level(s, i).depth >= 0 && Level(s, i + 1).depth >= 0
    ensures PiecesBefore(s, i) + PiecesFrom(s, i, PieceStart(s, i), Level(s, i).depth, Level(s, i).quote)
         == PiecesBefore(s, i + 1) + PiecesFrom(s, i + 1, PieceStart(s, i + 1), Level(s, i + 1).depth, Level(s, i + 1).quote)
  {
    if Cuts(s, i) {
      var rest := PiecesFrom(s, i + 1, i + 1, 0, None);
      var piece := Piece(s[PieceStart(s, i)..i]);
      assert PiecesBefore(s, i) + (piece + rest) == (PiecesBefore(s, i) + piece) + rest;
    }
  }

  /** The splitter yields the pieces between the commas that cut, and the one after the last. */
  lemma SplitMeans(s: string)
    ensures PiecesFrom(s, 0, 0, 0, None) == PiecesBefore(s, |s|) + Piece(s[PieceStart(s, |s|)..])
  {
    PiecesGoOn(s, 0);
  }

  /** A piece is what is left between blanks, if anything is. */
  lemma PieceMeans(s: string)
    ensures Piece(s) == if Strip(s) == "" then [] else [Strip(s)]
    ensures exists before: string, after: string ::
              && s == before + Strip(s) + after
              && (forall c <- before :: IsBlank(c)) && (forall c <- after :: IsBlank(c))
    ensures Strip(s) != "" ==> !IsBlank(Strip(s)[0]) && !IsBlank(Strip(s)[|Strip(s)| - 1])
  {
    var before := StripLeftMeans(s);
    var after := StripRightMeans(StripLeft(s));
    assert s == before + Strip(s) + after;
    if Strip(s) != "" { assert Strip(s)[0] == StripLeft(s)[0]; }
  }

  lemma {:induction false} StripLeftMeans(s: string) returns (before: string)
    ensures s == before + StripLeft(s) && forall c <- before :: IsBlank(c)
    ensures StripLeft(s) != "" ==> !IsBlank(StripLeft(s)[0])
  {
    if s != "" && IsSpace(s[0]) {
      before := StripLeftMeans(s[1..]);
      before := [s[0]] + before;
    } else {
      before := "";
    }
  }

  lemma {:induction false} StripRightMeans(s: string) returns (after: string)
    ensures s == StripRight(s) + after && forall c <- after :: IsBlank(c)
    ensures StripRight(s) != "" ==> !IsBlank(StripRight(s)[|StripRight(s)| - 1])
  {
    if s != "" && IsSpace(s[|s| - 1]) {
      after := StripRightMeans(s[..|s| - 1]);
      after := after + [s[|s| - 1]];
    } else {
      after := "";
    }
  }

  // ---- The checks ----

  ghost function CheckOf(c: CallText, v2: bool): Option<CallProblem> {
    CallCheck(c.name, PiecesFrom(c.args, 0, 0, 0, None), v2)
  }

  /** The problem of the first call that has one is reported, and nothing if and only if none has. */
  lemma {:induction false} FirstProblemMeans(calls: seq<CallText>, v2: bool) returns (k: nat)
    ensures k <= |calls| && forall j | 0 <= j < k :: CheckOf(calls[j], v2) == None
    ensures FirstProblem(calls, v2) == if k < |calls| then CheckOf(calls[k], v2) else None
    ensures k < |calls| ==> CheckOf(calls[k], v2).Some?
  {
    k := 0;
    if calls != [] && CheckOf(calls[0], v2) == None {
      var n := FirstProblemMeans(calls[1..], v2);
      forall j | 0 < j <= n ensures j < |calls| ==> calls[j] == calls[1..][j - 1] {}
      forall j | 0 <= j < n + 1 ensures CheckOf(calls[j], v2) == None { if j > 0 { assert calls[j] == calls[1..][j - 1]; } }
      k := n + 1;
    }
  }

  /** When each problem is reported: the first of the five that applies. */
  lemma CallCheckMeans(fn: string, parts: seq<string>, v2: bool)
    ensures var name, r := Lower(fn), CallCheck(fn, parts, v2);
      var disabled := name == "trade_when" && !v2;
      var known := name !in KNOWN_UNAVAILABLE && name in OPERATOR_ARITY;
      && (r == Some(TradeWhenDisabled) <==> disabled)
      && (r == Some(Unavailable(name)) <==> !disabled && name in KNOWN_UNAVAILABLE)
      && (r == Some(Unknown(name)) <==> !disabled && name !in KNOWN_UNAVAILABLE && name !in OPERATOR_ARITY)
      && (r == Some(WrongArity(name, |parts|)) <==>
            !disabled && known && !(OPERATOR_ARITY[name].0 <= |parts| <= OPERATOR_ARITY[name].1))
      && (r == Some(UnsafeWeight) <==>
            name == "group_mean" && |parts| == 3 && !SafeGroupMeanWeight(parts[1]))
      && (r == None || r == Some(TradeWhenDisabled) || r == Some(UnsafeWeight)
          || r in {Some(Unavailable(name)), Some(Unknown(name)), Some(WrongArity(name, |parts|))})
  {
    assert OPERATOR_ARITY["group_mean"] == (3, 3);
    assert "group_mean" !in KNOWN_UNAVAILABLE && "group_mean" != "trade_when";
  }

  /** Small letters for capital ones, everything else as it is. */
  lemma LowerMeans(s: string, k: nat)
    requires k < |s|
    ensures 'A' <= s[k] <= 'Z' ==> Lower(s)[k] as int == s[k] as int - 'A' as int + 'a' as int
    ensures !('A' <= s[k] <= 'Z') ==> Lower(s)[k] == s[k]
  {}

  /** A weight is safe if it is one, or a rank of something, blanks and capitals aside. */
  lemma SafeWeightIff(arg: string)
    ensures var compact := Lower(WithoutSpace(arg));
      SafeGroupMeanWeight(arg) <==>
        || compact in {"1", "1.0", "rank(inverse(cap))"}
        || exists inner: string :: inner != "" && ')' !in inner && compact == "rank(" + inner + ")"
  {
    var compact := Lower(WithoutSpace(arg));
    RankForms();
    if |compact| > 6 && compact[..5] == "rank(" && compact[|compact| - 1] == ')' && ')' !in compact[5..|compact| - 1] {
      var inner := compact[5..|compact| - 1];
      assert compact == "rank(" + inner + ")";
    }
    forall inner: string | inner != "" && ')' !in inner && compact == "rank(" + inner + ")"
      ensures SafeGroupMeanWeight(arg)
    {
      assert compact[5..|compact| - 1] == inner && compact[..5] == "rank(";
    }
  }

  lemma RankForms()
    ensures "rank(cap)" == "rank(" + "cap" + ")" && ')' !in "cap"
    ensures "rank(1/cap)" == "rank(" + "1/cap" + ")" && ')' !in "1/cap"
  {}
}
