/**
 * The resumable log export: a chunked copy that picks up from a partial file, and the filtered
 * line export. The source is append-only and may grow before any read; the process may die before
 * any read, and the partial file may then be cut to any prefix.
 */
module Export {
  import opened Common

  const CHUNK: nat := 4 * 1024 * 1024

  /** What the world does during one run. */
  datatype Run = Run(growth: seq<Bytes>, diesAt: Option<nat>, keep: nat, replaceFails: bool)

  datatype Progress = Progress(file: string, offset: nat)

  datatype Outcome = Done | Interrupted | ReplaceFailed

  /** A run ends early only if the process dies, and its replace fails exactly if the world says so. */
  predicate EndsAs(o: Outcome, run: Run) {
    (o == Interrupted ==> run.diesAt.Some?) && (o != Interrupted ==> (o == ReplaceFailed <==> run.replaceFails))
  }

  // ---- What the copy amounts to ----

  /** Where a copy that starts from `partial` ends when it sees the end of `source`. */
  function Resumed(partial: Bytes, source: Bytes): (r: Bytes)
    ensures |r| == Max(|partial|, |source|)
    ensures forall k | 0 <= k < |r| :: r[k] == if k < |partial| then partial[k] else source[k]
  {
    partial + if |partial| <= |source| then source[|partial|..] else []
  }

  /** Resuming gives the source exactly when the partial file was a prefix of it. */
  lemma ResumedIsSourceIff(partial: Bytes, source: Bytes)
    ensures Resumed(partial, source) == source <==> partial <= source
  {
    if Resumed(partial, source) == source { assert source[..|partial|] == partial; }
    if partial <= source { assert source == source[..|partial|] + source[|partial|..]; }
  }

  /** What is left behind at any point can be resumed as if nothing had happened. */
  lemma ResumedTwice(partial: Bytes, source: Bytes, cut: Bytes, later: Bytes)
    requires partial <= source <= later && cut <= Resumed(partial, source)
    ensures Resumed(cut, later) == later
  {
    ResumedIsSourceIff(partial, source);
    ResumedIsSourceIff(cut, later);
  }

  /** A copy that started from `partial` and has come to `offset`. */
  function Copied(partial: Bytes, source: Bytes, offset: nat): Bytes
    requires |partial| <= offset <= Max(|partial|, |source|)
  {
    partial + if |partial| <= |source| then source[|partial|..offset] else []
  }

  /** Growth does not change what has been copied. */
  lemma CopiedStays(partial: Bytes, source: Bytes, offset: nat, more: Bytes)
    requires |partial| <= offset <= Max(|partial|, |source|)
    ensures Copied(partial, source + more, offset) == Copied(partial, source, offset)
  {
    if |partial| <= |source| { assert (source + more)[|partial|..offset] == source[|partial|..offset]; }
  }

  lemma CopiedGrows(partial: Bytes, source: Bytes, offset: nat, next: nat)
    requires |partial| <= offset <= next <= |source|
    ensures Copied(partial, source, next) == Copied(partial, source, offset) + source[offset..next]
  {
    assert source[|partial|..next] == source[|partial|..offset] + source[offset..next];
  }

  lemma CopiedLeads(partial: Bytes, source: Bytes, offset: nat)
    requires |partial| <= offset <= Max(|partial|, |source|)
    ensures Copied(partial, source, offset) <= Resumed(partial, source)
    ensures offset >= |source| ==> Copied(partial, source, offset) == Resumed(partial, source)
  {
    if |partial| <= |source| { SliceParts(source, |partial|, offset); }
  }

  lemma CopiedNothing(partial: Bytes, source: Bytes)
    ensures Copied(partial, source, |partial|) == partial
  {}

  lemma SliceParts(s: Bytes, i: nat, j: nat)
    requires i <= j <= |s|
    ensures s[i..] == s[i..j] + s[j..] && s[i..j] <= s[i..]
  {}

  // ---- Lines ----

  const NEWLINE: Byte := 10

  /** Just after the first newline at or after `i`, or the end. */
  function LineEnd(s: Bytes, i: nat): (e: nat)
    requires i <= |s|
    ensures i <= e <= |s| && (i < |s| ==> i < e)
    ensures forall k | i <= k < e - 1 :: s[k] != NEWLINE
    ensures e < |s| ==> e > i && s[e - 1] == NEWLINE
    decreases |s| - i
  {
    if i == |s| then i else if s[i] == NEWLINE then i + 1 else LineEnd(s, i + 1)
  }

  /** What reading line by line from position `i` yields. */
  function LinesFrom(s: Bytes, i: nat): seq<Bytes>
    requires i <= |s|
    decreases |s| - i
  {
    if i == |s| then [] else [s[i..LineEnd(s, i)]] + LinesFrom(s, LineEnd(s, i))
  }

  function Lines(s: Bytes): seq<Bytes> { LinesFrom(s, 0) }

  /** The matching lines, in order. */
  function Matching(lines: seq<Bytes>, matches: Bytes -> bool): Bytes {
    if lines == [] then [] else (if matches(lines[0]) then lines[0] else []) + Matching(lines[1..], matches)
  }

  /** A newline at the end and nowhere else; only the last line may lack it. */
  predicate IsLine(line: Bytes, last: bool) {
    && line != [] && (forall k | 0 <= k < |line| - 1 :: line[k] != NEWLINE)
    && (last || line[|line| - 1] == NEWLINE)
  }

  predicate AreLines(lines: seq<Bytes>) {
    forall i | 0 <= i < |lines| :: IsLine(lines[i], i == |lines| - 1)
  }

  /** The lines are lines, and make up the text. */
  lemma {:induction false} LinesMean(s: Bytes, i: nat)
    requires i <= |s|
    ensures Concat(LinesFrom(s, i)) == s[i..] && AreLines(LinesFrom(s, i))
    decreases |s| - i
  {
    if i < |s| {
      var e := LineEnd(s, i);
      LinesMean(s, e);
      assert s[i..] == s[i..e] + s[e..];
      LineThenLines(s[i..e], LinesFrom(s, e));
    }
  }

  lemma LineThenLines(first: Bytes, rest: seq<Bytes>)
    requires IsLine(first, rest == []) && AreLines(rest)
    ensures Concat([first] + rest) == first + Concat(rest) && AreLines([first] + rest)
  {
    assert ([first] + rest)[1..] == rest;
    forall i | 0 <= i < |[first] + rest| ensures IsLine(([first] + rest)[i], i == |rest|) {
      if i > 0 { assert ([first] + rest)[i] == rest[i - 1]; }
    }
  }

  lemma {:induction false} MatchingAppend(a: seq<Bytes>, b: seq<Bytes>, matches: Bytes -> bool)
    ensures Matching(a + b, matches) == Matching(a, matches) + Matching(b, matches)
  {
    if a == [] { assert a + b == b; } else {
      assert (a + b)[1..] == a[1..] + b;
      MatchingAppend(a[1..], b, matches);
    }
  }

  /** A place where a line starts. */
  predicate LineStart(s: Bytes, i: nat) { i <= |s| && (i == 0 || s[i - 1] == NEWLINE) }

  lemma {:induction false} LinesSplit(s: Bytes, j: nat, i: nat)
    requires LineStart(s, i) && j <= i
    ensures LinesFrom(s, j) == LinesFrom(s[..i], j) + LinesFrom(s, i)
    decreases i - j
  {
    if j < i {
      var e := LineEnd(s, j);
      LineEndOfPrefix(s, j, i);
      LinesSplit(s, e, i);
      LinesHead(s, j, e);
      LinesHead(s[..i], j, e);
      assert s[..i][j..e] == s[j..e];
      LinesJoin(s[j..e], LinesFrom(s[..i], e), LinesFrom(s, i));
    }
  }

  lemma LinesHead(s: Bytes, j: nat, e: nat)
    requires j < |s| && LineEnd(s, j) == e
    ensures LinesFrom(s, j) == [s[j..e]] + LinesFrom(s, e)
  {}

  lemma LinesJoin(head: Bytes, a: seq<Bytes>, b: seq<Bytes>)
    ensures [head] + (a + b) == ([head] + a) + b
  {}

  lemma {:induction false} LineEndOfPrefix(s: Bytes, j: nat, i: nat)
    requires j <= i <= |s| && LineEnd(s, j) <= i
    ensures LineEnd(s[..i], j) == LineEnd(s, j)
    decreases i - j
  {
    if j < i && s[j] != NEWLINE { LineEndOfPrefix(s, j + 1, i); }
  }

  lemma SameSuffix(a: Bytes, b: Bytes, c: Bytes)
    ensures a + c == b + c <==> a == b
  {
    if a + c == b + c {
      assert |a| == |b|;
      assert (a + c)[..|a|] == a && (b + c)[..|b|] == b;
    }
  }

  lemma {:induction false} LineEndIs(s: Bytes, i: nat, e: nat)
    requires i < e <= |s| && (forall k | i <= k < e - 1 :: s[k] != NEWLINE) && (e == |s| || s[e - 1] == NEWLINE)
    ensures LineEnd(s, i) == e
    decreases e - i
  {
    if i < e - 1 { LineEndIs(s, i + 1, e); }
  }

  // ---- Reading lines from a source that grows ----

  /** What the reads of a run see: read number `n` sees `At(n)`, and from number `last` on nothing changes. */
  datatype View = View(at: nat -> Bytes, last: nat)
  {
    function At(n: nat): Bytes { at(if n < last then n else last) }

    ghost predicate AppendOnly() { forall j: nat, k: nat | j <= k :: At(j) <= At(k) }
  }

  /** What the reads from number `n` on return, starting at `i`; the first empty one is the last. */
  function Pieces(v: View, n: nat, i: nat): seq<Bytes>
    decreases Max(0, v.last - n), |v.At(n)| - i
  {
    if i >= |v.At(n)| then [] else [v.At(n)[i..LineEnd(v.At(n), i)]] + Pieces(v, n + 1, LineEnd(v.At(n), i))
  }

  /** The source when its end is seen. */
  function SeenAtEnd(v: View, n: nat, i: nat): Bytes
    decreases Max(0, v.last - n), |v.At(n)| - i
  {
    if i >= |v.At(n)| then v.At(n) else SeenAtEnd(v, n + 1, LineEnd(v.At(n), i))
  }

  /** Growth arrives after an unterminated last line has been read. */
  predicate Torn(v: View, n: nat, i: nat)
    decreases Max(0, v.last - n), |v.At(n)| - i
  {
    i < |v.At(n)| &&
    (|| (v.At(n)[LineEnd(v.At(n), i) - 1] != NEWLINE && |v.At(n)| < |v.At(n + 1)|)
     || Torn(v, n + 1, LineEnd(v.At(n), i)))
  }

  predicate EndsLine(s: Bytes) { s == [] || s[|s| - 1] == NEWLINE }

  /** The source stands still, or consists of whole lines at every read. */
  ghost predicate WholeLines(v: View) { v.last == 0 || forall n :: EndsLine(v.At(n)) }

  lemma {:induction false} WholeLinesAreNotTorn(v: View, n: nat, i: nat)
    requires WholeLines(v)
    ensures !Torn(v, n, i)
    decreases Max(0, v.last - n), |v.At(n)| - i
  {
    if i < |v.At(n)| {
      assert v.last > 0 ==> EndsLine(v.At(n));
      WholeLinesAreNotTorn(v, n + 1, LineEnd(v.At(n), i));
    }
  }

  /** Newlines stand nowhere but at the end of a piece. */
  predicate ArePieces(pieces: seq<Bytes>) {
    forall k | 0 <= k < |pieces| :: IsLine(pieces[k], true)
  }

  /** The source is never shorter when its end is seen. */
  lemma {:induction false} SeenExtends(v: View, n: nat, i: nat)
    requires v.AppendOnly()
    ensures v.At(n) <= SeenAtEnd(v, n, i)
    decreases Max(0, v.last - n), |v.At(n)| - i
  {
    if i < |v.At(n)| {
      SeenExtends(v, n + 1, LineEnd(v.At(n), i));
      assert v.At(n) <= v.At(n + 1);
    }
  }

  lemma {:induction false} NoNewlineInside(v: View, n: nat, i: nat)
    ensures ArePieces(Pieces(v, n, i))
    decreases Max(0, v.last - n), |v.At(n)| - i
  {
    if i < |v.At(n)| { NoNewlineInside(v, n + 1, LineEnd(v.At(n), i)); }
  }

  /** The pieces make up the source as seen at the end. */
  lemma {:induction false} PiecesMean(v: View, n: nat, i: nat)
    requires v.AppendOnly() && i <= |v.At(n)|
    ensures i <= |SeenAtEnd(v, n, i)| && Concat(Pieces(v, n, i)) == SeenAtEnd(v, n, i)[i..]
    decreases Max(0, v.last - n), |v.At(n)| - i
  {
    SeenExtends(v, n, i);
    if i < |v.At(n)| {
      var e := LineEnd(v.At(n), i);
      assert v.At(n) <= v.At(n + 1);
      PiecesMean(v, n + 1, e);
      PieceOf(v.At(n), SeenAtEnd(v, n + 1, e), i, e);
      ConcatFirst(v.At(n)[i..e], Pieces(v, n + 1, e));
    }
  }

  lemma PieceOf(now: Bytes, seen: Bytes, i: nat, e: nat)
    requires i <= e <= |now| && now <= seen
    ensures seen[i..] == now[i..e] + seen[e..]
  {
    assert seen[i..e] == now[i..e];
  }

  lemma ConcatFirst(first: Bytes, rest: seq<Bytes>)
    ensures Concat([first] + rest) == first + Concat(rest)
  {
    assert ([first] + rest)[1..] == rest;
  }

  lemma PieceThenPieces(first: Bytes, rest: seq<Bytes>)
    requires first != [] && ArePieces([first] + rest)
    ensures AreLines([first] + rest) <==> (rest == [] || first[|first| - 1] == NEWLINE) && AreLines(rest)
  {
    var all := [first] + rest;
    assert IsLine(all[0], true);
    if AreLines(all) {
      forall k | 0 <= k < |rest| ensures IsLine(rest[k], k == |rest| - 1) { assert IsLine(all[k + 1], k + 1 == |all| - 1); }
      assert IsLine(all[0], 0 == |all| - 1);
    }
    if (rest == [] || first[|first| - 1] == NEWLINE) && AreLines(rest) { LineThenLines(first, rest); }
  }

  /** A run is torn exactly when the pieces it reads are not all lines. */
  lemma {:induction false} TornIff(v: View, n: nat, i: nat)
    requires v.AppendOnly() && i <= |v.At(n)|
    ensures Torn(v, n, i) <==> !AreLines(Pieces(v, n, i))
    decreases Max(0, v.last - n), |v.At(n)| - i
  {
    if i < |v.At(n)| {
      assert v.At(n) <= v.At(n + 1);
      TornIff(v, n + 1, LineEnd(v.At(n), i));
      TornStep(v, n, i);
      PiecesStep(v, n, i);
    }
  }

  /** The first read tears a line. */
  predicate TearsFirst(v: View, n: nat, i: nat)
    requires i < |v.At(n)|
  {
    v.At(n)[LineEnd(v.At(n), i) - 1] != NEWLINE && |v.At(n)| < |v.At(n + 1)|
  }

  lemma TornStep(v: View, n: nat, i: nat)
    requires i < |v.At(n)|
    ensures Torn(v, n, i) <==> TearsFirst(v, n, i) || Torn(v, n + 1, LineEnd(v.At(n), i))
  {}

  lemma PiecesStep(v: View, n: nat, i: nat)
    requires v.AppendOnly() && i < |v.At(n)|
    ensures AreLines(Pieces(v, n, i)) <==> !TearsFirst(v, n, i) && AreLines(Pieces(v, n + 1, LineEnd(v.At(n), i)))
  {
    var now, e := v.At(n), LineEnd(v.At(n), i);
    assert now <= v.At(n + 1);
    NoPieces(v, n + 1, e);
    NoNewlineInside(v, n, i);
    FirstIsLineIff(now, |v.At(n + 1)|, i, e, Pieces(v, n + 1, e));
  }

  lemma FirstIsLineIff(now: Bytes, next: nat, i: nat, e: nat, rest: seq<Bytes>)
    requires i < |now| <= next && e == LineEnd(now, i) && (rest == [] <==> e >= next) && ArePieces([now[i..e]] + rest)
    ensures AreLines([now[i..e]] + rest) <==> !(now[e - 1] != NEWLINE && |now| < next) && AreLines(rest)
  {
    PieceThenPieces(now[i..e], rest);
  }

  lemma NoPieces(v: View, n: nat, i: nat)
    ensures Pieces(v, n, i) == [] <==> i >= |v.At(n)|
  {}

  /** A run that is not torn reads the lines of the source as seen at the end. */
  lemma {:induction false} UntornReadsLines(v: View, n: nat, i: nat)
    requires v.AppendOnly() && i <= |v.At(n)| && !Torn(v, n, i)
    ensures i <= |SeenAtEnd(v, n, i)| && Pieces(v, n, i) == LinesFrom(SeenAtEnd(v, n, i), i)
    decreases Max(0, v.last - n), |v.At(n)| - i
  {
    SeenExtends(v, n, i);
    if i < |v.At(n)| {
      var now, e, seen := v.At(n), LineEnd(v.At(n), i), SeenAtEnd(v, n, i);
      assert now <= v.At(n + 1);
      TornStep(v, n, i);
      UntornReadsLines(v, n + 1, e);
      SeenExtends(v, n + 1, e);
      UnterminatedIsLast(v, n, i);
      LineAhead(now, seen, i, e);
    }
  }

  lemma UnterminatedIsLast(v: View, n: nat, i: nat)
    requires v.AppendOnly() && i < |v.At(n)| && !TearsFirst(v, n, i)
    ensures v.At(n)[LineEnd(v.At(n), i) - 1] != NEWLINE ==> SeenAtEnd(v, n, i) == v.At(n)
  {
    assert v.At(n) <= v.At(n + 1);
  }

  lemma LineAhead(now: Bytes, seen: Bytes, i: nat, e: nat)
    requires i < |now| && e == LineEnd(now, i) && now <= seen && (now[e - 1] != NEWLINE ==> seen == now)
    ensures LinesFrom(seen, i) == [now[i..e]] + LinesFrom(seen, e)
  {
    forall k | i <= k < e - 1 ensures seen[k] != NEWLINE { assert now[k] != NEWLINE; }
    LineEndIs(seen, i, e);
    assert seen[i..e] == now[i..e];
  }

  // ---- A filter can tell a torn line ----

  predicate Unterminated(piece: Bytes) { piece != [] && piece[|piece| - 1] != NEWLINE }

  lemma {:induction false} OneMatch(pieces: seq<Bytes>, m: Bytes -> bool, k: nat)
    requires k < |pieces| && m(pieces[k])
    ensures |Matching(pieces, m)| >= |pieces[k]|
  {
    if k > 0 { OneMatch(pieces[1..], m, k - 1); }
  }

  lemma {:induction false} TwoMatches(pieces: seq<Bytes>, m: Bytes -> bool, j: nat, k: nat)
    requires j < k < |pieces| && m(pieces[j]) && m(pieces[k])
    ensures |Matching(pieces, m)| >= |pieces[j]| + |pieces[k]|
  {
    if j > 0 { TwoMatches(pieces[1..], m, j - 1, k - 1); } else { OneMatch(pieces[1..], m, k - 1); }
  }

  lemma {:induction false} SomeMatch(pieces: seq<Bytes>, m: Bytes -> bool) returns (k: nat)
    requires Matching(pieces, m) != []
    ensures k < |pieces| && m(pieces[k])
  {
    if m(pieces[0]) { return 0; }
    k := SomeMatch(pieces[1..], m);
    k := k + 1;
  }

  /** A filter that only the last line can satisfy. */
  lemma {:induction false} OnlyLastMatches(lines: seq<Bytes>, m: Bytes -> bool)
    requires forall k | 0 <= k < |lines| - 1 :: !m(lines[k])
    ensures Matching(lines, m) == if lines != [] && m(lines[|lines| - 1]) then lines[|lines| - 1] else []
  {
    if |lines| > 1 { OnlyLastMatches(lines[1..], m); }
  }

  lemma {:induction false} ConcatEnds(pieces: seq<Bytes>)
    requires pieces != [] && ArePieces(pieces)
    ensures Concat(pieces) != []
    ensures var last := pieces[|pieces| - 1]; Concat(pieces)[|Concat(pieces)| - 1] == last[|last| - 1]
  {
    assert IsLine(pieces[0], true);
    if |pieces| > 1 { ConcatEnds(pieces[1..]); } else { assert Concat(pieces[1..]) == []; }
  }

  /** Where `pieces` end unterminated the lines do, too. */
  predicate EndTogether(pieces: seq<Bytes>, lines: seq<Bytes>) {
    pieces != [] && lines != [] && (Unterminated(lines[|lines| - 1]) ==> Unterminated(pieces[|pieces| - 1]))
  }

  /** Pieces that are not lines are told from lines by one of two filters. */
  lemma TornIsSeen(pieces: seq<Bytes>, lines: seq<Bytes>) returns (m: Bytes -> bool)
    requires ArePieces(pieces) && AreLines(lines) && EndTogether(pieces, lines) && !AreLines(pieces)
    ensures Matching(pieces, m) != Matching(lines, m)
  {
    var k :| 0 <= k < |pieces| && !IsLine(pieces[k], k == |pieces| - 1);
    assert IsLine(pieces[k], true);
    m := x => Unterminated(x);
    OneMatch(pieces, m, k);
    if Matching(pieces, m) == Matching(lines, m) { m := LastLineTells(pieces, lines, m, k); }
  }

  lemma LastLineTells(pieces: seq<Bytes>, lines: seq<Bytes>, open: Bytes -> bool, k: nat) returns (m: Bytes -> bool)
    requires ArePieces(pieces) && AreLines(lines) && EndTogether(pieces, lines)
    requires (forall x :: open(x) == Unterminated(x)) && k < |pieces| - 1 && open(pieces[k])
    requires Matching(pieces, open) == Matching(lines, open) != []
    ensures Matching(pieces, m) != Matching(lines, m)
  {
    OnlyLastMatches(lines, open);
    var last := lines[|lines| - 1];
    LastIsNoPiece(pieces, open, last, k);
    m := x => x == last;
    OnlyLastMatches(lines, m);
    if Matching(pieces, m) != [] { var j := SomeMatch(pieces, m); }
  }

  lemma LastIsNoPiece(pieces: seq<Bytes>, open: Bytes -> bool, last: Bytes, k: nat)
    requires (forall x :: open(x) == Unterminated(x)) && ArePieces(pieces) && k < |pieces| - 1
    requires open(pieces[k]) && open(pieces[|pieces| - 1]) && open(last) && |Matching(pieces, open)| == |last|
    ensures forall j | 0 <= j < |pieces| :: pieces[j] != last
  {
    forall j | 0 <= j < |pieces| ensures pieces[j] != last {
      if pieces[j] == last { TwoUnterminated(pieces, open, j, k); }
    }
  }

  /** The last piece is unterminated as well, so there is one besides any given one. */
  lemma TwoUnterminated(pieces: seq<Bytes>, open: Bytes -> bool, j: nat, k: nat)
    requires (forall x :: open(x) == Unterminated(x)) && ArePieces(pieces)
    requires j < |pieces| && k < |pieces| - 1 && open(pieces[j]) && open(pieces[k]) && open(pieces[|pieces| - 1])
    ensures |Matching(pieces, open)| > |pieces[j]|
  {
    var other := if j == k then |pieces| - 1 else k;
    assert IsLine(pieces[other], true);
    TwoMatches(pieces, open, if j < other then j else other, if j < other then other else j);
  }

  // ---- A filtered export under way ----

  /** What a run writes from read number `n` on. */
  function Output(v: View, n: nat, i: nat, m: Bytes -> bool): Bytes
    decreases Max(0, v.last - n), |v.At(n)| - i
  {
    if i >= |v.At(n)| then [] else
      var raw := v.At(n)[i..LineEnd(v.At(n), i)];
      (if m(raw) then raw else []) + Output(v, n + 1, LineEnd(v.At(n), i), m)
  }

  /** One read, as seen by what is written and what is still to come. */
  lemma OutputStep(kept: Bytes, kept': Bytes, v: View, n: nat, i: nat, m: Bytes -> bool, raw: Bytes)
    requires raw == if i < |v.At(n)| then v.At(n)[i..LineEnd(v.At(n), i)] else []
    requires kept' == kept + if raw != [] && m(raw) then raw else []
    ensures if raw == [] then kept + Output(v, n, i, m) == kept' && SeenAtEnd(v, n, i) == v.At(n)
            else
              && kept + Output(v, n, i, m) == kept' + Output(v, n + 1, i + |raw|, m)
              && SeenAtEnd(v, n, i) == SeenAtEnd(v, n + 1, i + |raw|)
  {
    if raw != [] {
      var hit, rest := if m(raw) then raw else [], Output(v, n + 1, i + |raw|, m);
      assert kept + (hit + rest) == (kept + hit) + rest;
    }
  }

  /** It is what matches of the pieces read, in order. */
  lemma {:induction false} OutputMatches(v: View, n: nat, i: nat, m: Bytes -> bool)
    ensures Output(v, n, i, m) == Matching(Pieces(v, n, i), m)
    decreases Max(0, v.last - n), |v.At(n)| - i
  {
    if i < |v.At(n)| {
      var e := LineEnd(v.At(n), i);
      OutputMatches(v, n + 1, e, m);
      MatchingFirst(v.At(n)[i..e], Pieces(v, n + 1, e), m);
    }
  }

  lemma MatchingFirst(first: Bytes, rest: seq<Bytes>, m: Bytes -> bool)
    ensures Matching([first] + rest, m) == (if m(first) then first else []) + Matching(rest, m)
  {
    assert ([first] + rest)[1..] == rest;
  }

  /**
   * A filtered export writes the matching lines of the source as seen at the end, whatever the
   * filter, if and only if no growth arrives after an unterminated last line has been read.
   */
  lemma FilteredIff(v: View, n: nat, i: nat)
    requires v.AppendOnly() && i <= |v.At(n)|
    ensures i <= |SeenAtEnd(v, n, i)|
    ensures (forall m: Bytes -> bool :: Output(v, n, i, m) == Matching(LinesFrom(SeenAtEnd(v, n, i), i), m)) <==> !Torn(v, n, i)
  {
    PiecesMean(v, n, i);
    if Torn(v, n, i) {
      var m := TornIsMissed(v, n, i);
    } else {
      UntornReadsLines(v, n, i);
      forall m: Bytes -> bool ensures Output(v, n, i, m) == Matching(LinesFrom(SeenAtEnd(v, n, i), i), m) {
        OutputMatches(v, n, i, m);
      }
    }
  }

  lemma TornIsMissed(v: View, n: nat, i: nat) returns (m: Bytes -> bool)
    requires v.AppendOnly() && i <= |v.At(n)| && Torn(v, n, i)
    ensures i <= |SeenAtEnd(v, n, i)| && Output(v, n, i, m) != Matching(LinesFrom(SeenAtEnd(v, n, i), i), m)
  {
    TornIff(v, n, i);
    NoNewlineInside(v, n, i);
    SeenExtends(v, n, i);
    PiecesEnd(v, n, i);
    LinesMean(SeenAtEnd(v, n, i), i);
    LinesEnd(SeenAtEnd(v, n, i), i);
    m := TornIsSeen(Pieces(v, n, i), LinesFrom(SeenAtEnd(v, n, i), i));
    OutputMatches(v, n, i, m);
  }

  /** The last piece read ends where the source does. */
  lemma PiecesEnd(v: View, n: nat, i: nat)
    requires v.AppendOnly() && i < |v.At(n)|
    ensures var pieces, seen := Pieces(v, n, i), SeenAtEnd(v, n, i);
      && seen != [] && pieces != [] && pieces[|pieces| - 1] != []
      && pieces[|pieces| - 1][|pieces[|pieces| - 1]| - 1] == seen[|seen| - 1]
  {
    var pieces, seen := Pieces(v, n, i), SeenAtEnd(v, n, i);
    PiecesMean(v, n, i);
    NoNewlineInside(v, n, i);
    NoPieces(v, n, i);
    ConcatEnds(pieces);
    assert seen[i..][|seen[i..]| - 1] == seen[|seen| - 1];
    assert IsLine(pieces[|pieces| - 1], true);
  }

  lemma {:induction false} LinesEnd(s: Bytes, i: nat)
    requires i < |s|
    ensures var lines := LinesFrom(s, i);
      lines != [] && lines[|lines| - 1] != [] && lines[|lines| - 1][|lines[|lines| - 1]| - 1] == s[|s| - 1]
    decreases |s| - i
  {
    if LineEnd(s, i) < |s| { LinesEnd(s, LineEnd(s, i)); }
  }

  /**
   * For one: `ab` is half written when it is first read. The filter takes lines that start with
   * `ab`; the whole line matches and neither half does.
   */
  lemma HalfLineIsMissed(m: Bytes -> bool)
    requires forall line: Bytes :: m(line) <==> [97, 98] <= line
    ensures var v := View((n: nat) => if n == 0 then [97] else [97, 98, NEWLINE], 1);
      && Torn(v, 0, 0) && SeenAtEnd(v, 0, 0) == [97, 98, NEWLINE]
      && Output(v, 0, 0, m) == [] && Matching(Lines([97, 98, NEWLINE]), m) == [97, 98, NEWLINE]
  {
    var half, whole: Bytes := [97], [97, 98, NEWLINE];
    var v := View((n: nat) => if n == 0 then half else whole, 1);
    assert v.At(0) == half && v.At(1) == whole && v.At(2) == whole;
    LineEndIs(half, 0, 1);
    LineEndIs(whole, 1, 3);
    LineEndIs(whole, 0, 3);
    assert half[0..1] == half && whole[0..3] == whole && whole[1..3] == [98, NEWLINE];
    assert Output(v, 2, 3, m) == [] && SeenAtEnd(v, 2, 3) == whole;
    assert Output(v, 1, 1, m) == [];
    assert LinesFrom(whole, 3) == [] && Lines(whole) == [whole] + [];
    MatchingFirst(whole, [], m);
  }

  /** The source of a run: before each read it grows by the next of `growth`. */
  function Grown(source: Bytes, growth: seq<Bytes>, n: nat): Bytes {
    if n == 0 then source else Grown(source, growth, n - 1) + if n <= |growth| then growth[n - 1] else []
  }

  function ViewOf(source: Bytes, growth: seq<Bytes>): View { View((n: nat) => Grown(source, growth, n), |growth|) }

  lemma {:induction false} GrownIsAppended(source: Bytes, growth: seq<Bytes>, j: nat, k: nat)
    requires j <= k
    ensures Grown(source, growth, j) <= Grown(source, growth, k)
    ensures j >= |growth| ==> Grown(source, growth, j) == Grown(source, growth, k)
    decreases k
  {
    if j < k { GrownIsAppended(source, growth, j, k - 1); }
  }

  lemma ViewAt(source: Bytes, growth: seq<Bytes>, n: nat)
    ensures ViewOf(source, growth).At(n) == Grown(source, growth, n)
  {
    if n > |growth| { GrownIsAppended(source, growth, |growth|, n); }
  }

  lemma ViewSees(source: Bytes, growth: seq<Bytes>)
    ensures ViewOf(source, growth).AppendOnly() && ViewOf(source, growth).At(0) == source
  {
    var v := ViewOf(source, growth);
    forall j: nat, k: nat | j <= k ensures v.At(j) <= v.At(k) {
      ViewAt(source, growth, j);
      ViewAt(source, growth, k);
      GrownIsAppended(source, growth, j, k);
    }
    ViewAt(source, growth, 0);
  }

  lemma ViewGrows(source: Bytes, growth: seq<Bytes>, n: nat)
    ensures ViewOf(source, growth).At(n + 1) == ViewOf(source, growth).At(n) + if n < |growth| then growth[n] else []
  {
    ViewAt(source, growth, n);
    ViewAt(source, growth, n + 1);
  }

  /** Growth by whole lines tears nothing. */
  lemma WholeGrowthIsNotTorn(source: Bytes, growth: seq<Bytes>, i: nat)
    requires growth == [] || (EndsLine(source) && forall k | 0 <= k < |growth| :: EndsLine(growth[k]))
    ensures !Torn(ViewOf(source, growth), 1, i)
  {
    var v := ViewOf(source, growth);
    ViewSees(source, growth);
    if growth != [] {
      forall n: nat ensures EndsLine(v.At(n)) {
        ViewAt(source, growth, n);
        WholeGrown(source, growth, n);
      }
    }
    WholeLinesAreNotTorn(v, 1, i);
  }

  lemma {:induction false} WholeGrown(source: Bytes, growth: seq<Bytes>, n: nat)
    requires EndsLine(source) && forall k | 0 <= k < |growth| :: EndsLine(growth[k])
    ensures EndsLine(Grown(source, growth, n))
  {
    if n > 0 { WholeGrown(source, growth, n - 1); }
  }

  // ---- Resuming from recorded progress ----

  lemma ResumedOutput(v: View, n: nat, offset: nat, m: Bytes -> bool)
    requires v.AppendOnly() && offset <= |v.At(n)| && !Torn(v, n, offset) && LineStart(SeenAtEnd(v, n, offset), offset)
    ensures var seen := SeenAtEnd(v, n, offset);
      Matching(Lines(seen), m) == Matching(Lines(seen[..offset]), m) + Output(v, n, offset, m)
  {
    var seen := SeenAtEnd(v, n, offset);
    UntornReadsLines(v, n, offset);
    OutputMatches(v, n, offset, m);
    LinesSplit(seen, 0, offset);
    MatchingAppend(Lines(seen[..offset]), LinesFrom(seen, offset), m);
  }

  /**
   * A filtered export that resumes with `kept` at a recorded offset, and is not torn, ends right
   * exactly when `kept` holds the matches up to there.
   */
  lemma FilteredResumeIff(kept: Bytes, v: View, n: nat, offset: nat, m: Bytes -> bool)
    requires v.AppendOnly() && offset <= |v.At(n)| && !Torn(v, n, offset) && LineStart(SeenAtEnd(v, n, offset), offset)
    ensures var seen := SeenAtEnd(v, n, offset);
      kept + Output(v, n, offset, m) == Matching(Lines(seen), m) <==> kept == Matching(Lines(seen[..offset]), m)
  {
    ResumedOutput(v, n, offset, m);
    SameSuffix(kept, Matching(Lines(SeenAtEnd(v, n, offset)[..offset]), m), Output(v, n, offset, m));
  }

  /**
   * Progress is on disk at once and output is buffered. Whenever some of the output before the
   * recorded offset is lost, exactly so many bytes are missing in the end.
   */
  lemma StaleProgressLosesLines(kept: Bytes, v: View, n: nat, offset: nat, m: Bytes -> bool)
    requires v.AppendOnly() && offset <= |v.At(n)| && !Torn(v, n, offset) && LineStart(SeenAtEnd(v, n, offset), offset)
    requires kept <= Matching(Lines(SeenAtEnd(v, n, offset)[..offset]), m)
    ensures var seen := SeenAtEnd(v, n, offset);
      |Matching(Lines(seen), m)| - |kept + Output(v, n, offset, m)| == |Matching(Lines(seen[..offset]), m)| - |kept|
  {
    ResumedOutput(v, n, offset, m);
  }

  // ---- One file of the export ----

  class FileExport {
    var source: Bytes
    var partial: Option<Bytes>
    var target: Option<Bytes>
    var progress: Progress

    constructor (source: Bytes, partial: Option<Bytes>, target: Option<Bytes>, progress: Progress)
      ensures this.source == source && this.partial == partial && this.target == target && this.progress == progress
    {
      this.source, this.partial, this.target, this.progress := source, partial, target, progress;
    }

    function PartialBytes(): Bytes
      reads this
    {
      if partial.Some? then partial.value else []
    }

    /** The process dies: the partial file may be cut anywhere. */
    method Cut(keep: nat)
      requires partial.Some?
      modifies this`partial
      ensures partial.Some? && partial.value <= old(partial).value
    {
      partial := Some(partial.value[..Min(keep, |partial.value|)]);
    }

    /** The partial file takes the target's place, unless the system refuses. */
    method Replace(fails: bool) returns (o: Outcome)
      requires partial.Some?
      modifies this`partial, this`target
      ensures fails ==> o == ReplaceFailed && partial == old(partial) && target == old(target)
      ensures !fails ==> o == Done && partial == None && target == old(partial)
    {
      if fails { return ReplaceFailed; }
      target, partial := partial, None;
      o := Done;
    }

    method ReadChunk(offset: nat) returns (chunk: Bytes)
      ensures chunk == [] <==> offset >= |source|
      ensures chunk != [] ==> offset + |chunk| <= |source| && chunk == source[offset..offset + |chunk|]
    {
      chunk := if offset <= |source| then source[offset..Min(offset + CHUNK, |source|)] else [];
    }

    /** The chunked copy; it never looks at the recorded progress. */
    method CopyFull(rel: string, run: Run) returns (o: Outcome)
      modifies this
      ensures old(source) <= source
      ensures o == Done ==> target == Some(Resumed(old(PartialBytes()), source)) && partial == None
      ensures o != Done ==> target == old(target) && partial.Some?
      ensures o == ReplaceFailed ==> partial.value == Resumed(old(PartialBytes()), source)
      ensures o == Interrupted ==> partial.value <= Resumed(old(PartialBytes()), source)
      ensures EndsAs(o, run)
    {
      ghost var before := PartialBytes();
      var offset := |PartialBytes()|;
      if offset == 0 { partial := Some([]); }
      CopiedNothing(before, source);
      var step := 0;
      var atEnd := false;
      while !atEnd && run.diesAt != Some(step)
        invariant old(source) <= source && target == old(target)
        invariant |before| <= offset <= Max(|before|, |source|)
        invariant partial == Some(Copied(before, source, offset))
        invariant atEnd ==> offset >= |source|
        decreases !atEnd, Max(0, |run.growth| - step), |source| - offset
      {
        Grow(run, step, before, offset);
        step := step + 1;
        var chunk := ReadChunk(offset);
        if chunk == [] {
          atEnd := true;
        } else {
          CopiedGrows(before, source, offset, offset + |chunk|);
          partial := Some(partial.value + chunk);
          offset := offset + |chunk|;
          progress := Progress(rel, offset);
        }
      }
      CopiedLeads(before, source, offset);
      if run.diesAt == Some(step) {
        Cut(run.keep);
        return Interrupted;
      }
      o := Replace(run.replaceFails);
    }

    /** The source may grow before a read; what has been copied stays the same. */
    method Grow(run: Run, step: nat, ghost before: Bytes, ghost offset: nat)
      requires |before| <= offset <= Max(|before|, |source|)
      modifies this`source
      ensures source == old(source) + if step < |run.growth| then run.growth[step] else []
      ensures Copied(before, source, offset) == old(Copied(before, source, offset))
    {
      if step < |run.growth| {
        CopiedStays(before, source, offset, run.growth[step]);
        source := source + run.growth[step];
      }
    }

    /** Where a filtered export starts: it goes by the recorded progress. */
    function FilteredStart(rel: string): nat
      reads this
    {
      if partial.Some? && progress.file == rel then progress.offset else 0
    }

    /** Read one line, and write it if it matches. */
    method FilterLine(rel: string, matches: Bytes -> bool, offset: nat) returns (raw: Bytes)
      requires partial.Some?
      modifies this`partial, this`progress
      ensures raw == if offset < |source| then source[offset..LineEnd(source, offset)] else []
      ensures partial.Some? && partial.value == old(partial.value) + if raw != [] && matches(raw) then raw else []
    {
      raw := if offset < |source| then source[offset..LineEnd(source, offset)] else [];
      if raw != [] {
        if matches(raw) { partial := Some(partial.value + raw); }
        progress := Progress(rel, offset + |raw|);
      }
    }

    /**
     * The filtered export of a text file, resuming from whatever progress it finds: what the
     * partial file held, then what matches of the pieces read from the recorded offset on.
     */
    method ExportFilteredLines(rel: string, matches: Bytes -> bool, run: Run) returns (o: Outcome)
      modifies this
      ensures old(source) <= source
      ensures o == Done ==> partial == None && target.Some?
      ensures var v := ViewOf(old(source), run.growth);
        var start := if old(partial).Some? && old(progress).file == rel then old(progress).offset else 0;
        var kept := if start == 0 then [] else old(partial).value;
        o == Done ==> target.value == kept + Output(v, 1, start, matches) && source == SeenAtEnd(v, 1, start)
      ensures o != Done ==> target == old(target) && partial.Some?
      ensures EndsAs(o, run)
    {
      var start: nat := FilteredStart(rel);
      if start == 0 { partial := Some([]); }
      var lived := FilterAll(rel, matches, run, start);
      if !lived {
        Cut(run.keep);
        return Interrupted;
      }
      o := Replace(run.replaceFails);
    }

    /** The loop over the lines. */
    method FilterAll(rel: string, matches: Bytes -> bool, run: Run, start: nat) returns (lived: bool)
      requires partial.Some?
      modifies this`source, this`partial, this`progress
      ensures old(source) <= source && partial.Some?
      ensures var v := ViewOf(old(source), run.growth);
        lived ==> partial.value == old(partial.value) + Output(v, 1, start, matches) && source == SeenAtEnd(v, 1, start)
      ensures !lived ==> run.diesAt.Some?
    {
      ghost var v := ViewOf(source, run.growth);
      ghost var total, seen := partial.value + Output(v, 1, start, matches), SeenAtEnd(v, 1, start);
      ViewSees(source, run.growth);
      var offset, step := start, 0;
      var atEnd := false;
      while !atEnd && run.diesAt != Some(step)
        invariant source == v.At(step) && partial.Some?
        invariant !atEnd ==> partial.value + Output(v, step + 1, offset, matches) == total && SeenAtEnd(v, step + 1, offset) == seen
        invariant atEnd ==> partial.value == total && source == seen
        decreases !atEnd, Max(0, |run.growth| - step), |source| - offset
      {
        GrowNext(run, step, old(source), v);
        step := step + 1;
        offset, atEnd := FilterStep(rel, matches, offset, v, step);
      }
      assert v.At(0) <= v.At(step);
      lived := run.diesAt != Some(step);
    }

    method GrowNext(run: Run, step: nat, ghost first: Bytes, ghost v: View)
      requires v == ViewOf(first, run.growth) && source == v.At(step)
      modifies this`source
      ensures source == v.At(step + 1) && (step >= |run.growth| ==> source == old(source))
    {
      ViewGrows(first, run.growth, step);
      if step < |run.growth| { source := source + run.growth[step]; }
    }

    /** One turn of the loop reads one line. */
    method FilterStep(rel: string, matches: Bytes -> bool, offset: nat, ghost v: View, ghost n: nat)
      returns (offset': nat, atEnd: bool)
      requires partial.Some? && source == v.At(n)
      modifies this`partial, this`progress
      ensures partial.Some? && (if atEnd then offset' == offset else offset < offset' <= |source|)
      ensures var before := old(partial.value) + Output(v, n, offset, matches);
        if atEnd then partial.value == before && source == SeenAtEnd(v, n, offset)
        else partial.value + Output(v, n + 1, offset', matches) == before && SeenAtEnd(v, n + 1, offset') == SeenAtEnd(v, n, offset)
    {
      ghost var kept := partial.value;
      var raw := FilterLine(rel, matches, offset);
      atEnd, offset' := raw == [], offset + |raw|;
      OutputStep(kept, partial.value, v, n, offset, matches, raw);
    }

    /**
     * One file of the export: progress is reset first, so a filtered export starts over. Whatever
     * partial file and progress were left behind, it ends with the matching pieces in order, which
     * are the matching lines unless a line is torn; a full copy carries on from the partial file.
     */
    method ExportOne(rel: string, filter: Option<Bytes -> bool>, run: Run) returns (o: Outcome)
      modifies this
      ensures old(source) <= source && (o != Done ==> target == old(target)) && EndsAs(o, run)
      ensures o == Done && filter == None ==> target == Some(Resumed(old(PartialBytes()), source))
      ensures o != Done && filter == None ==> PartialBytes() <= Resumed(old(PartialBytes()), source)
      ensures var v := ViewOf(old(source), run.growth);
        o == Done && filter.Some? ==>
          && target == Some(Matching(Pieces(v, 1, 0), filter.value)) && source == SeenAtEnd(v, 1, 0)
          && (!Torn(v, 1, 0) ==> target == Some(Matching(Lines(source), filter.value)))
    {
      progress := Progress(rel, 0);
      if filter == None {
        o := CopyFull(rel, run);
      } else {
        ghost var v := ViewOf(source, run.growth);
        ViewSees(source, run.growth);
        OutputMatches(v, 1, 0, filter.value);
        if !Torn(v, 1, 0) { UntornReadsLines(v, 1, 0); }
        o := ExportFilteredLines(rel, filter.value, run);
        assert [] + Output(v, 1, 0, filter.value) == Output(v, 1, 0, filter.value);
      }
    }

    /**
     * Any number of runs, each interrupted anywhere or refused its replace: once one of them gets
     * through, the target is the source as it stood when its end was seen.
     */
    method ExportAtLast(rel: string, runs: seq<Run>) returns (done: bool)
      requires PartialBytes() <= source
      modifies this
      ensures old(source) <= source
      ensures done ==> target == Some(source) && partial == None
      ensures !done ==> target == old(target) && PartialBytes() <= source
      ensures (exists i :: 0 <= i < |runs| && runs[i].diesAt == None && !runs[i].replaceFails) ==> done
    {
      for i := 0 to |runs|
        invariant old(source) <= source && PartialBytes() <= source && target == old(target)
        invariant forall k | 0 <= k < i :: runs[k].diesAt.Some? || runs[k].replaceFails
      {
        ghost var before := PartialBytes();
        var o := CopyFull(rel, runs[i]);
        ResumedIsSourceIff(before, source);
        if o == Done { return true; }
      }
      done := false;
    }
  }
}
