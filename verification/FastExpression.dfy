/**
 * The hand-written scanner of Fast Expression source text: the call finder, the
 * matching-parenthesis reader and the argument splitter.
 *
 * Each loop of the program is a method proved against a recursive function; what the
 * functions mean for real expressions is proved in FastExpressionTree.
 */
module FastExpression {
  import opened Common

  // ---- Character classes (`\s`, `\w` and the quotes, on ASCII) ----

  predicate IsSpace(c: char) { 9 <= c as int <= 13 || 28 <= c as int <= 32 }

  predicate IsDigit(c: char) { '0' <= c <= '9' }

  predicate IsNameStart(c: char) { 'A' <= c <= 'Z' || 'a' <= c <= 'z' || c == '_' }

  predicate IsWord(c: char) { IsNameStart(c) || IsDigit(c) }

  predicate IsQuote(c: char) { c == '"' || c == '\'' }

  predicate AllSpace(s: string) { forall k | 0 <= k < |s| :: IsSpace(s[k]) }

  // ---- The regular expression  \b([A-Za-z_][A-Za-z0-9_]*)\s*\(  ----

  function NameEnd(s: string, i: nat): (j: nat)
    requires i <= |s|
    ensures i <= j <= |s| && (forall k | i <= k < j :: IsWord(s[k])) && (j < |s| ==> !IsWord(s[j]))
    decreases |s| - i
  {
    if i < |s| && IsWord(s[i]) then NameEnd(s, i + 1) else i
  }

  function SpaceEnd(s: string, i: nat): (j: nat)
    requires i <= |s|
    ensures i <= j <= |s| && (forall k | i <= k < j :: IsSpace(s[k])) && (j < |s| ==> !IsSpace(s[j]))
    decreases |s| - i
  {
    if i < |s| && IsSpace(s[i]) then SpaceEnd(s, i + 1) else i
  }

  /** Where the opening parenthesis of a call named at `i` has to stand. */
  function OpenIndex(s: string, i: nat): (j: nat)
    requires i <= |s|
    ensures i <= j <= |s|
  {
    SpaceEnd(s, NameEnd(s, i))
  }

  predicate CallAt(s: string, i: nat) {
    && i < |s| && IsNameStart(s[i])
    && (i == 0 || !IsWord(s[i - 1]))
    && OpenIndex(s, i) < |s| && s[OpenIndex(s, i)] == '('
  }

  // ---- Reading up to the matching parenthesis ----

  /** Index of the parenthesis that brings `depth` to zero, or |s| when there is none. */
  function CloseIndex(s: string, i: nat, depth: int, quote: Option<char>): (k: nat)
    requires i <= |s|
    ensures i <= k <= |s|
    decreases |s| - i
  {
    if i == |s| then i
    else if quote.Some? then CloseIndex(s, i + 1, depth, if s[i] == quote.value then None else quote)
    else if IsQuote(s[i]) then CloseIndex(s, i + 1, depth, Some(s[i]))
    else if s[i] == '(' then CloseIndex(s, i + 1, depth + 1, None)
    else if s[i] == ')' then (if depth - 1 == 0 then i else CloseIndex(s, i + 1, depth - 1, None))
    else CloseIndex(s, i + 1, depth, None)
  }

  /** The text between the parentheses and the index just past them. */
  function Extracted(s: string, open: nat): (r: (string, nat))
    requires open < |s| && s[open] == '('
  {
    var k := CloseIndex(s, open, 0, None);
    if k < |s| then (s[open + 1..k], k + 1) else (s[open + 1..], |s|)
  }

  method ExtractParenthesized(text: string, open: nat) returns (args: string, end: nat)
    requires open < |text| && text[open] == '('
    ensures (args, end) == Extracted(text, open)
  {
    var depth, quote: Option<char> := 0, None;
    var index := open;
    while index < |text|
      invariant open <= index <= |text| && (index == open ==> depth == 0 && quote == None)
      invariant CloseIndex(text, open, 0, None) == CloseIndex(text, index, depth, quote)
    {
      var c := text[index];
      if quote.Some? {
        if c == quote.value { quote := None; }
      } else if IsQuote(c) {
        quote := Some(c);
      } else if c == '(' {
        depth := depth + 1;
      } else if c == ')' {
        depth := depth - 1;
        if depth == 0 { return text[open + 1..index], index + 1; }
      }
      index := index + 1;
    }
    return text[open + 1..], |text|;
  }

  // ---- Finding the calls ----

  datatype CallText = CallText(name: string, args: string)

  function CallFound(s: string, i: nat): (r: seq<CallText>)
    requires CallAt(s, i)
  {
    var open := OpenIndex(s, i);
    var (args, end) := Extracted(s, open);
    if end > open + 1 then [CallText(s[i..NameEnd(s, i)], args)] else []
  }

  /** The calls the leftmost, non-overlapping matches of the regular expression yield from `i` on. */
  function CallsFrom(s: string, i: nat): (r: seq<CallText>)
    requires i <= |s|
    decreases |s| - i
  {
    if i == |s| then []
    else if CallAt(s, i) then CallFound(s, i) + CallsFrom(s, OpenIndex(s, i) + 1)
    else CallsFrom(s, i + 1)
  }

  method IterFunctionCalls(code: string) returns (calls: seq<CallText>)
    ensures calls == CallsFrom(code, 0)
  {
    calls := [];
    var pos := 0;
    while pos < |code|
      invariant pos <= |code| && calls + CallsFrom(code, pos) == CallsFrom(code, 0)
    {
      if CallAt(code, pos) {
        var open := OpenIndex(code, pos);
        var args, end := ExtractParenthesized(code, open);
        if end > open + 1 {
          calls := calls + [CallText(code[pos..NameEnd(code, pos)], args)];
        }
        pos := open + 1;
      } else {
        pos := pos + 1;
      }
    }
  }

  // ---- Splitting arguments ----

  function StripLeft(s: string): (r: string)
    ensures |r| <= |s|
  {
    if s != [] && IsSpace(s[0]) then StripLeft(s[1..]) else s
  }

  function StripRight(s: string): (r: string)
    ensures |r| <= |s|
  {
    if s != [] && IsSpace(s[|s| - 1]) then StripRight(s[..|s| - 1]) else s
  }

  function Strip(s: string): (r: string) { StripRight(StripLeft(s)) }

  function Piece(s: string): (r: seq<string>) {
    if Strip(s) == "" then [] else [Strip(s)]
  }

  function PiecesFrom(s: string, i: nat, start: nat, depth: nat, quote: Option<char>): (r: seq<string>)
    requires start <= i <= |s|
    decreases |s| - i
  {
    if i == |s| then Piece(s[start..])
    else if quote.Some? then PiecesFrom(s, i + 1, start, depth, if s[i] == quote.value then None else quote)
    else if IsQuote(s[i]) then PiecesFrom(s, i + 1, start, depth, Some(s[i]))
    else if s[i] == '(' then PiecesFrom(s, i + 1, start, depth + 1, None)
    else if s[i] == ')' then PiecesFrom(s, i + 1, start, Max(0, depth - 1), None)
    else if s[i] == ',' && depth == 0 then Piece(s[start..i]) + PiecesFrom(s, i + 1, i + 1, 0, None)
    else PiecesFrom(s, i + 1, start, depth, None)
  }

  method SplitArgs(args: string) returns (parts: seq<string>)
    ensures parts == PiecesFrom(args, 0, 0, 0, None)
  {
    parts := [];
    var start, depth: nat, quote: Option<char> := 0, 0, None;
    for index := 0 to |args|
      invariant start <= index
      invariant parts + PiecesFrom(args, index, start, depth, quote) == PiecesFrom(args, 0, 0, 0, None)
    {
      var c := args[index];
      if quote.Some? {
        if c == quote.value { quote := None; }
        continue;
      }
      if IsQuote(c) {
        quote := Some(c);
        continue;
      }
      if c == '(' {
        depth := depth + 1;
      } else if c == ')' {
        depth := Max(0, depth - 1);
      } else if c == ',' && depth == 0 {
        var part := Strip(args[start..index]);
        if part != "" { parts := parts + [part]; }
        start := index + 1;
      }
    }
    var tail := Strip(args[start..]);
    if tail != "" { parts := parts + [tail]; }
  }

  // ---- Checking the calls against the operator table ----

  const KNOWN_UNAVAILABLE: set<string> := {
    "delay", "floor", "group_bucket", "group_median", "group_min", "group_normalize", "group_quantile",
    "group_residual", "int", "neutralize", "pow", "regression", "regression_neut", "regression_neutralize",
    "ts_ir", "ts_entropy", "ts_information_ratio", "ts_max", "ts_min", "ts_std", "ts_stddev", "ts_winsorize"
  }

  const OPERATOR_ARITY: map<string, (int, int)> := map[
    "abs" := (1, 1), "bucket" := (2, 2), "densify" := (1, 1), "group_mean" := (3, 3),
    "group_neutralize" := (2, 2), "group_rank" := (2, 2), "group_zscore" := (2, 2), "hump" := (1, 2),
    "inverse" := (1, 1), "log" := (1, 1), "rank" := (1, 1), "scale" := (1, 1), "signed_power" := (2, 2),
    "sign" := (1, 1), "trade_when" := (3, 3), "ts_backfill" := (2, 2), "ts_corr" := (3, 3),
    "ts_count_nans" := (2, 2), "ts_decay_exp_window" := (2, 3), "ts_delta" := (2, 2), "ts_mean" := (2, 2),
    "ts_product" := (2, 2), "ts_rank" := (2, 2), "ts_scale" := (2, 2), "ts_std_dev" := (2, 2),
    "ts_sum" := (2, 2), "ts_zscore" := (2, 2), "vec_avg" := (1, 1), "vec_count" := (1, 1), "winsorize" := (1, 2)
  ]

  function LowerChar(c: char): char {
    if 'A' <= c <= 'Z' then (c as int + 32) as char else c
  }

  function Lower(s: string): (r: string)
    ensures |r| == |s|
  {
    seq(|s|, i requires 0 <= i < |s| => LowerChar(s[i]))
  }

  function WithoutSpace(s: string): string {
    if s == "" then ""
    else (if IsSpace(s[0]) then "" else [s[0]]) + WithoutSpace(s[1..])
  }

  predicate SafeGroupMeanWeight(arg: string) {
    var compact := Lower(WithoutSpace(arg));
    || compact in {"1", "1.0", "rank(cap)", "rank(1/cap)", "rank(inverse(cap))"}
    || (|compact| > 6 && compact[..5] == "rank(" && compact[|compact| - 1] == ')' && ')' !in compact[5..|compact| - 1])
  }

  datatype CallProblem = TradeWhenDisabled | Unavailable(name: string) | Unknown(name: string)
                       | WrongArity(name: string, count: nat) | UnsafeWeight

  function CallCheck(fn: string, parts: seq<string>, v2: bool): (r: Option<CallProblem>) {
    var name := Lower(fn);
    if name == "trade_when" && !v2 then Some(TradeWhenDisabled)
    else if name in KNOWN_UNAVAILABLE then Some(Unavailable(name))
    else if name !in OPERATOR_ARITY then Some(Unknown(name))
    else if |parts| < OPERATOR_ARITY[name].0 || |parts| > OPERATOR_ARITY[name].1 then Some(WrongArity(name, |parts|))
    else if name == "group_mean" && |parts| >= 3 && !SafeGroupMeanWeight(parts[1]) then Some(UnsafeWeight)
    else None
  }

  function FirstProblem(calls: seq<CallText>, v2: bool): (r: Option<CallProblem>) {
    if calls == [] then None
    else
      var here := CallCheck(calls[0].name, PiecesFrom(calls[0].args, 0, 0, 0, None), v2);
      if here.Some? then here else FirstProblem(calls[1..], v2)
  }

  /** The call loop of the validator; it reports the first offending call in source order. */
  method ValidateCalls(text: string, v2: bool) returns (problem: Option<CallProblem>)
    ensures problem == FirstProblem(CallsFrom(text, 0), v2)
  {
    var calls := IterFunctionCalls(text);
    for k := 0 to |calls|
      invariant FirstProblem(calls, v2) == FirstProblem(calls[k..], v2)
    {
      var parts := SplitArgs(calls[k].args);
      problem := CallCheck(calls[k].name, parts, v2);
      if problem.Some? { return; }
      assert calls[k..][1..] == calls[k + 1..];
    }
    problem := None;
  }
}
