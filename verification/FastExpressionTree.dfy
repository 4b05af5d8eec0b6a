/**
 * What the scanner means: on the printed text of any expression tree it finds the call nodes of
 * the tree, in source order, and splits each into exactly its printed arguments; it finds nothing
 * else if and only if no string of the tree holds `name(`.
 */
module FastExpressionTree {
  import opened Common
  import opened FastExpression

  // ---- Expression trees and their text ----

  datatype Expr =
    | Name(id: string)
    | Number(digits: string)
    | Quoted(quote: char, body: string)
    | Prefix(op: string, operand: Expr)
    | Infix(left: Expr, op: string, right: Expr)
    | Group(before: string, inner: Expr, after: string)
    | Call(fn: string, gap: string, args: Args)

  /** A list of arguments with the blanks around them; `More` over `End` is a trailing comma. */
  datatype Args =
    | End(pad: string)
    | Last(before: string, arg: Expr, after: string)
    | More(before: string, arg: Expr, after: string, rest: Args)

  function Print(e: Expr): string {
    match e
    case Name(id) => id
    case Number(digits) => digits
    case Quoted(q, body) => [q] + body + [q]
    case Prefix(op, operand) => op + Print(operand)
    case Infix(left, op, right) => Print(left) + (op + Print(right))
    case Group(before, inner, after) => "(" + (before + (Print(inner) + (after + ")")))
    case Call(fn, gap, args) => fn + (gap + ("(" + (PrintArgs(args) + ")")))
  }

  function PrintArgs(a: Args): string {
    match a
    case End(pad) => pad
    case Last(before, arg, after) => before + (Print(arg) + after)
    case More(before, arg, after, rest) => before + (Print(arg) + (after + ("," + PrintArgs(rest))))
  }

  predicate AllWord(s: string) { forall k | 0 <= k < |s| :: IsWord(s[k]) }

  predicate IsIdentifier(s: string) {
    s != "" && IsNameStart(s[0]) && AllWord(s)
  }

  predicate Plain(c: char) { !IsQuote(c) && c != '(' && c != ')' }

  /** Operator text: anything but word characters, quotes, parentheses and commas, not all blank. */
  predicate IsOperator(s: string) {
    && (forall k | 0 <= k < |s| :: !IsWord(s[k]) && Plain(s[k]) && s[k] != ',')
    && exists k | 0 <= k < |s| :: !IsSpace(s[k])
  }

  predicate WellFormed(e: Expr) {
    match e
    case Name(id) => IsIdentifier(id)
    case Number(digits) => digits != "" && forall k | 0 <= k < |digits| :: IsDigit(digits[k]) || digits[k] == '.'
    case Quoted(q, body) => IsQuote(q) && q !in body
    case Prefix(op, operand) => IsOperator(op) && !IsSpace(op[0]) && WellFormed(operand)
    case Infix(left, op, right) => WellFormed(left) && IsOperator(op) && WellFormed(right)
    case Group(before, inner, after) => AllSpace(before) && WellFormed(inner) && AllSpace(after)
    case Call(fn, gap, args) => IsIdentifier(fn) && AllSpace(gap) && WellFormedArgs(args)
  }

  predicate WellFormedArgs(a: Args) {
    match a
    case End(pad) => AllSpace(pad)
    case Last(before, arg, after) => AllSpace(before) && WellFormed(arg) && AllSpace(after)
    case More(before, arg, after, rest) =>
      AllSpace(before) && WellFormed(arg) && AllSpace(after) && WellFormedArgs(rest)
  }

  // ---- Strings, which the call finder does not know about ----

  predicate NoCallIn(body: string) { forall p | 0 <= p < |body| :: !CallAt(body, p) }

  /** No string of the tree holds `name(`. */
  predicate PlainStrings(e: Expr) {
    match e
    case Name(_) | Number(_) => true
    case Quoted(_, body) => NoCallIn(body)
    case Prefix(_, operand) => PlainStrings(operand)
    case Infix(left, _, right) => PlainStrings(left) && PlainStrings(right)
    case Group(_, inner, _) => PlainStrings(inner)
    case Call(_, _, args) => PlainStringsOfArgs(args)
  }

  predicate PlainStringsOfArgs(a: Args) {
    match a
    case End(_) => true
    case Last(_, arg, _) => PlainStrings(arg)
    case More(_, arg, _, rest) => PlainStrings(arg) && PlainStringsOfArgs(rest)
  }

  /** How often the regular expression matches in a text, from position `p` on. */
  function Matches(body: string, p: nat): nat
    requires p <= |body|
    decreases |body| - p
  {
    if p == |body| then 0
    else if CallAt(body, p) then 1 + Matches(body, OpenIndex(body, p) + 1)
    else Matches(body, p + 1)
  }

  /** How often it matches in the strings of a tree. */
  function StringMatches(e: Expr): nat {
    match e
    case Name(_) | Number(_) => 0
    case Quoted(_, body) => Matches(body, 0)
    case Prefix(_, operand) => StringMatches(operand)
    case Infix(left, _, right) => StringMatches(left) + StringMatches(right)
    case Group(_, inner, _) => StringMatches(inner)
    case Call(_, _, args) => StringMatchesOfArgs(args)
  }

  function StringMatchesOfArgs(a: Args): nat {
    match a
    case End(_) => 0
    case Last(_, arg, _) => StringMatches(arg)
    case More(_, arg, _, rest) => StringMatches(arg) + StringMatchesOfArgs(rest)
  }

  lemma {:induction false} MatchesIff(body: string, p: nat)
    requires p <= |body|
    ensures Matches(body, p) == 0 <==> forall k | p <= k < |body| :: !CallAt(body, k)
    decreases |body| - p
  {
    if p < |body| && !CallAt(body, p) { MatchesIff(body, p + 1); }
  }

  lemma {:induction false} PlainStringsIff(e: Expr)
    ensures PlainStrings(e) <==> StringMatches(e) == 0
  {
    match e
    case Name(_) | Number(_) =>
    case Quoted(_, body) => MatchesIff(body, 0);
    case Prefix(_, operand) => PlainStringsIff(operand);
    case Infix(left, _, right) =>
      PlainStringsIff(left);
      PlainStringsIff(right);
    case Group(_, inner, _) => PlainStringsIff(inner);
    case Call(_, _, args) => PlainStringsOfArgsIff(args);
  }

  lemma {:induction false} PlainStringsOfArgsIff(a: Args)
    ensures PlainStringsOfArgs(a) <==> StringMatchesOfArgs(a) == 0
  {
    match a
    case End(_) =>
    case Last(_, arg, _) => PlainStringsIff(arg);
    case More(_, arg, _, rest) =>
      PlainStringsIff(arg);
      PlainStringsOfArgsIff(rest);
  }

  // ---- The calls of a tree ----

  /** The call nodes of a tree, outermost first and then left to right. */
  function CallNodes(e: Expr): seq<Expr> {
    match e
    case Name(_) | Number(_) | Quoted(_, _) => []
    case Prefix(_, operand) => CallNodes(operand)
    case Infix(left, _, right) => CallNodes(left) + CallNodes(right)
    case Group(_, inner, _) => CallNodes(inner)
    case Call(_, _, args) => [e] + CallNodesOfArgs(args)
  }

  function CallNodesOfArgs(a: Args): seq<Expr> {
    match a
    case End(_) => []
    case Last(_, arg, _) => CallNodes(arg)
    case More(_, arg, _, rest) => CallNodes(arg) + CallNodesOfArgs(rest)
  }

  function ArgList(a: Args): seq<Expr> {
    match a
    case End(_) => []
    case Last(_, arg, _) => [arg]
    case More(_, arg, _, rest) => [arg] + ArgList(rest)
  }

  /** The same calls as the scanner should report them: name and text between the parentheses. */
  function CallTexts(e: Expr): seq<CallText> {
    match e
    case Name(_) | Number(_) | Quoted(_, _) => []
    case Prefix(_, operand) => CallTexts(operand)
    case Infix(left, _, right) => CallTexts(left) + CallTexts(right)
    case Group(_, inner, _) => CallTexts(inner)
    case Call(fn, _, args) => [CallText(fn, PrintArgs(args))] + CallTextsOfArgs(args)
  }

  function CallTextsOfArgs(a: Args): seq<CallText> {
    match a
    case End(_) => []
    case Last(_, arg, _) => CallTexts(arg)
    case More(_, arg, _, rest) => CallTexts(arg) + CallTextsOfArgs(rest)
  }

  /** `texts` reports exactly the call nodes `nodes`, one by one. */
  ghost predicate Reports(texts: seq<CallText>, nodes: seq<Expr>) {
    && |texts| == |nodes|
    && forall k | 0 <= k < |nodes| ::
         nodes[k].Call? && WellFormed(nodes[k]) && texts[k] == CallText(nodes[k].fn, PrintArgs(nodes[k].args))
  }

  lemma ReportsConcat(t: seq<CallText>, n: seq<Expr>, t': seq<CallText>, n': seq<Expr>)
    requires Reports(t, n) && Reports(t', n')
    ensures Reports(t + t', n + n')
  {}

  function Printed(es: seq<Expr>): (r: seq<string>)
    ensures |r| == |es|
  {
    seq(|es|, i requires 0 <= i < |es| => Print(es[i]))
  }

  lemma {:induction false} CallTextsReport(e: Expr)
    requires WellFormed(e)
    ensures Reports(CallTexts(e), CallNodes(e))
  {
    match e
    case Name(_) | Number(_) | Quoted(_, _) =>
    case Prefix(_, operand) => CallTextsReport(operand);
    case Infix(left, _, right) =>
      CallTextsReport(left);
      CallTextsReport(right);
      ReportsConcat(CallTexts(left), CallNodes(left), CallTexts(right), CallNodes(right));
    case Group(_, inner, _) => CallTextsReport(inner);
    case Call(fn, _, args) =>
      CallTextsOfArgsReport(args);
      assert Reports([CallText(fn, PrintArgs(args))], [e]);
      ReportsConcat([CallText(fn, PrintArgs(args))], [e], CallTextsOfArgs(args), CallNodesOfArgs(args));
  }

  lemma {:induction false} CallTextsOfArgsReport(a: Args)
    requires WellFormedArgs(a)
    ensures Reports(CallTextsOfArgs(a), CallNodesOfArgs(a))
  {
    match a
    case End(_) =>
    case Last(_, arg, _) => CallTextsReport(arg);
    case More(_, arg, _, rest) =>
      CallTextsReport(arg);
      CallTextsOfArgsReport(rest);
      ReportsConcat(CallTexts(arg), CallNodes(arg), CallTextsOfArgs(rest), CallNodesOfArgs(rest));
  }

  // ---- Printed text starts and ends with a visible character ----

  predicate Trimmed(s: string) { s != "" && !IsSpace(s[0]) && !IsSpace(s[|s| - 1]) }

  lemma {:induction false} PrintTrimmed(e: Expr)
    requires WellFormed(e)
    ensures Trimmed(Print(e))
  {
    match e
    case Name(_) | Number(_) | Quoted(_, _) =>
    case Prefix(_, operand) => PrintTrimmed(operand);
    case Infix(left, _, right) => PrintTrimmed(left); PrintTrimmed(right);
    case Group(_, _, _) =>
    case Call(_, _, _) =>
  }

  lemma {:induction false} StripPads(before: string, core: string, after: string)
    requires AllSpace(before) && AllSpace(after) && Trimmed(core)
    ensures Strip(before + (core + after)) == core
    decreases |before| + |after|
  {
    if before != "" {
      assert (before + (core + after))[1..] == before[1..] + (core + after);
      StripPads(before[1..], core, after);
    } else {
      assert before + (core + after) == core + after;
      StripTail(core, after);
    }
  }

  lemma {:induction false} StripTail(core: string, after: string)
    requires AllSpace(after) && Trimmed(core)
    ensures StripRight(core + after) == core
    decreases |after|
  {
    if after == "" {
      assert core + after == core;
    } else {
      var m := |after| - 1;
      assert (core + after)[..|core| + m] == core + after[..m];
      StripTail(core, after[..m]);
    }
  }

  lemma {:induction false} StripBlank(s: string)
    requires AllSpace(s)
    ensures Strip(s) == ""
  {
    if s != "" { StripBlank(s[1..]); }
  }

  // ---- Reading over text that is neither quote nor parenthesis ----

  lemma {:induction false} ClosePlain(s: string, i: nat, part: string, depth: int)
    requires At(s, i, part) && forall k | 0 <= k < |part| :: Plain(part[k])
    ensures CloseIndex(s, i, depth, None) == CloseIndex(s, i + |part|, depth, None)
    decreases |part|
  {
    if part != "" {
      AtIndex(s, i, part, 0);
      AtTail(s, i, part);
      ClosePlain(s, i + 1, part[1..], depth);
    }
  }

  lemma {:induction false} PiecesPlain(s: string, i: nat, part: string, start: nat, depth: nat)
    requires start <= i && At(s, i, part) && forall k | 0 <= k < |part| :: Plain(part[k]) && part[k] != ','
    ensures PiecesFrom(s, i, start, depth, None) == PiecesFrom(s, i + |part|, start, depth, None)
    decreases |part|
  {
    if part != "" {
      AtIndex(s, i, part, 0);
      AtTail(s, i, part);
      PiecesPlain(s, i + 1, part[1..], start, depth);
    }
  }

  lemma AtTail(s: string, i: nat, part: string)
    requires At(s, i, part) && part != ""
    ensures At(s, i + 1, part[1..])
  {
    forall k | 0 <= k < |part| - 1 ensures part[1..][k] == s[i + 1 + k] { assert part[k + 1] == s[i + (k + 1)]; }
  }

  // ---- Reading over a quoted string, from just inside the opening quote ----

  lemma {:induction false} CloseQuoted(s: string, i: nat, body: string, q: char, depth: int)
    requires At(s, i, body + [q]) && q !in body
    ensures CloseIndex(s, i, depth, Some(q)) == CloseIndex(s, i + |body| + 1, depth, None)
    decreases |body|
  {
    AtIndex(s, i, body + [q], 0);
    if body != "" {
      AtTail(s, i, body + [q]);
      assert (body + [q])[1..] == body[1..] + [q];
      CloseQuoted(s, i + 1, body[1..], q, depth);
    }
  }

  lemma {:induction false} PiecesQuoted(s: string, i: nat, body: string, q: char, start: nat, depth: nat)
    requires start <= i && At(s, i, body + [q]) && q !in body
    ensures PiecesFrom(s, i, start, depth, Some(q)) == PiecesFrom(s, i + |body| + 1, start, depth, None)
    decreases |body|
  {
    AtIndex(s, i, body + [q], 0);
    if body != "" {
      AtTail(s, i, body + [q]);
      assert (body + [q])[1..] == body[1..] + [q];
      PiecesQuoted(s, i + 1, body[1..], q, start, depth);
    }
  }

  /** Where the pieces of a printed call stand. */
  lemma SplitCall(s: string, i: nat, fn: string, gap: string, text: string)
    requires At(s, i, fn + (gap + ("(" + (text + ")"))))
    ensures At(s, i, fn) && At(s, i + |fn|, gap)
    ensures i + |fn| + |gap| < |s| && s[i + |fn| + |gap|] == '('
    ensures At(s, i + |fn| + |gap| + 1, text)
    ensures i + |fn| + |gap| + 1 + |text| < |s| && s[i + |fn| + |gap| + 1 + |text|] == ')'
  {
    AtSplit(s, i, fn, gap + ("(" + (text + ")")));
    AtSplit(s, i + |fn|, gap, "(" + (text + ")"));
    var open := i + |fn| + |gap|;
    AtSplit(s, open, "(", text + ")");
    AtIndex(s, open, "(", 0);
    AtSplit(s, open + 1, text, ")");
    AtIndex(s, open + 1 + |text|, ")", 0);
  }

  /** Where the pieces of a printed group stand. */
  lemma SplitGroup(s: string, i: nat, rest: string)
    requires At(s, i, "(" + rest)
    ensures i < |s| && s[i] == '(' && At(s, i + 1, rest)
  {
    AtSplit(s, i, "(", rest);
    AtIndex(s, i, "(", 0);
  }

  // ---- A printed expression is invisible to the parenthesis reader ----

  lemma {:induction false} CloseSkips(s: string, i: nat, e: Expr, depth: nat)
    requires WellFormed(e) && At(s, i, Print(e)) && depth >= 1
    ensures CloseIndex(s, i, depth, None) == CloseIndex(s, i + |Print(e)|, depth, None)
    decreases e, 1
  {
    match e
    case Name(id) => ClosePlain(s, i, id, depth);
    case Number(digits) => ClosePlain(s, i, digits, depth);
    case Quoted(q, body) => CloseSkipsQuoted(s, i, q, body, depth);
    case Prefix(op, operand) =>
      AtSplit(s, i, op, Print(operand));
      ClosePlain(s, i, op, depth);
      CloseSkips(s, i + |op|, operand, depth);
    case Infix(_, _, _) => CloseSkipsInfix(s, i, e, depth);
    case Group(_, _, _) => CloseSkipsGroup(s, i, e, depth);
    case Call(_, _, _) => CloseSkipsCall(s, i, e, depth);
  }

  lemma CloseSkipsQuoted(s: string, i: nat, q: char, body: string, depth: nat)
    requires IsQuote(q) && q !in body && At(s, i, Print(Quoted(q, body)))
    ensures CloseIndex(s, i, depth, None) == CloseIndex(s, i + |body| + 2, depth, None)
  {
    assert Print(Quoted(q, body)) == [q] + (body + [q]);
    AtSplit(s, i, [q], body + [q]);
    AtIndex(s, i, [q], 0);
    CloseQuoted(s, i + 1, body, q, depth);
  }

  lemma {:induction false} CloseSkipsGroup(s: string, i: nat, e: Expr, depth: nat)
    requires e.Group? && WellFormed(e) && At(s, i, Print(e)) && depth >= 1
    ensures CloseIndex(s, i, depth, None) == CloseIndex(s, i + |Print(e)|, depth, None)
    decreases e, 0
  {
    SplitGroup(s, i, e.before + (Print(e.inner) + (e.after + ")")));
    CloseSkipsPadded(s, i + 1, e.before, e.inner, e.after, ")", depth + 1);
    AtIndex(s, i + 1 + |e.before| + |Print(e.inner)| + |e.after|, ")", 0);
  }

  lemma {:induction false} CloseSkipsInfix(s: string, i: nat, e: Expr, depth: nat)
    requires e.Infix? && WellFormed(e) && At(s, i, Print(e)) && depth >= 1
    ensures CloseIndex(s, i, depth, None) == CloseIndex(s, i + |Print(e)|, depth, None)
    decreases e, 0
  {
    AtSplit(s, i, Print(e.left), e.op + Print(e.right));
    CloseSkips(s, i, e.left, depth);
    var j := i + |Print(e.left)|;
    AtSplit(s, j, e.op, Print(e.right));
    ClosePlain(s, j, e.op, depth);
    CloseSkips(s, j + |e.op|, e.right, depth);
  }

  lemma {:induction false} CloseSkipsCall(s: string, i: nat, e: Expr, depth: nat)
    requires e.Call? && WellFormed(e) && At(s, i, Print(e)) && depth >= 1
    ensures CloseIndex(s, i, depth, None) == CloseIndex(s, i + |Print(e)|, depth, None)
    decreases e, 0
  {
    SplitCall(s, i, e.fn, e.gap, PrintArgs(e.args));
    var open := i + |e.fn| + |e.gap|;
    ClosePlain(s, i, e.fn, depth);
    ClosePlain(s, i + |e.fn|, e.gap, depth);
    CloseSkipsArgs(s, open + 1, e.args, depth + 1);
    CloseParens(s, open, open + 1 + |PrintArgs(e.args)|, depth);
  }

  lemma CloseParens(s: string, open: nat, close: nat, depth: nat)
    requires open < close < |s| && s[open] == '(' && s[close] == ')' && depth >= 1
    requires CloseIndex(s, open + 1, depth + 1, None) == CloseIndex(s, close, depth + 1, None)
    ensures CloseIndex(s, open, depth, None) == CloseIndex(s, close + 1, depth, None)
  {}

  /** Blanks, an expression, blanks; `tail` is whatever is printed next. */
  lemma {:induction false} CloseSkipsPadded(
    s: string, i: nat, before: string, e: Expr, after: string, tail: string, depth: nat)
    requires AllSpace(before) && WellFormed(e) && AllSpace(after) && depth >= 1
    requires At(s, i, before + (Print(e) + (after + tail)))
    ensures At(s, i + |before|, Print(e)) && At(s, i + |before| + |Print(e)|, after)
    ensures At(s, i + |before| + |Print(e)| + |after|, tail)
    ensures CloseIndex(s, i, depth, None)
         == CloseIndex(s, i + |before| + |Print(e)| + |after|, depth, None)
    decreases e, 2
  {
    SplitPadded(s, i, before, Print(e), after, tail);
    ClosePlain(s, i, before, depth);
    CloseSkips(s, i + |before|, e, depth);
    ClosePlain(s, i + |before| + |Print(e)|, after, depth);
  }

  lemma SplitPadded(s: string, i: nat, before: string, core: string, after: string, tail: string)
    requires At(s, i, before + (core + (after + tail)))
    ensures At(s, i, before) && At(s, i + |before|, core)
    ensures At(s, i + |before| + |core|, after) && At(s, i + |before| + |core| + |after|, tail)
  {
    AtSplit(s, i, before, core + (after + tail));
    AtSplit(s, i + |before|, core, after + tail);
    AtSplit(s, i + |before| + |core|, after, tail);
  }

  lemma {:induction false} CloseSkipsArgs(s: string, i: nat, a: Args, depth: nat)
    requires WellFormedArgs(a) && At(s, i, PrintArgs(a)) && depth >= 1
    ensures CloseIndex(s, i, depth, None) == CloseIndex(s, i + |PrintArgs(a)|, depth, None)
    decreases a, 0
  {
    match a
    case End(pad) => ClosePlain(s, i, pad, depth);
    case Last(before, arg, after) =>
      assert after + "" == after;
      CloseSkipsPadded(s, i, before, arg, after, "", depth);
    case More(before, arg, after, rest) =>
      CloseSkipsPadded(s, i, before, arg, after, "," + PrintArgs(rest), depth);
      var j := i + |before| + |Print(arg)| + |after|;
      AtSplit(s, j, ",", PrintArgs(rest));
      ClosePlain(s, j, ",", depth);
      CloseSkipsArgs(s, j + 1, rest, depth);
  }

  // ---- ... and to the argument splitter ----

  lemma {:induction false} PiecesSkip(s: string, i: nat, e: Expr, start: nat, depth: nat)
    requires start <= i && WellFormed(e) && At(s, i, Print(e))
    ensures PiecesFrom(s, i, start, depth, None) == PiecesFrom(s, i + |Print(e)|, start, depth, None)
    decreases e, 1
  {
    match e
    case Name(id) => PiecesPlain(s, i, id, start, depth);
    case Number(digits) => PiecesPlain(s, i, digits, start, depth);
    case Quoted(q, body) =>
      assert Print(e) == [q] + (body + [q]);
      AtSplit(s, i, [q], body + [q]);
      AtIndex(s, i, [q], 0);
      PiecesQuoted(s, i + 1, body, q, start, depth);
    case Prefix(op, operand) =>
      AtSplit(s, i, op, Print(operand));
      PiecesPlain(s, i, op, start, depth);
      PiecesSkip(s, i + |op|, operand, start, depth);
    case Infix(_, _, _) => PiecesSkipInfix(s, i, e, start, depth);
    case Group(before, inner, after) =>
      SplitGroup(s, i, before + (Print(inner) + (after + ")")));
      PiecesSkipPadded(s, i + 1, before, inner, after, ")", start, depth + 1);
      AtIndex(s, i + 1 + |before| + |Print(inner)| + |after|, ")", 0);
    case Call(_, _, _) => PiecesSkipCall(s, i, e, start, depth);
  }

  lemma {:induction false} PiecesSkipInfix(s: string, i: nat, e: Expr, start: nat, depth: nat)
    requires start <= i && e.Infix? && WellFormed(e) && At(s, i, Print(e))
    ensures PiecesFrom(s, i, start, depth, None) == PiecesFrom(s, i + |Print(e)|, start, depth, None)
    decreases e, 0
  {
    AtSplit(s, i, Print(e.left), e.op + Print(e.right));
    PiecesSkip(s, i, e.left, start, depth);
    var j := i + |Print(e.left)|;
    AtSplit(s, j, e.op, Print(e.right));
    PiecesPlain(s, j, e.op, start, depth);
    PiecesSkip(s, j + |e.op|, e.right, start, depth);
  }

  lemma {:induction false} PiecesSkipCall(s: string, i: nat, e: Expr, start: nat, depth: nat)
    requires start <= i && e.Call? && WellFormed(e) && At(s, i, Print(e))
    ensures PiecesFrom(s, i, start, depth, None) == PiecesFrom(s, i + |Print(e)|, start, depth, None)
    decreases e, 0
  {
    SplitCall(s, i, e.fn, e.gap, PrintArgs(e.args));
    var open := i + |e.fn| + |e.gap|;
    PiecesPlain(s, i, e.fn, start, depth);
    PiecesPlain(s, i + |e.fn|, e.gap, start, depth);
    PiecesSkipArgs(s, open + 1, e.args, start, depth + 1);
    PiecesParens(s, open, open + 1 + |PrintArgs(e.args)|, start, depth);
  }

  lemma PiecesParens(s: string, open: nat, close: nat, start: nat, depth: nat)
    requires start <= open < close < |s| && s[open] == '(' && s[close] == ')'
    requires PiecesFrom(s, open + 1, start, depth + 1, None) == PiecesFrom(s, close, start, depth + 1, None)
    ensures PiecesFrom(s, open, start, depth, None) == PiecesFrom(s, close + 1, start, depth, None)
  {}

  lemma {:induction false} PiecesSkipPadded(
    s: string, i: nat, before: string, e: Expr, after: string, tail: string, start: nat, depth: nat)
    requires start <= i && AllSpace(before) && WellFormed(e) && AllSpace(after)
    requires At(s, i, before + (Print(e) + (after + tail)))
    ensures At(s, i + |before| + |Print(e)| + |after|, tail)
    ensures PiecesFrom(s, i, start, depth, None)
         == PiecesFrom(s, i + |before| + |Print(e)| + |after|, start, depth, None)
    decreases e, 2
  {
    SplitPadded(s, i, before, Print(e), after, tail);
    PiecesPlain(s, i, before, start, depth);
    PiecesSkip(s, i + |before|, e, start, depth);
    PiecesPlain(s, i + |before| + |Print(e)|, after, start, depth);
  }

  /** Commas of a nested argument list do not split, because its parenthesis is open. */
  lemma {:induction false} PiecesSkipArgs(s: string, i: nat, a: Args, start: nat, depth: nat)
    requires start <= i && WellFormedArgs(a) && At(s, i, PrintArgs(a)) && depth >= 1
    ensures PiecesFrom(s, i, start, depth, None) == PiecesFrom(s, i + |PrintArgs(a)|, start, depth, None)
    decreases a, 0
  {
    match a
    case End(pad) => PiecesPlain(s, i, pad, start, depth);
    case Last(before, arg, after) =>
      assert after + "" == after;
      PiecesSkipPadded(s, i, before, arg, after, "", start, depth);
    case More(before, arg, after, rest) =>
      PiecesSkipPadded(s, i, before, arg, after, "," + PrintArgs(rest), start, depth);
      var j := i + |before| + |Print(arg)| + |after|;
      AtSplit(s, j, ",", PrintArgs(rest));
      AtIndex(s, j, ",", 0);
      PiecesSkipArgs(s, j + 1, rest, start, depth);
  }

  // ---- Splitting undoes printing ----

  /** Splitting the printed argument list returns exactly the printed arguments, trimmed. */
  lemma SplitUndoesPrint(a: Args)
    requires WellFormedArgs(a)
    ensures PiecesFrom(PrintArgs(a), 0, 0, 0, None) == Printed(ArgList(a))
  {
    SplitTail(PrintArgs(a), 0, a);
  }

  lemma {:induction false} SplitTail(s: string, i: nat, a: Args)
    requires WellFormedArgs(a) && At(s, i, PrintArgs(a)) && i + |PrintArgs(a)| == |s|
    ensures PiecesFrom(s, i, i, 0, None) == Printed(ArgList(a))
    decreases a
  {
    match a
    case End(pad) => SplitEnd(s, i, pad);
    case Last(before, arg, after) => SplitLast(s, i, before, arg, after);
    case More(before, arg, after, rest) =>
      FirstPiece(s, i, before, arg, after, PrintArgs(rest));
      SplitTail(s, i + |before| + |Print(arg)| + |after| + 1, rest);
      PrintedMore(arg, ArgList(rest));
  }

  lemma SplitEnd(s: string, i: nat, pad: string)
    requires AllSpace(pad) && At(s, i, pad) && i + |pad| == |s|
    ensures PiecesFrom(s, i, i, 0, None) == []
  {
    AtIsSlice(s, i, pad);
    assert s[i..] == pad;
    PiecesPlain(s, i, pad, i, 0);
    StripBlank(pad);
  }

  lemma SplitLast(s: string, i: nat, before: string, arg: Expr, after: string)
    requires AllSpace(before) && WellFormed(arg) && AllSpace(after)
    requires At(s, i, before + (Print(arg) + after)) && i + |before| + |Print(arg)| + |after| == |s|
    ensures PiecesFrom(s, i, i, 0, None) == [Print(arg)]
  {
    AtIsSlice(s, i, before + (Print(arg) + after));
    assert s[i..] == before + (Print(arg) + after);
    assert after + "" == after;
    PiecesSkipPadded(s, i, before, arg, after, "", i, 0);
    PieceIsArg(before, arg, after);
  }

  lemma PrintedMore(arg: Expr, rest: seq<Expr>)
    ensures Printed([arg] + rest) == [Print(arg)] + Printed(rest)
  {}

  lemma PieceIsArg(before: string, arg: Expr, after: string)
    requires AllSpace(before) && WellFormed(arg) && AllSpace(after)
    ensures Piece(before + (Print(arg) + after)) == [Print(arg)]
  {
    PrintTrimmed(arg);
    StripPads(before, Print(arg), after);
  }

  /** The text up to the first comma outside parentheses is one printed argument. */
  lemma FirstPiece(s: string, i: nat, before: string, arg: Expr, after: string, rest: string)
    requires AllSpace(before) && WellFormed(arg) && AllSpace(after)
    requires At(s, i, before + (Print(arg) + (after + ("," + rest))))
    ensures var j := i + |before| + |Print(arg)| + |after|;
      At(s, j + 1, rest) && PiecesFrom(s, i, i, 0, None) == [Print(arg)] + PiecesFrom(s, j + 1, j + 1, 0, None)
  {
    var j := i + |before| + |Print(arg)| + |after|;
    PiecesSkipPadded(s, i, before, arg, after, "," + rest, i, 0);
    AtSplit(s, j, ",", rest);
    AtIndex(s, j, ",", 0);
    PaddedSlice(s, i, before, Print(arg), after, "," + rest);
    CommaCuts(s, i, j);
    PieceIsArg(before, arg, after);
  }

  lemma PaddedSlice(s: string, i: nat, before: string, core: string, after: string, tail: string)
    requires At(s, i, before + (core + (after + tail)))
    ensures s[i..i + |before| + |core| + |after|] == before + (core + after)
  {
    SplitPadded(s, i, before, core, after, tail);
  }

  lemma CommaCuts(s: string, start: nat, j: nat)
    requires start <= j < |s| && s[j] == ','
    ensures PiecesFrom(s, j, start, 0, None) == Piece(s[start..j]) + PiecesFrom(s, j + 1, j + 1, 0, None)
  {}

  // ---- Finding the calls ----

  /** Nothing that starts at `j` continues an identifier into a call. */
  predicate Free(s: string, j: nat)
    requires j <= |s|
  {
    j < |s| ==> !IsWord(s[j]) && (SpaceEnd(s, j) < |s| ==> s[SpaceEnd(s, j)] != '(')
  }

  predicate Boundary(s: string, i: nat)
    requires i <= |s|
  {
    i == 0 || !IsWord(s[i - 1])
  }

  /** Text without a name start at a word boundary holds no call. */
  lemma {:induction false} ScanNoName(s: string, i: nat, part: string)
    requires At(s, i, part) && forall k | 0 <= k < |part| :: !IsNameStart(part[k])
    ensures CallsFrom(s, i) == CallsFrom(s, i + |part|)
    decreases |part|
  {
    if part != "" {
      AtIndex(s, i, part, 0);
      AtTail(s, i, part);
      ScanNoName(s, i + 1, part[1..]);
    }
  }

  lemma {:induction false} NameEndOf(s: string, i: nat, id: string)
    requires At(s, i, id) && AllWord(id)
    requires i + |id| < |s| ==> !IsWord(s[i + |id|])
    ensures NameEnd(s, i) == i + |id|
    decreases |id|
  {
    if id != "" {
      AtIndex(s, i, id, 0);
      AtTail(s, i, id);
      NameEndOf(s, i + 1, id[1..]);
    }
  }

  lemma {:induction false} SpaceEndOf(s: string, i: nat, pad: string)
    requires At(s, i, pad) && AllSpace(pad)
    requires i + |pad| < |s| ==> !IsSpace(s[i + |pad|])
    ensures SpaceEnd(s, i) == i + |pad|
    decreases |pad|
  {
    if pad != "" {
      AtIndex(s, i, pad, 0);
      AtTail(s, i, pad);
      SpaceEndOf(s, i + 1, pad[1..]);
    }
  }

  lemma {:induction false} ScanWord(s: string, i: nat, id: string)
    requires At(s, i, id) && AllWord(id) && Free(s, i + |id|)
    ensures CallsFrom(s, i) == CallsFrom(s, i + |id|)
    decreases |id|
  {
    if id != "" {
      AtIndex(s, i, id, 0);
      NameEndOf(s, i, id);
      AtTail(s, i, id);
      ScanWord(s, i + 1, id[1..]);
    }
  }

  /** Inside a string the regular expression sees what it would see in the body alone. */
  lemma {:induction false} CallAtInBody(s: string, i: nat, body: string, q: char, p: nat)
    requires IsQuote(q) && At(s, i, body + [q]) && p < |body| && Boundary(s, i)
    ensures CallAt(s, i + p) <==> CallAt(body, p)
  {
    AtSplit(s, i, body, [q]);
    AtIndex(s, i + |body|, [q], 0);
    NameEndInBody(s, i, body, p);
    SpaceEndInBody(s, i, body, NameEnd(body, p));
    AtIndex(s, i, body, p);
    if p > 0 { AtIndex(s, i, body, p - 1); }
    if OpenIndex(body, p) < |body| { AtIndex(s, i, body, OpenIndex(body, p)); }
  }

  lemma {:induction false} NameEndInBody(s: string, i: nat, body: string, p: nat)
    requires At(s, i, body) && i + |body| < |s| && IsQuote(s[i + |body|]) && p <= |body|
    ensures NameEnd(s, i + p) == i + NameEnd(body, p)
    decreases |body| - p
  {
    if p < |body| {
      AtIndex(s, i, body, p);
      NameEndInBody(s, i, body, p + 1);
    }
  }

  lemma {:induction false} SpaceEndInBody(s: string, i: nat, body: string, p: nat)
    requires At(s, i, body) && i + |body| < |s| && IsQuote(s[i + |body|]) && p <= |body|
    ensures SpaceEnd(s, i + p) == i + SpaceEnd(body, p)
    decreases |body| - p
  {
    if p < |body| {
      AtIndex(s, i, body, p);
      SpaceEndInBody(s, i, body, p + 1);
    }
  }

  /** Each match inside a string is reported: its parenthesis is not the end of the text. */
  lemma {:induction false} ScanQuoted(s: string, i: nat, body: string, q: char, p: nat) returns (found: seq<CallText>)
    requires IsQuote(q) && At(s, i, body + [q]) && p <= |body| && Boundary(s, i)
    ensures Yields(s, i + p, i + |body| + 1, found) && |found| == Matches(body, p)
    decreases |body| - p
  {
    if p == |body| {
      found := [];
      QuoteYieldsNothing(s, i, body, q);
    } else {
      var first, next := QuotedStep(s, i, body, q, p);
      found := ScanQuoted(s, i, body, q, next);
      YieldsJoin(s, i + p, i + next, i + |body| + 1, first, found);
      found := first + found;
    }
  }

  lemma QuotedStep(s: string, i: nat, body: string, q: char, p: nat) returns (first: seq<CallText>, next: nat)
    requires IsQuote(q) && At(s, i, body + [q]) && p < |body| && Boundary(s, i)
    ensures p < next <= |body| && Yields(s, i + p, i + next, first) && Matches(body, p) == |first| + Matches(body, next)
  {
    CallAtInBody(s, i, body, q, p);
    if CallAt(body, p) {
      first := QuotedCallFound(s, i, body, q, p);
      next := OpenIndex(body, p) + 1;
    } else {
      first, next := [], p + 1;
      assert i + |body| < |s|;
      NoCallStepsOver(s, i + p);
    }
  }

  lemma QuoteYieldsNothing(s: string, i: nat, body: string, q: char)
    requires IsQuote(q) && At(s, i, body + [q])
    ensures Yields(s, i + |body|, i + |body| + 1, [])
  {
    AtIndex(s, i, body + [q], |body|);
  }

  lemma NoCallStepsOver(s: string, i: nat)
    requires i < |s| && !CallAt(s, i)
    ensures CallsFrom(s, i) == CallsFrom(s, i + 1)
  {}

  lemma QuotedCallFound(s: string, i: nat, body: string, q: char, p: nat) returns (first: seq<CallText>)
    requires IsQuote(q) && At(s, i, body + [q]) && p < |body| && CallAt(body, p) && CallAt(s, i + p)
    ensures |first| == 1 && Yields(s, i + p, i + OpenIndex(body, p) + 1, first)
  {
    OpenIndexInBody(s, i, body, q, p);
    first := CallFound(s, i + p);
  }

  lemma OpenIndexInBody(s: string, i: nat, body: string, q: char, p: nat)
    requires IsQuote(q) && At(s, i, body + [q]) && p < |body|
    ensures OpenIndex(s, i + p) == i + OpenIndex(body, p)
  {
    AtSplit(s, i, body, [q]);
    AtIndex(s, i + |body|, [q], 0);
    NameEndInBody(s, i, body, p);
    SpaceEndInBody(s, i, body, NameEnd(body, p));
  }

  lemma SpaceEndStops(s: string, i: nat, stop: nat)
    requires i <= stop < |s| && !IsSpace(s[stop])
    ensures SpaceEnd(s, i) <= stop
  {}

  /** After operator text, and before it, no identifier can run on into a call. */
  lemma {:induction false} OperatorIsFree(s: string, i: nat, op: string)
    requires At(s, i, op) && IsOperator(op)
    ensures Free(s, i) && Boundary(s, i + |op|)
  {
    AtIndex(s, i, op, 0);
    AtIndex(s, i, op, |op| - 1);
    var k :| 0 <= k < |op| && !IsSpace(op[k]);
    AtIndex(s, i, op, k);
    SpaceEndStops(s, i, i + k);
    AtIndex(s, i, op, SpaceEnd(s, i) - i);
  }

  /** Blanks followed by a closing parenthesis, a comma or the end of the text. */
  lemma PadIsFree(s: string, i: nat, pad: string)
    requires At(s, i, pad) && AllSpace(pad)
    requires i + |pad| < |s| ==> s[i + |pad|] == ')' || s[i + |pad|] == ','
    ensures Free(s, i)
  {
    SpaceEndOf(s, i, pad);
    if pad != "" { AtIndex(s, i, pad, 0); }
  }

  lemma PadIsBoundary(s: string, i: nat, pad: string)
    requires At(s, i, pad) && AllSpace(pad) && Boundary(s, i)
    ensures Boundary(s, i + |pad|)
  {
    if pad != "" { AtIndex(s, i, pad, |pad| - 1); }
  }

  /** Between `i` and `j` the scanner finds exactly `found`. */
  ghost predicate Yields(s: string, i: nat, j: nat, found: seq<CallText>) {
    i <= j <= |s| && CallsFrom(s, i) == found + CallsFrom(s, j)
  }

  lemma YieldsJoin(s: string, i: nat, j: nat, k: nat, a: seq<CallText>, b: seq<CallText>)
    requires Yields(s, i, j, a) && Yields(s, j, k, b)
    ensures Yields(s, i, k, a + b)
  {
    assert a + (b + CallsFrom(s, k)) == (a + b) + CallsFrom(s, k);
  }

  /** `a` can be found in `b`, in order. */
  ghost predicate Embeds(a: seq<CallText>, b: seq<CallText>)
    decreases |b|
  {
    a == [] || (b != [] && ((a[0] == b[0] && Embeds(a[1..], b[1..])) || Embeds(a, b[1..])))
  }

  lemma {:induction false} EmbedsSelf(a: seq<CallText>)
    ensures Embeds(a, a)
  {
    if a != [] { EmbedsSelf(a[1..]); }
  }

  lemma {:induction false} EmbedsJoin(a: seq<CallText>, b: seq<CallText>, c: seq<CallText>, d: seq<CallText>)
    requires Embeds(a, b) && Embeds(c, d)
    ensures Embeds(a + c, b + d)
    decreases |b|
  {
    if b == [] {
      assert a + c == c && b + d == d;
    } else {
      assert (b + d)[1..] == b[1..] + d;
      if a == [] {
        EmbedsJoin([], b[1..], c, d);
        assert a + c == [] + c;
      } else if a[0] == b[0] && Embeds(a[1..], b[1..]) {
        EmbedsJoin(a[1..], b[1..], c, d);
        assert (a + c)[1..] == a[1..] + c;
      } else {
        EmbedsJoin(a, b[1..], c, d);
      }
    }
  }

  lemma {:induction false} EmbedsMeans(a: seq<CallText>, b: seq<CallText>)
    requires Embeds(a, b)
    ensures |a| <= |b| && (|a| == |b| ==> a == b)
    ensures forall x <- a :: x in b
    decreases |b|
  {
    if a != [] {
      assert forall x <- a :: x == a[0] || x in a[1..];
      if a[0] == b[0] && Embeds(a[1..], b[1..]) { EmbedsMeans(a[1..], b[1..]); } else { EmbedsMeans(a, b[1..]); }
    }
  }

  /** What is found in the text of a tree: its calls, in order, and every match in its strings. */
  ghost predicate Covers(found: seq<CallText>, calls: seq<CallText>, extra: nat) {
    Embeds(calls, found) && |found| == |calls| + extra
  }

  lemma CoversJoin(a: seq<CallText>, calls: seq<CallText>, m: nat, b: seq<CallText>, calls': seq<CallText>, n: nat)
    requires Covers(a, calls, m) && Covers(b, calls', n)
    ensures Covers(a + b, calls + calls', m + n)
  {
    EmbedsJoin(calls, a, calls', b);
  }

  lemma {:induction false} ScanPrint(s: string, i: nat, e: Expr) returns (found: seq<CallText>)
    requires WellFormed(e) && At(s, i, Print(e)) && Boundary(s, i) && Free(s, i + |Print(e)|)
    ensures Yields(s, i, i + |Print(e)|, found) && Covers(found, CallTexts(e), StringMatches(e))
    decreases e, 1
  {
    found := [];
    match e
    case Name(id) => ScanWord(s, i, id);
    case Number(digits) => ScanNoName(s, i, digits);
    case Quoted(_, _) => found := ScanQuotedExpr(s, i, e);
    case Prefix(op, operand) => found := ScanOperand(s, i, op, operand);
    case Infix(left, op, right) => found := ScanInfix(s, i, left, op, right);
    case Group(_, _, _) => found := ScanGroup(s, i, e);
    case Call(_, _, _) => found := ScanCall(s, i, e);
  }

  lemma {:induction false} ScanGroup(s: string, i: nat, e: Expr) returns (found: seq<CallText>)
    requires e.Group? && WellFormed(e) && At(s, i, Print(e))
    ensures Yields(s, i, i + |Print(e)|, found) && Covers(found, CallTexts(e), StringMatches(e))
    decreases e, 0
  {
    SplitGroup(s, i, e.before + (Print(e.inner) + (e.after + ")")));
    found := ScanPadded(s, i + 1, e.before, e.inner, e.after, ")");
    AtIndex(s, i + 1 + |e.before| + |Print(e.inner)| + |e.after|, ")", 0);
  }

  lemma {:induction false} ScanInfix(s: string, i: nat, left: Expr, op: string, right: Expr) returns (found: seq<CallText>)
    requires WellFormed(left) && IsOperator(op) && WellFormed(right) && At(s, i, Print(left) + (op + Print(right)))
    requires Boundary(s, i) && Free(s, i + |Print(left)| + |op| + |Print(right)|)
    ensures Yields(s, i, i + |Print(left)| + |op| + |Print(right)|, found)
    ensures Covers(found, CallTexts(left) + CallTexts(right), StringMatches(left) + StringMatches(right))
    decreases Infix(left, op, right), 0
  {
    var j := i + |Print(left)|;
    AtSplit(s, i, Print(left), op + Print(right));
    var second := ScanOperand(s, j, op, right);
    var first := ScanPrint(s, i, left);
    YieldsJoin(s, i, j, j + |op| + |Print(right)|, first, second);
    CoversJoin(first, CallTexts(left), StringMatches(left), second, CallTexts(right), StringMatches(right));
    found := first + second;
  }

  /** An operator and its right operand. */
  lemma {:induction false} ScanOperand(s: string, i: nat, op: string, e: Expr) returns (found: seq<CallText>)
    requires WellFormed(e) && IsOperator(op) && At(s, i, op + Print(e)) && Free(s, i + |op| + |Print(e)|)
    ensures Free(s, i) && Yields(s, i, i + |op| + |Print(e)|, found) && Covers(found, CallTexts(e), StringMatches(e))
    decreases e, 2
  {
    ScanOperator(s, i, op, Print(e));
    found := ScanPrint(s, i + |op|, e);
    YieldsJoin(s, i, i + |op|, i + |op| + |Print(e)|, [], found);
    assert [] + found == found;
  }

  /** An operator ends the word before it, yields nothing, and lets a new word start after it. */
  lemma ScanOperator(s: string, i: nat, op: string, rest: string)
    requires At(s, i, op + rest) && IsOperator(op)
    ensures Free(s, i) && Yields(s, i, i + |op|, []) && Boundary(s, i + |op|) && At(s, i + |op|, rest)
  {
    AtSplit(s, i, op, rest);
    OperatorIsFree(s, i, op);
    ScanNoName(s, i, op);
  }

  lemma ScanQuotedExpr(s: string, i: nat, e: Expr) returns (found: seq<CallText>)
    requires e.Quoted? && WellFormed(e) && At(s, i, Print(e))
    ensures Yields(s, i, i + |Print(e)|, found) && Covers(found, [], StringMatches(e))
  {
    assert Print(e) == [e.quote] + (e.body + [e.quote]);
    AtSplit(s, i, [e.quote], e.body + [e.quote]);
    ScanNoName(s, i, [e.quote]);
    AtIndex(s, i, [e.quote], 0);
    found := ScanQuoted(s, i + 1, e.body, e.quote, 0);
  }

  lemma {:induction false} ScanPadded(s: string, i: nat, before: string, e: Expr, after: string, tail: string)
    returns (found: seq<CallText>)
    requires AllSpace(before) && WellFormed(e) && AllSpace(after)
    requires At(s, i, before + (Print(e) + (after + tail))) && Boundary(s, i)
    requires tail != "" && (tail[0] == ')' || tail[0] == ',')
    ensures At(s, i + |before| + |Print(e)| + |after|, tail)
    ensures Yields(s, i, i + |before| + |Print(e)| + |after|, found) && Covers(found, CallTexts(e), StringMatches(e))
    decreases e, 2
  {
    PaddingIsQuiet(s, i, before, Print(e), after, tail);
    found := ScanPrint(s, i + |before|, e);
  }

  /** The blanks around an argument yield nothing and keep words apart. */
  lemma PaddingIsQuiet(s: string, i: nat, before: string, core: string, after: string, tail: string)
    requires AllSpace(before) && AllSpace(after) && At(s, i, before + (core + (after + tail))) && Boundary(s, i)
    requires tail != "" && (tail[0] == ')' || tail[0] == ',')
    ensures var k := i + |before|; var j := k + |core|;
      && At(s, k, core) && At(s, j + |after|, tail) && Boundary(s, k) && Free(s, j)
      && CallsFrom(s, i) == CallsFrom(s, k) && CallsFrom(s, j) == CallsFrom(s, j + |after|)
  {
    SplitPadded(s, i, before, core, after, tail);
    var j := i + |before| + |core|;
    AtIndex(s, j + |after|, tail, 0);
    PadIsBoundary(s, i, before);
    PadIsFree(s, j, after);
    ScanNoName(s, i, before);
    ScanNoName(s, j, after);
  }

  lemma {:induction false} ScanCall(s: string, i: nat, e: Expr) returns (found: seq<CallText>)
    requires e.Call? && WellFormed(e) && At(s, i, Print(e)) && Boundary(s, i)
    ensures Yields(s, i, i + |Print(e)|, found) && Covers(found, CallTexts(e), StringMatches(e))
    decreases e, 0
  {
    var first := [CallText(e.fn, PrintArgs(e.args))];
    var open := i + |e.fn| + |e.gap|;
    var close := open + 1 + |PrintArgs(e.args)|;
    SplitCall(s, i, e.fn, e.gap, PrintArgs(e.args));
    CallFoundOf(s, i, e.fn, e.gap, e.args);
    var inner := ScanArgs(s, open + 1, e.args);
    NoCallStepsOver(s, close);
    CallThenArgs(s, i, open + 1, close, first, inner);
    EmbedsSelf(first);
    CoversJoin(first, first, 0, inner, CallTextsOfArgs(e.args), StringMatchesOfArgs(e.args));
    found := first + inner;
  }

  lemma CallThenArgs(s: string, i: nat, j: nat, close: nat, first: seq<CallText>, inner: seq<CallText>)
    requires Yields(s, i, j, first) && Yields(s, j, close, inner) && close < |s| && CallsFrom(s, close) == CallsFrom(s, close + 1)
    ensures Yields(s, i, close + 1, first + inner)
  {
    YieldsJoin(s, i, j, close, first, inner);
  }

  /** The regular expression matches at a printed call, and the text read is its arguments. */
  lemma {:induction false} CallFoundOf(s: string, i: nat, fn: string, gap: string, args: Args)
    requires IsIdentifier(fn) && AllSpace(gap) && WellFormedArgs(args)
    requires At(s, i, fn + (gap + ("(" + (PrintArgs(args) + ")")))) && Boundary(s, i)
    ensures Yields(s, i, i + |fn| + |gap| + 1, [CallText(fn, PrintArgs(args))])
  {
    var text := PrintArgs(args);
    SplitCall(s, i, fn, gap, text);
    var open := i + |fn| + |gap|;
    CallAtOf(s, i, fn, gap);
    ArgsClose(s, open, args);
    AtIsSlice(s, i, fn);
    AtIsSlice(s, open + 1, text);
    CallYields(s, i, fn, open, text);
  }

  lemma CallYields(s: string, i: nat, fn: string, open: nat, text: string)
    requires CallAt(s, i) && NameEnd(s, i) == i + |fn| && OpenIndex(s, i) == open && s[i..i + |fn|] == fn
    requires CloseIndex(s, open, 0, None) == open + 1 + |text| < |s| && s[open + 1..open + 1 + |text|] == text
    ensures Yields(s, i, open + 1, [CallText(fn, text)])
  {}

  lemma ArgsClose(s: string, open: nat, args: Args)
    requires WellFormedArgs(args) && open < |s| && s[open] == '(' && At(s, open + 1, PrintArgs(args))
    requires open + 1 + |PrintArgs(args)| < |s| && s[open + 1 + |PrintArgs(args)|] == ')'
    ensures CloseIndex(s, open, 0, None) == open + 1 + |PrintArgs(args)|
  {
    CloseSkipsArgs(s, open + 1, args, 1);
  }

  lemma {:induction false} CallAtOf(s: string, i: nat, fn: string, gap: string)
    requires IsIdentifier(fn) && AllSpace(gap) && At(s, i, fn) && At(s, i + |fn|, gap) && Boundary(s, i)
    requires i + |fn| + |gap| < |s| && s[i + |fn| + |gap|] == '('
    ensures CallAt(s, i) && NameEnd(s, i) == i + |fn| && OpenIndex(s, i) == i + |fn| + |gap|
  {
    if gap != "" { AtIndex(s, i + |fn|, gap, 0); }
    NameEndOf(s, i, fn);
    SpaceEndOf(s, i + |fn|, gap);
    AtIndex(s, i, fn, 0);
  }

  lemma AtIsSlice(s: string, i: nat, part: string)
    requires At(s, i, part)
    ensures s[i..i + |part|] == part
  {}

  lemma {:induction false} ScanArgs(s: string, i: nat, a: Args) returns (found: seq<CallText>)
    requires WellFormedArgs(a) && At(s, i, PrintArgs(a)) && Boundary(s, i)
    requires i + |PrintArgs(a)| < |s| && s[i + |PrintArgs(a)|] == ')'
    ensures Yields(s, i, i + |PrintArgs(a)|, found) && Covers(found, CallTextsOfArgs(a), StringMatchesOfArgs(a))
    decreases a, 0
  {
    match a
    case End(pad) =>
      ScanNoName(s, i, pad);
      found := [];
    case Last(before, arg, after) =>
      assert PrintArgs(a) + ")" == before + (Print(arg) + (after + ")"));
      found := ScanPadded(s, i, before, arg, after, ")");
    case More(before, arg, after, rest) =>
      var first := ScanPadded(s, i, before, arg, after, "," + PrintArgs(rest));
      var j := i + |before| + |Print(arg)| + |after|;
      ScanComma(s, j, PrintArgs(rest));
      var others := ScanArgs(s, j + 1, rest);
      YieldsOver(s, i, j, j + 1, j + 1 + |PrintArgs(rest)|, first, others);
      CoversJoin(first, CallTexts(arg), StringMatches(arg), others, CallTextsOfArgs(rest), StringMatchesOfArgs(rest));
      found := first + others;
  }

  /** Two finds with nothing in between. */
  lemma YieldsOver(s: string, i: nat, j: nat, k: nat, l: nat, a: seq<CallText>, b: seq<CallText>)
    requires Yields(s, i, j, a) && Yields(s, j, k, []) && Yields(s, k, l, b)
    ensures Yields(s, i, l, a + b)
  {
    YieldsJoin(s, j, k, l, [], b);
    assert [] + b == b;
    YieldsJoin(s, i, j, l, a, b);
  }

  lemma ScanComma(s: string, j: nat, rest: string)
    requires At(s, j, "," + rest)
    ensures Yields(s, j, j + 1, []) && At(s, j + 1, rest) && Boundary(s, j + 1)
  {
    AtSplit(s, j, ",", rest);
    AtIndex(s, j, ",", 0);
  }

  /** On the text of any tree the call finder lists the call nodes, in order, and every match in a string besides. */
  lemma ScannerCounts(e: Expr)
    requires WellFormed(e)
    ensures |CallsFrom(Print(e), 0)| == |CallNodes(e)| + StringMatches(e)
    ensures Embeds(CallTexts(e), CallsFrom(Print(e), 0))
  {
    var found := ScanPrint(Print(e), 0, e);
    assert CallsFrom(Print(e), 0) == found + [] == found;
    CallTextsReport(e);
  }

  /**
   * The scanner undoes the printer exactly on the trees whose strings hold no `name(`: then, and
   * only then, the call finder lists exactly the call nodes in source order, although the
   * parenthesis reader does skip strings.
   */
  lemma ScannerUndoesPrinterIff(e: Expr)
    requires WellFormed(e)
    ensures Reports(CallsFrom(Print(e), 0), CallNodes(e)) <==> PlainStrings(e)
    ensures |CallsFrom(Print(e), 0)| == |CallNodes(e)| <==> PlainStrings(e)
  {
    ScannerCounts(e);
    PlainStringsIff(e);
    CallTextsReport(e);
    EmbedsMeans(CallTexts(e), CallsFrom(Print(e), 0));
  }

  /** And in every tree, splitting a call node's argument text returns exactly its printed arguments. */
  lemma ScannerUndoesPrinter(e: Expr)
    requires WellFormed(e)
    ensures PlainStrings(e) ==> Reports(CallsFrom(Print(e), 0), CallNodes(e))
    ensures forall n <- CallNodes(e) ::
              n.Call? && PiecesFrom(PrintArgs(n.args), 0, 0, 0, None) == Printed(ArgList(n.args))
  {
    ScannerUndoesPrinterIff(e);
    CallTextsReport(e);
    forall n | n in CallNodes(e)
      ensures n.Call? && PiecesFrom(PrintArgs(n.args), 0, 0, 0, None) == Printed(ArgList(n.args))
    {
      SplitUndoesPrint(n.args);
    }
  }

  // ---- The operator table, decided on the tree ----

  /** What the validator should say about one call node. */
  function NodeProblem(n: Expr, v2: bool): (r: Option<CallProblem>)
    requires n.Call?
  {
    CallCheck(n.fn, Printed(ArgList(n.args)), v2)
  }

  function FirstNodeProblem(nodes: seq<Expr>, v2: bool): (r: Option<CallProblem>)
    requires forall n <- nodes :: n.Call?
    ensures r == None <==> forall n <- nodes :: NodeProblem(n, v2) == None
  {
    if nodes == [] then None
    else if NodeProblem(nodes[0], v2).Some? then NodeProblem(nodes[0], v2)
    else FirstNodeProblem(nodes[1..], v2)
  }

  lemma {:induction false} FirstProblemOnNodes(texts: seq<CallText>, nodes: seq<Expr>, v2: bool)
    requires Reports(texts, nodes)
    ensures forall n <- nodes :: n.Call?
    ensures FirstProblem(texts, v2) == FirstNodeProblem(nodes, v2)
  {
    if nodes != [] {
      SplitUndoesPrint(nodes[0].args);
      FirstProblemOnNodes(texts[1..], nodes[1..], v2);
    }
  }

  /**
   * The validator's call loop accepts the text of a tree exactly when every call node names an
   * approved operator and carries a number of argument subtrees its table entry allows.
   */
  lemma ValidatorDecidesTree(e: Expr, v2: bool)
    requires WellFormed(e) && PlainStrings(e)
    ensures forall n <- CallNodes(e) :: n.Call?
    ensures FirstProblem(CallsFrom(Print(e), 0), v2) == FirstNodeProblem(CallNodes(e), v2)
    ensures FirstProblem(CallsFrom(Print(e), 0), v2) == None <==> forall n <- CallNodes(e) :: NodeAccepted(n, v2)
  {
    ScannerUndoesPrinter(e);
    FirstProblemOnNodes(CallsFrom(Print(e), 0), CallNodes(e), v2);
    forall n | n in CallNodes(e) ensures NodeProblem(n, v2) == None <==> NodeAccepted(n, v2) {
      NoProblemMeansAccepted(n, v2);
    }
  }

  /** Strings can only make the call loop stricter: on every tree, what it accepts has acceptable nodes. */
  lemma AcceptedTreeIsAcceptable(e: Expr, v2: bool)
    requires WellFormed(e) && FirstProblem(CallsFrom(Print(e), 0), v2) == None
    ensures forall n <- CallNodes(e) :: n.Call? && NodeAccepted(n, v2)
  {
    CallTextsReport(e);
    ScannerCounts(e);
    EmbedsMeans(CallTexts(e), CallsFrom(Print(e), 0));
    NoProblemAnywhere(CallsFrom(Print(e), 0), v2);
    forall n | n in CallNodes(e) ensures n.Call? && NodeAccepted(n, v2) {
      var k :| 0 <= k < |CallNodes(e)| && CallNodes(e)[k] == n;
      assert CallTexts(e)[k] in CallsFrom(Print(e), 0);
      SplitUndoesPrint(n.args);
      NoProblemMeansAccepted(n, v2);
    }
  }

  lemma {:induction false} NoProblemAnywhere(calls: seq<CallText>, v2: bool)
    requires FirstProblem(calls, v2) == None
    ensures forall c <- calls :: CallCheck(c.name, PiecesFrom(c.args, 0, 0, 0, None), v2) == None
  {
    if calls != [] { NoProblemAnywhere(calls[1..], v2); }
  }

  lemma NoProblemMeansAccepted(n: Expr, v2: bool)
    requires n.Call?
    ensures NodeProblem(n, v2) == None <==> NodeAccepted(n, v2)
  {
    assert OPERATOR_ARITY["group_mean"].0 == 3;
  }

  /** Acceptance of one node, read off the tree: the number of argument subtrees is in range. */
  predicate NodeAccepted(n: Expr, v2: bool)
    requires n.Call?
  {
    var name := Lower(n.fn);
    && name in OPERATOR_ARITY && name !in KNOWN_UNAVAILABLE
    && (name == "trade_when" ==> v2)
    && OPERATOR_ARITY[name].0 <= |ArgList(n.args)| <= OPERATOR_ARITY[name].1
    && (name == "group_mean" ==> SafeGroupMeanWeight(Print(ArgList(n.args)[1])))
  }
}
