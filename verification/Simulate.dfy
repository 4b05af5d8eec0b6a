/**
 * One browser session of a backtest: the page, the state handlers that act on it, the recovery
 * handler, and the machine that drives them.
 *
 * Everything the browser may answer comes from an arbitrary function `env`, one answer per
 * awaited call, so every claim holds for every behaviour of the page, every exception, every
 * watchdog timeout and every cancellation. The one assumption is that the editor and the name
 * field change only when the program writes them or when the page is loaded again.
 */
module Simulate {
  import opened Common
  import opened Workflow
  import FastExpression

  datatype Outcome =
    | Returned
    | TimedOut(error: string)
    | NonRecoverable(error: string)
    | Raised(error: string)
    | Cancelled
  {
    predicate IsFailure() { !Returned? }

    function PropagateFailure(): Outcome
      requires IsFailure()
    {
      this
    }
  }

  /** How one awaited browser call ends, with whatever texts, flag or count it reads. */
  datatype Answer = Answer(outcome: Outcome, text: string, name: string, flag: bool, count: nat)

  datatype Click = Click(editor: string, name: string, nameField: bool)

  // ---- When two texts are the same code ----

  /** Blanks aside, the same characters in the same order. */
  ghost predicate SameInk(a: string, b: string)
    decreases |a| + |b|
  {
    if a != "" && IsBlank(a[0]) then SameInk(a[1..], b)
    else if b != "" && IsBlank(b[0]) then SameInk(a, b[1..])
    else if a == "" || b == "" then a == b
    else a[0] == b[0] && SameInk(a[1..], b[1..])
  }

  /** What the editor holds is the code, which is not all blank. */
  ghost predicate HoldsCode(editor: string, code: string) { SameInk(editor, code) && !AllBlank(code) }

  /** The check of the program on the text read back. */
  predicate EditorMatches(actual: string, expected: string) {
    var wanted := FastExpression.WithoutSpace(expected);
    wanted != "" && FastExpression.WithoutSpace(actual) == wanted
  }

  lemma {:induction false} SameInkIff(a: string, b: string)
    ensures SameInk(a, b) <==> FastExpression.WithoutSpace(a) == FastExpression.WithoutSpace(b)
    decreases |a| + |b|
  {
    if a != "" && IsBlank(a[0]) {
      SameInkIff(a[1..], b);
    } else if b != "" && IsBlank(b[0]) {
      SameInkIff(a, b[1..]);
    } else if a != "" && b != "" {
      SameInkIff(a[1..], b[1..]);
      SameStart(a[0], b[0], FastExpression.WithoutSpace(a[1..]), FastExpression.WithoutSpace(b[1..]));
    }
  }

  lemma SameStart(c: char, d: char, s: string, t: string)
    ensures [c] + s == [d] + t <==> c == d && s == t
  {
    assert ([c] + s)[0] == c && ([d] + t)[0] == d;
    assert ([c] + s)[1..] == s && ([d] + t)[1..] == t;
  }

  lemma {:induction false} AllBlankIff(s: string)
    ensures AllBlank(s) <==> FastExpression.WithoutSpace(s) == ""
  {
    if s != "" {
      AllBlankIff(s[1..]);
      if AllBlank(s[1..]) && IsBlank(s[0]) {
        forall k | 0 <= k < |s| ensures IsBlank(s[k]) { if k > 0 { assert s[k] == s[1..][k - 1]; } }
      }
    }
  }

  /** The program's check accepts a text exactly when it holds the code. */
  lemma EditorMatchesIff(actual: string, expected: string)
    ensures EditorMatches(actual, expected) <==> HoldsCode(actual, expected)
  {
    SameInkIff(actual, expected);
    AllBlankIff(expected);
  }

  lemma {:induction false} WithoutSpaceConcat(a: string, b: string)
    ensures FastExpression.WithoutSpace(a + b) == FastExpression.WithoutSpace(a) + FastExpression.WithoutSpace(b)
  {
    if a == "" {
      assert a + b == b;
    } else {
      assert (a + b)[1..] == a[1..] + b;
      WithoutSpaceConcat(a[1..], b);
    }
  }

  /** Anything but blanks that is left over in an editor, wherever it stands, makes the check fail. */
  lemma ExtraTextIsRejected(a: string, x: string, b: string, code: string)
    requires EditorMatches(a + b, code)
    ensures EditorMatches(a + x + b, code) <==> AllBlank(x)
  {
    WithoutSpaceConcat(a, b);
    WithoutSpaceConcat(a + x, b);
    WithoutSpaceConcat(a, x);
    AllBlankIff(x);
  }

  lemma CodeMatchesItself(code: string)
    ensures EditorMatches(code, code) <==> !AllBlank(code)
  {
    AllBlankIff(code);
  }

  /** Run was clicked on this alpha's code, with its name written where the page has a name field. */
  ghost predicate RightClick(c: Click, code: string, alphaName: string) {
    HoldsCode(c.editor, code) && (c.nameField ==> c.name == alphaName)
  }

  /** Nothing is wrong: no exception, no login asked for, and what is read back is what was written. */
  ghost predicate Fine(a: Answer, code: string, alphaName: string) {
    a.outcome.Returned? && !a.flag && HoldsCode(a.text, code) && a.name == alphaName
  }

  class Session {
    const env: nat -> Answer
    const code: string
    const alphaName: string
    var tick: nat
    var editor: string
    var name: string
    var nameField: bool
    var clicks: seq<Click>

    constructor (env: nat -> Answer, code: string, alphaName: string)
      ensures this.env == env && this.code == code && this.alphaName == alphaName && clicks == [] && tick == 0
    {
      this.env, this.code, this.alphaName := env, code, alphaName;
      tick, editor, name, nameField, clicks := 0, "", "", false, [];
    }

    // ---- What the handlers rely on ----

    /** The editor check ignores white space and never accepts an empty code. */
    ghost predicate CodeWritten()
      reads this
    {
      HoldsCode(editor, code)
    }

    ghost predicate NameWritten()
      reads this
    {
      nameField ==> name == alphaName
    }

    /** What has to be on the page when the handler of `s` starts. */
    ghost predicate ReadyFor(s: State)
      reads this
    {
      && (s == WriteName || s == ClickRun ==> CodeWritten())
      && (s == ClickRun ==> NameWritten())
    }

    ghost predicate GoodClick(c: Click)
    {
      RightClick(c, code, alphaName)
    }

    ghost predicate AllFine(from: nat, to: nat) {
      forall k: nat | from <= k < to :: Fine(env(k), code, alphaName)
    }

    ghost predicate NoneFails(from: nat, to: nat) {
      forall k: nat | from <= k < to :: env(k).outcome.Returned?
    }

    /** Since then no exception has been swallowed, and none is reported if all was fine. */
    ghost predicate Answered(from: nat, o: Outcome)
      reads this
    {
      from <= tick && (o.Returned? ==> NoneFails(from, tick)) && (AllFine(from, tick) ==> o.Returned?)
    }

    // ---- Calls into the browser ----

    method Await() returns (a: Answer)
      modifies `tick
      ensures tick == old(tick) + 1 && a == env(old(tick))
    {
      a := env(tick);
      tick := tick + 1;
    }

    /** Awaiting something that leaves editor and name alone. */
    method Look() returns (o: Outcome)
      modifies `tick
      ensures Answered(old(tick), o) && tick == old(tick) + 1
    {
      var a := Await();
      o := a.outcome;
    }

    /** A reload, a navigation or a new page: whatever was written is gone. */
    method LoadPage() returns (o: Outcome)
      modifies this
      ensures clicks == old(clicks) && Answered(old(tick), o) && tick == old(tick) + 1
    {
      var a := Await();
      editor, name, nameField := a.text, a.name, a.flag;
      o := a.outcome;
    }

    /** Log in again if the page asks for it; that loads the page and, if asked to, gives the state up. */
    method EnsureSimulateAuth(rerunOnReauth: bool) returns (o: Outcome)
      modifies this
      ensures clicks == old(clicks) && Answered(old(tick), o) && tick > old(tick)
      ensures rerunOnReauth && o.Returned? ==>
                tick == old(tick) + 1 && !env(old(tick)).flag
                && editor == old(editor) && name == old(name) && nameField == old(nameField)
    {
      var blocked := Await();
      if blocked.outcome.IsFailure() || !blocked.flag { return blocked.outcome; }
      :- LoadPage();
      :- Look();
      if rerunOnReauth { return Raised("[AUTOMATION] session_expired; reauth_done; rerun_current_alpha"); }
      return Returned;
    }

    method EnsureAuthenticated() returns (o: Outcome)
      modifies this
      ensures clicks == old(clicks) && Answered(old(tick), o) && (o.Returned? ==> tick >= old(tick) + 2)
    {
      o := LoadPage();
      if o.IsFailure() { return; }
      o := EnsureSimulateAuth(false);
    }

    /** Write the editor and read it back; returns only when the text read back matches. */
    method SetEditorText() returns (o: Outcome)
      modifies this
      ensures clicks == old(clicks) && name == old(name) && nameField == old(nameField)
      ensures Answered(old(tick), o) && tick == old(tick) + 1
      ensures o.Returned? ==> CodeWritten()
    {
      var a := Await();
      editor := a.text;
      if a.outcome.IsFailure() { return a.outcome; }
      EditorMatchesIff(editor, code);
      if !EditorMatches(editor, code) { return Raised("editor verification failed"); }
      return Returned;
    }

    /** Write the name and read it back, unless the page has no name field and is known not to. */
    method EnsureAlphaName() returns (o: Outcome)
      modifies this
      ensures clicks == old(clicks) && editor == old(editor) && Answered(old(tick), o) && tick == old(tick) + 1
      ensures o.Returned? ==> NameWritten() && (name != alphaName ==> env(old(tick)).flag)
    {
      var a := Await();
      if !nameField && a.flag { return a.outcome; }
      name := a.name;
      if a.outcome.IsFailure() { return a.outcome; }
      if name != alphaName { return Raised("[AUTOMATION] automation_name_input_failed"); }
      return Returned;
    }

    method ClickRunButton() returns (o: Outcome)
      modifies `tick, `clicks
      ensures clicks == old(clicks) + [Click(editor, name, nameField)] && Answered(old(tick), o) && tick == old(tick) + 1
    {
      clicks := clicks + [Click(editor, name, nameField)];
      o := Look();
    }

    // ---- State handlers ----

    method FsmWriteCode() returns (o: Outcome)
      modifies this
      ensures clicks == old(clicks) && Answered(old(tick), o)
      ensures o.Returned? ==> CodeWritten()
      ensures o.Returned? ==> tick == old(tick) + 3 && !env(old(tick)).flag && !env(old(tick) + 2).flag
    {
      o := Returned;
      :- EnsureSimulateAuth(true);
      :- SetEditorText();
      :- EnsureSimulateAuth(true);
    }

    method FsmWriteName() returns (o: Outcome)
      requires CodeWritten()
      modifies this
      ensures clicks == old(clicks) && Answered(old(tick), o)
      ensures o.Returned? ==> CodeWritten() && NameWritten() && (name != alphaName ==> env(old(tick) + 1).flag)
      ensures o.Returned? ==> tick == old(tick) + 3 && !env(old(tick)).flag && !env(old(tick) + 2).flag
    {
      o := Returned;
      :- EnsureSimulateAuth(true);
      :- EnsureAlphaName();
      :- EnsureSimulateAuth(true);
    }

    /** The login is checked just before the click; afterwards the run is looked for, twice if need be. */
    method FsmClickRun() returns (o: Outcome)
      requires CodeWritten() && NameWritten()
      modifies this
      ensures ClicksAdded(old(clicks), 1) && Answered(old(tick), o)
      ensures clicks != old(clicks) ==> tick >= old(tick) + 4 && NoneFails(old(tick), old(tick) + 3) && !env(old(tick) + 1).flag
      ensures o.Returned? ==> clicks != old(clicks) && tick == old(tick) + if env(old(tick) + 4).flag then 5 else 6
    {
      o := Returned;
      :- Look();
      :- EnsureSimulateAuth(true);
      :- Look();
      :- ClickRunButton();
      var validated := Await();
      if validated.outcome.IsFailure() { return validated.outcome; }
      if !validated.flag { o := Look(); }
    }

    /** The remaining handlers never touch Run; they may log in again and report progress. */
    method FsmOther(s: State) returns (o: Outcome, progress: nat)
      modifies this
      ensures clicks == old(clicks) && Answered(old(tick), o) && (o.Returned? ==> tick >= old(tick) + 2)
    {
      progress := 0;
      if s == AuthCheck {
        o := EnsureAuthenticated();
      } else if s == OpenSimulate || s == EditorReady {
        o := Look();
        if o.Returned? { o := EnsureSimulateAuth(false); }
        if o.Returned? { o := Look(); }
      } else {
        var a := Await();
        o := a.outcome;
        if o.Returned? && a.flag { o := LoadPage(); }
        if o.Returned? { o := Look(); }
        progress := if s == WaitResult || s == ParseResult then a.count else 0;
      }
    }

    /** Run the handler of state number `index`; on return the page is ready for the next one. */
    method Handle(index: nat) returns (o: Outcome, progress: nat)
      requires index < |STATE_ORDER| && ReadyFor(STATE_ORDER[index])
      modifies this
      ensures o.Returned? && index + 1 < |STATE_ORDER| ==> ReadyFor(STATE_ORDER[index + 1])
      ensures Answered(old(tick), o)
      ensures ClicksAdded(old(clicks), if STATE_ORDER[index] == ClickRun then 1 else 0)
      ensures STATE_ORDER[index] == ClickRun && o.Returned? ==> clicks != old(clicks)
    {
      OrderFacts(index);
      progress := 0;
      match STATE_ORDER[index] {
        case WriteCode => o := FsmWriteCode();
        case WriteName => o := FsmWriteName();
        case ClickRun => o := FsmClickRun();
        case s => o, progress := FsmOther(s);
      }
    }

    /** At most `most` clicks since `before`, all of them good. */
    ghost predicate ClicksAdded(before: seq<Click>, most: nat)
      reads this
    {
      && before <= clicks && |clicks| <= |before| + most
      && forall k | |before| <= k < |clicks| :: GoodClick(clicks[k])
    }

    // ---- The recovery handler ----

    method RestorePageForRetry(s: State) returns (o: Outcome)
      modifies this
      ensures clicks == old(clicks) && Answered(old(tick), o)
      ensures o.Returned? ==> ReadyFor(s)
    {
      o := Returned;
      :- EnsureAuthenticated();
      :- Look();
      if s == WriteName || s == ClickRun {
        :- SetEditorText();
        :- Look();
      }
      if s == ClickRun {
        :- EnsureAlphaName();
      }
    }

    /** Only the two page levels try to repair in place; every higher level raises at once. */
    method FsmRecover(s: State, level: Level) returns (o: Outcome)
      modifies this
      ensures clicks == old(clicks) && old(tick) <= tick
      ensures if RecoversInPlace(level) then Answered(old(tick), o) else o.Raised? && tick == old(tick)
      ensures o.Returned? ==> RecoversInPlace(level) && ReadyFor(s)
    {
      o := Returned;
      if level == ReloadPage {
        :- LoadPage();
        o := RestorePageForRetry(s);
      } else if level == RecreatePage {
        :- LoadPage();
        o := RestorePageForRetry(s);
      } else {
        o := Raised("[AUTOMATION] recovery_requires_outer_restart");
      }
    }
  }

  /** Where the three states that depend on the page stand in the order. */
  lemma OrderFacts(index: nat)
    requires index < |STATE_ORDER|
    ensures STATE_ORDER[index] == ClickRun <==> index == 6
    ensures STATE_ORDER[index] == WriteName <==> index == 5
    ensures STATE_ORDER[index] == WriteCode <==> index == 4
  {}
}
