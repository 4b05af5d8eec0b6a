/**
 * Importing logs: appending to a log what a longer snapshot adds, merging JSON lists, and the
 * staged restore. A process may die between any two steps and in the middle of any copy.
 */
module Import {
  import opened Common

  const CHUNK: nat := 4 * 1024 * 1024

  // ---- Incremental append ----

  /** Reading `n` bytes at a position; fewer at the end. */
  function Read(s: Bytes, at: nat, n: nat): Bytes {
    if at >= |s| then [] else s[at..Min(at + n, |s|)]
  }

  /** What an import leaves: a longer file that continues the present one, or the present one. */
  function Appended(present: Option<Bytes>, source: Bytes): Bytes {
    if present == None || present.value <= source then source else present.value
  }

  class LogFile {
    var data: Option<Bytes>

    constructor (data: Option<Bytes>)
      ensures this.data == data
    {
      this.data := data;
    }

    /** Compared chunk by chunk, the first `length` bytes are the same. */
    method PrefixMatches(source: Bytes, present: Bytes, length: nat) returns (same: bool)
      ensures same <==> Read(source, 0, length) == Read(present, 0, length)
    {
      var remaining := length;
      while remaining > 0
        invariant remaining <= length
        invariant Read(source, 0, length - remaining) == Read(present, 0, length - remaining)
      {
        var chunk := Min(CHUNK, remaining);
        ReadsAgree(source, present, length - remaining, chunk, length);
        if Read(source, length - remaining, chunk) != Read(present, length - remaining, chunk) { return false; }
        remaining := remaining - chunk;
      }
      same := true;
    }

    /**
     * The append. `left` is how many chunks are written before the process dies, and `keep` how
     * much of the next one gets out.
     */
    method AppendIncremental(source: Bytes, left: Option<nat>, keep: nat) returns (changed: bool, finished: bool)
      modifies this
      ensures data.Some? && data.value <= Appended(old(data), source)
      ensures old(data).Some? ==> old(data).value <= data.value
      ensures finished ==> data.value == Appended(old(data), source)
      ensures finished ==> (changed <==> data != old(data))
      ensures left == None ==> finished
    {
      if data == None {
        finished := Write([], source, left, keep);
        return true, finished;
      }
      var present := data.value;
      if |source| <= |present| { return false, true; }
      var same := PrefixMatches(source, present, |present|);
      ReadsWhole(source, present);
      if !same { return false, true; }
      finished := Write(present, source[|present|..], left, keep);
      assert present + source[|present|..] == source;
      return true, finished;
    }

    /** Write `more` chunk by chunk after `before`. */
    method Write(before: Bytes, more: Bytes, left: Option<nat>, keep: nat) returns (finished: bool)
      modifies this
      ensures data.Some? && before <= data.value <= before + more
      ensures finished ==> data.value == before + more
      ensures left == None ==> finished
    {
      data := Some(before);
      var offset, written := 0, 0;
      while offset < |more|
        invariant offset <= |more| && data.Some? && data.value == before + more[..offset]
      {
        var chunk := Read(more, offset, CHUNK);
        if left == Some(written) {
          var out := Min(keep, |chunk|);
          assert more[..offset] + chunk[..out] == more[..offset + out];
          data := Some(data.value + chunk[..out]);
          return false;
        }
        assert more[..offset] + chunk == more[..offset + |chunk|];
        data := Some(data.value + chunk);
        offset, written := offset + |chunk|, written + 1;
      }
      assert more[..offset] == more;
      finished := true;
    }
  }

  lemma ReadsAgree(a: Bytes, b: Bytes, at: nat, n: nat, length: nat)
    requires Read(a, 0, at) == Read(b, 0, at) && at + n <= length
    ensures Read(a, at, n) == Read(b, at, n) ==> Read(a, 0, at + n) == Read(b, 0, at + n)
    ensures Read(a, 0, length) == Read(b, 0, length) ==> Read(a, at, n) == Read(b, at, n)
  {
    ReadSplits(a, at, n);
    ReadSplits(b, at, n);
    if Read(a, 0, length) == Read(b, 0, length) {
      ReadWithin(a, at, n, length);
      ReadWithin(b, at, n, length);
    }
  }

  lemma ReadSplits(s: Bytes, at: nat, n: nat)
    ensures Read(s, 0, at + n) == Read(s, 0, at) + Read(s, at, n)
  {}

  lemma ReadWithin(s: Bytes, at: nat, n: nat, length: nat)
    requires at + n <= length
    ensures Read(s, at, n) == Read(Read(s, 0, length), at, n)
  {}

  lemma ReadsWhole(source: Bytes, present: Bytes)
    requires |source| > |present|
    ensures Read(source, 0, |present|) == Read(present, 0, |present|) <==> present <= source
  {
    assert Read(present, 0, |present|) == present;
  }

  /** One import, interrupted or not. */
  ghost predicate MayLead(before: Option<Bytes>, source: Bytes, after: Option<Bytes>) {
    after.Some? && after.value <= Appended(before, source) && (before.Some? ==> before.value <= after.value)
  }

  /** Imports of snapshots of one log, in any order and with repeats, each possibly interrupted. */
  ghost predicate AreImports(log: Bytes, snapshots: seq<nat>, files: seq<Option<Bytes>>) {
    && |files| == |snapshots| + 1 && (files[0].Some? ==> files[0].value <= log)
    && forall i | 0 <= i < |snapshots| ::
         snapshots[i] <= |log| && MayLead(files[i], log[..snapshots[i]], files[i + 1])
  }

  lemma {:induction false} AlwaysAPrefix(log: Bytes, snapshots: seq<nat>, files: seq<Option<Bytes>>, i: nat, bound: nat)
    requires AreImports(log, snapshots, files) && i <= |snapshots| && (files[0].Some? ==> |files[0].value| <= bound)
    requires forall k | 0 <= k < |snapshots| :: snapshots[k] <= bound
    ensures files[i].Some? ==> files[i].value <= log && |files[i].value| <= bound
    ensures i > 0 ==> files[i].Some?
  {
    if i > 0 {
      AlwaysAPrefix(log, snapshots, files, i - 1, bound);
      assert MayLead(files[i - 1], log[..snapshots[i - 1]], files[i]);
    }
  }

  lemma {:induction false} NeverShrinks(log: Bytes, snapshots: seq<nat>, files: seq<Option<Bytes>>, i: nat, j: nat)
    requires AreImports(log, snapshots, files) && i <= j <= |snapshots| && files[i].Some?
    ensures files[j].Some? && files[i].value <= files[j].value
    decreases j - i
  {
    if i < j {
      NeverShrinks(log, snapshots, files, i, j - 1);
      assert MayLead(files[j - 1], log[..snapshots[j - 1]], files[j]);
    }
  }

  /** Once the import of the longest snapshot has gone through, the log is that snapshot for good. */
  lemma ImportsConverge(log: Bytes, snapshots: seq<nat>, files: seq<Option<Bytes>>, longest: nat)
    requires AreImports(log, snapshots, files) && longest < |snapshots|
    requires forall k | 0 <= k < |snapshots| :: snapshots[k] <= snapshots[longest]
    requires files[0].Some? ==> |files[0].value| <= snapshots[longest]
    requires files[longest + 1] == Some(Appended(files[longest], log[..snapshots[longest]]))
    ensures files[|snapshots|] == Some(log[..snapshots[longest]])
  {
    var bound := snapshots[longest];
    AlwaysAPrefix(log, snapshots, files, longest, bound);
    assert MayLead(files[longest], log[..bound], files[longest + 1]);
    if files[longest].Some? { assert files[longest].value == log[..bound][..|files[longest].value|]; }
    assert files[longest + 1].value == log[..bound];
    NeverShrinks(log, snapshots, files, longest + 1, |snapshots|);
    AlwaysAPrefix(log, snapshots, files, |snapshots|, bound);
    var last := files[|snapshots|].value;
    assert |last| == bound && last == log[..|last|];
  }

  // ---- Merging lists ----

  /** A field's text, and whether the program counts it as present. */
  datatype Field = Field(text: string, present: bool)

  datatype Value = Record(fields: map<string, Field>) | Other(text: string)

  function Has(v: Value, key: string): bool { v.Record? && key in v.fields && v.fields[key].present }

  /** What tells list items apart; `dumped` is the sorted JSON text of a value. */
  function Identity(v: Value, dumped: Value -> string): string {
    if Has(v, "id") then v.fields["id"].text
    else if Has(v, "alpha_id") && Has(v, "timestamp") then v.fields["alpha_id"].text + "|" + v.fields["timestamp"].text
    else if Has(v, "alpha_id") && Has(v, "fingerprint") then v.fields["alpha_id"].text + "|" + v.fields["fingerprint"].text
    else if Has(v, "parent_id") && Has(v, "alpha_id") then v.fields["parent_id"].text + "|" + v.fields["alpha_id"].text
    else dumped(v)
  }

  // ---- What makes two items one, on their fields ----

  datatype Naming = ById | ByTime | ByPrint | ByParent | ByWhole

  ghost predicate Present(v: Value, key: string) { v.Record? && key in v.fields && v.fields[key].present }

  ghost function NamingOf(v: Value): Naming {
    if Present(v, "id") then ById
    else if Present(v, "alpha_id") && Present(v, "timestamp") then ByTime
    else if Present(v, "alpha_id") && Present(v, "fingerprint") then ByPrint
    else if Present(v, "alpha_id") && Present(v, "parent_id") then ByParent
    else ByWhole
  }

  /** The two fields that name a record without an id. */
  ghost function PairOf(v: Value): (string, string)
    requires NamingOf(v) in {ByTime, ByPrint, ByParent}
  {
    match NamingOf(v)
    case ByTime => (v.fields["alpha_id"].text, v.fields["timestamp"].text)
    case ByPrint => (v.fields["alpha_id"].text, v.fields["fingerprint"].text)
    case ByParent => (v.fields["parent_id"].text, v.fields["alpha_id"].text)
  }

  /** Two records with an id are one if and only if the ids are equal. */
  lemma SameIdIff(v: Value, w: Value, dumped: Value -> string)
    requires NamingOf(v) == NamingOf(w) == ById
    ensures Identity(v, dumped) == Identity(w, dumped) <==> v.fields["id"].text == w.fields["id"].text
  {}

  /** Two items without any naming field are one if and only if they are written alike. */
  lemma SameWholeIff(v: Value, w: Value, dumped: Value -> string)
    requires NamingOf(v) == NamingOf(w) == ByWhole
    ensures Identity(v, dumped) == Identity(w, dumped) <==> dumped(v) == dumped(w)
  {}

  /**
   * Two records named by two fields, whichever they are, are one if and only if the joined texts
   * are equal; with one field equal, if and only if the other is; and where no first field holds
   * the bar that joins them, if and only if both agree.
   */
  lemma SamePairIff(v: Value, w: Value, dumped: Value -> string)
    requires NamingOf(v) in {ByTime, ByPrint, ByParent} && NamingOf(w) in {ByTime, ByPrint, ByParent}
    ensures var (a, b) := PairOf(v); var (c, d) := PairOf(w); var one := Identity(v, dumped) == Identity(w, dumped);
      && (one <==> a + "|" + b == c + "|" + d)
      && (a == c ==> (one <==> b == d))
      && (b == d ==> (one <==> a == c))
      && ('|' !in a && '|' !in c ==> (one <==> a == c && b == d))
  {
    var (a, b) := PairOf(v);
    var (c, d) := PairOf(w);
    if a + "|" + b == c + "|" + d {
      JoinedTexts(a, b, c, d);
    }
  }

  lemma JoinedTexts(a: string, b: string, c: string, d: string)
    requires a + "|" + b == c + "|" + d
    ensures |a| == |c| ==> a == c && b == d
    ensures |b| == |d| ==> a == c && b == d
    ensures '|' !in a && '|' !in c ==> a == c && b == d
  {
    var s := a + "|" + b;
    if |a| < |c| { LongerHoldsBar(a, b, c, d); }
    if |c| < |a| { LongerHoldsBar(c, d, a, b); }
    if |a| == |c| {
      assert s[..|a|] == a && s[..|c|] == c;
      assert s[|a| + 1..] == b && s[|c| + 1..] == d;
    }
  }

  lemma LongerHoldsBar(a: string, b: string, c: string, d: string)
    requires a + "|" + b == c + "|" + d && |a| < |c|
    ensures '|' in c
  {
    assert (a + "|" + b)[|a|] == '|';
    assert (c + "|" + d)[|a|] == c[|a|];
  }

  function Identities(items: seq<Value>, dumped: Value -> string): set<string> {
    set v | v in items :: Identity(v, dumped)
  }

  function Merged(existing: seq<Value>, incoming: seq<Value>, dumped: Value -> string): seq<Value> {
    if incoming == [] then existing
    else
      var before := Merged(existing, incoming[..|incoming| - 1], dumped);
      var last := incoming[|incoming| - 1];
      if Identity(last, dumped) in Identities(before, dumped) then before else before + [last]
  }

  lemma OneMoreIdentity(items: seq<Value>, v: Value, dumped: Value -> string)
    ensures Identities(items + [v], dumped) == Identities(items, dumped) + {Identity(v, dumped)}
  {
    assert forall w :: w in items + [v] <==> w in items || w == v;
  }

  /** Items beyond the first `n` come from `incoming` and are new, each with an identity of its own. */
  ghost predicate AddedAreNew(n: nat, result: seq<Value>, incoming: seq<Value>, dumped: Value -> string) {
    forall i | n <= i < |result| ::
      result[i] in incoming && forall j | 0 <= j < i :: Identity(result[j], dumped) != Identity(result[i], dumped)
  }

  /** The present list comes first, unchanged; the identities are exactly those of both lists; what is added is new. */
  lemma {:induction false} MergedMeans(existing: seq<Value>, incoming: seq<Value>, dumped: Value -> string)
    ensures var result := Merged(existing, incoming, dumped);
      && existing <= result
      && Identities(result, dumped) == Identities(existing, dumped) + Identities(incoming, dumped)
      && AddedAreNew(|existing|, result, incoming, dumped)
  {
    if incoming != [] {
      var front, last := incoming[..|incoming| - 1], incoming[|incoming| - 1];
      MergedMeans(existing, front, dumped);
      assert incoming == front + [last];
      OneMoreIdentity(front, last, dumped);
      var before := Merged(existing, front, dumped);
      OneMoreIdentity(before, last, dumped);
      forall i | |existing| <= i < |before| ensures before[i] in incoming { assert before[i] in front; }
      forall j | 0 <= j < |before| ensures Identity(before[j], dumped) in Identities(before, dumped) {}
    }
  }

  /** What an item needs to be kept: no item of the present list and no earlier incoming one has its identity. */
  ghost predicate IsNew(existing: seq<Value>, incoming: seq<Value>, i: nat, dumped: Value -> string)
    requires i < |incoming|
  {
    && (forall v <- existing :: Identity(v, dumped) != Identity(incoming[i], dumped))
    && (forall j | 0 <= j < i :: Identity(incoming[j], dumped) != Identity(incoming[i], dumped))
  }

  lemma {:induction false} NewItemsAreKept(existing: seq<Value>, incoming: seq<Value>, i: nat, dumped: Value -> string)
    requires i < |incoming| && IsNew(existing, incoming, i, dumped)
    ensures incoming[i] in Merged(existing, incoming, dumped)
  {
    var front := incoming[..|incoming| - 1];
    if i < |front| {
      NewItemsAreKept(existing, front, i, dumped);
    } else {
      MergedMeans(existing, front, dumped);
    }
  }

  method MergeJsonLists(existing: seq<Value>, incoming: seq<Value>, dumped: Value -> string) returns (result: seq<Value>)
    ensures result == Merged(existing, incoming, dumped)
    ensures existing <= result && AddedAreNew(|existing|, result, incoming, dumped)
    ensures forall i | 0 <= i < |incoming| && IsNew(existing, incoming, i, dumped) :: incoming[i] in result
  {
    result := existing;
    var seen := Identities(existing, dumped);
    for i := 0 to |incoming|
      invariant result == Merged(existing, incoming[..i], dumped) && seen == Identities(result, dumped)
    {
      assert incoming[..i + 1][..i] == incoming[..i];
      var identity := Identity(incoming[i], dumped);
      if identity !in seen {
        OneMoreIdentity(result, incoming[i], dumped);
        result, seen := result + [incoming[i]], seen + {identity};
      }
    }
    assert incoming[..|incoming|] == incoming;
    MergedMeans(existing, incoming, dumped);
    forall i | 0 <= i < |incoming| && IsNew(existing, incoming, i, dumped) ensures incoming[i] in result {
      NewItemsAreKept(existing, incoming, i, dumped);
    }
  }

  lemma LastIsNewIff(existing: seq<Value>, front: seq<Value>, last: Value, dumped: Value -> string)
    ensures IsNew(existing, front + [last], |front|, dumped) <==>
            Identity(last, dumped) !in Identities(Merged(existing, front, dumped), dumped)
  {
    MergedMeans(existing, front, dumped);
    var incoming := front + [last];
    assert incoming[|front|] == last;
    forall j | 0 <= j < |front| ensures incoming[j] == front[j] {}
    assert (forall v <- existing :: Identity(v, dumped) != Identity(last, dumped))
           <==> Identity(last, dumped) !in Identities(existing, dumped);
    assert (forall v <- front :: Identity(v, dumped) != Identity(last, dumped))
           <==> Identity(last, dumped) !in Identities(front, dumped);
  }

  lemma FrontIsNewIff(existing: seq<Value>, front: seq<Value>, last: Value, i: nat, dumped: Value -> string)
    requires i < |front|
    ensures IsNew(existing, front + [last], i, dumped) <==> IsNew(existing, front, i, dumped)
  {
    assert forall j | 0 <= j <= i :: (front + [last])[j] == front[j];
  }

  lemma MergedWithLast(existing: seq<Value>, front: seq<Value>, last: Value, dumped: Value -> string)
    ensures var before := Merged(existing, front, dumped);
      Merged(existing, front + [last], dumped) == if Identity(last, dumped) in Identities(before, dumped) then before else before + [last]
  {
    assert (front + [last])[..|front|] == front;
  }

  lemma SameFrontIff(before: seq<Value>, all: seq<Value>, last: Value)
    ensures before + [last] == all + [last] <==> before == all
  {
    if before + [last] == all + [last] {
      assert before == (before + [last])[..|before|] && all == (all + [last])[..|all|];
    }
  }

  /** The whole incoming list is appended as it is if and only if all of it is new. */
  lemma {:induction false} AllKeptIff(existing: seq<Value>, incoming: seq<Value>, dumped: Value -> string)
    ensures Merged(existing, incoming, dumped) == existing + incoming <==>
            forall i | 0 <= i < |incoming| :: IsNew(existing, incoming, i, dumped)
  {
    if incoming != [] {
      var front, last := Before(incoming), Latest(incoming);
      AllKeptIff(existing, front, dumped);
      assert incoming == front + [last];
      AllKeptStep(existing, front, last, dumped);
    }
  }

  lemma AllKeptStep(existing: seq<Value>, front: seq<Value>, last: Value, dumped: Value -> string)
    requires Merged(existing, front, dumped) == existing + front <==>
             forall i | 0 <= i < |front| :: IsNew(existing, front, i, dumped)
    ensures Merged(existing, front + [last], dumped) == existing + (front + [last]) <==>
            forall i | 0 <= i < |front + [last]| :: IsNew(existing, front + [last], i, dumped)
  {
    LastIsNewIff(existing, front, last, dumped);
    MergedWithLast(existing, front, last, dumped);
    MergedIsShort(existing, front, dumped);
    SameFrontIff(Merged(existing, front, dumped), existing + front, last);
    assert existing + (front + [last]) == (existing + front) + [last];
    forall i | 0 <= i < |front| ensures IsNew(existing, front + [last], i, dumped) <==> IsNew(existing, front, i, dumped) {
      FrontIsNewIff(existing, front, last, i, dumped);
    }
  }

  lemma {:induction false} MergedIsShort(existing: seq<Value>, incoming: seq<Value>, dumped: Value -> string)
    ensures |Merged(existing, incoming, dumped)| <= |existing| + |incoming|
  {
    if incoming != [] { MergedIsShort(existing, incoming[..|incoming| - 1], dumped); }
  }

  /** Records of alphas at a time: those that differ in alpha or time are all kept, in order. */
  lemma TimedRecordsAreKept(existing: seq<Value>, incoming: seq<Value>, dumped: Value -> string)
    requires forall v | v in existing + incoming :: NamingOf(v) == ByTime && '|' !in v.fields["alpha_id"].text
    requires forall v <- existing, w <- incoming :: PairOf(v) != PairOf(w)
    requires forall i, j | 0 <= j < i < |incoming| :: PairOf(incoming[j]) != PairOf(incoming[i])
    ensures Merged(existing, incoming, dumped) == existing + incoming
  {
    forall i | 0 <= i < |incoming| ensures IsNew(existing, incoming, i, dumped) {
      assert incoming[i] in existing + incoming;
      forall v | v in existing ensures Identity(v, dumped) != Identity(incoming[i], dumped) {
        assert v in existing + incoming;
        SamePairIff(v, incoming[i], dumped);
      }
      forall j | 0 <= j < i ensures Identity(incoming[j], dumped) != Identity(incoming[i], dumped) {
        assert incoming[j] in existing + incoming;
        SamePairIff(incoming[j], incoming[i], dumped);
      }
    }
    AllKeptIff(existing, incoming, dumped);
  }

  /** Merging what is already known changes nothing. */
  lemma {:induction false} MergeKnown(existing: seq<Value>, incoming: seq<Value>, dumped: Value -> string)
    requires Identities(incoming, dumped) <= Identities(existing, dumped)
    ensures Merged(existing, incoming, dumped) == existing
  {
    if incoming != [] {
      var front, last := incoming[..|incoming| - 1], incoming[|incoming| - 1];
      assert incoming == front + [last];
      OneMoreIdentity(front, last, dumped);
      MergeKnown(existing, front, dumped);
    }
  }

  lemma MergeAgain(existing: seq<Value>, incoming: seq<Value>, dumped: Value -> string)
    ensures var once := Merged(existing, incoming, dumped); Merged(once, incoming, dumped) == once
  {
    MergedMeans(existing, incoming, dumped);
    MergeKnown(Merged(existing, incoming, dumped), incoming, dumped);
  }

  /** The program's test for "nothing new" is right. */
  lemma SameLengthIff(existing: seq<Value>, incoming: seq<Value>, dumped: Value -> string)
    ensures |Merged(existing, incoming, dumped)| == |existing| <==> Identities(incoming, dumped) <= Identities(existing, dumped)
    ensures |Merged(existing, incoming, dumped)| == |existing| <==> Merged(existing, incoming, dumped) == existing
  {
    MergedMeans(existing, incoming, dumped);
    var result := Merged(existing, incoming, dumped);
    if |result| == |existing| { assert result == existing; }
    if Identities(incoming, dumped) <= Identities(existing, dumped) { MergeKnown(existing, incoming, dumped); }
  }

  /** Importing two lists one after the other is importing them as one. */
  lemma {:induction false} MergeInTurn(existing: seq<Value>, a: seq<Value>, b: seq<Value>, dumped: Value -> string)
    ensures Merged(existing, a + b, dumped) == Merged(Merged(existing, a, dumped), b, dumped)
  {
    if b == [] { assert a + b == a; } else {
      MergeInTurn(existing, a, b[..|b| - 1], dumped);
      assert (a + b)[..|a + b| - 1] == a + b[..|b| - 1];
    }
  }

  // ---- Merging a JSON file ----

  /**
   * `Unreadable` is a file that does not hold JSON, or holds null; `Raising` is one whose reading
   * raises an exception the program does not handle, because it is not text.
   */
  datatype Document = Unreadable | Raising | Items(items: seq<Value>) | Single(text: string)

  datatype MergeOutcome = Changed | Unchanged | Raised

  class JsonFile {
    var content: Option<Document>
    var conflict: Option<Document>

    constructor (content: Option<Document>)
      ensures this.content == content && conflict == None
    {
      this.content, conflict := content, None;
    }

    /**
     * Merge one file. Two lists are merged; what cannot be merged is set aside and the present
     * content kept, unless the policy is to overwrite it. A file that raises ends the whole import:
     * nothing is set aside. The result of the final write is not looked at, so a write that fails
     * is reported as a change.
     */
    method MergeJson(source: Document, overwrite: bool, writeFails: bool, dumped: Value -> string) returns (o: MergeOutcome)
      modifies this
      ensures o == Raised <==> old(content).Some? && (source == Raising || old(content).value == Raising)
      ensures o != Changed ==> content == old(content)
      ensures o == Raised ==> conflict == old(conflict)
      ensures old(content) == None ==> content == Some(source) && o == Changed && conflict == old(conflict)
      ensures old(content).Some? && o != Raised ==>
        match (old(content).value, source)
        case (Items(existing), Items(incoming)) =>
          && (o == Unchanged <==> Identities(incoming, dumped) <= Identities(existing, dumped)) && conflict == old(conflict)
          && content == (if o == Changed && !writeFails then Some(Items(Merged(existing, incoming, dumped))) else old(content))
        case (present, _) =>
          && (o == Changed <==> overwrite && present != Unreadable && source != Unreadable)
          && content == (if o == Changed then Some(source) else old(content))
          && conflict == (if o == Changed then old(conflict) else Some(source))
    {
      if content == None {
        content := Some(source);
        return Changed;
      }
      if source == Raising || content == Some(Raising) { return Raised; }
      if source == Unreadable || content == Some(Unreadable) {
        conflict := Some(source);
        return Unchanged;
      }
      if source.Items? && content.value.Items? {
        var merged := MergeJsonLists(content.value.items, source.items, dumped);
        SameLengthIff(content.value.items, source.items, dumped);
        if |merged| == |content.value.items| { return Unchanged; }
        if !writeFails { content := Some(Items(merged)); }
        return Changed;
      }
      if overwrite {
        content := Some(source);
        return Changed;
      }
      conflict := Some(source);
      o := Unchanged;
    }
  }

  // ---- The staged restore ----

  type Files = map<string, Bytes>

  datatype Tree = Tree(live: Files, staged: Files, backups: Files)

  datatype Entry = Entry(path: string, exists_: bool)

  /** The listed paths whose source existed. */
  function Listed(entries: seq<Entry>): seq<string> {
    if entries == [] then []
    else Listed(entries[..|entries| - 1]) + if entries[|entries| - 1].exists_ then [entries[|entries| - 1].path] else []
  }

  /** One path: the live file is copied to the backups, and the staged one takes its place. */
  function Saved(t: Tree, p: string): Tree {
    if p in t.live then t.(backups := t.backups[p := t.live[p]]) else t
  }

  function Placed(t: Tree, p: string, ok: bool): Tree {
    if ok && p in t.staged then t.(live := t.live[p := t.staged[p]], staged := t.staged - {p}) else t
  }

  function AfterFirst(t: Tree, paths: seq<string>, ok: nat -> bool, k: nat): Tree
    requires k <= |paths|
  {
    if k == 0 then t
    else
      var before := AfterFirst(t, paths, ok, k - 1);
      Placed(Saved(before, paths[k - 1]), paths[k - 1], ok(k - 1))
  }

  function Staged(exported: Files, paths: seq<string>): Files
    requires forall p | p in paths :: p in exported
  {
    map p | p in paths :: exported[p]
  }

  predicate NoRepeats(paths: seq<string>) { forall i, j | 0 <= i < j < |paths| :: paths[i] != paths[j] }

  ghost predicate SameAt(a: Files, b: Files, p: string) {
    (p in a <==> p in b) && (p in a ==> a[p] == b[p])
  }

  /** A path that has not been placed. */
  ghost predicate StillOld(t0: Tree, t: Tree, p: string) {
    SameAt(t0.live, t.live, p) && SameAt(t0.staged, t.staged, p) && SameAt(t0.backups, t.backups, p)
  }

  /** A path that has been placed: wholly new, or wholly old if its replace failed, with its old content in the backups. */
  ghost predicate Done(t0: Tree, t: Tree, p: string, new_: Bytes, ok: bool) {
    && (if ok then p in t.live && t.live[p] == new_ else SameAt(t0.live, t.live, p))
    && (if p in t0.live then p in t.backups && t.backups[p] == t0.live[p] else SameAt(t0.backups, t.backups, p))
  }

  lemma {:induction false} Untouched(t0: Tree, paths: seq<string>, ok: nat -> bool, k: nat, p: string)
    requires k <= |paths| && forall i | 0 <= i < k :: paths[i] != p
    ensures StillOld(t0, AfterFirst(t0, paths, ok, k), p)
  {
    if k > 0 { Untouched(t0, paths, ok, k - 1, p); }
  }

  lemma {:induction false} PlacedOnce(t0: Tree, paths: seq<string>, ok: nat -> bool, k: nat, i: nat)
    requires i < k <= |paths| && paths[i] in t0.staged
    requires forall j | 0 <= j < k && j != i :: paths[j] != paths[i]
    ensures Done(t0, AfterFirst(t0, paths, ok, k), paths[i], t0.staged[paths[i]], ok(i))
  {
    if k == i + 1 {
      Untouched(t0, paths, ok, i, paths[i]);
    } else {
      PlacedOnce(t0, paths, ok, k - 1, i);
    }
  }

  /** At every step of a restore without repeated paths each file is wholly old or wholly new. */
  lemma EveryStepOldOrNew(t0: Tree, exported: Files, paths: seq<string>, ok: nat -> bool, k: nat)
    requires NoRepeats(paths) && k <= |paths|
    requires forall p | p in paths :: p in exported
    requires t0.staged == Staged(exported, paths)
    ensures var t := AfterFirst(t0, paths, ok, k);
      && (forall i | 0 <= i < k :: Done(t0, t, paths[i], exported[paths[i]], ok(i)))
      && (forall p | p !in paths[..k] :: StillOld(t0, t, p))
  {
    forall i | 0 <= i < k ensures Done(t0, AfterFirst(t0, paths, ok, k), paths[i], exported[paths[i]], ok(i)) {
      PlacedOnce(t0, paths, ok, k, i);
    }
    forall p | p !in paths[..k] ensures StillOld(t0, AfterFirst(t0, paths, ok, k), p) {
      forall i | 0 <= i < k ensures paths[i] != p { assert paths[i] in paths[..k]; }
      Untouched(t0, paths, ok, k, p);
    }
  }

  /** A path listed twice ends with its new content in the backups: the old one is gone. */
  lemma {:induction false} PlacedTwice(t0: Tree, paths: seq<string>, ok: nat -> bool, k: nat, p: string, i: nat)
    requires i < k <= |paths| && paths[i] == p && p in t0.live && p in t0.staged && forall j: nat :: ok(j)
    requires forall j | 0 <= j < i :: paths[j] != p
    ensures var t := AfterFirst(t0, paths, ok, k);
      && p in t.live && t.live[p] == t0.staged[p] && p !in t.staged && p in t.backups
      && ((exists j :: i < j < k && paths[j] == p) ==> t.backups[p] == t0.staged[p])
  {
    if k == i + 1 {
      Untouched(t0, paths, ok, i, p);
    } else {
      PlacedTwice(t0, paths, ok, k - 1, p, i);
    }
  }

  /** Every replaced file's old content is in the backups. */
  ghost predicate BackedUp(t0: Tree, paths: seq<string>) {
    var t := AfterFirst(t0, paths, j => true, |paths|);
    forall p | p in paths && p in t0.live :: p in t.backups && t.backups[p] == t0.live[p]
  }

  /** So a restore keeps the old files, whatever they are, if and only if no path is listed twice. */
  lemma BackedUpIff(exported: Files, paths: seq<string>)
    requires forall p | p in paths :: p in exported
    ensures (forall live, backups :: BackedUp(Tree(live, Staged(exported, paths), backups), paths)) <==> NoRepeats(paths)
  {
    if NoRepeats(paths) {
      forall live, backups ensures BackedUp(Tree(live, Staged(exported, paths), backups), paths) {
        EveryStepOldOrNew(Tree(live, Staged(exported, paths), backups), exported, paths, j => true, |paths|);
      }
    } else {
      var i, j :| 0 <= i < j < |paths| && paths[i] == paths[j];
      RepeatLosesBackup(exported, paths, j);
    }
  }

  lemma RepeatLosesBackup(exported: Files, paths: seq<string>, j: nat)
    requires (forall p | p in paths :: p in exported) && j < |paths| && exists i :: 0 <= i < j && paths[i] == paths[j]
    ensures var p := paths[j];
      !BackedUp(Tree(map[p := exported[p] + [0]], Staged(exported, paths), map[]), paths)
  {
    var p := paths[j];
    var i := FirstIndex(paths, p);
    var t0 := Tree(map[p := exported[p] + [0]], Staged(exported, paths), map[]);
    PlacedTwice(t0, paths, j => true, |paths|, p, i);
  }

  function FirstIndex(paths: seq<string>, p: string): (i: nat)
    requires p in paths
    ensures i < |paths| && paths[i] == p && forall j | 0 <= j < i :: paths[j] != p
  {
    if paths[0] == p then 0 else 1 + FirstIndex(paths[1..], p)
  }

  predicate AllExported(exported: Files, paths: seq<string>) { forall p | p in paths :: p in exported }

  /** Everything but `p` is the same. */
  ghost predicate SameExcept(a: Files, b: Files, p: string) { forall q | q != p :: SameAt(a, b, q) }

  /** The next file's backup may be cut short, or complete, or not begun. */
  ghost predicate CutWithin(before: Files, after: Files, paths: seq<string>, k: nat) {
    before == after || (k < |paths| && SameExcept(before, after, paths[k]))
  }

  /** `Failed` is a listed file that is missing from the export. */
  datatype RestoreOutcome = Restored | Refused | Failed | Died

  class RestoreTarget {
    var live: Files
    var staged: Files
    var backups: Files

    constructor (live: Files, staged: Files, backups: Files)
      ensures this.live == live && this.staged == staged && this.backups == backups
    {
      this.live, this.staged, this.backups := live, staged, backups;
    }

    /**
     * The restore, which lives for `left` steps; a copy it dies in leaves the first `keep` bytes.
     * `ok(i)` says whether the i-th replace succeeds; the program does not look, so a file whose
     * replace failed is reported as imported too.
     */
    method Restore(exported: Files, entries: seq<Entry>, running: bool, ok: nat -> bool, left: nat, keep: nat)
      returns (o: RestoreOutcome, imported: seq<string>)
      modifies this
      ensures running <==> o == Refused
      ensures imported <= Listed(entries) && (o == Failed ==> !AllExported(exported, Listed(entries)))
      ensures o == Refused || !AllExported(exported, Listed(entries)) ==>
                live == old(live) && backups == old(backups) && imported == [] && o != Restored
      ensures left >= 3 * |entries| ==> o != Died
      ensures o != Refused && AllExported(exported, Listed(entries)) ==>
        var t := AfterFirst(Tree(old(live), Staged(exported, Listed(entries)), old(backups)), Listed(entries), ok, |imported|);
        && live == t.live
        && (o == Restored ==> imported == Listed(entries) && backups == t.backups)
        && (o == Died ==> CutWithin(t.backups, backups, Listed(entries), |imported|))
    {
      imported := [];
      if running { return Refused, []; }
      var rest;
      o, rest := Stage(exported, entries, left, keep);
      if o != Restored { return o, []; }
      o, imported := PlaceAll(entries, ok, rest, keep);
    }

    /** First everything is copied next to the live files. */
    method Stage(exported: Files, entries: seq<Entry>, left: nat, keep: nat) returns (o: RestoreOutcome, rest: nat)
      modifies this`staged
      ensures o != Refused && (o == Failed ==> !AllExported(exported, Listed(entries)))
      ensures left - |entries| <= rest && (left >= |entries| ==> o != Died)
      ensures o == Restored ==> AllExported(exported, Listed(entries)) && staged == Staged(exported, Listed(entries))
    {
      staged, rest := map[], left;
      for i := 0 to |entries|
        invariant left - i <= rest
        invariant AllExported(exported, Listed(entries[..i])) && staged == Staged(exported, Listed(entries[..i]))
      {
        ListedStep(entries, i);
        var p := entries[i].path;
        if !entries[i].exists_ { continue; }
        assert Listed(entries)[|Listed(entries[..i])|] == p;
        if p !in exported { return Failed, rest; }
        if rest == 0 {
          staged := staged[p := exported[p][..Min(keep, |exported[p]|)]];
          return Died, 0;
        }
        staged, rest := staged[p := exported[p]], rest - 1;
      }
      assert entries[..|entries|] == entries;
      o := Restored;
    }

    function Now(): Tree
      reads this
    {
      Tree(live, staged, backups)
    }

    /** Then file by file: back up the live one, and put the staged one in its place. */
    method PlaceAll(entries: seq<Entry>, ok: nat -> bool, left: nat, keep: nat) returns (o: RestoreOutcome, imported: seq<string>)
      modifies this
      ensures o == Restored || o == Died
      ensures imported <= Listed(entries) && (o == Restored ==> imported == Listed(entries))
      ensures left >= 2 * |entries| ==> o != Died
      ensures var t := AfterFirst(old(Now()), Listed(entries), ok, |imported|);
        && live == t.live && (o == Restored ==> backups == t.backups)
        && (o == Died ==> CutWithin(t.backups, backups, Listed(entries), |imported|))
    {
      var rest := left;
      imported := [];
      for i := 0 to |entries|
        invariant imported == Listed(entries[..i]) <= Listed(entries) && left - 2 * i <= rest
        invariant Now() == AfterFirst(old(Now()), Listed(entries), ok, |imported|)
      {
        ListedStep(entries, i);
        if !entries[i].exists_ { continue; }
        var alive;
        alive, rest := Place(entries[i].path, ok(|imported|), rest, keep);
        if !alive { return Died, imported; }
        imported := imported + [entries[i].path];
      }
      assert entries[..|entries|] == entries;
      o := Restored;
    }

    method Place(p: string, ok: bool, left: nat, keep: nat) returns (alive: bool, rest: nat)
      modifies this
      ensures left - 2 <= rest && (left >= 2 ==> alive)
      ensures alive ==> Now() == Placed(Saved(old(Now()), p), p, ok)
      ensures !alive ==> live == old(live) && staged == old(staged) && SameExcept(old(backups), backups, p)
    {
      rest := left;
      if p in live {
        if rest == 0 {
          backups := backups[p := live[p][..Min(keep, |live[p]|)]];
          return false, 0;
        }
        backups, rest := backups[p := live[p]], rest - 1;
      }
      if rest == 0 { return false, 0; }
      if ok && p in staged { live, staged := live[p := staged[p]], staged - {p}; }
      return true, rest - 1;
    }
  }

  lemma {:induction false} ListedStep(entries: seq<Entry>, i: nat)
    requires i < |entries|
    ensures Listed(entries[..i + 1]) == Listed(entries[..i]) + if entries[i].exists_ then [entries[i].path] else []
    ensures Listed(entries[..i + 1]) <= Listed(entries)
  {
    assert entries[..i + 1][..i] == entries[..i];
    ListedPrefix(entries, i + 1);
  }

  lemma {:induction false} ListedPrefix(entries: seq<Entry>, i: nat)
    requires i <= |entries|
    ensures Listed(entries[..i]) <= Listed(entries)
  {
    if i < |entries| {
      ListedPrefix(entries[..|entries| - 1], i);
      assert entries[..|entries| - 1][..i] == entries[..i];
    } else {
      assert entries[..i] == entries;
    }
  }
}
