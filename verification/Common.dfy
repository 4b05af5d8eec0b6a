/** Shared vocabulary: optional values, bytes and small facts about sequences. */
module Common {

  datatype Option<+T> = None | Some(value: T)

  newtype Byte = b: int | 0 <= b < 256

  type Bytes = seq<Byte>

  function Max(a: int, b: int): int { if a >= b then a else b }

  function Min(a: int, b: int): int { if a <= b then a else b }

  /** A sequence grows at its end: all but the latest element, and the latest. */
  function Before<T>(s: seq<T>): (r: seq<T>)
    requires s != []
    ensures |r| == |s| - 1
  {
    s[..|s| - 1]
  }

  function Latest<T>(s: seq<T>): T
    requires s != []
  {
    s[|s| - 1]
  }

  /** `part` stands in `s` at position `i`. */
  predicate At<T(==)>(s: seq<T>, i: nat, part: seq<T>) {
    i + |part| <= |s| && forall k | 0 <= k < |part| :: part[k] == s[i + k]
  }

  lemma AtSplit<T>(s: seq<T>, i: nat, a: seq<T>, b: seq<T>)
    requires At(s, i, a + b)
    ensures At(s, i, a) && At(s, i + |a|, b)
  {
    forall k | 0 <= k < |a| ensures a[k] == s[i + k] { assert a[k] == (a + b)[k]; }
    forall k | 0 <= k < |b| ensures b[k] == s[i + |a| + k] { assert b[k] == (a + b)[|a| + k]; }
  }

  lemma AtIndex<T>(s: seq<T>, i: nat, part: seq<T>, k: nat)
    requires At(s, i, part) && k < |part|
    ensures s[i + k] == part[k]
  {}

  /** White space: tab, the line ends, the separators 28 to 31, and the blank. */
  ghost predicate IsBlank(c: char) { c as int in {9, 10, 11, 12, 13, 28, 29, 30, 31, 32} }

  ghost predicate AllBlank(s: string) { forall k | 0 <= k < |s| :: IsBlank(s[k]) }

  /** `word` occurs in `s`. */
  predicate Mentions(s: string, word: string) { exists i | 0 <= i <= |s| :: At(s, i, word) }

  ghost predicate Holds(text: string, word: string) {
    exists before: string, after: string :: text == before + word + after
  }

  lemma MentionsIff(s: string, word: string)
    ensures Mentions(s, word) <==> Holds(s, word)
  {
    forall i | 0 <= i <= |s| && At(s, i, word) ensures s == s[..i] + word + s[i + |word|..] {}
    forall before: string, after: string | s == before + word + after ensures At(s, |before|, word) {
      AtAfter(before, word, after);
    }
  }

  lemma AtAfter<T>(before: seq<T>, part: seq<T>, after: seq<T>)
    ensures At(before + part + after, |before|, part)
  {}

  lemma Regroup<T>(a: seq<T>, b: seq<T>, c: seq<T>)
    ensures (a + b) + c == a + (b + c)
  {}

  function Concat(parts: seq<Bytes>): Bytes {
    if parts == [] then [] else parts[0] + Concat(parts[1..])
  }

  lemma {:induction false} ConcatAppend(a: seq<Bytes>, b: seq<Bytes>)
    ensures Concat(a + b) == Concat(a) + Concat(b)
  {
    if a == [] { assert a + b == b; } else {
      assert (a + b)[1..] == a[1..] + b;
      ConcatAppend(a[1..], b);
    }
  }
}
