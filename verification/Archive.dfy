/**
 * Splitting an archive into volumes and putting them together again. The parts carry a number
 * padded to three digits and are put together in the order of their names.
 */
module Archive {
  import opened Common

  const MIB: nat := 1024 * 1024
  const INFIX: string := ".part"

  function VolumeSize(megabytes: int): (n: nat)
    ensures n > 0
  {
    Max(1, megabytes) * MIB
  }

  // ---- Names ----

  function Digit(d: nat): char
    requires d < 10
  {
    '0' + d as char
  }

  function Decimal(n: nat): (s: string)
    ensures s != [] && forall k | 0 <= k < |s| :: '0' <= s[k] <= '9'
    ensures n > 0 ==> s[0] != '0'
  {
    if n < 10 then [Digit(n)] else Decimal(n / 10) + [Digit(n % 10)]
  }

  /** The number with at least three digits. */
  function Padded(n: nat): string {
    (if n < 10 then "00" else if n < 100 then "0" else "") + Decimal(n)
  }

  function PartName(name: string, i: nat): string { name + INFIX + Padded(i) }

  /** Names are compared character by character. */
  predicate LessFrom(a: string, b: string, i: nat)
    requires i <= |a| && i <= |b|
    decreases |a| - i
  {
    i < |b| && (i == |a| || a[i] < b[i] || (a[i] == b[i] && LessFrom(a, b, i + 1)))
  }

  predicate Less(a: string, b: string) { LessFrom(a, b, 0) }

  lemma {:induction false} LessIsStrict(a: string, i: nat)
    requires i <= |a|
    ensures !LessFrom(a, a, i)
    decreases |a| - i
  {
    if i < |a| { LessIsStrict(a, i + 1); }
  }

  lemma {:induction false} LessIsTransitive(a: string, b: string, c: string, i: nat)
    requires i <= |a| && i <= |b| && i <= |c| && LessFrom(a, b, i) && LessFrom(b, c, i)
    ensures LessFrom(a, c, i)
    decreases |a| - i
  {
    if i < |a| && a[i] == b[i] == c[i] { LessIsTransitive(a, b, c, i + 1); }
  }

  lemma {:induction false} LessIsTotal(a: string, b: string, i: nat)
    requires i <= |a| && i <= |b| && a[..i] == b[..i]
    ensures LessFrom(a, b, i) || LessFrom(b, a, i) || a == b
    decreases |a| - i
  {
    if i < |a| && i < |b| && a[i] == b[i] {
      assert a[..i + 1] == a[..i] + [a[i]] && b[..i + 1] == b[..i] + [b[i]];
      LessIsTotal(a, b, i + 1);
    } else if i == |a| && i == |b| {
      assert a == a[..i] && b == b[..i];
    }
  }

  /** A common prefix does not matter. */
  lemma {:induction false} LessAfterPrefix(p: string, a: string, b: string, i: nat)
    requires i <= |a| && i <= |b|
    ensures LessFrom(p + a, p + b, |p| + i) == LessFrom(a, b, i)
    decreases |a| - i
  {
    if i < |a| && i < |b| { LessAfterPrefix(p, a, b, i + 1); }
  }

  lemma {:induction false} LessSkipsPrefix(p: string, a: string, b: string, k: nat)
    requires k <= |p|
    ensures LessFrom(p + a, p + b, k) == Less(a, b)
    decreases |p| - k
  {
    if k == |p| { LessAfterPrefix(p, a, b, 0); } else { LessSkipsPrefix(p, a, b, k + 1); }
  }

  lemma PartNamesLess(name: string, i: nat, j: nat)
    ensures Less(PartName(name, i), PartName(name, j)) == Less(Padded(i), Padded(j))
  {
    LessSkipsPrefix(name + INFIX, Padded(i), Padded(j), 0);
  }

  lemma ThreeDigits(n: nat)
    requires n <= 999
    ensures Padded(n) == [Digit(n / 100), Digit(n / 10 % 10), Digit(n % 10)]
  {
    if n >= 100 {
      assert Decimal(n / 100) == [Digit(n / 100)];
      assert n / 10 / 10 == n / 100;
    } else if n >= 10 {
      assert Decimal(n / 10) == [Digit(n / 10)];
    }
  }

  lemma CompareThree(a: string, b: string)
    requires |a| == 3 && 3 <= |b|
    ensures Less(a, b) <==>
            a[0] < b[0] || (a[0] == b[0] && (a[1] < b[1] || (a[1] == b[1] && (a[2] < b[2] || (a[2] == b[2] && |b| > 3)))))
  {
    assert LessFrom(a, b, 3) <==> |b| > 3;
    assert LessFrom(a, b, 2) <==> a[2] < b[2] || (a[2] == b[2] && LessFrom(a, b, 3));
    assert LessFrom(a, b, 1) <==> a[1] < b[1] || (a[1] == b[1] && LessFrom(a, b, 2));
  }

  /** Up to 999 the order of the names is the order of the numbers. */
  lemma NumbersInOrder(i: nat, j: nat)
    requires i < j <= 999
    ensures Less(Padded(i), Padded(j))
  {
    ThreeDigits(i);
    ThreeDigits(j);
    CompareThree(Padded(i), Padded(j));
    DigitsInOrder(i, j);
  }

  lemma DigitsInOrder(i: nat, j: nat)
    requires i < j
    ensures i / 100 < j / 100 ||
            (i / 100 == j / 100 && (i / 10 % 10 < j / 10 % 10 || (i / 10 % 10 == j / 10 % 10 && i % 10 < j % 10)))
  {
    assert i / 100 == i / 10 / 10 && j / 100 == j / 10 / 10;
  }

  /** The name of part 1000 comes right after that of part 100. */
  lemma ThousandComesEarly(i: nat)
    requires i >= 1
    ensures Less(Padded(i), Padded(1000)) <==> i <= 100
  {
    ThousandInDigits();
    if i <= 999 {
      ThreeDigitsBeforeThousand(i);
      UpToHundred(i);
    } else {
      ManyDigits(i);
      NotBeforeThousand(Decimal(i));
    }
  }

  lemma ThreeDigitsBeforeThousand(i: nat)
    requires i <= 999
    ensures Less(Padded(i), "1000") <==> i / 100 < 1 || (i / 100 == 1 && i / 10 % 10 == 0 && i % 10 == 0)
  {
    ThreeDigits(i);
    CompareThree(Padded(i), "1000");
  }

  lemma UpToHundred(i: nat)
    requires 1 <= i <= 999
    ensures i / 100 < 1 || (i / 100 == 1 && i / 10 % 10 == 0 && i % 10 == 0) <==> i <= 100
  {}

  lemma ThousandInDigits()
    ensures Padded(1000) == "1000"
  {
    assert Decimal(10) == "10";
    assert Decimal(100) == "100";
  }

  lemma ManyDigits(i: nat)
    requires i >= 1000
    ensures |Decimal(i)| >= 4 && Padded(i) == Decimal(i)
  {
    assert |Decimal(i / 10 / 10)| >= 2;
    assert |Decimal(i / 10)| >= 3;
  }

  lemma NotBeforeThousand(s: string)
    requires |s| >= 4 && s[0] >= '1' && s[1] >= '0' && s[2] >= '0' && s[3] >= '0'
    ensures !Less(s, "1000")
  {
    assert !LessFrom(s, "1000", 4);
    assert !LessFrom(s, "1000", 3);
    assert !LessFrom(s, "1000", 2);
    assert !LessFrom(s, "1000", 1);
  }

  // ---- Numbers are told apart by their names ----

  function Value(s: string): int {
    if s == [] then 0 else 10 * Value(s[..|s| - 1]) + (s[|s| - 1] as int - '0' as int)
  }

  lemma {:induction false} ValueOfDecimal(n: nat)
    ensures Value(Decimal(n)) == n
  {
    if n >= 10 {
      ValueOfDecimal(n / 10);
      assert Decimal(n)[..|Decimal(n)| - 1] == Decimal(n / 10);
    }
  }

  lemma {:induction false} ValueOfZeroThen(s: string)
    ensures Value("0" + s) == Value(s)
  {
    if s != [] {
      assert ("0" + s)[..|s|] == "0" + s[..|s| - 1];
      ValueOfZeroThen(s[..|s| - 1]);
    }
  }

  lemma PartNamesDiffer(name: string, i: nat, j: nat)
    requires PartName(name, i) == PartName(name, j)
    ensures i == j
  {
    assert PartName(name, i)[|name + INFIX|..] == Padded(i);
    assert PartName(name, j)[|name + INFIX|..] == Padded(j);
    ValueOfPadded(i);
    ValueOfPadded(j);
  }

  lemma ValueOfPadded(n: nat)
    ensures Value(Padded(n)) == n
  {
    var d := Decimal(n);
    ValueOfDecimal(n);
    ValueOfZeroThen(d);
    ValueOfZeroThen("0" + d);
    PaddedIs(n);
  }

  lemma PaddedIs(n: nat)
    ensures var d := Decimal(n); Padded(n) == if n < 10 then "0" + ("0" + d) else if n < 100 then "0" + d else d
  {
    var d := Decimal(n);
    assert "00" + d == "0" + ("0" + d);
    assert "" + d == d;
  }

  // ---- The part a name belongs to ----

  /** Where the infix first stands at or after `i`. */
  function FindInfix(s: string, i: nat): (r: Option<nat>)
    requires i <= |s|
    ensures r.Some? ==> i <= r.value && At(s, r.value, INFIX) && forall k | i <= k < r.value :: !At(s, k, INFIX)
    ensures r == None ==> forall k | i <= k <= |s| :: !At(s, k, INFIX)
    decreases |s| - i
  {
    if At(s, i, INFIX) then Some(i) else if i == |s| then None else FindInfix(s, i + 1)
  }

  function PrefixOf(source: string): string
    requires FindInfix(source, 0).Some?
  {
    source[..FindInfix(source, 0).value]
  }

  lemma InfixStarts(s: string, p: nat)
    ensures At(s, p, INFIX) ==> s[p] == INFIX[0]
  {}

  lemma InfixNeverOverlaps(s: string, r: nat, p: nat)
    requires r < p < r + |INFIX| && At(s, r, INFIX)
    ensures !At(s, p, INFIX)
  {
    assert INFIX[p - r] != INFIX[0];
    AtIndex(s, r, INFIX, p - r);
    InfixStarts(s, p);
  }

  lemma InfixInside(name: string, rest: string, r: nat)
    requires At(name + rest, r, INFIX) && r + |INFIX| <= |name|
    ensures At(name, r, INFIX)
  {
    forall k | 0 <= k < |INFIX| ensures INFIX[k] == name[r + k] { AtIndex(name + rest, r, INFIX, k); }
  }

  /** In a part's name the infix stands right after the archive's name. */
  lemma PartBelongs(name: string, i: nat)
    requires FindInfix(name, 0) == None
    ensures var s := PartName(name, i); FindInfix(s, 0).Some? && PrefixOf(s) == name
  {
    var s := PartName(name, i);
    assert At(s, |name|, INFIX);
    var r := FindInfix(s, 0).value;
    if r < |name| {
      if r + |INFIX| <= |name| {
        assert s == name + (INFIX + Padded(i));
        InfixInside(name, INFIX + Padded(i), r);
      } else {
        InfixNeverOverlaps(s, r, |name|);
      }
    }
  }

  // ---- Names in order ----

  /** `list` holds exactly `names`, in the order of the names. */
  ghost predicate Lists(list: seq<string>, names: set<string>) {
    && (forall i, j | 0 <= i < j < |list| :: Less(list[i], list[j]))
    && (forall x :: x in names <==> x in list)
  }

  /** There is only one such list. */
  lemma {:induction false} ListedOnce(a: seq<string>, b: seq<string>, names: set<string>)
    requires Lists(a, names) && Lists(b, names)
    ensures a == b
  {
    if a == [] {
      if b != [] { SameFirst(b, a, names); }
    } else {
      assert a[0] in names;
      SameFirst(a, b, names);
      ListsRest(a, names);
      ListsRest(b, names);
      ListedOnce(a[1..], b[1..], names - {a[0]});
    }
  }

  lemma SameFirst(a: seq<string>, b: seq<string>, names: set<string>)
    requires Lists(a, names) && Lists(b, names) && a != []
    ensures b != [] && a[0] == b[0]
  {
    assert a[0] in names;
    assert b[0] in names;
    if a[0] != b[0] {
      var i :| 0 <= i < |b| && b[i] == a[0];
      var j :| 0 <= j < |a| && a[j] == b[0];
      assert Less(b[0], a[0]) && Less(a[0], b[0]);
      LessIsTransitive(a[0], b[0], a[0], 0);
      LessIsStrict(a[0], 0);
    }
  }

  lemma ListsRest(a: seq<string>, names: set<string>)
    requires Lists(a, names) && a != []
    ensures Lists(a[1..], names - {a[0]})
  {
    LessIsStrict(a[0], 0);
    forall x ensures x in names - {a[0]} <==> x in a[1..] {
      if x in a[1..] {
        var i :| 0 <= i < |a[1..]| && a[1..][i] == x;
        assert Less(a[0], a[i + 1]);
      }
      if x in names && x != a[0] {
        var i :| 0 <= i < |a| && a[i] == x;
        assert a[1..][i - 1] == x;
      }
    }
  }

  ghost predicate IsSmallest(m: string, names: set<string>) { m in names && forall x | x in names :: x == m || Less(m, x) }

  lemma {:induction false} SmallestExists(names: set<string>) returns (m: string)
    requires names != {}
    ensures IsSmallest(m, names)
    decreases |names|
  {
    var x :| x in names;
    var others := names - {x};
    assert names == {x} + others;
    if others == {} {
      m := x;
    } else {
      assert |others| < |names|;
      m := SmallestExists(others);
      LessIsTotal(x, m, 0);
      forall y | y in names ensures y == x || y == m || Less(m, y) { assert y == x || y in others; }
      if Less(x, m) {
        forall y | y in names ensures y == x || Less(x, y) {
          if y != x && y != m { LessIsTransitive(x, m, y, 0); }
        }
        m := x;
      }
    }
  }

  lemma HasSmallest(names: set<string>)
    requires names != {}
    ensures exists m :: IsSmallest(m, names)
  {
    var m := SmallestExists(names);
  }

  ghost function SortedNames(names: set<string>): (list: seq<string>)
    ensures Lists(list, names)
    decreases |names|
  {
    if names == {} then [] else
      HasSmallest(names);
      var m: string :| IsSmallest(m, names);
      assert |names - {m}| < |names|;
      var rest := SortedNames(names - {m});
      ListsFrom(m, rest, names);
      [m] + rest
  }

  lemma ListsFrom(m: string, rest: seq<string>, names: set<string>)
    requires IsSmallest(m, names) && Lists(rest, names - {m})
    ensures Lists([m] + rest, names)
  {
    var list := [m] + rest;
    forall i, j | 0 <= i < j < |list| ensures Less(list[i], list[j]) {
      if i == 0 { assert list[j] == rest[j - 1] && rest[j - 1] in names - {m}; }
    }
    forall x ensures x in names <==> x in list { assert x in list <==> x == m || x in rest; }
  }

  // ---- Volumes ----

  /** Reading `volume` bytes at a time from position `i`. */
  function VolumesFrom(bytes: Bytes, volume: nat, i: nat): seq<Bytes>
    requires volume > 0 && i <= |bytes|
    decreases |bytes| - i
  {
    if i == |bytes| then [] else
      var e := Min(i + volume, |bytes|);
      [bytes[i..e]] + VolumesFrom(bytes, volume, e)
  }

  function Volumes(bytes: Bytes, volume: nat): seq<Bytes>
    requires volume > 0
  {
    VolumesFrom(bytes, volume, 0)
  }

  predicate AreFull(parts: seq<Bytes>, volume: nat) {
    forall i | 0 <= i < |parts| :: 0 < |parts[i]| <= volume && (i < |parts| - 1 ==> |parts[i]| == volume)
  }

  /** The volumes make up the bytes, and all but the last are full. */
  lemma {:induction false} VolumesMean(bytes: Bytes, volume: nat, i: nat)
    requires volume > 0 && i <= |bytes|
    ensures Concat(VolumesFrom(bytes, volume, i)) == bytes[i..] && AreFull(VolumesFrom(bytes, volume, i), volume)
    decreases |bytes| - i
  {
    if i < |bytes| {
      var e := Min(i + volume, |bytes|);
      VolumesMean(bytes, volume, e);
      var rest := VolumesFrom(bytes, volume, e);
      assert ([bytes[i..e]] + rest)[1..] == rest;
      assert bytes[i..] == bytes[i..e] + bytes[e..];
      if e == |bytes| { assert rest == []; }
    }
  }

  /** Nothing else is cut into full parts like that. */
  lemma {:induction false} FullPartsAreVolumes(parts: seq<Bytes>, volume: nat, before: Bytes)
    requires volume > 0 && AreFull(parts, volume)
    ensures VolumesFrom(before + Concat(parts), volume, |before|) == parts
    decreases |parts|
  {
    var bytes := before + Concat(parts);
    if parts != [] {
      FullPartsAreVolumes(parts[1..], volume, before + parts[0]);
      assert before + parts[0] + Concat(parts[1..]) == bytes;
      if |parts| == 1 { assert Concat(parts[1..]) == []; }
      var e := Min(|before| + volume, |bytes|);
      assert e == |before| + |parts[0]|;
      assert bytes[|before|..e] == parts[0];
    }
  }

  // ---- A directory of files ----

  /** The archive is gone, its parts are there, and everything else is as it was. */
  ghost predicate WrittenAs(before: map<string, Bytes>, after: map<string, Bytes>, name: string, parts: seq<Bytes>) {
    && name !in after
    && (forall i | 1 <= i <= |parts| :: PartName(name, i) in after && after[PartName(name, i)] == parts[i - 1])
    && (forall x | x != name && (forall i | 1 <= i <= |parts| :: x != PartName(name, i)) ::
          (x in after <==> x in before) && (x in after ==> after[x] == before[x]))
  }

  /** The files after the first `k` parts have been written. */
  function WithParts(files: map<string, Bytes>, name: string, parts: seq<Bytes>, k: nat): map<string, Bytes>
    requires k <= |parts|
  {
    if k == 0 then files else WithParts(files, name, parts, k - 1)[PartName(name, k) := parts[k - 1]]
  }

  function SplitFiles(files: map<string, Bytes>, name: string, volume: nat): map<string, Bytes>
    requires name in files && volume > 0
  {
    if |files[name]| <= volume then files
    else
      var parts := Volumes(files[name], volume);
      WithParts(files, name, parts, |parts|) - {name}
  }

  /** The files whose names begin like those of the archive's parts. */
  function PartsOf(files: map<string, Bytes>, name: string): set<string> {
    set x | x in files && At(x, 0, name + INFIX)
  }

  function ReadAll(files: map<string, Bytes>, list: seq<string>): seq<Bytes>
    requires forall x | x in list :: x in files
  {
    seq(|list|, i requires 0 <= i < |list| => files[list[i]])
  }

  /** What recombining gives: the archive itself, or its parts in the order of their names. */
  ghost function Recombined(files: map<string, Bytes>, source: string): Bytes
    requires source in files
  {
    if FindInfix(source, 0) == None then files[source]
    else
      var parts := SortedNames(PartsOf(files, PrefixOf(source)));
      assert forall x | x in parts :: x in PartsOf(files, PrefixOf(source));
      Concat(ReadAll(files, parts))
  }

  class Directory {
    var files: map<string, Bytes>

    constructor (files: map<string, Bytes>)
      ensures this.files == files
    {
      this.files := files;
    }

    /** Write the volumes as numbered parts and remove the archive; a small archive stays as it is. */
    method Split(name: string, megabytes: int) returns (paths: seq<string>)
      requires name in files
      modifies this
      ensures files == SplitFiles(old(files), name, Max(1, megabytes) * 1024 * 1024)
      ensures var parts := Volumes(old(files)[name], Max(1, megabytes) * 1024 * 1024);
        if |old(files)[name]| <= Max(1, megabytes) * 1024 * 1024 then paths == [name]
        else |paths| == |parts| && forall i | 0 <= i < |paths| :: paths[i] == PartName(name, i + 1)
    {
      var volume := VolumeSize(megabytes);
      var bytes := files[name];
      if |bytes| <= volume { return [name]; }
      ghost var parts := Volumes(bytes, volume);
      paths := [];
      var offset, index := 0, 1;
      while offset < |bytes|
        invariant offset <= |bytes| && index == |paths| + 1 && |paths| <= |parts|
        invariant parts[|paths|..] == VolumesFrom(bytes, volume, offset)
        invariant files == WithParts(old(files), name, parts, |paths|)
        invariant forall i | 0 <= i < |paths| :: paths[i] == PartName(name, i + 1)
      {
        var chunk := bytes[offset..Min(offset + volume, |bytes|)];
        assert parts[|paths|..][0] == chunk;
        assert parts[|paths| + 1..] == parts[|paths|..][1..];
        files := files[PartName(name, index) := chunk];
        paths := paths + [PartName(name, index)];
        offset, index := offset + |chunk|, index + 1;
      }
      files := files - {name};
    }

    method SortedParts(name: string) returns (parts: seq<string>)
      ensures parts == SortedNames(PartsOf(files, name))
    {
      ghost var all := PartsOf(files, name);
      var remaining := PartsOf(files, name);
      parts := [];
      while remaining != {}
        invariant remaining <= all && (forall x :: x in all <==> x in remaining || x in parts)
        invariant forall i, j | 0 <= i < j < |parts| :: Less(parts[i], parts[j])
        invariant forall i, x | 0 <= i < |parts| && x in remaining :: Less(parts[i], x)
        decreases |remaining|
      {
        ghost var smallest := SmallestExists(remaining);
        var m :| m in remaining && forall x | x in remaining :: x == m || Less(m, x);
        parts, remaining := parts + [m], remaining - {m};
      }
      ListedOnce(parts, SortedNames(all), all);
    }

    method Recombine(source: string) returns (combined: Bytes)
      requires source in files
      ensures combined == Recombined(files, source)
    {
      var found := FindInfix(source, 0);
      if found == None { return files[source]; }
      var parts := SortedParts(PrefixOf(source));
      combined := [];
      ghost var contents := ReadAll(files, parts);
      for i := 0 to |parts|
        invariant combined == Concat(contents[..i])
      {
        ConcatAppend(contents[..i], [contents[i]]);
        assert contents[..i] + [contents[i]] == contents[..i + 1];
        combined := combined + files[parts[i]];
      }
      assert contents[..|parts|] == contents;
    }
  }

  // ---- Recombining undoes splitting ----

  lemma PartsWritten(files: map<string, Bytes>, name: string, parts: seq<Bytes>, k: nat)
    requires k <= |parts|
    ensures var after := WithParts(files, name, parts, k);
      && (forall i | 1 <= i <= k :: PartName(name, i) in after && after[PartName(name, i)] == parts[i - 1])
      && (forall x | x in after && x !in files :: exists i :: 1 <= i <= k && x == PartName(name, i))
      && (forall x | x in files :: x in after && ((forall i | 1 <= i <= k :: x != PartName(name, i)) ==> after[x] == files[x]))
  {
    var after := WithParts(files, name, parts, k);
    forall i | 1 <= i <= k ensures PartName(name, i) in after && after[PartName(name, i)] == parts[i - 1] {
      PartWritten(files, name, parts, k, i);
    }
    forall x | x in files || x in after
      ensures (exists i :: 1 <= i <= k && x == PartName(name, i)) || (x in files && x in after && after[x] == files[x])
    {
      if forall i | 1 <= i <= k :: x != PartName(name, i) { OtherStays(files, name, parts, k, x); }
    }
  }

  /** After a split only the parts have changed, and the archive is gone. */
  lemma SplitMeans(files: map<string, Bytes>, name: string, volume: nat)
    requires name in files && 0 < volume < |files[name]|
    ensures WrittenAs(files, SplitFiles(files, name, volume), name, Volumes(files[name], volume))
  {
    var parts := Volumes(files[name], volume);
    PartsWritten(files, name, parts, |parts|);
    forall i | 1 <= i <= |parts| ensures PartName(name, i) != name { assert |PartName(name, i)| > |name|; }
  }

  lemma {:induction false} PartWritten(files: map<string, Bytes>, name: string, parts: seq<Bytes>, k: nat, i: nat)
    requires 1 <= i <= k <= |parts|
    ensures var after := WithParts(files, name, parts, k); PartName(name, i) in after && after[PartName(name, i)] == parts[i - 1]
  {
    if i < k {
      PartWritten(files, name, parts, k - 1, i);
      if PartName(name, i) == PartName(name, k) { PartNamesDiffer(name, i, k); }
    }
  }

  lemma {:induction false} OtherStays(files: map<string, Bytes>, name: string, parts: seq<Bytes>, k: nat, x: string)
    requires k <= |parts| && forall i | 1 <= i <= k :: x != PartName(name, i)
    ensures var after := WithParts(files, name, parts, k); (x in after <==> x in files) && (x in files ==> after[x] == files[x])
  {
    if k > 0 { OtherStays(files, name, parts, k - 1, x); }
  }

  function Names(name: string, n: nat): seq<string> { seq(n, i requires 0 <= i < n => PartName(name, i + 1)) }

  lemma PartIsNamed(name: string, n: nat, i: nat)
    requires 1 <= i <= n
    ensures PartName(name, i) in Names(name, n) && PartName(name, i) != name && At(PartName(name, i), 0, name + INFIX)
  {
    assert Names(name, n)[i - 1] == PartName(name, i);
    assert |PartName(name, i)| > |name|;
  }

  /** After a split the numbered parts match, and what matched before; what is not overwritten is as it was. */
  lemma PartsAfter(files: map<string, Bytes>, name: string, volume: nat)
    requires volume > 0 && name in files && |files[name]| > volume
    ensures var parts := Volumes(files[name], volume); var after := SplitFiles(files, name, volume);
      && (forall x :: x in PartsOf(after, name) <==> x in PartsOf(files, name) || x in Names(name, |parts|))
      && (forall i | 1 <= i <= |parts| :: PartName(name, i) in after && after[PartName(name, i)] == parts[i - 1])
      && (forall x | x in Leftovers(files, name, |parts|) :: x in after && after[x] == files[x])
  {
    var parts := Volumes(files[name], volume);
    var n := |parts|;
    var after := SplitFiles(files, name, volume);
    PartsWritten(files, name, parts, n);
    forall i | 1 <= i <= n
      ensures PartName(name, i) in Names(name, n) && PartName(name, i) != name && At(PartName(name, i), 0, name + INFIX)
    {
      PartIsNamed(name, n, i);
    }
    forall x ensures x in PartsOf(after, name) <==> x in PartsOf(files, name) || x in Names(name, n) {
      if x in PartsOf(files, name) { assert x != name; }
    }
  }

  /** The matching files that a split into `n` parts does not write. */
  function Leftovers(files: map<string, Bytes>, name: string, n: nat): set<string> {
    set x | x in PartsOf(files, name) && x !in Names(name, n)
  }

  lemma PartsFound(files: map<string, Bytes>, name: string, volume: nat)
    requires volume > 0 && name in files && |files[name]| > volume && PartsOf(files, name) == {}
    ensures var parts := Volumes(files[name], volume); var after := SplitFiles(files, name, volume);
      && (forall x :: x in PartsOf(after, name) <==> x in Names(name, |parts|))
      && (forall i | 1 <= i <= |parts| :: PartName(name, i) in after && after[PartName(name, i)] == parts[i - 1])
  {
    PartsAfter(files, name, volume);
  }

  function KeepOnly(list: seq<string>, names: seq<string>): seq<string> {
    if list == [] then [] else (if list[0] in names then [list[0]] else []) + KeepOnly(list[1..], names)
  }

  predicate InOrder(list: seq<string>) { forall i, j | 0 <= i < j < |list| :: Less(list[i], list[j]) }

  lemma {:induction false} KeepMeans(list: seq<string>, names: seq<string>)
    ensures forall x :: x in KeepOnly(list, names) <==> x in list && x in names
    ensures InOrder(list) ==> InOrder(KeepOnly(list, names))
  {
    if list != [] {
      var rest := list[1..];
      assert forall x :: x in list <==> x == list[0] || x in rest;
      KeepMeans(rest, names);
      if InOrder(list) && list[0] in names { FirstKept(list, names); }
    }
  }

  lemma FirstKept(list: seq<string>, names: seq<string>)
    requires list != [] && InOrder(list) && InOrder(KeepOnly(list[1..], names))
    requires forall x :: x in KeepOnly(list[1..], names) ==> x in list[1..]
    ensures InOrder([list[0]] + KeepOnly(list[1..], names))
  {
    var kept := KeepOnly(list[1..], names);
    forall j | 0 <= j < |kept| ensures Less(list[0], kept[j]) {
      assert kept[j] in list[1..];
      var k :| 0 <= k < |list[1..]| && list[1..][k] == kept[j];
      assert Less(list[0], list[k + 1]);
    }
  }

  /** The files of the list that are not named are empty. */
  predicate OthersEmpty(files: map<string, Bytes>, list: seq<string>, names: seq<string>)
    requires forall x | x in list :: x in files
  {
    forall x | x in list && x !in names :: files[x] == []
  }

  /** Leaving files out leaves the bytes as they are if and only if those files are empty. */
  lemma {:induction false} KeptBytes(files: map<string, Bytes>, list: seq<string>, names: seq<string>)
    requires forall x | x in list :: x in files
    ensures forall x | x in KeepOnly(list, names) :: x in files
    ensures var all, kept := Concat(ReadAll(files, list)), Concat(ReadAll(files, KeepOnly(list, names)));
      |kept| <= |all| && (|kept| == |all| <==> OthersEmpty(files, list, names)) && (|kept| == |all| ==> kept == all)
  {
    KeepMeans(list, names);
    if list != [] {
      var first, rest := list[0], list[1..];
      assert list == [first] + rest;
      KeptBytes(files, rest, names);
      KeepMeans(rest, names);
      var kept := KeepOnly(rest, names);
      ReadFirst(files, first, rest);
      ReadFirst(files, first, kept);
      KeptFirst(files[first], first in names, Concat(ReadAll(files, rest)), Concat(ReadAll(files, kept)), OthersEmpty(files, rest, names));
      OthersEmptyStep(files, first, rest, names);
      assert KeepOnly(list, names) == if first in names then [first] + kept else kept;
    }
  }

  lemma OthersEmptyStep(files: map<string, Bytes>, first: string, rest: seq<string>, names: seq<string>)
    requires first in files && forall x | x in rest :: x in files
    ensures forall x | x in [first] + rest :: x in files
    ensures OthersEmpty(files, [first] + rest, names) <==>
            OthersEmpty(files, rest, names) && (first in names || files[first] == [])
  {
    assert forall x :: x in [first] + rest <==> x == first || x in rest;
  }

  lemma KeptFirst(x: Bytes, stays: bool, a: Bytes, k: Bytes, empty: bool)
    requires |k| <= |a| && (|k| == |a| <==> empty) && (|k| == |a| ==> k == a)
    ensures var kept := if stays then x + k else k;
      && |kept| <= |x + a| && (|kept| == |x + a| <==> empty && (stays || x == [])) && (|kept| == |x + a| ==> kept == x + a)
  {}

  lemma ReadFirst(files: map<string, Bytes>, x: string, rest: seq<string>)
    requires x in files && forall y | y in rest :: y in files
    ensures forall y | y in [x] + rest :: y in files
    ensures Concat(ReadAll(files, [x] + rest)) == files[x] + Concat(ReadAll(files, rest))
  {
    assert ReadAll(files, [x] + rest)[1..] == ReadAll(files, rest);
  }

  /**
   * With at most 999 parts the archive comes back, from any part, if and only if every matching
   * file that the split did not write is empty: older parts with its numbers do no harm, and
   * those of an archive that had more parts do.
   */
  lemma RecombinesOverOldPartsIff(files: map<string, Bytes>, name: string, volume: nat, i: nat)
    requires volume > 0 && name in files && FindInfix(name, 0) == None && |files[name]| > volume
    requires var n := |Volumes(files[name], volume)|; n <= 999 && 1 <= i <= n
    ensures var after := SplitFiles(files, name, volume);
      && PartName(name, i) in after
      && (Recombined(after, PartName(name, i)) == files[name] <==>
            forall x | x in Leftovers(files, name, |Volumes(files[name], volume)|) :: files[x] == [])
  {
    var after := SplitFiles(files, name, volume);
    var parts := Volumes(files[name], volume);
    var n := |parts|;
    PartsAfter(files, name, volume);
    PartBelongs(name, i);
    var list := SortedNames(PartsOf(after, name));
    forall x | x in list ensures x in after { assert x in PartsOf(after, name); }
    var names := Names(name, n);
    KeptBytes(after, list, names);
    KeptAreNames(name, n, list, PartsOf(after, name));
    NamesHold(after, name, parts);
    VolumesMean(files[name], volume, 0);
    forall x ensures x in list && x !in names <==> x in Leftovers(files, name, n) { assert x in list <==> x in PartsOf(after, name); }
  }

  lemma KeptAreNames(name: string, n: nat, list: seq<string>, all: set<string>)
    requires n <= 999 && Lists(list, all) && forall x | x in Names(name, n) :: x in all
    ensures KeepOnly(list, Names(name, n)) == Names(name, n)
  {
    var names := set x | x in Names(name, n);
    KeepMeans(list, Names(name, n));
    NamesListed(name, n, names);
    ListedOnce(KeepOnly(list, Names(name, n)), Names(name, n), names);
  }

  lemma NamesHold(after: map<string, Bytes>, name: string, parts: seq<Bytes>)
    requires forall i | 1 <= i <= |parts| :: PartName(name, i) in after && after[PartName(name, i)] == parts[i - 1]
    ensures (forall x | x in Names(name, |parts|) :: x in after) && ReadAll(after, Names(name, |parts|)) == parts
  {
    forall k | 0 <= k < |parts| ensures Names(name, |parts|)[k] in after && after[Names(name, |parts|)[k]] == parts[k] {
      assert Names(name, |parts|)[k] == PartName(name, k + 1);
    }
  }

  /** In particular with no other file that looks like a part. */
  lemma RecombineUndoesSplit(files: map<string, Bytes>, name: string, volume: nat, i: nat)
    requires volume > 0 && name in files && FindInfix(name, 0) == None
    requires var n := |Volumes(files[name], volume)|; n <= 999 && 1 <= i <= n && Leftovers(files, name, n) == {}
    ensures var after := SplitFiles(files, name, volume);
      var source := if |files[name]| <= volume then name else PartName(name, i);
      source in after && Recombined(after, source) == files[name]
  {
    if |files[name]| > volume { RecombinesOverOldPartsIff(files, name, volume, i); }
  }

  lemma NamesListed(name: string, n: nat, names: set<string>)
    requires n <= 999 && forall x :: x in names <==> x in Names(name, n)
    ensures Lists(Names(name, n), names)
  {
    forall i, j | 0 <= i < j < n ensures Less(Names(name, n)[i], Names(name, n)[j]) {
      PartNamesLess(name, i + 1, j + 1);
      NumbersInOrder(i + 1, j + 1);
    }
  }

  // ---- More parts than three digits can number ----

  lemma {:induction false} Distinct(s: seq<string>)
    ensures |set x | x in s| <= |s|
    ensures (forall i, j | 0 <= i < j < |s| :: s[i] != s[j]) ==> |set x | x in s| == |s|
  {
    if s != [] {
      Distinct(s[1..]);
      assert (set x | x in s) == {s[0]} + (set x | x in s[1..]);
    }
  }

  lemma NoMoreThan(a: seq<string>, b: seq<string>)
    requires (forall i, j | 0 <= i < j < |a| :: a[i] != a[j]) && forall x | x in a :: x in b
    ensures |a| <= |b|
  {
    Distinct(a);
    Distinct(b);
    var inA, inB := set x | x in a, set x | x in b;
    assert inB == inA + (inB - inA);
  }

  /** However many parts there are, that of number 1000 is among the first 101 names. */
  lemma ThousandIsEarly(list: seq<string>, name: string, n: nat, p: nat)
    requires (forall i, j | 0 <= i < j < |list| :: Less(list[i], list[j])) && forall x | x in list :: x in Names(name, n)
    requires p < |list| && list[p] == PartName(name, 1000)
    ensures p <= 100
  {
    forall i, j | 0 <= i < j < p ensures list[..p][i] != list[..p][j] { LessIsStrict(list[i], 0); }
    forall x | x in list[..p] ensures x in Names(name, 100) {
      assert x in list;
      var i :| 0 <= i < n && Names(name, n)[i] == x;
      PartNamesLess(name, i + 1, 1000);
      ThousandComesEarly(i + 1);
      assert Names(name, 100)[i] == x;
    }
    NoMoreThan(list[..p], Names(name, 100));
  }

  /** An archive of `n` volumes, only the 1000th of which is not all zeros. */
  function Marked(volume: nat, n: nat): seq<Bytes> {
    seq(n, i => seq(volume, k => if i == 999 then 1 else 0))
  }

  /** Its parts, read in the order of their names, are something else. */
  lemma MarkedIsScrambled(name: string, volume: nat, n: nat)
    requires volume > 0 && FindInfix(name, 0) == None && n >= 1000
    ensures var bytes := Concat(Marked(volume, n)); var after := SplitFiles(map[name := bytes], name, volume);
      |Volumes(bytes, volume)| == n && PartName(name, 1) in after && Recombined(after, PartName(name, 1)) != bytes
  {
    var parts := Marked(volume, n);
    var bytes := Concat(parts);
    var files := map[name := bytes];
    FullPartsAreVolumes(parts, volume, []);
    assert [] + bytes == bytes;
    var after := SplitFiles(files, name, volume);
    PartsFound(files, name, volume);
    PartBelongs(name, 1);
    var list := SortedNames(PartsOf(after, name));
    ScrambledAt(after, name, volume, n, list);
  }

  lemma ScrambledAt(after: map<string, Bytes>, name: string, volume: nat, n: nat, list: seq<string>)
    requires volume > 0 && n >= 1000 && Lists(list, PartsOf(after, name))
    requires forall x :: x in PartsOf(after, name) <==> x in Names(name, n)
    requires forall i | 1 <= i <= n :: PartName(name, i) in after && after[PartName(name, i)] == Marked(volume, n)[i - 1]
    ensures (forall x | x in list :: x in after) && Concat(ReadAll(after, list)) != Concat(Marked(volume, n))
  {
    var parts := Marked(volume, n);
    forall x | x in list ensures x in after { assert x in PartsOf(after, name); }
    var contents := ReadAll(after, list);
    forall k | 0 <= k < |contents| ensures |contents[k]| == volume && (contents[k][0] == 1 ==> list[k] == PartName(name, 1000)) {
      assert list[k] in Names(name, n);
      var i :| 0 <= i < n && Names(name, n)[i] == list[k];
      assert list[k] == PartName(name, i + 1) && contents[k] == parts[i];
    }
    if Concat(contents) == Concat(parts) {
      FullPartsAreVolumes(contents, volume, []);
      FullPartsAreVolumes(parts, volume, []);
      assert contents == parts;
      assert contents[999][0] == 1;
      ThousandIsEarly(list, name, n, 999);
    }
  }

  /** So splitting into `n` parts can be undone for every archive if and only if `n` is at most 999. */
  lemma RecombinesIff(name: string, volume: nat, n: nat)
    requires volume > 0 && FindInfix(name, 0) == None && n >= 2
    ensures (forall bytes | |Volumes(bytes, volume)| == n :: Restored(name, bytes, volume)) <==> n <= 999
  {
    if n <= 999 {
      forall bytes | |Volumes(bytes, volume)| == n ensures Restored(name, bytes, volume) {
        assert |bytes| <= volume ==> VolumesFrom(bytes, volume, |bytes|) == [];
        RecombineUndoesSplit(map[name := bytes], name, volume, 1);
      }
    } else {
      MarkedIsScrambled(name, volume, n);
      assert !Restored(name, Concat(Marked(volume, n)), volume);
    }
  }

  /** Split alone in a directory, the archive comes back from its first part. */
  ghost predicate Restored(name: string, bytes: Bytes, volume: nat)
    requires volume > 0
  {
    var after := SplitFiles(map[name := bytes], name, volume);
    PartName(name, 1) in after && Recombined(after, PartName(name, 1)) == bytes
  }
}
