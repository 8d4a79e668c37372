/**
 * Which workspace package a first-party file belongs to, as the tagging statement
 * decides it: prefix lengths are counted in bytes, `substr` counts characters, and
 * the prefix has slashes where the directory's name has backslashes.
 */
module Tagging {
  import opened Wrappers
  import opened Utf8
  import opened Publication
  import opened Tables
  import opened Captures
  import Sorting

  const SLASH: Byte := 0x2F
  const BACKSLASH: Byte := 0x5C

  // ---------------------------------------------------------------- paths

  /** The first `n` characters: `substr(t, 1, n)`. */
  function TakeChars(t: Text, n: nat): (r: Text)
    ensures |r| <= |t|
  {
    if t == [] then []
    else if IsContinuation(t[0]) then [t[0]] + TakeChars(t[1..], n)
    else if n == 0 then []
    else [t[0]] + TakeChars(t[1..], n - 1)
  }

  /** Everything behind the first `n` characters: `substr(t, n + 1)`. */
  function DropChars(t: Text, n: nat): (r: Text)
    ensures |r| <= |t|
  {
    if t == [] then []
    else if IsContinuation(t[0]) then DropChars(t[1..], n)
    else if n == 0 then t
    else DropChars(t[1..], n - 1)
  }

  function Chars(t: seq<Byte>): (n: nat)
    ensures n <= |t|
  {
    if t == [] then 0 else Chars(t[1..]) + (if IsContinuation(t[0]) then 0 else 1)
  }

  predicate AllAscii(t: seq<Byte>) {
    forall i :: 0 <= i < |t| ==> t[i] < 0x80
  }

  function Slashes(t: seq<Byte>): nat {
    if t == [] then 0 else Slashes(t[1..]) + (if t[0] == SLASH then 1 else 0)
  }

  /** A directory with the separator that follows it in the paths below it. */
  function Directory(d: seq<Byte>): seq<Byte> {
    if d != [] && d[|d| - 1] == SLASH then d else d + [SLASH]
  }

  /** `Path::strip_prefix`. */
  function Relative(base: Text, root: Text): Option<Text> {
    if root == base then Some([])
    else if Directory(base) <= root then Some(root[|Directory(base)|..])
    else None
  }

  /** `replace('\\', "/")`. */
  function Slashed(t: Text): (r: Text)
    ensures |r| == |t|
  {
    if t == [] then [] else [if t[0] == BACKSLASH then SLASH else t[0]] + Slashed(t[1..])
  }

  /** The path that the tagging statement compares file paths with. */
  function Prefix(base: Text, root: Text): Text
    requires Relative(base, root).Some?
  {
    Slashed(Relative(base, root).value)
  }

  /** The path names the directory or goes on below it. */
  predicate Below(prefix: seq<Byte>, p: Text) {
    p == prefix || prefix + [SLASH] <= p
  }

  /** The file lies in the directory; every file lies in the repository root. */
  predicate InDirectory(relative: Text, p: Text) {
    relative == [] || Below(relative, p)
  }

  /** What the statement tests instead. */
  predicate Owns(prefix: Text, p: Text) {
    p == prefix || TakeChars(p, |prefix| + 1) == prefix + [SLASH]
  }

  function PackagePath(prefix: Text, p: Text): Text {
    if p == prefix then [] else DropChars(p, |prefix| + 1)
  }

  // ---------------------------------------------------------------- owners

  /** The number of path components behind the root directory. */
  function Depth(i: Instance): nat {
    if i.root == [SLASH] then 0 else Slashes(i.root)
  }

  predicate NotDeeper(a: Instance, b: Instance) {
    Depth(a) <= Depth(b)
  }

  function Shallow(packages: seq<Instance>): seq<Instance> {
    Sorting.Sort(packages, NotDeeper)
  }

  predicate PackageOwns(base: Text, i: Instance, p: Text) {
    Relative(base, i.root).Some? && Owns(Prefix(base, i.root), p)
  }

  predicate PackageContains(base: Text, i: Instance, p: Text) {
    Relative(base, i.root).Some? && InDirectory(Relative(base, i.root).value, p)
  }

  /** The package whose tagging statement writes the row last. */
  function LastOwner(base: Text, list: seq<Instance>, p: Text): (r: Option<Instance>)
    ensures r.Some? ==> r.value in list && PackageOwns(base, r.value, p)
    ensures r.None? ==> forall i :: i in list ==> !PackageOwns(base, i, p)
  {
    if list == [] then None
    else if PackageOwns(base, list[|list| - 1], p) then Some(list[|list| - 1])
    else LastOwner(base, list[..|list| - 1], p)
  }

  function TagWith(base: Text, list: seq<Instance>, p: Text, row: FileRow): FileRow {
    match LastOwner(base, list, p)
    case None => Untagged(row)
    case Some(i) =>
      row.(origin := Workspace, package := Some(i.root), packagePath := Some(PackagePath(Prefix(base, i.root), p)))
  }

  function TaggedWith(base: Text, list: seq<Instance>, files: map<Text, FileRow>): map<Text, FileRow> {
    map p | p in files :: if files[p].origin.Dependency? then files[p] else TagWith(base, list, p, files[p])
  }

  // ---------------------------------------------------------------- what the statement matches

  lemma {:induction false} TakeAscii(t: Text, n: nat)
    requires n <= |t| && AllAscii(t[..n]) && (n < |t| ==> !IsContinuation(t[n]))
    ensures TakeChars(t, n) == t[..n] && DropChars(t, n) == t[n..]
  {
    if n > 0 {
      assert t[..n][0] == t[0];
      assert t[1..][..n - 1] == t[..n][1..];
      assert AllAscii(t[..n][1..]);
      TakeAscii(t[1..], n - 1);
      assert t[..n] == [t[0]] + t[1..][..n - 1];
    }
  }

  lemma {:induction false} TakeIsPrefix(t: Text, n: nat)
    ensures TakeChars(t, n) <= t
    ensures TakeChars(t, n) == t || Chars(TakeChars(t, n)) == n
  {
    if t != [] {
      var m := if IsContinuation(t[0]) then n else if n == 0 then 0 else n - 1;
      TakeIsPrefix(t[1..], m);
      var r := TakeChars(t[1..], m);
      assert ([t[0]] + r)[1..] == r;
    }
  }

  lemma {:induction false} AsciiByChars(t: seq<Byte>)
    ensures Chars(t) == |t| ==> forall i :: 0 <= i < |t| ==> !IsContinuation(t[i])
  {
    if t != [] {
      AsciiByChars(t[1..]);
    }
  }

  /** In UTF-8 text an ASCII byte is followed by the start of a character. */
  lemma {:induction false} AfterAscii(t: seq<Byte>, i: nat)
    requires Valid(t) && i + 1 < |t| && t[i] < 0x80
    ensures !IsContinuation(t[i + 1])
  {
    var w := CharWidth(t[0]);
    if i >= w {
      AfterAscii(t[w..], i - w);
    } else if i == 0 && w < |t| {
      assert t[w..][0] == t[w];
      assert CharWidth(t[w..][0]) > 0;
    }
  }

  /** Text without continuation bytes is ASCII. */
  lemma {:induction false} NoContinuationIsAscii(t: seq<Byte>)
    requires Valid(t) && forall i :: 0 <= i < |t| ==> !IsContinuation(t[i])
    ensures AllAscii(t)
  {
    if t != [] {
      var w := CharWidth(t[0]);
      assert 1 < |t| ==> !IsContinuation(t[1]);
      NoContinuationIsAscii(t[1..]);
      forall i | 0 <= i < |t|
        ensures t[i] < 0x80
      {
        assert i == 0 || t[1..][i - 1] == t[i];
      }
    }
  }

  /**
   * A file below a package is matched exactly if the package's path is ASCII: byte
   * length and character length of any other path differ.
   */
  lemma OwnsIff(prefix: Text, p: Text)
    requires Valid(p) && Valid(prefix)
    ensures Owns(prefix, p) <==> Below(prefix, p) && (AllAscii(prefix) || p == prefix || p == prefix + [SLASH])
  {
    var n := |prefix| + 1;
    var s := prefix + [SLASH];
    if AllAscii(prefix) {
      if s <= p {
        assert p[..n] == s;
        if n < |p| {
          assert p[n - 1] == SLASH;
          AfterAscii(p, n - 1);
        }
        TakeAscii(p, n);
      } else {
        TakeIsPrefix(p, n);
      }
    } else {
      TakeIsPrefix(p, n);
      if TakeChars(p, n) == s && p != s {
        AsciiByChars(s);
        assert forall i :: 0 <= i < |prefix| ==> prefix[i] == s[i];
        NoContinuationIsAscii(prefix);
      }
      if p == s {
        TakeAll(p, n);
      }
    }
  }

  lemma {:induction false} TakeAll(t: Text, n: nat)
    requires Chars(t) <= n
    ensures TakeChars(t, n) == t
  {
    if t != [] {
      var m := if IsContinuation(t[0]) then n else n - 1;
      TakeAll(t[1..], m);
    }
  }

  /** Tagging fails for a file in a directory that is not named in ASCII: `é/a`. */
  lemma NonAsciiPackageIsMissed()
    ensures Valid([0xC3, 0xA9, SLASH, 0x61])
    ensures Below([0xC3, 0xA9], [0xC3, 0xA9, SLASH, 0x61])
    ensures !Owns([0xC3, 0xA9], [0xC3, 0xA9, SLASH, 0x61])
  {
    var prefix: Text, p: Text := [0xC3, 0xA9], [0xC3, 0xA9, SLASH, 0x61];
    assert p[2..] == [SLASH, 0x61] && p[2..][1..] == [0x61] && p[2..][1..][1..] == [];
    assert Valid(p[2..][1..]) && Valid(p[2..]);
    assert prefix + [SLASH] == p[..3];
    assert prefix[2..] == [];
    assert Valid(prefix);
    OwnsIff(prefix, p);
    assert !AllAscii(prefix) by {
      assert prefix[0] >= 0x80;
    }
  }

  // ---------------------------------------------------------------- directories with backslashes

  predicate HasBackslash(t: Text) {
    BACKSLASH in t
  }

  lemma {:induction false} SlashedAt(t: Text, k: nat)
    requires k < |t|
    ensures Slashed(t)[k] == if t[k] == BACKSLASH then SLASH else t[k]
  {
    if k > 0 {
      SlashedAt(t[1..], k - 1);
    }
  }

  /** The prefix is the path itself exactly if it has no backslash. */
  lemma SlashedIsSameIff(t: Text)
    ensures Slashed(t) == t <==> !HasBackslash(t)
    ensures AllAscii(Slashed(t)) <==> AllAscii(t)
  {
    forall k | 0 <= k < |t|
      ensures Slashed(t)[k] == if t[k] == BACKSLASH then SLASH else t[k]
    {
      SlashedAt(t, k);
    }
  }

  lemma {:induction false} SlashedValid(t: Text)
    requires Valid(t)
    ensures Valid(Slashed(t))
  {
    if t != [] {
      var w, r := CharWidth(t[0]), Slashed(t);
      SlashedValid(t[w..]);
      forall k | 0 <= k < |t|
        ensures r[k] == if t[k] == BACKSLASH then SLASH else t[k]
      {
        SlashedAt(t, k);
      }
      forall k | 0 <= k < |t| - w
        ensures r[w..][k] == Slashed(t[w..])[k]
      {
        SlashedAt(t[w..], k);
      }
      assert r[w..] == Slashed(t[w..]);
    }
  }

  /** The byte length of the prefix is its length in characters, or none are left over. */
  predicate Countable(relative: Text, p: Text) {
    AllAscii(relative) || p == Slashed(relative) || p == Slashed(relative) + [SLASH]
  }

  /** The directory is matched by its own name. */
  predicate Reached(relative: Text, p: Text) {
    relative != [] && !HasBackslash(relative) && Countable(relative, p)
  }

  /** The file lies elsewhere, where the directory would be if its backslashes were slashes. */
  predicate Misread(relative: Text, p: Text) {
    HasBackslash(relative) && Below(Slashed(relative), p) && Countable(relative, p)
  }

  /**
   * The statement for a package matches the files it reaches in the package's directory,
   * and besides them those of another directory that its name is misread for.
   */
  lemma MatchesIff(relative: Text, p: Text)
    requires Valid(relative) && Valid(p) && p != [] && p[0] != SLASH
    ensures Owns(Slashed(relative), p) <==> (InDirectory(relative, p) && Reached(relative, p)) || Misread(relative, p)
    ensures InDirectory(relative, p) ==> !Misread(relative, p)
  {
    SlashedValid(relative);
    SlashedIsSameIff(relative);
    OwnsIff(Slashed(relative), p);
    if relative == [] {
      assert !Below(Slashed(relative), p);
    } else if InDirectory(relative, p) && Below(Slashed(relative), p) {
      assert p[..|relative|] == relative && p[..|relative|] == Slashed(relative);
    }
  }

  // ---------------------------------------------------------------- the deepest package

  lemma {:induction false} SlashesAdd(a: seq<Byte>, b: seq<Byte>)
    ensures Slashes(a + b) == Slashes(a) + Slashes(b)
  {
    if a == [] {
      assert a + b == b;
    } else {
      assert (a + b)[1..] == a[1..] + b;
      SlashesAdd(a[1..], b);
    }
  }

  /** What canonicalization makes of a path: absolute, without a separator at the end. */
  predicate Canonical(t: Text) {
    t != [] && t[0] == SLASH && (t != [SLASH] ==> t[|t| - 1] != SLASH)
  }

  /** A directory below the base is deeper by the separators of its relative path. */
  lemma DepthBelowBase(base: Text, i: Instance)
    requires Canonical(base) && Canonical(i.root) && Relative(base, i.root).Some?
    ensures var relative := Relative(base, i.root).value;
      && (relative == [] <==> i.root == base)
      && (relative != [] ==> i.root == Directory(base) + relative)
      && Depth(i) == if relative == [] then Depth(i.(root := base)) else Depth(i.(root := base)) + 1 + Slashes(relative)
  {
    var relative := Relative(base, i.root).value;
    if i.root != base {
      assert i.root == Directory(base) + relative;
      SlashesAdd(Directory(base), relative);
      SlashesAdd(base, [SLASH]);
      assert Slashes([SLASH]) == 1;
    }
  }

  lemma LongerHasMore(x: Text, y: Text, p: Text)
    requires InDirectory(x, p) && InDirectory(y, p) && |x| < |y|
    ensures x != [] ==> Slashes(x) < Slashes(y)
  {
    if x != [] {
      assert p[..|x| + 1] == x + [SLASH];
      assert y <= p;
      assert y[..|x| + 1] == p[..|x| + 1];
      assert y == (x + [SLASH]) + y[|x| + 1..];
      SlashesAdd(x + [SLASH], y[|x| + 1..]);
      SlashesAdd(x, [SLASH]);
    }
  }

  /** Of two packages that contain a file, the one with the longer path is deeper. */
  lemma LongerIsDeeper(base: Text, a: Instance, b: Instance, p: Text)
    requires Canonical(base) && Canonical(a.root) && Canonical(b.root)
    requires PackageContains(base, a, p) && PackageContains(base, b, p)
    requires |Relative(base, a.root).value| < |Relative(base, b.root).value|
    ensures Depth(a) < Depth(b)
  {
    DepthBelowBase(base, a);
    DepthBelowBase(base, b);
    LongerHasMore(Relative(base, a.root).value, Relative(base, b.root).value, p);
  }

  lemma SameLengthSame(x: Text, y: Text, p: Text)
    requires InDirectory(x, p) && InDirectory(y, p) && |x| == |y|
    ensures x == y
  {
    assert x <= p && y <= p;
  }

  /** Packages that contain the same file at the same depth are the same directory. */
  lemma SameDepthSameRoot(base: Text, a: Instance, b: Instance, p: Text)
    requires Canonical(base) && Canonical(a.root) && Canonical(b.root)
    requires PackageContains(base, a, p) && PackageContains(base, b, p)
    requires Depth(a) == Depth(b)
    ensures a.root == b.root
  {
    var x, y := Relative(base, a.root).value, Relative(base, b.root).value;
    if |x| < |y| {
      LongerIsDeeper(base, a, b, p);
    } else if |y| < |x| {
      LongerIsDeeper(base, b, a, p);
    } else {
      SameLengthSame(x, y, p);
      DepthBelowBase(base, a);
      DepthBelowBase(base, b);
    }
  }

  // ---------------------------------------------------------------- the last statement

  /** A package put into the list takes the file over from packages that are not deeper. */
  lemma {:induction false} InsertedOwner(base: Text, list: seq<Instance>, x: Instance, p: Text)
    requires Sorting.Sorted(list, NotDeeper)
    ensures
      var owner := LastOwner(base, list, p);
      LastOwner(base, Sorting.Insert(list, x, NotDeeper), p) ==
        if PackageOwns(base, x, p) && (owner.None? || Depth(owner.value) <= Depth(x)) then Some(x) else owner
  {
    if list == [] || NotDeeper(list[|list| - 1], x) {
      assert (list + [x])[..|list|] == list;
      var owner := LastOwner(base, list, p);
      if owner.Some? {
        var k :| 0 <= k < |list| && list[k] == owner.value;
        assert k == |list| - 1 || NotDeeper(list[k], list[|list| - 1]);
      }
    } else {
      var init, last := list[..|list| - 1], list[|list| - 1];
      InsertedOwner(base, init, x, p);
      var moved := Sorting.Insert(init, x, NotDeeper);
      assert (moved + [last])[..|moved|] == moved;
    }
  }

  /** Package `n` matches the file, and no other that does is deeper, or as deep and listed later. */
  ghost predicate Prevails(base: Text, packages: seq<Instance>, p: Text, n: nat) {
    && n < |packages| && PackageOwns(base, packages[n], p)
    && forall m :: 0 <= m < |packages| && PackageOwns(base, packages[m], p) ==>
         Depth(packages[m]) < Depth(packages[n]) || (Depth(packages[m]) == Depth(packages[n]) && m <= n)
  }

  /** Package `n` is the one whose statement writes last; without one, none matches. */
  ghost predicate Final(base: Text, packages: seq<Instance>, p: Text, owner: Option<Instance>, n: nat) {
    match owner
    case Some(i) => Prevails(base, packages, p, n) && i == packages[n]
    case None => forall m :: 0 <= m < |packages| ==> !PackageOwns(base, packages[m], p)
  }

  lemma FinalAppended(base: Text, init: seq<Instance>, x: Instance, p: Text, owner: Option<Instance>, n: nat)
    requires Final(base, init, p, owner, n)
    ensures
      if PackageOwns(base, x, p) && (owner.None? || Depth(owner.value) <= Depth(x))
      then Final(base, init + [x], p, Some(x), |init|)
      else Final(base, init + [x], p, owner, n)
  {
    var packages := init + [x];
    assert packages[|init|] == x;
    assert forall m :: 0 <= m < |init| ==> packages[m] == init[m];
  }

  lemma ShallowAppended(init: seq<Instance>, x: Instance)
    ensures Shallow(init + [x]) == Sorting.Insert(Shallow(init), x, NotDeeper)
    ensures Sorting.Sorted(Shallow(init), NotDeeper)
  {
    Sorting.SortSorts(init, NotDeeper);
    assert (init + [x])[..|init|] == init;
  }

  lemma OwnerAppended(base: Text, init: seq<Instance>, x: Instance, p: Text, n: nat) returns (m: nat)
    requires Final(base, init, p, LastOwner(base, Shallow(init), p), n)
    ensures Final(base, init + [x], p, LastOwner(base, Shallow(init + [x]), p), m)
  {
    hide Final, Shallow;
    var owner := LastOwner(base, Shallow(init), p);
    ShallowAppended(init, x);
    InsertedOwner(base, Shallow(init), x, p);
    FinalAppended(base, init, x, p, owner, n);
    m := if PackageOwns(base, x, p) && (owner.None? || Depth(owner.value) <= Depth(x)) then |init| else n;
  }

  lemma NoOwner(base: Text, p: Text)
    ensures Final(base, [], p, LastOwner(base, Shallow([]), p), 0)
  {
  }

  /** The statement that writes last is that of the deepest matching package listed last. */
  lemma {:induction false} OwnerPrevails(base: Text, packages: seq<Instance>, p: Text) returns (n: nat)
    ensures Final(base, packages, p, LastOwner(base, Shallow(packages), p), n)
  {
    hide *;
    if packages == [] {
      n := 0;
      NoOwner(base, p);
    } else {
      var init, x := packages[..|packages| - 1], packages[|packages| - 1];
      n := OwnerPrevails(base, init, p);
      n := OwnerAppended(base, init, x, p, n);
      assert packages == init + [x];
    }
  }

  // ---------------------------------------------------------------- the theorem

  ghost predicate PlainPaths(base: Text, packages: seq<Instance>, p: Text) {
    && Canonical(base) && Valid(p) && p != [] && p[0] != SLASH
    && forall i :: i in packages ==>
         Canonical(i.root) && (Relative(base, i.root).Some? ==> Valid(Relative(base, i.root).value))
  }

  /** The deepest workspace package that contains `p`. */
  ghost predicate DeepestContaining(base: Text, packages: seq<Instance>, p: Text, i: Instance) {
    && i in packages && PackageContains(base, i, p)
    && forall j :: j in packages && PackageContains(base, j, p) ==> Depth(j) <= Depth(i)
  }

  predicate MisreadAt(base: Text, i: Instance, p: Text) {
    Relative(base, i.root).Some? && Misread(Relative(base, i.root).value, p)
  }

  /** A misread package is deeper than `i`, or as deep and listed behind the entries of its root. */
  ghost predicate Overruled(base: Text, packages: seq<Instance>, p: Text, i: Instance) {
    exists n :: 0 <= n < |packages| && MisreadAt(base, packages[n], p) && Overrules(packages, n, i)
  }

  ghost predicate Overrules(packages: seq<Instance>, n: nat, i: Instance)
    requires n < |packages|
  {
    || Depth(packages[n]) > Depth(i)
    || (Depth(packages[n]) == Depth(i) && forall m :: 0 <= m < |packages| && packages[m].root == i.root ==> m < n)
  }

  /**
   * A file is tagged with the deepest package that contains it, in whatever order the
   * packages are listed, if and only if that package is not the repository root, has
   * no backslash in its path, which is ASCII (or the file's own), and no package with
   * backslashes is misread for a directory that holds the file at that depth or below.
   */
  lemma DeepestPackageOwnsIff(base: Text, packages: seq<Instance>, p: Text, i: Instance)
    requires PlainPaths(base, packages, p) && DeepestContaining(base, packages, p, i)
    ensures
      var owner := LastOwner(base, Shallow(packages), p);
      (owner.Some? && owner.value.root == i.root) <==>
      Reached(Relative(base, i.root).value, p) && !Overruled(base, packages, p, i)
  {
    forall j | j in packages && Relative(base, j.root).Some?
      ensures PackageOwns(base, j, p) <==>
        (PackageContains(base, j, p) && Reached(Relative(base, j.root).value, p)) || MisreadAt(base, j, p)
      ensures PackageContains(base, j, p) ==> !MisreadAt(base, j, p)
    {
      MatchesIff(Relative(base, j.root).value, p);
    }
    var n := OwnerPrevails(base, packages, p);
    var k :| 0 <= k < |packages| && packages[k] == i;
    if PackageOwns(base, i, p) {
      var j := packages[n];
      if PackageContains(base, j, p) {
        assert Depth(j) == Depth(i);
        SameDepthSameRoot(base, j, i, p);
        ContainingPrevails(base, packages, p, i, n);
      } else {
        MisreadPrevails(base, packages, p, i, n);
      }
    }
  }

  lemma SameRootOwns(base: Text, a: Instance, b: Instance, p: Text)
    requires a.root == b.root
    ensures PackageOwns(base, a, p) <==> PackageOwns(base, b, p)
    ensures Depth(a) == Depth(b)
  {
  }

  lemma MisreadPrevails(base: Text, packages: seq<Instance>, p: Text, i: Instance, n: nat)
    requires Prevails(base, packages, p, n) && MisreadAt(base, packages[n], p) && packages[n].root != i.root
    requires i in packages && PackageOwns(base, i, p)
    ensures Overruled(base, packages, p, i)
  {
    forall m | 0 <= m < |packages| && packages[m].root == i.root
      ensures Depth(packages[m]) == Depth(i)
      ensures Depth(packages[n]) == Depth(i) ==> m < n
    {
      SameRootOwns(base, packages[m], i, p);
    }
    var k :| 0 <= k < |packages| && packages[k] == i;
    assert Depth(packages[k]) <= Depth(packages[n]);
    assert Overrules(packages, n, i);
  }

  lemma ContainingPrevails(base: Text, packages: seq<Instance>, p: Text, i: Instance, n: nat)
    requires Prevails(base, packages, p, n) && packages[n].root == i.root
    requires forall m :: 0 <= m < |packages| && MisreadAt(base, packages[m], p) ==> PackageOwns(base, packages[m], p)
    ensures !Overruled(base, packages, p, i)
  {
    assert Depth(packages[n]) == Depth(i);
    forall m | 0 <= m < |packages| && MisreadAt(base, packages[m], p)
      ensures !Overrules(packages, m, i)
    {
      assert PackageOwns(base, packages[m], p);
    }
  }

  // ---------------------------------------------------------------- what a tag says

  lemma {:induction false} DropAll(t: Text, n: nat)
    requires Chars(t) <= n
    ensures DropChars(t, n) == []
  {
    if t != [] {
      DropAll(t[1..], if IsContinuation(t[0]) then n else n - 1);
    }
  }

  /** The path in the package is what follows the prefix and a slash, or nothing. */
  lemma PathBehindPrefix(prefix: Text, p: Text)
    requires Valid(p) && Valid(prefix) && Owns(prefix, p)
    ensures (p == prefix && PackagePath(prefix, p) == []) || p == prefix + [SLASH] + PackagePath(prefix, p)
  {
    var n := |prefix| + 1;
    OwnsIff(prefix, p);
    if p != prefix {
      assert p[..n] == prefix + [SLASH];
      if AllAscii(prefix) {
        if n < |p| {
          assert p[n - 1] == SLASH;
          AfterAscii(p, n - 1);
        }
        TakeAscii(p, n);
        assert p == p[..n] + p[n..];
      } else {
        DropAll(p, n);
      }
    }
  }

  /** The two columns of a tag name the file: it is `packagePath` in the directory of `package`. */
  ghost predicate NamesFile(base: Text, p: Text, row: FileRow) {
    && row.package.Some? && row.packagePath.Some?
    && (row.package.value + [SLASH] + row.packagePath.value == Directory(base) + p
        || (row.package.value == Directory(base) + p && row.packagePath.value == []))
  }

  /**
   * Tagging writes three columns and no others. They say either that the file is in no
   * package, or which package took it; if that one contains the file, they name it.
   */
  lemma TagDescribesFile(base: Text, packages: seq<Instance>, p: Text, row: FileRow)
    requires PlainPaths(base, packages, p)
    ensures
      var tagged, owner := TagWith(base, Shallow(packages), p, row), LastOwner(base, Shallow(packages), p);
      && tagged.hash == row.hash && tagged.format == row.format && tagged.role == row.role
      && tagged.data == row.data && tagged.provenance == row.provenance
      && (owner.None? ==> tagged.origin == Repository && tagged.package.None? && tagged.packagePath.None?)
      && (owner.Some? ==>
            && tagged.origin == Workspace && owner.value in packages && tagged.package == Some(owner.value.root)
            && (PackageContains(base, owner.value, p) ==> NamesFile(base, p, tagged)))
  {
    var owner := LastOwner(base, Shallow(packages), p);
    if owner.Some? {
      var i := owner.value;
      assert i in multiset(packages) by {
        assert i in multiset(Shallow(packages));
      }
      if PackageContains(base, i, p) {
        TagNamesFile(base, i, p);
      }
    }
  }

  lemma ReachedPrefix(base: Text, i: Instance, p: Text)
    requires Valid(p) && p != [] && p[0] != SLASH
    requires PackageContains(base, i, p) && PackageOwns(base, i, p) && Valid(Relative(base, i.root).value)
    ensures Relative(base, i.root).value != [] && Prefix(base, i.root) == Relative(base, i.root).value
  {
    var relative := Relative(base, i.root).value;
    MatchesIff(relative, p);
    SlashedIsSameIff(relative);
  }

  lemma TagNamesFile(base: Text, i: Instance, p: Text)
    requires Canonical(base) && Canonical(i.root) && Valid(p) && p != [] && p[0] != SLASH
    requires PackageContains(base, i, p) && PackageOwns(base, i, p) && Valid(Relative(base, i.root).value)
    ensures i.root + [SLASH] + PackagePath(Prefix(base, i.root), p) == Directory(base) + p
         || (i.root == Directory(base) + p && PackagePath(Prefix(base, i.root), p) == [])
  {
    ReachedPrefix(base, i, p);
    DepthBelowBase(base, i);
    hide InDirectory, Relative, Directory, PackagePath, Canonical, Valid, Slashed;
    var relative := Relative(base, i.root).value;
    PathBehindPrefix(relative, p);
    Associates(Directory(base), relative, [SLASH], PackagePath(relative, p));
  }

  lemma Associates(a: Text, b: Text, c: seq<Byte>, d: Text)
    ensures a + b + c + d == a + (b + c + d)
  {
  }

  // ---------------------------------------------------------------- packages that are not found

  /** No file is tagged with a package at the repository root, though it contains every file. */
  lemma RootPackageIsMissed(base: Text, i: Instance, p: Text)
    requires i.root == base && Valid(p) && p != [] && p[0] != SLASH
    ensures PackageContains(base, i, p) && LastOwner(base, Shallow([i]), p).None?
  {
    MatchesIff([], p);
    assert !PackageOwns(base, i, p);
    var n := OwnerPrevails(base, [i], p);
  }

  /** The file `a\b/c` is not tagged with the package in `/a\b`. */
  lemma BackslashPackageIsMissed(i: Instance)
    requires i.root == [SLASH, 0x61, BACKSLASH, 0x62]
    ensures
      var p := [0x61, BACKSLASH, 0x62, SLASH, 0x63];
      PackageContains([SLASH], i, p) && LastOwner([SLASH], Shallow([i]), p).None?
  {
    var relative, p: Text := [0x61, BACKSLASH, 0x62], [0x61, BACKSLASH, 0x62, SLASH, 0x63];
    assert relative + [SLASH] == p[..4];
    AsciiIsValid(relative);
    AsciiIsValid(p);
    MatchesIff(relative, p);
    assert relative[1] == BACKSLASH;
    assert i.root[|Directory([SLASH])|..] == relative;
    var n := OwnerPrevails([SLASH], [i], p);
  }

  lemma {:induction false} NoSlashes(t: Text)
    requires SLASH !in t
    ensures Slashes(t) == 0
  {
    if t != [] {
      NoSlashes(t[1..]);
    }
  }

  lemma SlashedSecond(y: Text)
    requires |y| == 3 && y[0] != BACKSLASH && y[1] == BACKSLASH && y[2] != BACKSLASH
    ensures Slashed(y) == [y[0], SLASH, y[2]]
  {
    SlashedAt(y, 0);
    SlashedAt(y, 1);
    SlashedAt(y, 2);
  }

  lemma MisreadOwns(j: Instance)
    requires j.root == [SLASH, 0x61, BACKSLASH, 0x62]
    ensures PackageOwns([SLASH], j, [0x61, SLASH, 0x62]) && Depth(j) == 1
  {
    var y, p: Text := [0x61, BACKSLASH, 0x62], [0x61, SLASH, 0x62];
    assert j.root[1..] == y;
    NoSlashes(y);
    assert Directory([SLASH]) == j.root[..1];
    AsciiIsValid(y);
    AsciiIsValid(p);
    SlashedSecond(y);
    assert y[1] == BACKSLASH;
    MatchesIff(y, p);
  }

  lemma HolderIsShallow(i: Instance)
    requires i.root == [SLASH, 0x61]
    ensures PackageContains([SLASH], i, [0x61, SLASH, 0x62]) && Depth(i) == 1
  {
    var x, p: Text := [0x61], [0x61, SLASH, 0x62];
    assert x + [SLASH] == p[..2];
    assert i.root[1..] == x;
    NoSlashes(x);
    assert Directory([SLASH]) == i.root[..1];
  }

  /** The file `a/b` in the package `/a` is tagged with another package, the one in `/a\b`. */
  lemma MisreadPackageClaims(i: Instance, j: Instance)
    requires i.root == [SLASH, 0x61] && j.root == [SLASH, 0x61, BACKSLASH, 0x62]
    ensures
      var p := [0x61, SLASH, 0x62];
      DeepestContaining([SLASH], [i, j], p, i) && LastOwner([SLASH], Shallow([i, j]), p) == Some(j)
  {
    var p: Text := [0x61, SLASH, 0x62];
    MisreadOwns(j);
    HolderIsShallow(i);
    var packages := [i, j];
    var n := OwnerPrevails([SLASH], packages, p);
    LaterPrevails(packages, p, LastOwner([SLASH], Shallow(packages), p), n);
    DeepestOfTwo([SLASH], i, j, p);
  }

  lemma DeepestOfTwo(base: Text, i: Instance, j: Instance, p: Text)
    requires PackageContains(base, i, p) && Depth(j) <= Depth(i)
    ensures DeepestContaining(base, [i, j], p, i)
  {
    assert i in [i, j];
  }

  lemma LaterPrevails(packages: seq<Instance>, p: Text, owner: Option<Instance>, n: nat)
    requires |packages| == 2 && Depth(packages[0]) == Depth(packages[1]) && PackageOwns([SLASH], packages[1], p)
    requires Final([SLASH], packages, p, owner, n)
    ensures owner == Some(packages[1])
  {
  }

  lemma {:induction false} AsciiIsValid(t: Text)
    requires AllAscii(t)
    ensures Valid(t)
  {
    if t != [] {
      assert AllAscii(t[1..]);
      AsciiIsValid(t[1..]);
    }
  }
}
