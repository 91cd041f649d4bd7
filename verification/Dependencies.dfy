/**
  The include-dependency index of the build system: for every scanned file the list of all files
  that it includes directly or through other files. Include graphs have cycles, and a file that is
  included but was not scanned has no entry of its own.
 */
module Dependencies {

  type File = string

  /** Direct includes, file by file. */
  type BasicMap = map<File, seq<File>>

  function Deps(basic: BasicMap, file: File): seq<File> {
    if file in basic then basic[file] else []
  }

  // ----- reachability

  ghost predicate IsPath(basic: BasicMap, p: seq<File>) {
    |p| >= 2 && forall i | 0 <= i < |p| - 1 :: p[i + 1] in Deps(basic, p[i])
  }

  /** There is a way from one file to the other along one or more includes. */
  ghost predicate Reachable(basic: BasicMap, from: File, to: File) {
    exists p :: IsPath(basic, p) && p[0] == from && p[|p| - 1] == to
  }

  lemma ReachableByOne(basic: BasicMap, a: File, b: File)
    requires b in Deps(basic, a)
    ensures Reachable(basic, a, b)
  {
    assert IsPath(basic, [a, b]);
  }

  lemma ReachableJoins(basic: BasicMap, a: File, b: File, c: File)
    requires Reachable(basic, a, b) && Reachable(basic, b, c)
    ensures Reachable(basic, a, c)
  {
    var p :| IsPath(basic, p) && p[0] == a && p[|p| - 1] == b;
    var q :| IsPath(basic, q) && q[0] == b && q[|q| - 1] == c;
    var r := p + q[1..];
    forall i | 0 <= i < |r| - 1 ensures r[i + 1] in Deps(basic, r[i]) {
      if i < |p| - 1 {
        assert r[i] == p[i] && r[i + 1] == p[i + 1];
      } else {
        var j := i - (|p| - 1);
        assert r[i] == q[j] && r[i + 1] == q[j + 1];
      }
    }
    assert r[0] == a && r[|r| - 1] == c;
  }

  ghost predicate ClosedUnder(basic: BasicMap, files: seq<File>) {
    forall f, d | f in files && d in Deps(basic, f) :: d in files
  }

  /** A path that starts with an include in a closed list never leaves it. */
  lemma {:induction false} PathStaysInside(basic: BasicMap, files: seq<File>, p: seq<File>)
    requires IsPath(basic, p) && ClosedUnder(basic, files)
    requires forall d | d in Deps(basic, p[0]) :: d in files
    ensures p[|p| - 1] in files
    decreases |p|
  {
    assert p[1] in Deps(basic, p[0]);
    if |p| > 2 {
      var q := p[1..];
      forall i | 0 <= i < |q| - 1 ensures q[i + 1] in Deps(basic, q[i]) {
        assert q[i] == p[i + 1] && q[i + 1] == p[(i + 1) + 1];
      }
      PathStaysInside(basic, files, q);
    }
  }

  // ----- the search

  ghost predicate NoDuplicates(files: seq<File>) {
    forall i, j | 0 <= i < j < |files| :: files[i] != files[j]
  }

  ghost function Included(basic: BasicMap): set<File> {
    set f, d | f in basic && d in basic[f] :: d
  }

  ghost function Elements(files: seq<File>): set<File> {
    set f | f in files
  }

  /** The shared result hash; only its keys matter, and Ruby keeps them in insertion order. */
  class Result {
    var keys: seq<File>

    constructor ()
      ensures keys == []
    {
      keys := [];
    }
  }

  /** Everything from `start` on was found from `source`, and its own includes are there too. */
  ghost predicate Gathered(basic: BasicMap, source: File, keys: seq<File>, start: nat) {
    && start <= |keys|
    && (forall i | start <= i < |keys| :: Reachable(basic, source, keys[i]))
    && (forall i, d | start <= i < |keys| && d in Deps(basic, keys[i]) :: d in keys)
  }

  lemma PrefixKeeps(shorter: seq<File>, longer: seq<File>)
    requires shorter <= longer
    ensures forall f | f in shorter :: f in longer
  {
  }

  /** What was gathered from an include of `source` was gathered from `source`. */
  lemma GatheredFromInclude(basic: BasicMap, source: File, dep: File, before: seq<File>, after: seq<File>, start: nat)
    requires dep in Deps(basic, source)
    requires Gathered(basic, source, before, start)
    requires before + [dep] <= after && Gathered(basic, dep, after, |before| + 1)
    requires forall d | d in Deps(basic, dep) :: d in after
    ensures Gathered(basic, source, after, start)
  {
    assert before <= after;
    ReachableByOne(basic, source, dep);
    forall i | start <= i < |after|
      ensures Reachable(basic, source, after[i])
      ensures forall d | d in Deps(basic, after[i]) :: d in after
    {
      if i < |before| {
        assert after[i] == before[i];
        PrefixKeeps(before, after);
      } else if i == |before| {
        assert after[i] == dep;
      } else {
        ReachableJoins(basic, source, dep, after[i]);
      }
    }
  }

  lemma SnocKeepsDistinct(files: seq<File>, f: File)
    requires NoDuplicates(files) && f !in files
    ensures NoDuplicates(files + [f])
  {
  }

  lemma FewerToFind(basic: BasicMap, source: File, dep: File, start: seq<File>, before: seq<File>)
    requires dep in Deps(basic, source) && dep !in before && start <= before
    ensures Included(basic) - Elements(before + [dep]) < Included(basic) - Elements(start)
  {
    var after := before + [dep];
    PrefixKeeps(start, after);
    PrefixKeeps(start, before);
    assert Elements(start) <= Elements(after);
    assert dep in after && dep in Elements(after);
    assert dep !in Elements(start);
    assert source in basic && dep in basic[source];
    assert dep in Included(basic);
  }

  /** gather_all_dependencies_recursively. It terminates on every graph, since the part of the
      included files that is not yet in the result shrinks. */
  method Gather(source: File, basic: BasicMap, result: Result)
    requires NoDuplicates(result.keys)
    modifies result
    ensures old(result.keys) <= result.keys
    ensures NoDuplicates(result.keys)
    ensures forall d | d in Deps(basic, source) :: d in result.keys
    ensures Gathered(basic, source, result.keys, |old(result.keys)|)
    decreases Included(basic) - Elements(result.keys)
  {
    if source in basic {
      var deps := basic[source];
      var i := 0;
      while i < |deps|
        invariant 0 <= i <= |deps|
        invariant old(result.keys) <= result.keys
        invariant NoDuplicates(result.keys)
        invariant forall d | d in deps[..i] :: d in result.keys
        invariant Gathered(basic, source, result.keys, |old(result.keys)|)
      {
        var dep := deps[i];
        ghost var before := result.keys;
        if dep !in result.keys {
          SnocKeepsDistinct(before, dep);
          result.keys := result.keys + [dep];
          FewerToFind(basic, source, dep, old(result.keys), before);
          Gather(dep, basic, result);
          GatheredFromInclude(basic, source, dep, before, result.keys, |old(result.keys)|);
          PrefixKeeps(before, result.keys);
          assert result.keys[|before|] == dep;
        }
        assert deps[..i + 1] == deps[..i] + [dep];
        i := i + 1;
      }
      assert deps[..i] == deps;
    }
  }

  /** The list holds each file that is reachable, once, and no other. */
  ghost predicate ListsReachable(basic: BasicMap, source: File, files: seq<File>) {
    && NoDuplicates(files)
    && forall f :: f in files <==> Reachable(basic, source, f)
  }

  /** From an empty result, what is gathered is all that is reachable. */
  lemma GatheredIsReachable(basic: BasicMap, source: File, files: seq<File>)
    requires NoDuplicates(files) && Gathered(basic, source, files, 0)
    requires forall d | d in Deps(basic, source) :: d in files
    ensures ListsReachable(basic, source, files)
  {
    forall f | Reachable(basic, source, f) ensures f in files {
      var p :| IsPath(basic, p) && p[0] == source && p[|p| - 1] == f;
      PathStaysInside(basic, files, p);
    }
  }

  // ----- the order of the list

  /** Strings compared character by character, as sort! does. */
  predicate Before(a: File, b: File) {
    b != [] && (a == [] || a[0] < b[0] || (a[0] == b[0] && Before(a[1..], b[1..])))
  }

  lemma {:induction false} BeforeIsTotal(a: File, b: File)
    ensures Before(a, b) || Before(b, a) <==> a != b
    ensures !(Before(a, b) && Before(b, a))
    decreases |a|
  {
    if a != [] && b != [] {
      BeforeIsTotal(a[1..], b[1..]);
      assert a == [a[0]] + a[1..] && b == [b[0]] + b[1..];
    }
  }

  lemma {:induction false} BeforeIsTransitive(a: File, b: File, c: File)
    requires Before(a, b) && Before(b, c)
    ensures Before(a, c)
    decreases |a|
  {
    if a != [] && a[0] == b[0] == c[0] {
      BeforeIsTransitive(a[1..], b[1..], c[1..]);
    }
  }

  /** The first `k` characters agree, and then `a` ends or has the smaller character. */
  predicate DiffersAt(a: File, b: File, k: int) {
    0 <= k <= |a| && k < |b| && a[..k] == b[..k] && (k == |a| || a[k] < b[k])
  }

  lemma FirstAgrees(a: File, b: File, k: int)
    requires DiffersAt(a, b, k)
    ensures k > 0 ==> a != [] && b != [] && a[0] == b[0]
  {
    if k > 0 {
      assert a[..k][0] == b[..k][0];
    }
  }

  lemma {:induction false} BeforeIsLexicographic(a: File, b: File)
    ensures Before(a, b) <==> exists k :: DiffersAt(a, b, k)
    decreases |a|
  {
    if a != [] && b != [] && a[0] == b[0] {
      BeforeIsLexicographic(a[1..], b[1..]);
      assert a == [a[0]] + a[1..] && b == [b[0]] + b[1..];
      if k :| DiffersAt(a[1..], b[1..], k) {
        assert a[..k + 1] == [a[0]] + a[1..][..k] && b[..k + 1] == [b[0]] + b[1..][..k];
        assert DiffersAt(a, b, k + 1);
      }
      if k :| DiffersAt(a, b, k) {
        assert k > 0;
        assert a[1..][..k - 1] == a[..k][1..] && b[1..][..k - 1] == b[..k][1..];
        assert DiffersAt(a[1..], b[1..], k - 1);
      }
    } else {
      if Before(a, b) {
        assert DiffersAt(a, b, 0);
      }
      if k :| DiffersAt(a, b, k) {
        FirstAgrees(a, b, k);
      }
    }
  }

  predicate Ascending(files: seq<File>) {
    forall i, j | 0 <= i < j < |files| :: Before(files[i], files[j])
  }

  function Insert(f: File, files: seq<File>): seq<File> {
    if files == [] then [f] else if Before(f, files[0]) then [f] + files else [files[0]] + Insert(f, files[1..])
  }

  function Sort(files: seq<File>): seq<File> {
    if files == [] then [] else Insert(files[0], Sort(files[1..]))
  }

  ghost predicate SameFiles(a: seq<File>, b: seq<File>) {
    forall f :: f in a <==> f in b
  }

  lemma {:induction false} InsertHolds(f: File, files: seq<File>)
    ensures forall g :: g in Insert(f, files) <==> g == f || g in files
    decreases |files|
  {
    if files != [] && !Before(f, files[0]) {
      InsertHolds(f, files[1..]);
      assert files == [files[0]] + files[1..];
    }
  }

  lemma FirstIsLeast(f: File, files: seq<File>)
    requires Ascending(files) && forall g | g in files :: Before(f, g)
    ensures Ascending([f] + files)
  {
  }

  lemma {:induction false} InsertAscends(f: File, files: seq<File>)
    requires Ascending(files) && f !in files
    ensures Ascending(Insert(f, files))
    decreases |files|
  {
    if files != [] {
      var first, rest := files[0], files[1..];
      assert files == [first] + rest;
      assert forall g | g in rest :: Before(first, g);
      if Before(f, first) {
        forall g | g in files ensures Before(f, g) {
          if g != first {
            BeforeIsTransitive(f, first, g);
          }
        }
        FirstIsLeast(f, files);
      } else {
        BeforeIsTotal(f, first);
        InsertAscends(f, rest);
        InsertHolds(f, rest);
        FirstIsLeast(first, Insert(f, rest));
      }
    }
  }

  lemma {:induction false} SortSorts(files: seq<File>)
    requires NoDuplicates(files)
    ensures Ascending(Sort(files)) && SameFiles(files, Sort(files))
    decreases |files|
  {
    if files != [] {
      assert files == [files[0]] + files[1..];
      SortSorts(files[1..]);
      assert files[0] !in files[1..];
      InsertHolds(files[0], Sort(files[1..]));
      InsertAscends(files[0], Sort(files[1..]));
    }
  }

  lemma AscendingIsDistinct(files: seq<File>)
    requires Ascending(files)
    ensures NoDuplicates(files)
  {
    forall i, j | 0 <= i < j < |files| ensures files[i] != files[j] {
      BeforeIsTotal(files[i], files[j]);
    }
  }

  lemma LeastIsFirst(a: seq<File>, b: seq<File>)
    requires Ascending(a) && Ascending(b) && SameFiles(a, b) && a != [] && b != []
    ensures a[0] == b[0]
  {
    assert a[0] in b && b[0] in a;
    var i :| 0 <= i < |b| && b[i] == a[0];
    var j :| 0 <= j < |a| && a[j] == b[0];
    BeforeIsTotal(a[0], b[0]);
  }

  /** An ascending list is determined by what it holds. */
  lemma {:induction false} AscendingIsUnique(a: seq<File>, b: seq<File>)
    requires Ascending(a) && Ascending(b) && SameFiles(a, b)
    ensures a == b
    decreases |a|
  {
    assert b != [] ==> b[0] in b;
    if a != [] {
      assert a[0] in b;
      LeastIsFirst(a, b);
      var x, y := a[1..], b[1..];
      assert a == [a[0]] + x && b == [b[0]] + y;
      AscendingIsDistinct(a);
      AscendingIsDistinct(b);
      forall f ensures f in x <==> f in y {
        assert f in a <==> f in b;
      }
      AscendingIsUnique(x, y);
    }
  }

  /** What the index holds for a file. */
  ghost predicate Indexes(basic: BasicMap, source: File, files: seq<File>) {
    ListsReachable(basic, source, files) && Ascending(files)
  }

  method GenerateFullMapFor(source: File, basic: BasicMap) returns (files: seq<File>)
    ensures Indexes(basic, source, files)
  {
    var gathered := new Result();
    Gather(source, basic, gathered);
    GatheredIsReachable(basic, source, gathered.keys);
    SortSorts(gathered.keys);
    files := Sort(gathered.keys);
    AscendingIsDistinct(files);
  }

  method GenerateFullMap(basic: BasicMap) returns (full: map<File, seq<File>>)
    ensures full.Keys == basic.Keys
    ensures forall f | f in full :: Indexes(basic, f, full[f])
  {
    full := map[];
    var left := basic.Keys;
    while left != {}
      invariant left <= basic.Keys && full.Keys == basic.Keys - left
      invariant forall f | f in full :: Indexes(basic, f, full[f])
      decreases |left|
    {
      var source :| source in left;
      var files := GenerateFullMapFor(source, basic);
      full := full[source := files];
      left := left - {source};
    }
  }

  // ----- what the index promises

  /** The full map is closed: it lists the includes of a file, and whatever those list. */
  lemma FullMapIsClosed(basic: BasicMap, full: map<File, seq<File>>, f: File, d: File)
    requires full.Keys == basic.Keys
    requires forall g | g in full :: ListsReachable(basic, g, full[g])
    requires f in full && (d in basic[f] || d in full[f])
    ensures d in full[f]
    ensures d in full ==> forall e | e in full[d] :: e in full[f]
  {
    if d in basic[f] {
      ReachableByOne(basic, f, d);
    }
    if d in full {
      forall e | e in full[d] ensures e in full[f] {
        ReachableJoins(basic, f, d, e);
      }
    }
  }

  /** And it is the smallest closed map: a file is listed only if every closed list over the direct
      includes has it. */
  lemma FullMapIsLeast(basic: BasicMap, source: File, files: seq<File>, closed: seq<File>)
    requires ListsReachable(basic, source, files)
    requires ClosedUnder(basic, closed) && forall d | d in Deps(basic, source) :: d in closed
    ensures forall f | f in files :: f in closed
  {
    forall f | f in files ensures f in closed {
      var p :| IsPath(basic, p) && p[0] == source && p[|p| - 1] == f;
      PathStaysInside(basic, closed, p);
    }
  }

  /** The index depends on reachability alone: not on the order of include lines, on repeated ones or
      on the order of the search. */
  lemma FullMapIsDetermined(basic: BasicMap, basic': BasicMap, source: File, files: seq<File>, files': seq<File>)
    requires Indexes(basic, source, files) && Indexes(basic', source, files')
    requires forall f :: Reachable(basic, source, f) <==> Reachable(basic', source, f)
    ensures files == files'
  {
    AscendingIsUnique(files, files');
  }

  /** Two files that include each other, however indirectly, list the same files, themselves among
      them. */
  lemma CyclesShareTheirList(basic: BasicMap, a: File, b: File, ofA: seq<File>, ofB: seq<File>)
    requires Indexes(basic, a, ofA) && Indexes(basic, b, ofB)
    requires b in ofA && a in ofB
    ensures ofA == ofB && a in ofA && b in ofB
  {
    ReachableJoins(basic, a, b, a);
    ReachableJoins(basic, b, a, b);
    forall f | f in ofA ensures f in ofB {
      ReachableJoins(basic, b, a, f);
    }
    forall f | f in ofB ensures f in ofA {
      ReachableJoins(basic, a, b, f);
    }
    AscendingIsUnique(ofA, ofB);
  }
}
