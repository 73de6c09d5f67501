/** The subclass worklist over an inheritance map, which may contain cycles. */
module Inheritance {

  /** Class name to the names of its bases, or of its direct subclasses. */
  type NameMap = map<string, seq<string>>

  function Get(m: NameMap, n: string): seq<string> { if n in m then m[n] else [] }

  // ------------------------------------------------------------ reachability

  predicate IsPath(m: NameMap, p: seq<string>, from: string, to: string) {
    && |p| >= 2 && p[0] == from && p[|p| - 1] == to
    && forall i | 0 <= i < |p| - 1 :: p[i + 1] in Get(m, p[i])
  }

  /** `to` can be reached from `from` in one or more steps along `m`. */
  ghost predicate Reaches(m: NameMap, from: string, to: string) {
    exists p :: IsPath(m, p, from, to)
  }

  lemma ReachOneMore(m: NameMap, from: string, mid: string, to: string)
    requires from == mid || Reaches(m, from, mid)
    requires to in Get(m, mid)
    ensures Reaches(m, from, to)
  {
    if from == mid {
      assert IsPath(m, [from, to], from, to);
    } else {
      var p :| IsPath(m, p, from, mid);
      var q := p + [to];
      forall i | 0 <= i < |q| - 1 ensures q[i + 1] in Get(m, q[i]) {
        if i < |p| - 1 { assert p[i + 1] in Get(m, p[i]); }
      }
      assert IsPath(m, q, from, to);
    }
  }

  /** A set that contains the successors of `from` and of its own elements contains everything
      reachable. */
  lemma {:induction false} ClosedContainsPath(m: NameMap, s: set<string>, p: seq<string>, from: string, to: string)
    requires IsPath(m, p, from, to)
    requires forall x, y | (x == from || x in s) && y in Get(m, x) :: y in s
    ensures to in s
  {
    var k := 1;
    while k < |p| - 1
      invariant 1 <= k < |p| && p[k] in s
    {
      k := k + 1;
    }
  }

  // ------------------------------------------------------------ the worklist

  function Universe(m: NameMap): set<string> {
    set k, x | k in m && x in m[k] :: x
  }

  /** Everything found is reachable, and what is not yet followed up is still queued. */
  ghost predicate Progress(m: NameMap, className: string, found: set<string>, queue: seq<string>) {
    && found <= Universe(m)
    && (forall x | x in queue :: x == className || x in found)
    && (forall x | x in found :: Reaches(m, className, x))
    && (forall x, y | (x == className || x in found) && y in Get(m, x) :: x in queue || y in found)
  }

  /** The loop pops one class at a time and queues the subclasses not seen before; it terminates
      on any map, and returns exactly the classes reachable in one or more subclass steps. */
  method GetAllSubclasses(className: string, subclassMap: NameMap) returns (result: set<string>)
    ensures forall c :: c in result <==> Reaches(subclassMap, className, c)
  {
    result := {};
    var toProcess := [className];
    while toProcess != []
      invariant Progress(subclassMap, className, result, toProcess)
      decreases |Universe(subclassMap) - result|, |toProcess|
    {
      result, toProcess := ProcessOne(className, subclassMap, result, toProcess);
    }
    NothingLeft(subclassMap, className, result);
  }

  lemma NothingLeft(m: NameMap, className: string, found: set<string>)
    requires Progress(m, className, found, [])
    ensures forall c :: c in found <==> Reaches(m, className, c)
  {
    forall c | Reaches(m, className, c) ensures c in found {
      var p :| IsPath(m, p, className, c);
      ClosedContainsPath(m, found, p, className, c);
    }
  }

  /** One round of the loop. */
  method ProcessOne(className: string, m: NameMap, seen: set<string>, queue: seq<string>)
      returns (result: set<string>, toProcess: seq<string>)
    requires queue != [] && Progress(m, className, seen, queue)
    ensures Progress(m, className, result, toProcess)
    ensures |Universe(m) - result| < |Universe(m) - seen|
            || (|Universe(m) - result| == |Universe(m) - seen| && |toProcess| < |queue|)
  {
    var current := queue[|queue| - 1];
    result, toProcess := seen, queue[..|queue| - 1];
    Popped(m, className, seen, queue);
    var subs := Get(m, current);
    for i := 0 to |subs|
      invariant seen <= result && Partial(m, className, result, toProcess, current)
      invariant forall j | 0 <= j < i :: subs[j] in result
      invariant result == seen ==> |toProcess| == |queue| - 1
    {
      if subs[i] !in result {
        FoundOne(m, className, result, toProcess, current, subs[i]);
        result := result + {subs[i]};
        toProcess := toProcess + [subs[i]];
      }
    }
    FollowedUp(m, className, result, toProcess, current);
    if result != seen {
      Shrinks(Universe(m), seen, result);
    }
  }

  lemma Popped(m: NameMap, className: string, found: set<string>, queue: seq<string>)
    requires queue != [] && Progress(m, className, found, queue)
    ensures Partial(m, className, found, queue[..|queue| - 1], queue[|queue| - 1])
  {
    assert queue == queue[..|queue| - 1] + [queue[|queue| - 1]];
  }

  lemma FollowedUp(m: NameMap, className: string, found: set<string>, queue: seq<string>, current: string)
    requires Partial(m, className, found, queue, current) && forall y | y in Get(m, current) :: y in found
    ensures Progress(m, className, found, queue)
  {
  }

  /** Progress, except that the class just popped may not be followed up completely yet. */
  ghost predicate Partial(m: NameMap, className: string, found: set<string>, queue: seq<string>, current: string) {
    && found <= Universe(m) && (current == className || current in found)
    && (forall x | x in queue :: x == className || x in found)
    && (forall x | x in found :: Reaches(m, className, x))
    && (forall x, y | (x == className || x in found) && y in Get(m, x) :: x == current || x in queue || y in found)
  }

  lemma FoundOne(m: NameMap, className: string, found: set<string>, queue: seq<string>, current: string, sub: string)
    requires Partial(m, className, found, queue, current) && sub in Get(m, current)
    ensures Partial(m, className, found + {sub}, queue + [sub], current)
  {
    ReachOneMore(m, className, current, sub);
  }

  lemma Shrinks(u: set<string>, a: set<string>, b: set<string>)
    requires a < b <= u
    ensures |u - b| < |u - a|
  {
    var x :| x in b && x !in a;
    Smaller(u - b, (u - a) - {x});
  }

  lemma {:induction false} Smaller(a: set<string>, b: set<string>)
    requires a <= b
    ensures |a| <= |b|
    decreases |a|
  {
    if a != {} {
      var x :| x in a;
      Smaller(a - {x}, b - {x});
    }
  }

  // ------------------------------------------------------------ building the map

  /** dict.update over all visitors: a later definition of a class replaces an earlier one. */
  function AllBases(visitors: seq<NameMap>): NameMap {
    if visitors == [] then map[] else AllBases(visitors[..|visitors| - 1]) + visitors[|visitors| - 1]
  }

  /** File number `i` is the last one that defines class `c`. */
  predicate DefinedLastIn(visitors: seq<NameMap>, i: nat, c: string) {
    i < |visitors| && c in visitors[i] && forall j | i < j < |visitors| :: c !in visitors[j]
  }

  /** A class has the bases of its last definition. */
  lemma {:induction false} LastDefinitionCounts(visitors: seq<NameMap>, c: string)
    ensures c in AllBases(visitors) <==> exists i: nat :: DefinedLastIn(visitors, i, c)
    ensures forall i: nat | DefinedLastIn(visitors, i, c) :: AllBases(visitors)[c] == visitors[i][c]
  {
    if visitors != [] {
      var n := |visitors| - 1;
      LastDefinitionCounts(visitors[..n], c);
      if c in visitors[n] {
        assert DefinedLastIn(visitors, n, c);
      } else {
        forall i: nat ensures DefinedLastIn(visitors, i, c) <==> DefinedLastIn(visitors[..n], i, c) {}
      }
    }
  }

  function Times(s: seq<string>, x: string): nat { multiset(s)[x] }

  /** `subs` is the reverse of `bases`, with multiplicities: a class is listed under a base as
      often as it names that base. */
  ghost predicate Reverses(subs: NameMap, bases: NameMap) {
    && (forall b, c :: Times(Get(subs, b), c) == Times(Get(bases, c), b))
    && (forall b | b in subs :: subs[b] != [])
  }

  method BuildInheritanceMap(visitors: seq<NameMap>) returns (subclassMap: NameMap)
    ensures Reverses(subclassMap, AllBases(visitors))
  {
    var bases: NameMap := map[];
    for i := 0 to |visitors|
      invariant bases == AllBases(visitors[..i])
    {
      assert visitors[..i + 1][..i] == visitors[..i];
      bases := bases + visitors[i];
    }
    assert visitors[..|visitors|] == visitors;
    subclassMap := map[];
    var todo := bases.Keys;
    ghost var done: NameMap := map[];
    while todo != {}
      invariant todo <= bases.Keys && done.Keys == bases.Keys - todo
      invariant forall c | c in done :: done[c] == bases[c]
      invariant Reverses(subclassMap, done)
      decreases |todo|
    {
      var c :| c in todo;
      subclassMap := AddClass(subclassMap, done, c, bases[c]);
      done := done[c := bases[c]];
      todo := todo - {c};
    }
    assert done == bases;
  }

  /** Append the class to the list of each of its bases. */
  method AddClass(subs: NameMap, ghost done: NameMap, c: string, bs: seq<string>) returns (result: NameMap)
    requires Reverses(subs, done) && c !in done
    ensures Reverses(result, done[c := bs])
  {
    result := subs;
    NoBasesYet(subs, done, c);
    for i := 0 to |bs|
      invariant Reverses(result, done[c := bs[..i]])
    {
      OneMoreBase(result, done[c := bs[..i]], c, bs[i]);
      assert done[c := bs[..i]][c := bs[..i] + [bs[i]]] == done[c := bs[..i + 1]] by {
        assert bs[..i + 1] == bs[..i] + [bs[i]];
      }
      result := result[bs[i] := Get(result, bs[i]) + [c]];
    }
    assert bs[..|bs|] == bs;
  }

  lemma NoBasesYet(subs: NameMap, done: NameMap, c: string)
    requires Reverses(subs, done) && c !in done
    ensures Reverses(subs, done[c := []])
  {
    forall b, d ensures Times(Get(subs, b), d) == Times(Get(done[c := []], d), b) {
      assert Times(Get(subs, b), d) == Times(Get(done, d), b);
    }
  }

  lemma OneMoreBase(subs: NameMap, bases: NameMap, c: string, b: string)
    requires Reverses(subs, bases) && c in bases
    ensures Reverses(subs[b := Get(subs, b) + [c]], bases[c := bases[c] + [b]])
  {
    var s, m := subs[b := Get(subs, b) + [c]], bases[c := bases[c] + [b]];
    forall x, d ensures Times(Get(s, x), d) == Times(Get(m, d), x) {
      assert Times(Get(subs, x), d) == Times(Get(bases, d), x);
    }
  }

  // ------------------------------------------------------------ the two together

  function Reversed(p: seq<string>): seq<string> {
    seq(|p|, i requires 0 <= i < |p| => p[|p| - 1 - i])
  }

  lemma ReversePath(subs: NameMap, bases: NameMap, p: seq<string>, a: string, b: string)
    requires forall x, y :: y in Get(subs, x) <==> x in Get(bases, y)
    requires IsPath(subs, p, a, b)
    ensures IsPath(bases, Reversed(p), b, a)
  {
  }

  lemma ReversalReaches(subs: NameMap, bases: NameMap, a: string, c: string)
    requires Reverses(subs, bases)
    ensures Reaches(subs, a, c) <==> Reaches(bases, c, a)
  {
    if p :| IsPath(subs, p, a, c) {
      ReversePath(subs, bases, p, a, c);
    }
    if p :| IsPath(bases, p, c, a) {
      ReversePath(bases, subs, p, c, a);
    }
  }

  /** Over the classes of all visited files, cyclic or not: the subclasses found are exactly the
      classes from which the given class is reachable in one or more base-class steps. */
  method SubclassesInFiles(visitors: seq<NameMap>, className: string) returns (result: set<string>)
    ensures forall c :: c in result <==> Reaches(AllBases(visitors), c, className)
  {
    var subclassMap := BuildInheritanceMap(visitors);
    result := GetAllSubclasses(className, subclassMap);
    forall c ensures c in result <==> Reaches(AllBases(visitors), c, className) {
      ReversalReaches(subclassMap, AllBases(visitors), className, c);
    }
  }
}
