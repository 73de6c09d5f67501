/** Where each member stands after reordering, for every two members of the result. */
module ClassMembersOrder {
  import opened Basics
  import opened Strings
  import opened ClassMembers
  import opened ClassMembersProofs

  predicate Named(m: Member) { m.group == Property && m.propname.Some? && m.propname.value != "" }

  predicate OfName(m: Member, n: string) { m.group == Property && m.propname == Some(n) && n != "" }

  // ------------------------------------------------------------ blocks

  /** `b` may stand somewhere after `a`, by their groups alone. */
  predicate MayFollow(a: Member, b: Member) {
    match b.group
    case DunderInit => a.group == DunderInit
    case Dunder => a.group in {DunderInit, Dunder}
    case ClassMethod => a.group in {DunderInit, Dunder, ClassMethod}
    case StaticMethod => a.group in {DunderInit, Dunder, ClassMethod, StaticMethod}
    case DelegatedProperty => a.group in {DunderInit, Dunder, ClassMethod, StaticMethod, DelegatedProperty}
    case Property =>
      && a.group in {DunderInit, Dunder, ClassMethod, StaticMethod, DelegatedProperty, Property}
      && (Named(b) && a.group == Property ==> Named(a))
    case Public => a.group !in {Protected, Private, GenericProperty}
    case Protected => a.group !in {Private, GenericProperty}
    case Private => a.group != GenericProperty
    case GenericProperty => true
  }

  lemma SlotsMayFollow(a: Member, b: Member)
    requires Slot(a) <= Slot(b)
    ensures MayFollow(a, b)
  {
  }

  // ------------------------------------------------------------ order survives picking

  lemma {:induction false} PickInOrder(ms: seq<Member>, c: Choice, i: nat, j: nat) returns (a: nat, b: nat)
    requires i < j < |ms| && Chosen(c, ms[i]) && Chosen(c, ms[j])
    ensures a < b < |Pick(ms, c)| && Pick(ms, c)[a] == ms[i] && Pick(ms, c)[b] == ms[j]
  {
    if i == 0 {
      b := PickKeeps(ms[1..], c, j - 1);
      a, b := 0, b + 1;
    } else {
      a, b := PickInOrder(ms[1..], c, i - 1, j - 1);
      if Chosen(c, ms[0]) {
        a, b := a + 1, b + 1;
      }
    }
  }

  lemma {:induction false} PickKeeps(ms: seq<Member>, c: Choice, i: nat) returns (a: nat)
    requires i < |ms| && Chosen(c, ms[i])
    ensures a < |Pick(ms, c)| && Pick(ms, c)[a] == ms[i]
  {
    if i == 0 {
      a := 0;
    } else {
      a := PickKeeps(ms[1..], c, i - 1);
      if Chosen(c, ms[0]) {
        a := a + 1;
      }
    }
  }

  // ------------------------------------------------------------ within one property

  /** Getters before setters before deleters, each by name. */
  predicate AccessorsInOrder(a: Member, b: Member) {
    && (b.sub == Getter ==> a.sub == Getter)
    && (b.sub == Setter ==> a.sub == Getter || a.sub == Setter)
    && (a.sub == b.sub ==> Leq(a.name, b.name))
  }

  predicate AllInSub(ms: seq<Member>, s: Subgroup) { forall i | 0 <= i < |ms| :: ms[i].sub == s }

  lemma SortedSub(grp: seq<Member>, s: Subgroup)
    ensures Sorted(Alpha(Pick(grp, InSub(s)))) && AllInSub(Alpha(Pick(grp, InSub(s))), s)
  {
    var p := Pick(grp, InSub(s));
    AlphaSorts(p);
    AlphaMembers(p);
    forall i | 0 <= i < |Alpha(p)| ensures Alpha(p)[i].sub == s {
      PickMembers(grp, InSub(s), Alpha(p)[i]);
    }
  }

  lemma PartsInOrder(g: seq<Member>, s: seq<Member>, d: seq<Member>, i: nat, j: nat)
    requires AllInSub(g, Getter) && AllInSub(s, Setter) && AllInSub(d, Deleter) && Sorted(g) && Sorted(s) && Sorted(d)
    requires i < j < |g + s + d|
    ensures AccessorsInOrder((g + s + d)[i], (g + s + d)[j])
  {
  }

  lemma GroupInOrder(grp: seq<Member>, i: nat, j: nat)
    requires i < j < |OrderedGroup(grp)|
    ensures AccessorsInOrder(OrderedGroup(grp)[i], OrderedGroup(grp)[j])
  {
    SortedSub(grp, Getter);
    SortedSub(grp, Setter);
    SortedSub(grp, Deleter);
    PartsInOrder(Alpha(Pick(grp, InSub(Getter))), Alpha(Pick(grp, InSub(Setter))), Alpha(Pick(grp, InSub(Deleter))),
                 i, j);
  }

  // ------------------------------------------------------------ between properties

  predicate IsGetterOf(m: Member, n: string) { OfName(m, n) && m.sub == Getter }

  /** The primary getter of a property: the first one in the class with the smallest name. */
  predicate IsPrimary(ms: seq<Member>, n: string, k: nat) {
    && k < |ms| && IsGetterOf(ms[k], n)
    && forall j | 0 <= j < |ms| && IsGetterOf(ms[j], n) ::
         Leq(ms[k].name, ms[j].name) && (j < k ==> ms[j].name != ms[k].name)
  }

  ghost predicate KindIs(ms: seq<Member>, n: string, kind: string) {
    exists k: nat :: IsPrimary(ms, n, k) && ms[k].kind == Some(kind)
  }

  function Getters(ms: seq<Member>, n: string): seq<Member> { Pick(Pick(ms, OfProperty(n)), InSub(Getter)) }

  lemma GettersHead(ms: seq<Member>, n: string)
    requires ms != []
    ensures Getters(ms, n) == if IsGetterOf(ms[0], n) then [ms[0]] + Getters(ms[1..], n) else Getters(ms[1..], n)
  {
    var head, rest := ms[0], Pick(ms[1..], OfProperty(n));
    if Chosen(OfProperty(n), head) {
      assert ([head] + rest)[1..] == rest;
    }
  }

  lemma {:induction false} GettersAreThose(ms: seq<Member>, n: string, k: nat)
    requires k < |ms| && IsGetterOf(ms[k], n)
    ensures Getters(ms, n) != []
  {
    GettersHead(ms, n);
    if k > 0 { GettersAreThose(ms[1..], n, k - 1); }
  }

  lemma {:induction false} FirstIsPrimary(ms: seq<Member>, n: string) returns (k: nat)
    requires Getters(ms, n) != []
    ensures IsPrimary(ms, n, k) && First(Getters(ms, n)) == ms[k]
  {
    if ms == [] {
      assert false;
    }
    GettersHead(ms, n);
    var rest := Getters(ms[1..], n);
    if rest == [] {
      k := 0;
      forall j | 0 < j < |ms| ensures !IsGetterOf(ms[j], n) {
        if IsGetterOf(ms[j], n) { GettersAreThose(ms[1..], n, j - 1); }
      }
      LeqReflexive(ms[0].name);
    } else {
      k := FirstIsPrimary(ms[1..], n);
      k := k + 1;
      assert forall j | 0 < j < |ms| :: ms[j] == ms[1..][j - 1];
      if IsGetterOf(ms[0], n) {
        assert ([ms[0]] + rest)[1..] == rest;
        if Leq(ms[0].name, ms[k].name) {
          HeadIsPrimary(ms, n, k);
          k := 0;
        } else {
          LeqTotal(ms[0].name, ms[k].name);
        }
      }
    }
  }

  lemma HeadIsPrimary(ms: seq<Member>, n: string, k: nat)
    requires 0 < k < |ms| && IsPrimary(ms[1..], n, k - 1) && IsGetterOf(ms[0], n) && Leq(ms[0].name, ms[k].name)
    ensures IsPrimary(ms, n, 0)
  {
    forall j | 0 <= j < |ms| && IsGetterOf(ms[j], n) ensures Leq(ms[0].name, ms[j].name) {
      if j == 0 {
        LeqReflexive(ms[0].name);
      } else {
        assert IsGetterOf(ms[1..][j - 1], n);
        LeqTransitive(ms[0].name, ms[k].name, ms[j].name);
      }
    }
  }

  lemma OnePrimary(ms: seq<Member>, n: string, j: nat, k: nat)
    requires IsPrimary(ms, n, j) && IsPrimary(ms, n, k)
    ensures j == k
  {
    LeqAntisymmetric(ms[j].name, ms[k].name);
  }

  /** The priority the script sorts by, in terms of the primary getter's decorator. */
  lemma PriorityIsKind(ms: seq<Member>, n: string)
    ensures var p := GroupPriority(Pick(ms, OfProperty(n)));
            && (p == 0 <==> KindIs(ms, n, "property")) && (p == 1 <==> KindIs(ms, n, "hm_property")) && p <= 2
  {
    if Getters(ms, n) == [] {
      forall k: nat | k < |ms| ensures !IsPrimary(ms, n, k) {
        if IsPrimary(ms, n, k) { GettersAreThose(ms, n, k); }
      }
    } else {
      var k := FirstIsPrimary(ms, n);
      forall j: nat | IsPrimary(ms, n, j) ensures j == k { OnePrimary(ms, n, j, k); }
    }
  }

  /** Property `n` may stand before property `m`: those whose primary getter is a `property` come
      first, then those with `hm_property`, then all others, and by name among equals. */
  ghost predicate RanksBefore(ms: seq<Member>, n: string, m: string) {
    && (KindIs(ms, m, "property") ==> KindIs(ms, n, "property") && Leq(n, m))
    && (KindIs(ms, m, "hm_property") ==>
          KindIs(ms, n, "property") || (KindIs(ms, n, "hm_property") && Leq(n, m)))
    && (!KindIs(ms, m, "property") && !KindIs(ms, m, "hm_property") ==>
          KindIs(ms, n, "property") || KindIs(ms, n, "hm_property") || Leq(n, m))
  }

  lemma BeforeRanks(ms: seq<Member>, n: string, m: string)
    requires Before(ms, n, m)
    ensures RanksBefore(ms, n, m)
  {
    PriorityIsKind(ms, n);
    PriorityIsKind(ms, m);
  }

  lemma {:induction false} JoinedInOrder(bs: seq<seq<Member>>, i: nat, j: nat) returns (a: nat, b: nat)
    requires i < j < |Joined(bs)|
    ensures a <= b < |bs| && Joined(bs)[i] in bs[a] && Joined(bs)[j] in bs[b]
  {
    var k := |bs[0]|;
    if i >= k {
      a, b := JoinedInOrder(bs[1..], i - k, j - k);
      a, b := a + 1, b + 1;
    } else if j >= k {
      b := JoinedMember(bs[1..], Joined(bs[1..])[j - k]);
      a, b := 0, b + 1;
    } else {
      a, b := 0, 0;
    }
  }

  lemma GroupsFollowNames(ms: seq<Member>, ns: seq<string>, i: nat, j: nat) returns (a: nat, b: nat)
    requires i < j < |Groups(ms, ns)|
    ensures a <= b < |ns| && OfName(Groups(ms, ns)[i], ns[a]) && OfName(Groups(ms, ns)[j], ns[b])
  {
    GroupsAreJoined(ms, ns);
    a, b := JoinedInOrder(GroupList(ms, ns), i, j);
    GroupHasName(ms, ns[a], Joined(GroupList(ms, ns))[i]);
    GroupHasName(ms, ns[b], Joined(GroupList(ms, ns))[j]);
  }

  lemma GroupHasName(ms: seq<Member>, n: string, m: Member)
    requires m in OrderedGroup(Pick(ms, OfProperty(n)))
    ensures OfName(m, n)
  {
    GroupIsOneProperty(ms, n);
    assert Chosen(OfProperty(n), m);
  }

  lemma PropertiesRanked(ms: seq<Member>, i: nat, j: nat)
    requires i < j < |Reordered(ms)| && Named(Reordered(ms)[i]) && Named(Reordered(ms)[j])
    requires Reordered(ms)[i].propname != Reordered(ms)[j].propname
    ensures RanksBefore(ms, Reordered(ms)[i].propname.value, Reordered(ms)[j].propname.value)
  {
    var r, ns := Reordered(ms), SortNames(ms, Names(ms));
    var a, b := PickInOrder(r, InSlot(5), i, j);
    PickSlot(ms, 11, 5);
    var x, y := GroupsFollowNames(ms, ns, a, b);
    NamesAreThose(ms, "");
    SortNamesSorts(ms, Names(ms));
    assert r[i].propname == Some(ns[x]) && r[j].propname == Some(ns[y]) && x != y;
    assert Before(ms, ns[x], ns[y]);
    BeforeRanks(ms, ns[x], ns[y]);
  }

  lemma AccessorsOrdered(ms: seq<Member>, i: nat, j: nat)
    requires i < j < |Reordered(ms)| && Named(Reordered(ms)[i])
    requires Reordered(ms)[j].group == Property && Reordered(ms)[i].propname == Reordered(ms)[j].propname
    ensures AccessorsInOrder(Reordered(ms)[i], Reordered(ms)[j])
  {
    var r := Reordered(ms);
    var n := r[i].propname.value;
    var a, b := PickInOrder(r, OfProperty(n), i, j);
    PropertyOfReordered(ms, n);
    GroupInOrder(Pick(ms, OfProperty(n)), a, b);
  }

  /** Any two members of a reordered class, the first standing before the second: __init__ first, then
      other dunders, class methods, static methods, delegated properties, named properties, stray
      property methods, public, protected and private methods, generic properties last; by name within
      a group; properties by the decorator of their primary getter and then by name; getters before
      setters before deleters of the same property. */
  lemma {:induction false} EveryTwoMembers(ms: seq<Member>, i: nat, j: nat)
    requires i < j < |Reordered(ms)|
    ensures
      var a, b := Reordered(ms)[i], Reordered(ms)[j];
      && MayFollow(a, b)
      && (a.group == b.group && !Named(a) && !Named(b) ==> Leq(a.name, b.name))
      && (Named(a) && Named(b) ==>
            if a.propname == b.propname then AccessorsInOrder(a, b)
            else RanksBefore(ms, a.propname.value, b.propname.value))
  {
    var a, b := Reordered(ms)[i], Reordered(ms)[j];
    ReorderedInOrder(ms);
    SlotsMayFollow(a, b);
    if Named(a) && Named(b) {
      if a.propname == b.propname {
        AccessorsOrdered(ms, i, j);
      } else {
        PropertiesRanked(ms, i, j);
      }
    }
  }
}
