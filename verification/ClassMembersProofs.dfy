/** Reordering is a permutation, keeps each property together, and is idempotent. */
module ClassMembersProofs {
  import opened Strings
  import opened ClassMembers

  // ------------------------------------------------------------ picking

  lemma {:induction false} PickConcat(a: seq<Member>, b: seq<Member>, c: Choice)
    ensures Pick(a + b, c) == Pick(a, c) + Pick(b, c)
  {
    if a == [] {
      assert a + b == b;
    } else {
      assert (a + b)[1..] == a[1..] + b;
      PickConcat(a[1..], b, c);
    }
  }

  lemma {:induction false} PickMembers(ms: seq<Member>, c: Choice, m: Member)
    ensures m in Pick(ms, c) <==> m in ms && Chosen(c, m)
  {
    if ms != [] {
      PickMembers(ms[1..], c, m);
    }
  }

  predicate AllChosen(ms: seq<Member>, c: Choice) { forall m | m in ms :: Chosen(c, m) }

  predicate NoneChosen(ms: seq<Member>, c: Choice) { forall m | m in ms :: !Chosen(c, m) }

  lemma {:induction false} PickAll(ms: seq<Member>, c: Choice)
    requires AllChosen(ms, c)
    ensures Pick(ms, c) == ms
  {
    if ms != [] {
      PickAll(ms[1..], c);
    }
  }

  lemma {:induction false} PickNone(ms: seq<Member>, c: Choice)
    requires NoneChosen(ms, c)
    ensures Pick(ms, c) == []
  {
    if ms != [] {
      PickNone(ms[1..], c);
    }
  }

  lemma AllPicked(ms: seq<Member>, c: Choice)
    ensures AllChosen(Pick(ms, c), c)
  {
  }

  // ------------------------------------------------------------ lists of parts

  function Joined(bs: seq<seq<Member>>): seq<Member> {
    if bs == [] then [] else bs[0] + Joined(bs[1..])
  }

  lemma Associate(a: seq<Member>, b: seq<Member>, c: seq<Member>)
    ensures (a + b) + c == a + (b + c)
  {
  }

  lemma {:induction false} JoinedConcat(a: seq<seq<Member>>, b: seq<seq<Member>>)
    ensures Joined(a + b) == Joined(a) + Joined(b)
  {
    if a == [] {
      assert a + b == b;
    } else {
      assert (a + b)[1..] == a[1..] + b;
      JoinedConcat(a[1..], b);
      Associate(a[0], Joined(a[1..]), Joined(b));
    }
  }

  lemma JoinedOne(a: seq<Member>)
    ensures Joined([a]) == a
  {
    assert [a][1..] == [];
  }

  lemma {:induction false} JoinedMember(bs: seq<seq<Member>>, m: Member) returns (i: nat)
    requires m in Joined(bs)
    ensures i < |bs| && m in bs[i]
  {
    if m in bs[0] {
      i := 0;
    } else {
      i := JoinedMember(bs[1..], m);
      i := i + 1;
    }
  }

  /** If only the k-th part has members to pick, picking from all is picking from that part. */
  lemma {:induction false} PickOnlyFrom(bs: seq<seq<Member>>, k: nat, c: Choice)
    requires forall i | 0 <= i < |bs| && i != k :: NoneChosen(bs[i], c)
    ensures Pick(Joined(bs), c) == if k < |bs| then Pick(bs[k], c) else []
  {
    if bs != [] {
      PickConcat(bs[0], Joined(bs[1..]), c);
      if k == 0 {
        PickNoneFrom(bs[1..], c);
      } else {
        PickNone(bs[0], c);
        PickOnlyFrom(bs[1..], k - 1, c);
      }
    }
  }

  lemma {:induction false} PickNoneFrom(bs: seq<seq<Member>>, c: Choice)
    requires forall i | 0 <= i < |bs| :: NoneChosen(bs[i], c)
    ensures Pick(Joined(bs), c) == []
  {
    if bs != [] {
      PickConcat(bs[0], Joined(bs[1..]), c);
      PickNone(bs[0], c);
      PickNoneFrom(bs[1..], c);
    }
  }

  // ------------------------------------------------------------ sorting by name

  predicate Sorted(ms: seq<Member>) {
    forall i, j | 0 <= i < j < |ms| :: Leq(ms[i].name, ms[j].name)
  }

  lemma {:induction false} InsertPermutes(m: Member, ms: seq<Member>)
    ensures multiset(Insert(m, ms)) == multiset([m] + ms)
  {
    if ms != [] && !Leq(m.name, ms[0].name) {
      InsertPermutes(m, ms[1..]);
      assert ms == [ms[0]] + ms[1..];
    }
  }

  lemma {:induction false} AlphaPermutes(ms: seq<Member>)
    ensures multiset(Alpha(ms)) == multiset(ms)
  {
    if ms != [] {
      InsertPermutes(ms[0], Alpha(ms[1..]));
      AlphaPermutes(ms[1..]);
      assert ms == [ms[0]] + ms[1..];
    }
  }

  lemma AlphaMembers(ms: seq<Member>)
    ensures forall m :: m in Alpha(ms) <==> m in ms
    ensures |Alpha(ms)| == |ms|
  {
    AlphaPermutes(ms);
    forall m ensures m in Alpha(ms) <==> m in ms {
      assert m in multiset(Alpha(ms)) <==> m in multiset(ms);
    }
  }

  lemma InsertMembers(m: Member, ms: seq<Member>, x: Member)
    requires x in Insert(m, ms)
    ensures x == m || x in ms
  {
    InsertPermutes(m, ms);
    assert x in multiset([m] + ms);
  }

  lemma SortedCons(m: Member, ms: seq<Member>)
    requires Sorted(ms) && forall j | 0 <= j < |ms| :: Leq(m.name, ms[j].name)
    ensures Sorted([m] + ms)
  {
  }

  lemma {:induction false} InsertSorts(m: Member, ms: seq<Member>)
    requires Sorted(ms)
    ensures Sorted(Insert(m, ms))
  {
    if ms != [] {
      if Leq(m.name, ms[0].name) {
        forall j | 0 <= j < |ms| ensures Leq(m.name, ms[j].name) {
          if j > 0 { LeqTransitive(m.name, ms[0].name, ms[j].name); }
        }
        SortedCons(m, ms);
      } else {
        LeqTotal(m.name, ms[0].name);
        InsertSorts(m, ms[1..]);
        var r := Insert(m, ms[1..]);
        forall j | 0 <= j < |r| ensures Leq(ms[0].name, r[j].name) {
          InsertMembers(m, ms[1..], r[j]);
        }
        SortedCons(ms[0], r);
      }
    }
  }

  lemma {:induction false} AlphaSorts(ms: seq<Member>)
    ensures Sorted(Alpha(ms))
  {
    if ms != [] {
      AlphaSorts(ms[1..]);
      InsertSorts(ms[0], Alpha(ms[1..]));
    }
  }

  lemma {:induction false} AlphaFixesSorted(ms: seq<Member>)
    requires Sorted(ms)
    ensures Alpha(ms) == ms
  {
    if ms != [] {
      AlphaFixesSorted(ms[1..]);
    }
  }

  lemma AlphaIdempotent(ms: seq<Member>)
    ensures Alpha(Alpha(ms)) == Alpha(ms)
  {
    AlphaSorts(ms);
    AlphaFixesSorted(Alpha(ms));
  }

  lemma {:induction false} InsertIsStable(m: Member, ms: seq<Member>, n: string)
    ensures Pick(Insert(m, ms), Named(n)) == Pick([m] + ms, Named(n))
  {
    if ms != [] && !Leq(m.name, ms[0].name) {
      LeqReflexive(m.name);
      InsertIsStable(m, ms[1..], n);
    }
  }

  /** The sort is stable: members of equal name keep their order. */
  lemma {:induction false} AlphaIsStable(ms: seq<Member>, n: string)
    ensures Pick(Alpha(ms), Named(n)) == Pick(ms, Named(n))
  {
    if ms != [] {
      AlphaIsStable(ms[1..], n);
      InsertIsStable(ms[0], Alpha(ms[1..]), n);
    }
  }

  /** The primary getter is the head of the sorted getters. */
  lemma {:induction false} FirstIsHead(ms: seq<Member>)
    requires ms != []
    ensures Alpha(ms) != [] && First(ms) == Alpha(ms)[0]
  {
    if |ms| > 1 {
      FirstIsHead(ms[1..]);
    }
  }

  // ------------------------------------------------------------ one property

  predicate Complete(grp: seq<Member>) { forall m | m in grp :: m.sub != NoSubgroup }

  lemma GroupParts(grp: seq<Member>)
    ensures Pick(OrderedGroup(grp), InSub(Getter)) == Alpha(Pick(grp, InSub(Getter)))
    ensures Pick(OrderedGroup(grp), InSub(Setter)) == Alpha(Pick(grp, InSub(Setter)))
    ensures Pick(OrderedGroup(grp), InSub(Deleter)) == Alpha(Pick(grp, InSub(Deleter)))
  {
    GroupPart(grp, Getter);
    GroupPart(grp, Setter);
    GroupPart(grp, Deleter);
  }

  lemma SortedPart(grp: seq<Member>, s: Subgroup, t: Subgroup)
    ensures Pick(Alpha(Pick(grp, InSub(s))), InSub(t)) == if s == t then Alpha(Pick(grp, InSub(s))) else []
  {
    AllPicked(grp, InSub(s));
    AlphaMembers(Pick(grp, InSub(s)));
    if s == t {
      PickAll(Alpha(Pick(grp, InSub(s))), InSub(t));
    } else {
      PickNone(Alpha(Pick(grp, InSub(s))), InSub(t));
    }
  }

  lemma GroupPart(grp: seq<Member>, t: Subgroup)
    requires t != NoSubgroup
    ensures Pick(OrderedGroup(grp), InSub(t)) == Alpha(Pick(grp, InSub(t)))
  {
    var g, s, d := Alpha(Pick(grp, InSub(Getter))), Alpha(Pick(grp, InSub(Setter))), Alpha(Pick(grp, InSub(Deleter)));
    PickConcat(g + s, d, InSub(t));
    PickConcat(g, s, InSub(t));
    SortedPart(grp, Getter, t);
    SortedPart(grp, Setter, t);
    SortedPart(grp, Deleter, t);
  }

  lemma GroupIdempotent(grp: seq<Member>)
    ensures OrderedGroup(OrderedGroup(grp)) == OrderedGroup(grp)
    ensures GroupPriority(OrderedGroup(grp)) == GroupPriority(grp)
  {
    GroupParts(grp);
    AlphaIdempotent(Pick(grp, InSub(Getter)));
    AlphaIdempotent(Pick(grp, InSub(Setter)));
    AlphaIdempotent(Pick(grp, InSub(Deleter)));
    var getters := Pick(grp, InSub(Getter));
    if getters != [] {
      FirstIsHead(getters);
      FirstIsHead(Alpha(getters));
    }
  }

  lemma GroupMembers(grp: seq<Member>, m: Member)
    ensures m in OrderedGroup(grp) <==> m in grp && m.sub != NoSubgroup
  {
    var g, s, d := Pick(grp, InSub(Getter)), Pick(grp, InSub(Setter)), Pick(grp, InSub(Deleter));
    AlphaMembers(g);
    AlphaMembers(s);
    AlphaMembers(d);
    PickMembers(grp, InSub(Getter), m);
    PickMembers(grp, InSub(Setter), m);
    PickMembers(grp, InSub(Deleter), m);
  }

  lemma PickHead(ms: seq<Member>, c: Choice)
    requires ms != []
    ensures multiset(Pick(ms, c)) ==
            multiset(Pick(ms[1..], c)) + if Chosen(c, ms[0]) then multiset{ms[0]} else multiset{}
  {
  }

  lemma {:induction false} SubgroupsCover(grp: seq<Member>)
    requires Complete(grp)
    ensures var gs, ss, ds := Pick(grp, InSub(Getter)), Pick(grp, InSub(Setter)), Pick(grp, InSub(Deleter));
            multiset(grp) == multiset(gs) + multiset(ss) + multiset(ds)
  {
    if grp != [] {
      assert grp == [grp[0]] + grp[1..];
      SubgroupsCover(grp[1..]);
      PickHead(grp, InSub(Getter));
      PickHead(grp, InSub(Setter));
      PickHead(grp, InSub(Deleter));
    }
  }

  lemma GroupPermutes(grp: seq<Member>)
    requires Complete(grp)
    ensures multiset(OrderedGroup(grp)) == multiset(grp)
  {
    SubgroupsCover(grp);
    AlphaPermutes(Pick(grp, InSub(Getter)));
    AlphaPermutes(Pick(grp, InSub(Setter)));
    AlphaPermutes(Pick(grp, InSub(Deleter)));
  }

  // ------------------------------------------------------------ property names

  predicate DistinctNames(ns: seq<string>) { forall i, j | 0 <= i < j < |ns| :: ns[i] != ns[j] }

  ghost predicate Mentions(ms: seq<Member>, n: string) { exists m :: m in ms && Chosen(OfProperty(n), m) }

  lemma {:induction false} NamesAreThose(ms: seq<Member>, n: string)
    ensures DistinctNames(Names(ms))
    ensures n in Names(ms) <==> Mentions(ms, n)
  {
    if ms != [] {
      var k := |ms| - 1;
      NamesAreThose(ms[..k], n);
      assert Mentions(ms, n) <==> Mentions(ms[..k], n) || Chosen(OfProperty(n), ms[k]);
    }
  }

  lemma NamesHavePicks(ms: seq<Member>, n: string)
    ensures n in Names(ms) <==> Pick(ms, OfProperty(n)) != []
  {
    NamesAreThose(ms, n);
    if n in Names(ms) {
      var m :| m in ms && Chosen(OfProperty(n), m);
      PickMembers(ms, OfProperty(n), m);
    } else if Pick(ms, OfProperty(n)) != [] {
      PickMembers(ms, OfProperty(n), Pick(ms, OfProperty(n))[0]);
    }
  }

  predicate NamesSorted(ms: seq<Member>, ns: seq<string>) {
    forall i, j | 0 <= i < j < |ns| :: Before(ms, ns[i], ns[j])
  }

  lemma BeforeIsAnOrder(ms: seq<Member>, a: string, b: string, c: string)
    ensures Before(ms, a, b) || Before(ms, b, a)
    ensures Before(ms, a, b) && Before(ms, b, a) ==> a == b
    ensures Before(ms, a, b) && Before(ms, b, c) ==> Before(ms, a, c)
  {
    LeqTotal(a, b);
    if Leq(a, b) && Leq(b, a) { LeqAntisymmetric(a, b); }
    if Leq(a, b) && Leq(b, c) { LeqTransitive(a, b, c); }
  }

  lemma {:induction false} InsertNameSorts(ms: seq<Member>, n: string, ns: seq<string>)
    requires NamesSorted(ms, ns) && DistinctNames(ns) && n !in ns
    ensures NamesSorted(ms, InsertName(ms, n, ns)) && DistinctNames(InsertName(ms, n, ns))
    ensures forall x :: x in InsertName(ms, n, ns) <==> x == n || x in ns
  {
    if ns != [] {
      if Before(ms, n, ns[0]) {
        forall j | 0 <= j < |ns| ensures Before(ms, n, ns[j]) {
          if j > 0 { BeforeIsAnOrder(ms, n, ns[0], ns[j]); }
        }
      } else {
        BeforeIsAnOrder(ms, n, ns[0], n);
        InsertNameSorts(ms, n, ns[1..]);
        var r := InsertName(ms, n, ns[1..]);
        forall j | 0 <= j < |r| ensures Before(ms, ns[0], r[j]) && ns[0] != r[j] {
          assert r[j] == n || r[j] in ns[1..];
        }
      }
    }
  }

  lemma {:induction false} SortNamesSorts(ms: seq<Member>, ns: seq<string>)
    requires DistinctNames(ns)
    ensures NamesSorted(ms, SortNames(ms, ns)) && DistinctNames(SortNames(ms, ns))
    ensures forall x :: x in SortNames(ms, ns) <==> x in ns
  {
    if ns != [] {
      SortNamesSorts(ms, ns[1..]);
      InsertNameSorts(ms, ns[0], SortNames(ms, ns[1..]));
    }
  }

  /** A set of names has only one sorted arrangement. */
  lemma {:induction false} SortedNamesUnique(ms: seq<Member>, a: seq<string>, b: seq<string>)
    requires NamesSorted(ms, a) && NamesSorted(ms, b) && DistinctNames(a) && DistinctNames(b)
    requires forall x :: x in a <==> x in b
    ensures a == b
  {
    EmptyTogether(a, b);
    if a != [] {
      assert a[0] in b;
      assert b[0] in a;
      BeforeIsAnOrder(ms, a[0], b[0], a[0]);
      forall x ensures x in a[1..] <==> x in b[1..] {
        assert x in a <==> x in b;
      }
      SortedNamesUnique(ms, a[1..], b[1..]);
    }
  }

  lemma EmptyTogether(a: seq<string>, b: seq<string>)
    requires forall x :: x in a <==> x in b
    ensures a == [] <==> b == []
  {
    if a != [] { assert a[0] in b; }
    if b != [] { assert b[0] in a; }
  }

  // ------------------------------------------------------------ the property block

  lemma GroupIsOneProperty(ms: seq<Member>, n: string)
    ensures AllChosen(OrderedGroup(Pick(ms, OfProperty(n))), OfProperty(n))
  {
    var grp := Pick(ms, OfProperty(n));
    forall m | m in OrderedGroup(grp) ensures Chosen(OfProperty(n), m) {
      GroupMembers(grp, m);
      PickMembers(ms, OfProperty(n), m);
    }
  }

  lemma {:induction false} PickGroups(ms: seq<Member>, ns: seq<string>, n: string)
    requires DistinctNames(ns)
    ensures Pick(Groups(ms, ns), OfProperty(n)) == if n in ns then OrderedGroup(Pick(ms, OfProperty(n))) else []
  {
    if ns != [] {
      var g := OrderedGroup(Pick(ms, OfProperty(ns[0])));
      PickConcat(g, Groups(ms, ns[1..]), OfProperty(n));
      PickGroups(ms, ns[1..], n);
      GroupIsOneProperty(ms, ns[0]);
      if n == ns[0] {
        PickAll(g, OfProperty(n));
      } else {
        PickNone(g, OfProperty(n));
      }
    }
  }

  lemma {:induction false} GroupsMembers(ms: seq<Member>, ns: seq<string>, m: Member)
    ensures m in Groups(ms, ns) ==> m in ms && HasProperty(m) && m.sub != NoSubgroup
  {
    if ns != [] {
      GroupsMembers(ms, ns[1..], m);
      var grp := Pick(ms, OfProperty(ns[0]));
      GroupMembers(grp, m);
      PickMembers(ms, OfProperty(ns[0]), m);
    }
  }

  function GroupList(ms: seq<Member>, ns: seq<string>): seq<seq<Member>> {
    seq(|ns|, i requires 0 <= i < |ns| => OrderedGroup(Pick(ms, OfProperty(ns[i]))))
  }

  lemma {:induction false} GroupsAreJoined(ms: seq<Member>, ns: seq<string>)
    ensures Groups(ms, ns) == Joined(GroupList(ms, ns))
  {
    if ns != [] {
      GroupsAreJoined(ms, ns[1..]);
      assert GroupList(ms, ns)[1..] == GroupList(ms, ns[1..]);
    }
  }

  // ------------------------------------------------------------ the blocks

  lemma BlockMembers(ms: seq<Member>, k: nat, m: Member)
    ensures m in Block(ms, k) ==> m in ms && Slot(m) == k && (k == 5 ==> m.sub != NoSubgroup)
  {
    if k == 5 {
      GroupsMembers(ms, SortNames(ms, Names(ms)), m);
    } else {
      AlphaMembers(Pick(ms, InSlot(k)));
      PickMembers(ms, InSlot(k), m);
    }
  }

  function BlockList(ms: seq<Member>, k: nat): seq<seq<Member>> { seq(k, (i: nat) => Block(ms, i)) }

  lemma BlockListNext(ms: seq<Member>, k: nat)
    ensures BlockList(ms, k + 1) == BlockList(ms, k) + [Block(ms, k)]
  {
  }

  lemma {:induction false} BlocksAreJoined(ms: seq<Member>, k: nat)
    ensures Blocks(ms, k) == Joined(BlockList(ms, k))
  {
    if k > 0 {
      BlocksAreJoined(ms, k - 1);
      BlockListNext(ms, k - 1);
      JoinedConcat(BlockList(ms, k - 1), [Block(ms, k - 1)]);
      JoinedOne(Block(ms, k - 1));
    }
  }

  lemma BlocksMembers(ms: seq<Member>, k: nat, m: Member)
    requires m in Joined(BlockList(ms, k))
    ensures m in ms && Slot(m) < k && (HasProperty(m) ==> m.sub != NoSubgroup)
  {
    var i := JoinedMember(BlockList(ms, k), m);
    assert BlockList(ms, k)[i] == Block(ms, i);
    BlockMembers(ms, i, m);
  }

  lemma BlockSlots(ms: seq<Member>, k: nat)
    ensures AllChosen(Block(ms, k), InSlot(k))
  {
    forall m | m in Block(ms, k) ensures Chosen(InSlot(k), m) { BlockMembers(ms, k, m); }
  }

  lemma OtherBlock(ms: seq<Member>, k: nat, j: nat)
    requires k != j
    ensures NoneChosen(Block(ms, k), InSlot(j))
  {
    BlockSlots(ms, k);
  }

  lemma PickSlot(ms: seq<Member>, k: nat, j: nat)
    requires j < k
    ensures Pick(Blocks(ms, k), InSlot(j)) == Block(ms, j)
  {
    BlocksAreJoined(ms, k);
    forall i: nat | i < k && i != j ensures NoneChosen(BlockList(ms, k)[i], InSlot(j)) { OtherBlock(ms, i, j); }
    PickOnlyFrom(BlockList(ms, k), j, InSlot(j));
    BlockSlots(ms, j);
    PickAll(Block(ms, j), InSlot(j));
  }

  lemma NoPropertyIn(ms: seq<Member>, k: nat, n: string)
    requires k != 5
    ensures NoneChosen(Block(ms, k), OfProperty(n))
  {
    BlockSlots(ms, k);
  }

  lemma PickProperty(ms: seq<Member>, k: nat, n: string)
    requires k > 5
    ensures Pick(Blocks(ms, k), OfProperty(n)) == Pick(Block(ms, 5), OfProperty(n))
  {
    BlocksAreJoined(ms, k);
    forall i: nat | i < k && i != 5 ensures NoneChosen(BlockList(ms, k)[i], OfProperty(n)) { NoPropertyIn(ms, i, n); }
    PickOnlyFrom(BlockList(ms, k), 5, OfProperty(n));
  }

  /** Reordering sorts each property's own members and nothing else about them. */
  lemma PropertyOfReordered(ms: seq<Member>, n: string)
    ensures Pick(Reordered(ms), OfProperty(n)) == OrderedGroup(Pick(ms, OfProperty(n)))
  {
    PickProperty(ms, 11, n);
    NamesAreThose(ms, n);
    SortNamesSorts(ms, Names(ms));
    PickGroups(ms, SortNames(ms, Names(ms)), n);
    NamesHavePicks(ms, n);
  }

  // ------------------------------------------------------------ idempotence

  /** A name survives if some of its members are getters, setters or deleters. */
  lemma SurvivingNames(ms: seq<Member>, n: string)
    ensures n in Names(Reordered(ms)) <==> OrderedGroup(Pick(ms, OfProperty(n))) != []
    ensures n in Names(Reordered(ms)) ==> n in Names(ms)
  {
    NamesHavePicks(ms, n);
    NamesHavePicks(Reordered(ms), n);
    PropertyOfReordered(ms, n);
    if Pick(ms, OfProperty(n)) == [] {
      assert OrderedGroup([]) == [];
    }
  }

  /** The names whose groups are not empty, in order. */
  function Surviving(ms: seq<Member>, ns: seq<string>): seq<string> {
    if ns == [] then []
    else if OrderedGroup(Pick(ms, OfProperty(ns[0]))) == [] then Surviving(ms, ns[1..])
    else [ns[0]] + Surviving(ms, ns[1..])
  }

  lemma {:induction false} SurvivingGroups(ms: seq<Member>, ns: seq<string>)
    ensures Groups(ms, Surviving(ms, ns)) == Groups(ms, ns)
  {
    if ns != [] {
      SurvivingGroups(ms, ns[1..]);
      assert ns == [ns[0]] + ns[1..];
      GroupsHead(ms, ns[0], ns[1..]);
      if OrderedGroup(Pick(ms, OfProperty(ns[0]))) != [] {
        GroupsHead(ms, ns[0], Surviving(ms, ns[1..]));
      }
    }
  }

  lemma GroupsHead(ms: seq<Member>, n: string, ns: seq<string>)
    ensures Groups(ms, [n] + ns) == OrderedGroup(Pick(ms, OfProperty(n))) + Groups(ms, ns)
  {
    assert ([n] + ns)[1..] == ns;
  }

  lemma {:induction false} SurvivingMembers(ms: seq<Member>, ns: seq<string>, n: string)
    ensures n in Surviving(ms, ns) <==> n in ns && OrderedGroup(Pick(ms, OfProperty(n))) != []
  {
    if ns != [] {
      SurvivingMembers(ms, ns[1..], n);
      assert n in ns <==> n == ns[0] || n in ns[1..];
    }
  }

  lemma {:induction false} SurvivingSorted(ms: seq<Member>, ns: seq<string>)
    requires NamesSorted(ms, ns) && DistinctNames(ns)
    ensures NamesSorted(ms, Surviving(ms, ns)) && DistinctNames(Surviving(ms, ns))
  {
    if ns != [] {
      SurvivingSorted(ms, ns[1..]);
      var rest := Surviving(ms, ns[1..]);
      forall j | 0 <= j < |rest| ensures Before(ms, ns[0], rest[j]) && ns[0] != rest[j] {
        SurvivingMembers(ms, ns[1..], rest[j]);
        var k :| 0 <= k < |ns[1..]| && ns[1..][k] == rest[j];
        assert rest[j] == ns[k + 1];
      }
    }
  }

  lemma SameBefore(ms: seq<Member>, a: string, b: string)
    ensures Before(Reordered(ms), a, b) == Before(ms, a, b)
  {
    PropertyOfReordered(ms, a);
    PropertyOfReordered(ms, b);
    GroupIdempotent(Pick(ms, OfProperty(a)));
    GroupIdempotent(Pick(ms, OfProperty(b)));
  }

  lemma {:induction false} SameGroups(ms: seq<Member>, ns: seq<string>)
    ensures Groups(Reordered(ms), ns) == Groups(ms, ns)
  {
    if ns != [] {
      SameGroups(ms, ns[1..]);
      PropertyOfReordered(ms, ns[0]);
      GroupIdempotent(Pick(ms, OfProperty(ns[0])));
    }
  }

  /** Reordering drops the names whose groups come out empty, and sorts the rest as before. */
  lemma SortedNamesOfReordered(ms: seq<Member>)
    ensures SortNames(Reordered(ms), Names(Reordered(ms))) == Surviving(ms, SortNames(ms, Names(ms)))
  {
    var r := Reordered(ms);
    var a, b := SortNames(r, Names(r)), SortNames(ms, Names(ms));
    NamesAreThose(r, "");
    NamesAreThose(ms, "");
    SortNamesSorts(r, Names(r));
    SortNamesSorts(ms, Names(ms));
    SurvivingSorted(ms, b);
    forall i, j | 0 <= i < j < |a| ensures Before(ms, a[i], a[j]) {
      SameBefore(ms, a[i], a[j]);
    }
    forall x ensures x in a <==> x in Surviving(ms, b) {
      SurvivingNames(ms, x);
      SurvivingMembers(ms, b, x);
    }
    SortedNamesUnique(ms, a, Surviving(ms, b));
  }

  lemma SamePropertyBlock(ms: seq<Member>)
    ensures Block(Reordered(ms), 5) == Block(ms, 5)
  {
    var ns := SortNames(ms, Names(ms));
    SortedNamesOfReordered(ms);
    SameGroups(ms, Surviving(ms, ns));
    SurvivingGroups(ms, ns);
  }

  lemma SameBlock(ms: seq<Member>, k: nat)
    requires k < 11
    ensures Block(Reordered(ms), k) == Block(ms, k)
  {
    if k == 5 {
      SamePropertyBlock(ms);
    } else {
      PickSlot(ms, 11, k);
      AlphaIdempotent(Pick(ms, InSlot(k)));
    }
  }

  lemma {:induction false} SameBlocks(ms: seq<Member>, k: nat)
    requires k <= 11
    ensures Blocks(Reordered(ms), k) == Blocks(ms, k)
  {
    if k > 0 {
      SameBlocks(ms, k - 1);
      SameBlock(ms, k - 1);
    }
  }

  /** Reordering twice is reordering once, also where the first time loses members. */
  lemma ReorderingIsIdempotent(ms: seq<Member>)
    ensures Reordered(Reordered(ms)) == Reordered(ms)
  {
    SameBlocks(ms, 11);
  }

  // ------------------------------------------------------------ permutation

  /** Every named property method is a getter, a setter or a deleter. */
  predicate WellFormed(ms: seq<Member>) { forall m | m in ms && HasProperty(m) :: m.sub != NoSubgroup }

  lemma {:induction false} GroupsPermute(ms: seq<Member>, ns: seq<string>)
    requires WellFormed(ms) && DistinctNames(ns)
    ensures multiset(Groups(ms, ns)) == multiset(Pick(ms, OfProperties(set n | n in ns)))
  {
    if ns == [] {
      PickNone(ms, OfProperties({}));
      assert (set n | n in ns) == {};
    } else {
      var rest := set n | n in ns[1..];
      assert (set n | n in ns) == rest + {ns[0]};
      GroupsPermute(ms, ns[1..]);
      var grp := Pick(ms, OfProperty(ns[0]));
      forall m | m in grp ensures m.sub != NoSubgroup { PickMembers(ms, OfProperty(ns[0]), m); }
      GroupPermutes(grp);
      OneMoreProperty(ms, rest, ns[0]);
    }
  }

  lemma {:induction false} OneMoreProperty(ms: seq<Member>, ns: set<string>, n: string)
    requires n !in ns
    ensures multiset(Pick(ms, OfProperties(ns + {n}))) ==
            multiset(Pick(ms, OfProperty(n))) + multiset(Pick(ms, OfProperties(ns)))
  {
    if ms != [] {
      OneMoreProperty(ms[1..], ns, n);
    }
  }

  lemma {:induction false} OneMoreSlot(ms: seq<Member>, k: nat)
    ensures multiset(Pick(ms, BelowSlot(k + 1))) == multiset(Pick(ms, BelowSlot(k))) + multiset(Pick(ms, InSlot(k)))
  {
    if ms != [] {
      OneMoreSlot(ms[1..], k);
    }
  }

  lemma {:induction false} NamedAreSlotFive(ms: seq<Member>, ns: set<string>)
    requires forall m | m in ms && HasProperty(m) :: m.propname.value in ns
    ensures Pick(ms, OfProperties(ns)) == Pick(ms, InSlot(5))
  {
    if ms != [] {
      NamedAreSlotFive(ms[1..], ns);
    }
  }

  lemma {:induction false} PropertyBlockPermutes(ms: seq<Member>)
    requires WellFormed(ms)
    ensures multiset(Block(ms, 5)) == multiset(Pick(ms, InSlot(5)))
  {
    var ns := SortNames(ms, Names(ms));
    NamesAreThose(ms, "");
    SortNamesSorts(ms, Names(ms));
    GroupsPermute(ms, ns);
    forall m | m in ms && HasProperty(m) ensures m.propname.value in ns {
      NamesAreThose(ms, m.propname.value);
    }
    NamedAreSlotFive(ms, set n | n in ns);
  }

  lemma BlockPermutes(ms: seq<Member>, k: nat)
    requires WellFormed(ms)
    ensures multiset(Block(ms, k)) == multiset(Pick(ms, InSlot(k)))
  {
    if k == 5 {
      PropertyBlockPermutes(ms);
    } else {
      AlphaPermutes(Pick(ms, InSlot(k)));
    }
  }

  lemma NothingBelow(ms: seq<Member>)
    ensures Pick(ms, BelowSlot(0)) == []
  {
  }

  lemma {:induction false} OneMoreBlock(ms: seq<Member>, k: nat)
    requires WellFormed(ms) && multiset(Blocks(ms, k)) == multiset(Pick(ms, BelowSlot(k)))
    ensures multiset(Blocks(ms, k + 1)) == multiset(Pick(ms, BelowSlot(k + 1)))
  {
    OneMoreSlot(ms, k);
    BlockPermutes(ms, k);
  }

  lemma {:induction false} BlocksPermute(ms: seq<Member>, k: nat)
    requires WellFormed(ms)
    ensures multiset(Blocks(ms, k)) == multiset(Pick(ms, BelowSlot(k)))
  {
    NothingBelow(ms);
    for i := 0 to k
      invariant multiset(Blocks(ms, i)) == multiset(Pick(ms, BelowSlot(i)))
    {
      OneMoreBlock(ms, i);
    }
  }

  lemma WellFormedPermutes(ms: seq<Member>)
    requires WellFormed(ms)
    ensures multiset(Reordered(ms)) == multiset(ms)
  {
    BlocksPermute(ms, 11);
    EverythingBelow(ms);
  }

  lemma EverythingBelow(ms: seq<Member>)
    ensures Pick(ms, BelowSlot(11)) == ms
  {
  }

  lemma PermutedIsWellFormed(ms: seq<Member>)
    requires multiset(Reordered(ms)) == multiset(ms)
    ensures WellFormed(ms)
  {
    forall m | m in ms && HasProperty(m) ensures m.sub != NoSubgroup {
      assert m in multiset(Reordered(ms));
      BlocksAreJoined(ms, 11);
      BlocksMembers(ms, 11, m);
    }
  }

  /** The result is a permutation of the input exactly if every named property method is
      classified as getter, setter or deleter; any other one is lost. */
  lemma ReorderingPermutesIff(ms: seq<Member>)
    ensures multiset(Reordered(ms)) == multiset(ms) <==> WellFormed(ms)
  {
    if WellFormed(ms) {
      WellFormedPermutes(ms);
    } else if multiset(Reordered(ms)) == multiset(ms) {
      PermutedIsWellFormed(ms);
    }
  }

  // ------------------------------------------------------------ contiguity

  lemma BlockListSplit(ms: seq<Member>, j: nat, k: nat)
    requires j <= k
    ensures BlockList(ms, k) == BlockList(ms, j) + BlockList(ms, k)[j..]
  {
    assert BlockList(ms, k)[..j] == BlockList(ms, j);
  }

  lemma BlocksStartWith(ms: seq<Member>, j: nat, k: nat) returns (rest: seq<Member>)
    requires j <= k
    ensures Blocks(ms, k) == Blocks(ms, j) + rest
  {
    BlocksAreJoined(ms, j);
    BlocksAreJoined(ms, k);
    BlockListSplit(ms, j, k);
    JoinedConcat(BlockList(ms, j), BlockList(ms, k)[j..]);
    rest := Joined(BlockList(ms, k)[j..]);
  }

  lemma GroupListAround(ms: seq<Member>, a: seq<string>, n: string, b: seq<string>)
    ensures var g := OrderedGroup(Pick(ms, OfProperty(n)));
            GroupList(ms, a + ([n] + b)) == GroupList(ms, a) + ([g] + GroupList(ms, b))
  {
  }

  lemma JoinedAround(a: seq<seq<Member>>, g: seq<Member>, b: seq<seq<Member>>)
    ensures Joined(a + ([g] + b)) == Joined(a) + (g + Joined(b))
  {
    JoinedConcat(a, [g] + b);
    assert ([g] + b)[1..] == b;
  }

  lemma GroupsAround(ms: seq<Member>, a: seq<string>, n: string, b: seq<string>)
    ensures Groups(ms, a + ([n] + b)) == Groups(ms, a) + (OrderedGroup(Pick(ms, OfProperty(n))) + Groups(ms, b))
  {
    GroupsAreJoined(ms, a);
    GroupsAreJoined(ms, b);
    GroupsAreJoined(ms, a + ([n] + b));
    GroupListAround(ms, a, n, b);
    JoinedAround(GroupList(ms, a), OrderedGroup(Pick(ms, OfProperty(n))), GroupList(ms, b));
  }

  lemma NameInSorted(ms: seq<Member>, n: string) returns (a: seq<string>, b: seq<string>)
    requires n in Names(ms)
    ensures SortNames(ms, Names(ms)) == a + ([n] + b)
  {
    NamesAreThose(ms, n);
    SortNamesSorts(ms, Names(ms));
    a, b := SplitAt(SortNames(ms, Names(ms)), n);
  }

  lemma SplitAt(ns: seq<string>, n: string) returns (a: seq<string>, b: seq<string>)
    requires n in ns
    ensures ns == a + ([n] + b)
  {
    var i :| 0 <= i < |ns| && ns[i] == n;
    a, b := ns[..i], ns[i + 1..];
  }

  lemma {:induction false} GroupInReordered(ms: seq<Member>, n: string) returns (pre: seq<Member>, post: seq<Member>)
    requires n in Names(ms)
    ensures Reordered(ms) == pre + OrderedGroup(Pick(ms, OfProperty(n))) + post
  {
    var before, after := GroupInBlock(ms, n);
    var rest := BlocksStartWith(ms, 6, 11);
    pre, post := Regroup(Blocks(ms, 5), before, OrderedGroup(Pick(ms, OfProperty(n))), after, rest);
  }

  lemma Regroup(a: seq<Member>, b: seq<Member>, g: seq<Member>, c: seq<Member>, d: seq<Member>)
      returns (pre: seq<Member>, post: seq<Member>)
    ensures (a + (b + (g + c))) + d == pre + g + post
  {
    pre, post := a + b, c + d;
  }

  lemma {:induction false} GroupInBlock(ms: seq<Member>, n: string) returns (before: seq<Member>, after: seq<Member>)
    requires n in Names(ms)
    ensures Blocks(ms, 6) == Blocks(ms, 5) + (before + (OrderedGroup(Pick(ms, OfProperty(n))) + after))
  {
    var a, b := NameInSorted(ms, n);
    GroupsAround(ms, a, n, b);
    before, after := Groups(ms, a), Groups(ms, b);
  }

  lemma NothingOutside(pre: seq<Member>, g: seq<Member>, post: seq<Member>, c: Choice)
    requires AllChosen(g, c) && Pick(pre + g + post, c) == g
    ensures NoneChosen(pre, c) && NoneChosen(post, c)
  {
    PickConcat(pre + g, post, c);
    PickConcat(pre, g, c);
    PickAll(g, c);
    forall m | m in pre ensures !Chosen(c, m) { PickMembers(pre, c, m); }
    forall m | m in post ensures !Chosen(c, m) { PickMembers(post, c, m); }
  }

  /** All members of a property stand together, getters first, then setters, then deleters, and
      none of them stands anywhere else. */
  lemma {:induction false} PropertiesAreContiguous(ms: seq<Member>, n: string)
      returns (pre: seq<Member>, post: seq<Member>)
    requires n in Names(ms)
    ensures Reordered(ms) == pre + OrderedGroup(Pick(ms, OfProperty(n))) + post
    ensures NoneChosen(pre, OfProperty(n)) && NoneChosen(post, OfProperty(n))
  {
    var g := OrderedGroup(Pick(ms, OfProperty(n)));
    pre, post := GroupInReordered(ms, n);
    PropertyOfReordered(ms, n);
    GroupIsOneProperty(ms, n);
    NothingOutside(pre, g, post, OfProperty(n));
  }

  // ------------------------------------------------------------ order

  /** Blocks in order, and members by name within every block but that of the properties. */
  predicate InOrder(ms: seq<Member>) {
    forall i, j | 0 <= i < j < |ms| ::
      Slot(ms[i]) < Slot(ms[j]) || (Slot(ms[i]) == Slot(ms[j]) && (Slot(ms[i]) == 5 || Leq(ms[i].name, ms[j].name)))
  }

  lemma BlockInOrder(ms: seq<Member>, k: nat)
    ensures InOrder(Block(ms, k)) && forall i | 0 <= i < |Block(ms, k)| :: Slot(Block(ms, k)[i]) == k
  {
    var b := Block(ms, k);
    forall i | 0 <= i < |b| ensures Slot(b[i]) == k { BlockMembers(ms, k, b[i]); }
    if k != 5 { AlphaSorts(Pick(ms, InSlot(k))); }
  }

  lemma BlocksBelow(ms: seq<Member>, k: nat)
    ensures forall i | 0 <= i < |Blocks(ms, k)| :: Slot(Blocks(ms, k)[i]) < k
  {
    var a := Blocks(ms, k);
    BlocksAreJoined(ms, k);
    forall i | 0 <= i < |a| ensures Slot(a[i]) < k { BlocksMembers(ms, k, a[i]); }
  }

  /** The blocks come in the documented order: __init__, other dunders, class methods, static
      methods, delegated properties, properties, strays, public, protected, private, generic
      properties; and names ascend within each, properties having an order of their own. */
  lemma ReorderedInOrder(ms: seq<Member>)
    ensures InOrder(Reordered(ms))
  {
    for k := 0 to 11
      invariant InOrder(Blocks(ms, k))
    {
      OneMoreInOrder(ms, k);
    }
  }

  lemma OneMoreInOrder(ms: seq<Member>, k: nat)
    requires InOrder(Blocks(ms, k))
    ensures InOrder(Blocks(ms, k + 1))
  {
    BlockInOrder(ms, k);
    BlocksBelow(ms, k);
  }

  /** Property groups follow the kind of their first getter, `property` before `hm_property` before
      anything else, and then the property name. */
  lemma PropertyOrder(ms: seq<Member>, i: nat, j: nat)
    requires i < j < |SortNames(ms, Names(ms))|
    ensures
      var ns := SortNames(ms, Names(ms));
      var p, q := GroupPriority(Pick(ms, OfProperty(ns[i]))), GroupPriority(Pick(ms, OfProperty(ns[j])));
      p < q || (p == q && Leq(ns[i], ns[j]) && ns[i] != ns[j])
  {
    NamesAreThose(ms, "");
    SortNamesSorts(ms, Names(ms));
  }
}
