/** The script's own procedures: collecting the members of a class and reordering them. */
module ClassMembersScript {
  import opened Basics
  import opened Strings
  import opened ClassMembers
  import opened ClassMembersProofs

  // ------------------------------------------------------------ classification

  /** A decorator as (base, attribute); `text` stands for the member's source lines. */
  datatype Decorator = Decorator(base: Option<string>, attr: Option<string>)

  datatype Node =
    | DelegatedAssignment(name: string, text: string)
    | GenericAssignment(name: string, text: string)
    | Function(name: string, text: string, decorators: seq<Decorator>)
    | OtherStatement

  predicate StartsWith(s: string, p: string) { p <= s }
  predicate EndsWith(s: string, p: string) { |p| <= |s| && s[|s| - |p|..] == p }

  predicate MarksGetter(d: Decorator) {
    d.base.Some? && d.base.value != "" && d.attr.None?
    && (d.base.value in {"property", "hm_property"} || EndsWith(d.base.value, "_property"))
  }

  predicate MarksAccessor(d: Decorator) {
    d.base.Some? && d.base.value != "" && (d.attr == Some("setter") || d.attr == Some("deleter"))
  }

  function FirstGetter(ds: seq<Decorator>): Option<Decorator> {
    if ds == [] then None else if MarksGetter(ds[0]) then Some(ds[0]) else FirstGetter(ds[1..])
  }

  function FirstAccessor(ds: seq<Decorator>): Option<Decorator> {
    if ds == [] then None else if MarksAccessor(ds[0]) then Some(ds[0]) else FirstAccessor(ds[1..])
  }

  predicate HasBase(ds: seq<Decorator>, base: string) { exists i | 0 <= i < |ds| :: ds[i].base == Some(base) }

  function PlainGroup(name: string, ds: seq<Decorator>): Group {
    if HasBase(ds, "classmethod") then ClassMethod
    else if HasBase(ds, "staticmethod") then StaticMethod
    else if name == "__init__" then DunderInit
    else if StartsWith(name, "__") && EndsWith(name, "__") then Dunder
    else if StartsWith(name, "__") then Private
    else if StartsWith(name, "_") then Protected
    else Public
  }

  /** None for a statement that is not sortable. */
  function Classify(node: Node): Option<Member> {
    match node
    case DelegatedAssignment(name, text) => Some(Member(name, text, DelegatedProperty, NoSubgroup, None, None))
    case GenericAssignment(name, text) => Some(Member(name, text, GenericProperty, NoSubgroup, None, None))
    case Function(name, text, ds) =>
      var getter, accessor := FirstGetter(ds), FirstAccessor(ds);
      if getter.Some? then Some(Member(name, text, Property, Getter, Some(name), getter.value.base))
      else if accessor.Some? then
        Some(Member(name, text, Property, if accessor.value.attr == Some("setter") then Setter else Deleter,
                    accessor.value.base, None))
      else Some(Member(name, text, PlainGroup(name, ds), NoSubgroup, None, None))
    case OtherStatement => None
  }

  /** The sortable statements of a class body, in order. */
  function Collected(body: seq<Node>): seq<Member> {
    if body == [] then []
    else
      var before, c := Collected(body[..|body| - 1]), Classify(body[|body| - 1]);
      if c.Some? then before + [c.value] else before
  }

  method CollectMembers(body: seq<Node>) returns (members: seq<Member>)
    ensures members == Collected(body)
  {
    members := [];
    for i := 0 to |body|
      invariant members == Collected(body[..i])
    {
      assert body[..i + 1][..i] == body[..i];
      var c := Classify(body[i]);
      if c.Some? {
        members := members + [c.value];
      }
    }
    assert body[..|body|] == body;
  }

  lemma {:induction false} AccessorsHaveBases(ds: seq<Decorator>)
    ensures FirstAccessor(ds).Some? ==> MarksAccessor(FirstAccessor(ds).value)
  {
    if ds != [] { AccessorsHaveBases(ds[1..]); }
  }

  ghost predicate HasEnding(s: string, ending: string) { exists stem: string :: s == stem + ending }

  lemma EndingIs(s: string, ending: string)
    ensures EndsWith(s, ending) <==> HasEnding(s, ending)
  {
    if EndsWith(s, ending) {
      assert s == s[..|s| - |ending|] + ending;
    }
  }

  /** A plain decorator `@property`, `@hm_property` or `@..._property`. */
  ghost predicate GetterMark(d: Decorator) {
    && d.attr.None? && d.base.Some?
    && (d.base.value == "property" || d.base.value == "hm_property" || HasEnding(d.base.value, "_property"))
  }

  /** `@name.setter` or `@name.deleter`. */
  predicate AccessorMark(d: Decorator) {
    d.base.Some? && d.base.value != "" && (d.attr == Some("setter") || d.attr == Some("deleter"))
  }

  lemma MarksAreThose(d: Decorator)
    ensures MarksGetter(d) <==> GetterMark(d)
    ensures MarksAccessor(d) <==> AccessorMark(d)
  {
    if d.base.Some? { EndingIs(d.base.value, "_property"); }
  }

  ghost predicate FirstWith(ds: seq<Decorator>, i: nat, getter: bool) {
    && i < |ds| && (if getter then GetterMark(ds[i]) else AccessorMark(ds[i]))
    && forall j | 0 <= j < i :: !(if getter then GetterMark(ds[j]) else AccessorMark(ds[j]))
  }

  lemma {:induction false} FirstGetterIs(ds: seq<Decorator>)
    ensures FirstGetter(ds).Some? <==> exists i: nat :: FirstWith(ds, i, true)
    ensures forall i: nat | FirstWith(ds, i, true) :: FirstGetter(ds) == Some(ds[i])
  {
    if ds != [] {
      MarksAreThose(ds[0]);
      if MarksGetter(ds[0]) {
        assert FirstWith(ds, 0, true);
      } else {
        FirstGetterIs(ds[1..]);
        ShiftFirst(ds, true);
      }
    }
  }

  lemma {:induction false} FirstAccessorIs(ds: seq<Decorator>)
    ensures FirstAccessor(ds).Some? <==> exists i: nat :: FirstWith(ds, i, false)
    ensures forall i: nat | FirstWith(ds, i, false) :: FirstAccessor(ds) == Some(ds[i])
  {
    if ds != [] {
      MarksAreThose(ds[0]);
      if MarksAccessor(ds[0]) {
        assert FirstWith(ds, 0, false);
      } else {
        FirstAccessorIs(ds[1..]);
        ShiftFirst(ds, false);
      }
    }
  }

  lemma ShiftFirst(ds: seq<Decorator>, getter: bool)
    requires ds != [] && !(if getter then GetterMark(ds[0]) else AccessorMark(ds[0]))
    ensures forall i: nat :: FirstWith(ds, i, getter) ==> i > 0 && FirstWith(ds[1..], i - 1, getter)
    ensures (exists i: nat :: FirstWith(ds, i, getter)) <==> exists i: nat :: FirstWith(ds[1..], i, getter)
  {
    forall i: nat | FirstWith(ds, i, getter) ensures i > 0 && FirstWith(ds[1..], i - 1, getter) {
      assert i > 0;
      forall j | 0 <= j < i - 1 ensures ds[1..][j] == ds[j + 1] {}
    }
    if i: nat :| FirstWith(ds[1..], i, getter) {
      forall j | 0 < j < i + 1 ensures ds[j] == ds[1..][j - 1] {}
      assert FirstWith(ds, i + 1, getter);
    }
  }

  /** The group of a method without property decorators. */
  ghost predicate PlainGroupIs(name: string, ds: seq<Decorator>, g: Group) {
    var isClass, isStatic :=
      exists i :: 0 <= i < |ds| && ds[i].base == Some("classmethod"),
      exists i :: 0 <= i < |ds| && ds[i].base == Some("staticmethod");
    && (g == ClassMethod <==> isClass)
    && (g == StaticMethod <==> isStatic && !isClass)
    && (!isClass && !isStatic ==>
          && (g == DunderInit <==> name == "__init__")
          && (g == Dunder <==> name != "__init__" && "__" <= name && HasEnding(name, "__"))
          && (g == Private <==> "__" <= name && !HasEnding(name, "__"))
          && (g == Protected <==> "_" <= name && !("__" <= name))
          && (g == Public <==> !("_" <= name)))
  }

  lemma PlainGroupTable(name: string, ds: seq<Decorator>)
    ensures PlainGroupIs(name, ds, PlainGroup(name, ds))
  {
    EndingIs(name, "__");
    if name == "__init__" {
      assert name == "__init" + "__";
    }
  }

  /** How every method is classified: by its first getter decorator, else by its first setter or
      deleter decorator, else by classmethod, staticmethod and the underscores of its name. */
  lemma ClassificationOfMethods(name: string, text: string, ds: seq<Decorator>)
    ensures Classify(Function(name, text, ds)).Some?
    ensures
      var m := Classify(Function(name, text, ds)).value;
      && m.name == name && m.text == text
      && (m.sub == Getter <==> exists i: nat :: FirstWith(ds, i, true))
      && (m.sub == Setter || m.sub == Deleter <==>
            (exists i: nat :: FirstWith(ds, i, false)) && !exists i: nat :: FirstWith(ds, i, true))
      && (forall i: nat | FirstWith(ds, i, true) :: m == Member(name, text, Property, Getter, Some(name), ds[i].base))
      && (m.sub != Getter ==> forall i: nat | FirstWith(ds, i, false) ::
            m == Member(name, text, Property, if ds[i].attr == Some("setter") then Setter else Deleter,
                        ds[i].base, None))
      && (m.sub == NoSubgroup ==> m.propname.None? && m.kind.None? && PlainGroupIs(name, ds, m.group))
  {
    FirstGetterIs(ds);
    FirstAccessorIs(ds);
    PlainGroupTable(name, ds);
  }

  /** The members are those of the class body, statement by statement and in order: every method and
      every delegated or generic property assignment, and nothing else. */
  lemma {:induction false} CollectedStatementByStatement(body: seq<Node>, node: Node, more: seq<Node>)
    ensures Collected(body + [node] + more) ==
            Collected(body) + (if node.OtherStatement? then [] else [Classify(node).value]) + Collected(more)
    ensures node.DelegatedAssignment? ==>
              Classify(node) == Some(Member(node.name, node.text, DelegatedProperty, NoSubgroup, None, None))
    ensures node.GenericAssignment? ==>
              Classify(node) == Some(Member(node.name, node.text, GenericProperty, NoSubgroup, None, None))
  {
    CollectedConcat(body + [node], more);
    CollectedConcat(body, [node]);
    assert [node][..0] == [];
  }

  lemma {:induction false} CollectedConcat(a: seq<Node>, b: seq<Node>)
    ensures Collected(a + b) == Collected(a) + Collected(b)
  {
    if b == [] {
      assert a + b == a;
    } else {
      assert (a + b)[..|a + b| - 1] == a + b[..|b| - 1];
      CollectedConcat(a, b[..|b| - 1]);
    }
  }

  /** Classification is exhaustive: every property method collected from a class body is a getter,
      a setter or a deleter, and a getter's property has the getter's own name. */
  lemma {:induction false} CollectedIsWellFormed(body: seq<Node>)
    ensures WellFormed(Collected(body))
    ensures forall m | m in Collected(body) :: (m.group == Property <==> m.sub != NoSubgroup)
                                               && (m.sub == Getter ==> m.propname == Some(m.name))
  {
    if body != [] {
      CollectedIsWellFormed(body[..|body| - 1]);
      if body[|body| - 1].Function? { AccessorsHaveBases(body[|body| - 1].decorators); }
    }
  }

  /** So reordering the members of any class body is a permutation, and doing it twice changes
      nothing more. */
  lemma ReorderingAClass(body: seq<Node>)
    ensures var ms := Collected(body);
            multiset(Reordered(ms)) == multiset(ms) && Reordered(Reordered(ms)) == Reordered(ms)
  {
    CollectedIsWellFormed(body);
    WellFormedPermutes(Collected(body));
    ReorderingIsIdempotent(Collected(body));
  }

  // ------------------------------------------------------------ reordering

  /** A property group as the script sorts it: priority, name, ordered members. */
  datatype PropGroup = PropGroup(prio: nat, name: string, members: seq<Member>)

  predicate GroupLeq(a: PropGroup, b: PropGroup) {
    a.prio < b.prio || (a.prio == b.prio && Leq(a.name, b.name))
  }

  function InsertGroup(g: PropGroup, gs: seq<PropGroup>): seq<PropGroup> {
    if gs == [] || GroupLeq(g, gs[0]) then [g] + gs else [gs[0]] + InsertGroup(g, gs[1..])
  }

  function SortGroups(gs: seq<PropGroup>): seq<PropGroup> {
    if gs == [] then [] else InsertGroup(gs[0], SortGroups(gs[1..]))
  }

  function GroupOf(ms: seq<Member>, n: string): PropGroup {
    var grp := Pick(ms, OfProperty(n));
    PropGroup(GroupPriority(grp), n, OrderedGroup(grp))
  }

  function GroupsOf(ms: seq<Member>, ns: seq<string>): seq<PropGroup> {
    if ns == [] then [] else [GroupOf(ms, ns[0])] + GroupsOf(ms, ns[1..])
  }

  lemma {:induction false} InsertFollows(ms: seq<Member>, n: string, ns: seq<string>)
    ensures InsertGroup(GroupOf(ms, n), GroupsOf(ms, ns)) == GroupsOf(ms, InsertName(ms, n, ns))
  {
    if ns != [] && !Before(ms, n, ns[0]) {
      InsertFollows(ms, n, ns[1..]);
    }
  }

  /** Sorting the groups is sorting their names. */
  lemma {:induction false} SortFollows(ms: seq<Member>, ns: seq<string>)
    ensures SortGroups(GroupsOf(ms, ns)) == GroupsOf(ms, SortNames(ms, ns))
  {
    if ns != [] {
      SortFollows(ms, ns[1..]);
      InsertFollows(ms, ns[0], SortNames(ms, ns[1..]));
    }
  }

  lemma {:induction false} GroupsOfSnoc(ms: seq<Member>, ns: seq<string>, n: string)
    ensures GroupsOf(ms, ns + [n]) == GroupsOf(ms, ns) + [GroupOf(ms, n)]
  {
    if ns != [] {
      assert (ns + [n])[1..] == ns[1..] + [n];
      GroupsOfSnoc(ms, ns[1..], n);
    }
  }

  /** The dict of property members, filled by setdefault; `names` is the order of its keys. */
  method GroupByProperty(methods: seq<Member>) returns (names: seq<string>, props: map<string, seq<Member>>)
    ensures names == Names(methods) && forall n :: n in props <==> n in names
    ensures forall n | n in props :: props[n] == Pick(methods, OfProperty(n))
  {
    names, props := [], map[];
    for i := 0 to |methods|
      invariant names == Names(methods[..i]) && forall n :: n in props <==> n in names
      invariant forall n | n in props :: props[n] == Pick(methods[..i], OfProperty(n))
    {
      var m := methods[i];
      assert methods[..i + 1] == methods[..i] + [m] && methods[..i + 1][..i] == methods[..i];
      forall n { PickSnoc(methods[..i], m, OfProperty(n)); }
      if HasProperty(m) {
        var n := m.propname.value;
        NamesHavePicks(methods[..i], n);
        if n !in props {
          names := names + [n];
          props := props[n := [m]];
        } else {
          props := props[n := props[n] + [m]];
        }
      }
    }
    assert methods[..|methods|] == methods;
  }

  lemma PickSnoc(ms: seq<Member>, m: Member, c: Choice)
    ensures Pick(ms + [m], c) == if Chosen(c, m) then Pick(ms, c) + [m] else Pick(ms, c)
  {
    PickConcat(ms, [m], c);
  }

  /** The loop that assembles one group per property. */
  method AssembleGroups(ghost methods: seq<Member>, names: seq<string>, props: map<string, seq<Member>>)
      returns (groups: seq<PropGroup>)
    requires forall n | n in names :: n in props && props[n] == Pick(methods, OfProperty(n))
    ensures groups == GroupsOf(methods, names)
  {
    groups := [];
    for i := 0 to |names|
      invariant groups == GroupsOf(methods, names[..i])
    {
      var group := AssembleGroup(methods, names[i], props[names[i]]);
      GroupsOfSnoc(methods, names[..i], names[i]);
      assert names[..i + 1] == names[..i] + [names[i]];
      groups := groups + [group];
    }
    assert names[..|names|] == names;
  }

  method AssembleGroup(ghost methods: seq<Member>, name: string, grp: seq<Member>) returns (group: PropGroup)
    requires grp == Pick(methods, OfProperty(name))
    ensures group == GroupOf(methods, name)
  {
    var getters := Pick(grp, InSub(Getter));
    var prio := if getters == [] then 2 else Priority(First(getters).kind);
    group := PropGroup(prio, name, OrderedGroup(grp));
  }

  method PropertyBlock(methods: seq<Member>) returns (ordered: seq<Member>)
    ensures ordered == Block(methods, 5)
  {
    var names, props := GroupByProperty(methods);
    var groups := AssembleGroups(methods, names, props);
    groups := SortGroups(groups);
    SortFollows(methods, names);
    ordered := Flatten(groups);
    FlattenGroups(methods, SortNames(methods, names));
  }

  /** `for _prio, _pname, grp in prop_groups: ordered += grp`. */
  function Flatten(gs: seq<PropGroup>): seq<Member> {
    if gs == [] then [] else gs[0].members + Flatten(gs[1..])
  }

  lemma {:induction false} FlattenGroups(ms: seq<Member>, ns: seq<string>)
    ensures Flatten(GroupsOf(ms, ns)) == Groups(ms, ns)
  {
    if ns != [] {
      FlattenGroups(ms, ns[1..]);
    }
  }

  /** `_reorder_methods`. */
  method ReorderMethods(methods: seq<Member>) returns (ordered: seq<Member>)
    ensures ordered == Reordered(methods)
  {
    if methods == [] {
      WellFormedPermutes(methods);
      assert |multiset(Reordered(methods))| == 0;
      return methods;
    }
    ordered := [];
    for k := 0 to 11
      invariant ordered == Blocks(methods, k)
    {
      if k == 5 {
        var properties := PropertyBlock(methods);
        ordered := ordered + properties;
      } else {
        ordered := ordered + Alpha(Pick(methods, InSlot(k)));
      }
    }
  }
}
