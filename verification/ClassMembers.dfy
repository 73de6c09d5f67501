/** Reordering the members of a class. */
module ClassMembers {
  import opened Basics
  import opened Strings

  datatype Group =
    | DunderInit | Dunder | ClassMethod | StaticMethod | DelegatedProperty
    | Property | Public | Protected | Private | GenericProperty

  datatype Subgroup = NoSubgroup | Getter | Setter | Deleter

  /** `text` stands for the source text of the member and the lines it spans. */
  datatype Member = Member(name: string, text: string, group: Group, sub: Subgroup,
                           propname: Option<string>, kind: Option<string>)

  // ------------------------------------------------------------ selecting and sorting

  /** The position of a member's block in the result: properties that have a name come fifth,
      stray property methods sixth. */
  function Slot(m: Member): nat {
    match m.group
    case DunderInit => 0
    case Dunder => 1
    case ClassMethod => 2
    case StaticMethod => 3
    case DelegatedProperty => 4
    case Property => if HasProperty(m) then 5 else 6
    case Public => 7
    case Protected => 8
    case Private => 9
    case GenericProperty => 10
  }

  predicate HasProperty(m: Member) { m.group == Property && m.propname.Some? && m.propname.value != "" }

  datatype Choice =
    | InSlot(k: nat) | BelowSlot(k: nat)
    | OfProperty(n: string) | OfProperties(ns: set<string>)
    | InSub(s: Subgroup) | Named(name: string)

  predicate Chosen(c: Choice, m: Member) {
    match c
    case InSlot(k) => Slot(m) == k
    case BelowSlot(k) => Slot(m) < k
    case OfProperty(n) => HasProperty(m) && m.propname.value == n
    case OfProperties(ns) => HasProperty(m) && m.propname.value in ns
    case InSub(s) => m.sub == s
    case Named(n) => m.name == n
  }

  /** A list comprehension over the members, in order. */
  function Pick(ms: seq<Member>, c: Choice): seq<Member> {
    if ms == [] then []
    else if Chosen(c, ms[0]) then [ms[0]] + Pick(ms[1..], c) else Pick(ms[1..], c)
  }

  function Insert(m: Member, ms: seq<Member>): seq<Member> {
    if ms == [] || Leq(m.name, ms[0].name) then [m] + ms else [ms[0]] + Insert(m, ms[1..])
  }

  /** `sorted(ms, key=name)`: a stable sort. */
  function Alpha(ms: seq<Member>): seq<Member> {
    if ms == [] then [] else Insert(ms[0], Alpha(ms[1..]))
  }

  // ------------------------------------------------------------ properties

  function Priority(kind: Option<string>): nat {
    if kind == Some("property") then 0 else if kind == Some("hm_property") then 1 else 2
  }

  /** `min(ms, key=name)`: the first member with the smallest name. */
  function First(ms: seq<Member>): Member
    requires ms != []
  {
    if |ms| == 1 then ms[0]
    else
      var m := First(ms[1..]);
      if Leq(ms[0].name, m.name) then ms[0] else m
  }

  /** The priority of one property, given its members in order. */
  function GroupPriority(grp: seq<Member>): nat {
    var getters := Pick(grp, InSub(Getter));
    if getters == [] then 2 else Priority(First(getters).kind)
  }

  /** Getters, then setters, then deleters, each by name. */
  function OrderedGroup(grp: seq<Member>): seq<Member> {
    Alpha(Pick(grp, InSub(Getter))) + Alpha(Pick(grp, InSub(Setter))) + Alpha(Pick(grp, InSub(Deleter)))
  }

  /** Property names in the order of their first occurrence, as the keys of the dict. */
  function Names(ms: seq<Member>): seq<string> {
    if ms == [] then []
    else
      var ns, m := Names(ms[..|ms| - 1]), ms[|ms| - 1];
      if HasProperty(m) && m.propname.value !in ns then ns + [m.propname.value] else ns
  }

  /** Comparison of two property groups by priority, then by name. */
  predicate Before(ms: seq<Member>, a: string, b: string) {
    var p, q := GroupPriority(Pick(ms, OfProperty(a))), GroupPriority(Pick(ms, OfProperty(b)));
    p < q || (p == q && Leq(a, b))
  }

  function InsertName(ms: seq<Member>, n: string, ns: seq<string>): seq<string> {
    if ns == [] || Before(ms, n, ns[0]) then [n] + ns else [ns[0]] + InsertName(ms, n, ns[1..])
  }

  function SortNames(ms: seq<Member>, ns: seq<string>): seq<string> {
    if ns == [] then [] else InsertName(ms, ns[0], SortNames(ms, ns[1..]))
  }

  /** The groups of the given properties, one after the other. */
  function Groups(ms: seq<Member>, ns: seq<string>): seq<Member> {
    if ns == [] then [] else OrderedGroup(Pick(ms, OfProperty(ns[0]))) + Groups(ms, ns[1..])
  }

  function Block(ms: seq<Member>, k: nat): seq<Member> {
    if k == 5 then Groups(ms, SortNames(ms, Names(ms))) else Alpha(Pick(ms, InSlot(k)))
  }

  function Blocks(ms: seq<Member>, k: nat): seq<Member>
    decreases k, ms
  {
    if k == 0 then [] else Blocks(ms, k - 1) + Block(ms, k - 1)
  }

  /** The reordered members: the eleven blocks in order. */
  function Reordered(ms: seq<Member>): seq<Member> { Blocks(ms, 11) }
}
