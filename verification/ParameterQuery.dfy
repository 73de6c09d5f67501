/** The parameter query with its operation bitmask and its per-call caches. */
module ParameterQuery {
  import opened Basics

  // ------------------------------------------------------------ bit operations on unbounded ints

  /** Python's `&` on integers of any sign, in two's complement. */
  function And(a: int, b: int): int
    decreases if a < 0 then -a else a
  {
    if a == 0 then 0 else if a == -1 then b
    else 2 * And(a / 2, b / 2) + (if a % 2 == 1 && b % 2 == 1 then 1 else 0)
  }

  /** Python's `|`. */
  function Or(a: int, b: int): int
    decreases if a < 0 then -a else a
  {
    if a == 0 then b else if a == -1 then -1
    else 2 * Or(a / 2, b / 2) + (if a % 2 == 1 || b % 2 == 1 then 1 else 0)
  }

  /** The operations contain `op`. */
  predicate Has(ops: int, op: int) { And(ops, op) == op }

  lemma AndHalves(a: int, b: int)
    ensures And(a, b) / 2 == And(a / 2, b / 2)
    ensures And(a, b) % 2 == if a % 2 == 1 && b % 2 == 1 then 1 else 0
  {
  }

  lemma OrHalves(a: int, b: int)
    ensures Or(a, b) / 2 == Or(a / 2, b / 2)
    ensures Or(a, b) % 2 == if a % 2 == 1 || b % 2 == 1 then 1 else 0
  {
  }

  /** Bit number `i` in two's complement. */
  predicate Bit(n: int, i: nat)
    decreases i
  {
    if i == 0 then n % 2 == 1 else Bit(n / 2, i - 1)
  }

  /** `And` and `Or` are the bitwise operations, for integers of any sign. */
  lemma {:induction false} BitwiseOperations(a: int, b: int, i: nat)
    ensures Bit(And(a, b), i) <==> Bit(a, i) && Bit(b, i)
    ensures Bit(Or(a, b), i) <==> Bit(a, i) || Bit(b, i)
    decreases i
  {
    AndHalves(a, b);
    OrHalves(a, b);
    if i > 0 { BitwiseOperations(a / 2, b / 2, i - 1); }
  }

  function Size(a: int): nat { if a < 0 then -a - 1 else a }

  /** A mask of two operations is contained exactly if both are. */
  lemma {:induction false} HasBoth(ops: int, a: int, b: int)
    ensures Has(ops, Or(a, b)) <==> Has(ops, a) && Has(ops, b)
    decreases Size(ops)
  {
    if ops == 0 {
      OrIsZero(a, b);
    } else if ops != -1 {
      OrHalves(a, b);
      HasBoth(ops / 2, a / 2, b / 2);
    }
  }

  lemma {:induction false} OrIsZero(a: int, b: int)
    ensures Or(a, b) == 0 <==> a == 0 && b == 0
    decreases Size(a)
  {
    if a != 0 && a != -1 {
      OrIsZero(a / 2, b / 2);
    }
  }

  lemma {:induction false} BitsDetermine(x: int, y: int)
    requires forall i: nat :: Bit(x, i) == Bit(y, i)
    ensures x == y
    decreases Size(x) + Size(y)
  {
    assert Bit(x, 0) == Bit(y, 0);
    if !(x in {0, -1} && y in {0, -1}) {
      forall i: nat ensures Bit(x / 2, i) == Bit(y / 2, i) {
        assert Bit(x, i + 1) == Bit(y, i + 1);
      }
      BitsDetermine(x / 2, y / 2);
    }
  }

  /** Every bit of `op` is set in `ops`. */
  ghost predicate BitsWithin(op: int, ops: int) { forall i: nat :: Bit(op, i) ==> Bit(ops, i) }

  lemma HasIsBitsWithin(ops: int, op: int)
    ensures Has(ops, op) <==> BitsWithin(op, ops)
  {
    forall i: nat ensures Bit(And(ops, op), i) <==> Bit(ops, i) && Bit(op, i) { BitwiseOperations(ops, op, i); }
    if BitsWithin(op, ops) {
      BitsDetermine(And(ops, op), op);
    }
  }

  function Mask(ops: seq<int>): int {
    if ops == [] then 0 else Or(Mask(ops[..|ops| - 1]), ops[|ops| - 1])
  }

  lemma HasNothing(ops: int)
    ensures Has(ops, 0)
  {
    AndZero(ops);
  }

  lemma {:induction false} AndZero(a: int)
    ensures And(a, 0) == 0
    decreases Size(a)
  {
    if a != 0 && a != -1 { AndZero(a / 2); }
  }

  /** The fast test against the mask is the test of every requested operation by itself. */
  lemma {:induction false} MaskTestsEach(data: int, ops: seq<int>)
    ensures Has(data, Mask(ops)) <==> forall i | 0 <= i < |ops| :: Has(data, ops[i])
  {
    if ops == [] {
      HasNothing(data);
    } else {
      var n := |ops| - 1;
      MaskTestsEach(data, ops[..n]);
      HasBoth(data, Mask(ops[..n]), ops[n]);
      forall i | 0 <= i < n ensures ops[..n][i] == ops[i] {}
    }
  }

  // ------------------------------------------------------------ the query

  datatype Parameter = Parameter(name: string, operations: int)

  /** One channel: its address and its paramsets; a paramset is its items in order. */
  datatype Channel = Channel(address: string, paramsets: map<string, seq<Parameter>>)

  datatype DataPoint = DataPoint(enabledDefault: bool, isUnIgnored: bool)

  /** The arguments of one call, and the lookups it makes, which are stable during the call:
      device address and channel number of an address, model of a device, the parameters never
      offered for un-ignoring, and the generic data point of a channel and parameter. */
  datatype Query = Query(
    paramsetKey: string, operations: seq<int>,
    fullFormat: bool, candidatesOnly: bool, wildcard: bool,
    deviceOf: string -> string, channelNo: string -> Option<int>,
    modelOf: string -> Option<string>,
    ignored: set<string>, dataPoint: (string, string) -> Option<DataPoint>)

  const WILDCARD := "all"

  function Digits(n: nat): string {
    if n < 10 then [('0' as int + n) as char] else Digits(n / 10) + [('0' as int + n % 10) as char]
  }

  function Decimal(n: int): string { if n < 0 then "-" + Digits(-n) else Digits(n) }

  /** What the channel part of a full-format entry shows; nothing if there is no channel number. */
  function ChannelText(wildcard: bool, no: Option<int>): string {
    if wildcard then WILDCARD else if no.None? then "" else Decimal(no.value)
  }

  function FullText(q: Query, name: string, model: Option<string>, channel: string): string {
    name + ":" + q.paramsetKey + "@" + (if model.Some? then model.value else "None") + ":" + channel
  }

  /** The entry for one parameter of one channel, computed from scratch. */
  function EntryFor(q: Query, c: Channel, p: Parameter): string {
    if !q.fullFormat then p.name
    else FullText(q, p.name, q.modelOf(q.deviceOf(c.address)), ChannelText(q.wildcard, q.channelNo(c.address)))
  }

  /** Not a candidate for un-ignoring. */
  predicate Skips(q: Query, address: string, parameter: string) {
    parameter in q.ignored ||
    (var dp := q.dataPoint(address, parameter); dp.Some? && dp.value.enabledDefault && !dp.value.isUnIgnored)
  }

  /** Every requested operation is checked by itself. */
  predicate Wanted(q: Query, c: Channel, p: Parameter) {
    && (forall i | 0 <= i < |q.operations| :: Has(p.operations, q.operations[i]))
    && !(q.candidatesOnly && Skips(q, c.address, p.name))
  }

  function Items(q: Query, c: Channel): seq<Parameter> {
    if q.paramsetKey in c.paramsets then c.paramsets[q.paramsetKey] else []
  }

  function AllChannels(interfaces: seq<seq<Channel>>): set<Channel> {
    set i, c | 0 <= i < |interfaces| && c in interfaces[i] :: c
  }

  /** The naive query: a comprehension over the parameters of all channels of all interfaces. */
  function Naive(q: Query, interfaces: seq<seq<Channel>>): set<string> {
    set c, p | c in AllChannels(interfaces) && p in Items(q, c) && Wanted(q, c, p) :: EntryFor(q, c, p)
  }

  // ------------------------------------------------------------ the procedure

  /** The caches hold only what the lookups would return. */
  ghost predicate CachesAgree(q: Query, models: map<string, Option<string>>, numbers: map<string, Option<int>>) {
    && (forall d | d in models :: models[d] == q.modelOf(d))
    && (forall a | a in numbers :: numbers[a] == q.channelNo(a))
  }

  method ResolveChannelRepr(q: Query, address: string, numbers: map<string, Option<int>>)
      returns (text: string, numbers': map<string, Option<int>>)
    requires forall a | a in numbers :: numbers[a] == q.channelNo(a)
    ensures text == ChannelText(q.wildcard, q.channelNo(address))
    ensures forall a | a in numbers' :: numbers'[a] == q.channelNo(a)
  {
    numbers' := numbers;
    if q.wildcard {
      return WILDCARD, numbers';
    }
    var no;
    if address in numbers {
      no := numbers[address];
    } else {
      no := q.channelNo(address);
      numbers' := numbers[address := no];
    }
    text := if no.None? then "" else Decimal(no.value);
  }

  /** The entries of one channel. */
  function ChannelEntries(q: Query, c: Channel, n: nat): set<string>
    requires n <= |Items(q, c)|
  {
    set k | 0 <= k < n && Wanted(q, c, Items(q, c)[k]) :: EntryFor(q, c, Items(q, c)[k])
  }

  /** The inner loop: one channel, with the model already resolved. */
  method QueryChannel(q: Query, mask: int, c: Channel, model: Option<string>, numbers: map<string, Option<int>>)
      returns (entries: set<string>, numbers': map<string, Option<int>>)
    requires mask == Mask(q.operations) && (q.fullFormat ==> model == q.modelOf(q.deviceOf(c.address)))
    requires forall a | a in numbers :: numbers[a] == q.channelNo(a)
    ensures entries == ChannelEntries(q, c, |Items(q, c)|)
    ensures forall a | a in numbers' :: numbers'[a] == q.channelNo(a)
  {
    entries, numbers' := {}, numbers;
    var items := Items(q, c);
    for k := 0 to |items|
      invariant entries == ChannelEntries(q, c, k)
      invariant forall a | a in numbers' :: numbers'[a] == q.channelNo(a)
    {
      var p := items[k];
      MaskTestsEach(p.operations, q.operations);
      OneMoreItem(q, c, k);
      if And(p.operations, mask) != mask {
        continue;
      }
      if q.candidatesOnly && Skips(q, c.address, p.name) {
        continue;
      }
      if !q.fullFormat {
        entries := entries + {p.name};
        continue;
      }
      var channel;
      channel, numbers' := ResolveChannelRepr(q, c.address, numbers');
      entries := entries + {FullText(q, p.name, model, channel)};
    }
  }

  lemma OneMoreItem(q: Query, c: Channel, k: nat)
    requires k < |Items(q, c)|
    ensures ChannelEntries(q, c, k + 1) ==
            ChannelEntries(q, c, k) + if Wanted(q, c, Items(q, c)[k]) then {EntryFor(q, c, Items(q, c)[k])} else {}
  {
  }

  /** All channels flattened, in order. */
  function Flat(interfaces: seq<seq<Channel>>): seq<Channel> {
    if interfaces == [] then [] else Flat(interfaces[..|interfaces| - 1]) + interfaces[|interfaces| - 1]
  }

  function AllEntries(q: Query, cs: seq<Channel>): set<string> {
    if cs == [] then {} else AllEntries(q, cs[..|cs| - 1]) + ChannelEntries(q, cs[|cs| - 1], |Items(q, cs[|cs| - 1])|)
  }

  lemma {:induction false} AllEntriesConcat(q: Query, a: seq<Channel>, b: seq<Channel>)
    ensures AllEntries(q, a + b) == AllEntries(q, a) + AllEntries(q, b)
  {
    if b == [] {
      assert a + b == a;
    } else {
      assert (a + b)[..|a + b| - 1] == a + b[..|b| - 1];
      AllEntriesConcat(q, a, b[..|b| - 1]);
    }
  }

  /** Some wanted parameter of the channel has the entry `x`. */
  ghost predicate Yields(q: Query, c: Channel, x: string) {
    exists p :: p in Items(q, c) && Wanted(q, c, p) && EntryFor(q, c, p) == x
  }

  lemma ChannelEntriesAre(q: Query, c: Channel, x: string)
    ensures x in ChannelEntries(q, c, |Items(q, c)|) <==> Yields(q, c, x)
  {
  }

  lemma {:induction false} AllEntriesAre(q: Query, cs: seq<Channel>, x: string)
    ensures x in AllEntries(q, cs) <==> exists c :: c in cs && Yields(q, c, x)
  {
    if cs != [] {
      var n := |cs| - 1;
      AllEntriesAre(q, cs[..n], x);
      ChannelEntriesAre(q, cs[n], x);
      assert forall c :: c in cs <==> c in cs[..n] || c == cs[n];
    }
  }

  lemma {:induction false} FlatIsAll(interfaces: seq<seq<Channel>>, c: Channel)
    ensures c in Flat(interfaces) <==> c in AllChannels(interfaces)
  {
    if interfaces != [] {
      var n := |interfaces| - 1;
      FlatIsAll(interfaces[..n], c);
      if c in AllChannels(interfaces) {
        var i :| 0 <= i < |interfaces| && c in interfaces[i];
      }
      if c in AllChannels(interfaces[..n]) {
        var i :| 0 <= i < n && c in interfaces[..n][i];
      }
    }
  }

  lemma FlatEntriesAre(q: Query, interfaces: seq<seq<Channel>>)
    ensures AllEntries(q, Flat(interfaces)) == Naive(q, interfaces)
  {
    forall x ensures x in AllEntries(q, Flat(interfaces)) <==> x in Naive(q, interfaces) {
      AllEntriesAre(q, Flat(interfaces), x);
      forall c ensures c in Flat(interfaces) <==> c in AllChannels(interfaces) { FlatIsAll(interfaces, c); }
    }
  }

  /** The text of parameter `name` of the channel at `address`. */
  predicate ShownAs(q: Query, address: string, name: string, x: string) {
    if !q.fullFormat then x == name
    else
      var model, no := q.modelOf(q.deviceOf(address)), q.channelNo(address);
      x == name + ":" + q.paramsetKey + "@" + (if model.None? then "None" else model.value) + ":"
           + (if q.wildcard then "all" else if no.None? then "" else Decimal(no.value))
  }

  /** Parameter number `k` of channel `j` of interface `i` has all requested operations, is not ruled
      out as a candidate, and is shown as `x`. */
  ghost predicate OfferedAt(q: Query, interfaces: seq<seq<Channel>>, i: nat, j: nat, k: nat, x: string) {
    && i < |interfaces| && j < |interfaces[i]| && q.paramsetKey in interfaces[i][j].paramsets
    && k < |interfaces[i][j].paramsets[q.paramsetKey]|
    && var address, p := interfaces[i][j].address, interfaces[i][j].paramsets[q.paramsetKey][k];
       && (forall n | 0 <= n < |q.operations| :: BitsWithin(q.operations[n], p.operations))
       && (q.candidatesOnly ==>
             && p.name !in q.ignored
             && var dp := q.dataPoint(address, p.name);
                dp.None? || !dp.value.enabledDefault || dp.value.isUnIgnored)
       && ShownAs(q, address, p.name, x)
  }

  ghost predicate Offered(q: Query, interfaces: seq<seq<Channel>>, x: string) {
    exists i: nat, j: nat, k: nat :: OfferedAt(q, interfaces, i, j, k, x)
  }

  lemma EntryIsShown(q: Query, c: Channel, p: Parameter, x: string)
    ensures EntryFor(q, c, p) == x <==> ShownAs(q, c.address, p.name, x)
  {
  }

  lemma WantedIs(q: Query, c: Channel, p: Parameter)
    ensures Wanted(q, c, p) <==>
      && (forall n | 0 <= n < |q.operations| :: BitsWithin(q.operations[n], p.operations))
      && (q.candidatesOnly ==>
            && p.name !in q.ignored
            && var dp := q.dataPoint(c.address, p.name);
               dp.None? || !dp.value.enabledDefault || dp.value.isUnIgnored)
  {
    forall n | 0 <= n < |q.operations|
      ensures Has(p.operations, q.operations[n]) <==> BitsWithin(q.operations[n], p.operations)
    {
      HasIsBitsWithin(p.operations, q.operations[n]);
    }
  }

  lemma NaiveIsOffered(q: Query, interfaces: seq<seq<Channel>>, x: string)
    ensures x in Naive(q, interfaces) <==> Offered(q, interfaces, x)
  {
    if x in Naive(q, interfaces) {
      var c, p :| c in AllChannels(interfaces) && p in Items(q, c) && Wanted(q, c, p) && EntryFor(q, c, p) == x;
      var i: nat :| i < |interfaces| && c in interfaces[i];
      var j: nat :| j < |interfaces[i]| && interfaces[i][j] == c;
      var k: nat :| k < |Items(q, c)| && Items(q, c)[k] == p;
      WantedIs(q, c, p);
      EntryIsShown(q, c, p, x);
      assert OfferedAt(q, interfaces, i, j, k, x);
    }
    if Offered(q, interfaces, x) {
      var i: nat, j: nat, k: nat :| OfferedAt(q, interfaces, i, j, k, x);
      var c := interfaces[i][j];
      var p := Items(q, c)[k];
      WantedIs(q, c, p);
      EntryIsShown(q, c, p, x);
      assert 0 <= i < |interfaces| && c in interfaces[i];
      assert c in AllChannels(interfaces) && p in Items(q, c);
    }
  }

  // ------------------------------------------------------------ numbers

  /** The number a string of decimal digits stands for. */
  function ValueOf(s: string): int {
    if s == "" then 0 else 10 * ValueOf(s[..|s| - 1]) + (s[|s| - 1] as int - '0' as int)
  }

  predicate IsDigit(c: char) { '0' <= c <= '9' }

  /** A number is written with its own digits, without leading zeros. */
  lemma {:induction false} DigitsReadBack(n: nat)
    ensures ValueOf(Digits(n)) == n && Digits(n) != "" && (forall i | 0 <= i < |Digits(n)| :: IsDigit(Digits(n)[i]))
    ensures n > 0 ==> Digits(n)[0] != '0'
    ensures n == 0 ==> Digits(n) == "0"
  {
    if n >= 10 {
      DigitsReadBack(n / 10);
      var d := Digits(n);
      assert d[..|d| - 1] == Digits(n / 10);
    } else {
      var d := Digits(n);
      assert d[..0] == "" && ValueOf(d[..0]) == 0;
    }
  }

  /** The memoised, bitmask-filtered query returns exactly the set of the naive comprehension: the
      texts of the parameters that are offered. */
  method GetParameters(q: Query, interfaces: seq<seq<Channel>>) returns (parameters: set<string>)
    ensures parameters == Naive(q, interfaces)
    ensures forall x :: x in parameters <==> Offered(q, interfaces, x)
  {
    var mask := 0;
    for i := 0 to |q.operations|
      invariant mask == Mask(q.operations[..i])
    {
      assert q.operations[..i + 1][..i] == q.operations[..i];
      mask := Or(mask, q.operations[i]);
    }
    assert q.operations[..|q.operations|] == q.operations;
    parameters := {};
    var models: map<string, Option<string>>, numbers: map<string, Option<int>> := map[], map[];
    for i := 0 to |interfaces|
      invariant parameters == AllEntries(q, Flat(interfaces[..i]))
      invariant CachesAgree(q, models, numbers)
    {
      assert interfaces[..i + 1][..i] == interfaces[..i];
      AllEntriesConcat(q, Flat(interfaces[..i]), interfaces[i]);
      var found;
      found, models, numbers := QueryInterface(q, mask, interfaces[i], models, numbers);
      parameters := parameters + found;
    }
    assert interfaces[..|interfaces|] == interfaces;
    FlatEntriesAre(q, interfaces);
    forall x ensures x in parameters <==> Offered(q, interfaces, x) { NaiveIsOffered(q, interfaces, x); }
  }

  /** The channels of one interface; the model of a device is looked up again while it is unknown. */
  method QueryInterface(q: Query, mask: int, channels: seq<Channel>,
                        models: map<string, Option<string>>, numbers: map<string, Option<int>>)
      returns (found: set<string>, models': map<string, Option<string>>, numbers': map<string, Option<int>>)
    requires mask == Mask(q.operations) && CachesAgree(q, models, numbers)
    ensures found == AllEntries(q, channels) && CachesAgree(q, models', numbers')
  {
    found, models', numbers' := {}, models, numbers;
    for j := 0 to |channels|
      invariant found == AllEntries(q, channels[..j]) && CachesAgree(q, models', numbers')
    {
      var c := channels[j];
      assert channels[..j + 1][..j] == channels[..j];
      var model: Option<string> := None;
      if q.fullFormat {
        var device := q.deviceOf(c.address);
        if device in models' && models'[device].Some? {
          model := models'[device];
        } else {
          model := q.modelOf(device);
          models' := models'[device := model];
        }
      }
      var entries;
      entries, numbers' := QueryChannel(q, mask, c, model, numbers');
      found := found + entries;
    }
    assert channels[..|channels|] == channels;
  }
}
