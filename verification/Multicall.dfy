/** XML-RPC `system.multicall`, which may itself be one of the calls it dispatches. */
module Multicall {
  import opened Basics

  /** Decoded XML-RPC values.  A struct holds at most the two members multicall reads; a fault is
      the struct multicall itself produces. */
  datatype Value =
    | Nil
    | Bool(b: bool)
    | Int(n: int)
    | Str(s: string)
    | Array(items: seq<Value>)
    | Struct(methodName: Option<Value>, params: Option<Value>)
    | Fault(code: int, text: string)

  datatype Outcome = Return(v: Value) | Raise(text: string)

  /** An ordinary handler that was invoked, with its arguments. */
  datatype Invocation = Invocation(name: string, args: seq<Value>)

  const MULTICALL := "system.multicall"
  const NOT_FOUND := -32601
  const INTERNAL := -32603

  /** The registered ordinary methods, and what each does given everything invoked before it. */
  datatype Server = Server(methods: set<string>, respond: (Invocation, seq<Invocation>) -> Outcome)

  predicate Known(sv: Server, name: string) { name == MULTICALL || name in sv.methods }

  /** Can a dict look a value up?  Lists and dicts are unhashable. */
  predicate Hashable(v: Value) { !v.Array? && !IsDict(v) }

  predicate IsDict(v: Value) { v.Struct? || v.Fault? }

  /** `call.get("methodName", "")` */
  function NameOf(call: Value): Value {
    if call.Struct? && call.methodName.Some? then call.methodName.value else Str("")
  }

  /** `call.get("params", [])` */
  function ParamsOf(call: Value): Value {
    if call.Struct? && call.params.Some? then call.params.value else Array([])
  }

  /** An entry that can be dispatched at all: a dict whose method name can be looked up. */
  predicate Callable(call: Value) { IsDict(call) && Hashable(NameOf(call)) }

  function NotFound(name: Value): Value {
    Fault(NOT_FOUND, if name.Str? then "Method not found: " + name.s else "Method not found")
  }

  /** The arguments `*params` spreads into; None where unpacking raises. */
  function Spread(params: Value): Option<seq<Value>> {
    match params
    case Array(items) => Some(items)
    case Str(s) => Some(seq(|s|, i requires 0 <= i < |s| => Str([s[i]])))
    case Struct(m, p) => Some((if m.Some? then [Str("methodName")] else []) + (if p.Some? then [Str("params")] else []))
    case Fault(_, _) => Some([Str("faultCode"), Str("faultString")])
    case _ => None
  }

  /** Nesting size, the termination measure. */
  function Size(v: Value): nat {
    match v
    case Array(items) => 1 + SizeAll(items)
    case Struct(m, p) => 1 + (if m.Some? then Size(m.value) else 0) + (if p.Some? then Size(p.value) else 0)
    case Fault(_, _) => 1
    case _ => 0
  }

  function SizeAll(vs: seq<Value>): nat {
    if vs == [] then 0 else SizeAll(vs[..|vs| - 1]) + Size(vs[|vs| - 1])
  }

  lemma {:induction false} SizeOfItem(vs: seq<Value>, i: nat)
    requires i < |vs|
    ensures Size(vs[i]) <= SizeAll(vs)
  {
    if i < |vs| - 1 {
      SizeOfItem(vs[..|vs| - 1], i);
    }
  }

  lemma {:induction false} SizePrefix(vs: seq<Value>, i: nat)
    requires i <= |vs|
    ensures SizeAll(vs[..i]) <= SizeAll(vs)
  {
    if i < |vs| {
      SizePrefix(vs[..|vs| - 1], i);
      assert vs[..|vs| - 1][..i] == vs[..i];
    } else {
      assert vs[..i] == vs;
    }
  }

  // ------------------------------------------------------------ the meaning of a multicall

  /** What a piece of work did: how it ended, and all ordinary invocations so far. */
  datatype Done = Done(outcome: Outcome, log: seq<Invocation>)

  /** One dispatched method: a nested multicall, or an ordinary handler. */
  function Dispatch(sv: Server, name: string, args: seq<Value>, log: seq<Invocation>): Done
    requires Known(sv, name)
    decreases SizeAll(args), 2
  {
    if name == MULTICALL then
      if |args| != 1 then Done(Raise("wrong number of arguments"), log)
      else match args[0]
        case Array(items) =>
          SizeOfItem(args, 0);
          Batch(sv, items, log)
        case Str(s) => if s == "" then Done(Return(Array([])), log) else Done(Raise("no attribute 'get'"), log)
        case Struct(m, p) =>
          if m.None? && p.None? then Done(Return(Array([])), log) else Done(Raise("no attribute 'get'"), log)
        case Fault(_, _) => Done(Raise("no attribute 'get'"), log)
        case _ => Done(Raise("not iterable"), log)
    else
      var inv := Invocation(name, args);
      Done(sv.respond(inv, log), log + [inv])
  }

  /** One entry of the results list. */
  function Entry(sv: Server, call: Value, log: seq<Invocation>): (Value, seq<Invocation>)
    requires Callable(call)
    decreases Size(call), 1
  {
    if !NameOf(call).Str? || !Known(sv, NameOf(call).s) then (NotFound(NameOf(call)), log)
    else match Spread(ParamsOf(call))
      case None => (Fault(INTERNAL, "not iterable"), log)
      case Some(args) =>
        SpreadIsSmaller(call);
        var d := Dispatch(sv, NameOf(call).s, args, log);
        (Wrap(d.outcome), d.log)
  }

  /** A result is wrapped in a list, None becomes True, an exception becomes a fault. */
  function Wrap(o: Outcome): Value {
    match o
    case Return(v) => Array([if v == Nil then Bool(true) else v])
    case Raise(text) => Fault(INTERNAL, text)
  }

  function Batch(sv: Server, calls: seq<Value>, log: seq<Invocation>): Done
    decreases SizeAll(calls), 3, |calls|
  {
    if calls == [] then Done(Return(Array([])), log)
    else
      var n := |calls| - 1;
      SizePrefix(calls, n);
      SizeOfItem(calls, n);
      var before := Batch(sv, calls[..n], log);
      if before.outcome.Raise? then before
      else if !Callable(calls[n]) then
        Done(Raise(if IsDict(calls[n]) then "unhashable type" else "no attribute 'get'"), before.log)
      else
        var (v, log') := Entry(sv, calls[n], before.log);
        Done(Return(Append(before.outcome.v, v)), log')
  }

  function Append(results: Value, v: Value): Value {
    if results.Array? then Array(results.items + [v]) else results
  }

  lemma {:induction false} StringsAreSmall(vs: seq<Value>)
    requires forall i | 0 <= i < |vs| :: vs[i].Str?
    ensures SizeAll(vs) == 0
  {
    if vs != [] {
      StringsAreSmall(vs[..|vs| - 1]);
    }
  }

  lemma SpreadIsSmaller(call: Value)
    requires Callable(call) && NameOf(call).Str? && Spread(ParamsOf(call)).Some?
    ensures SizeAll(Spread(ParamsOf(call)).value) < Size(call)
  {
    var params := ParamsOf(call);
    if !params.Array? {
      StringsAreSmall(Spread(params).value);
    }
  }

  // ------------------------------------------------------------ the procedure

  /** `_system_multicall`: appends one result per call to a list, dispatching through the method
      table, which leads back here for nested multicalls. */
  method SystemMulticall(sv: Server, calls: seq<Value>, log: seq<Invocation>) returns (d: Done)
    ensures d == Batch(sv, calls, log)
    decreases SizeAll(calls), 3
  {
    var results: seq<Value>, now := [], log;
    for i := 0 to |calls|
      invariant Batch(sv, calls[..i], log) == Done(Return(Array(results)), now)
    {
      var call := calls[i];
      assert calls[..i + 1][..i] == calls[..i];
      if !Callable(call) {
        d := Done(Raise(if IsDict(call) then "unhashable type" else "no attribute 'get'"), now);
        RaiseIsFinal(sv, calls, i + 1, log);
        return;
      }
      SizeOfItem(calls, i);
      var v;
      v, now := ExecuteCall(sv, call, now);
      results := results + [v];
    }
    assert calls[..|calls|] == calls;
    d := Done(Return(Array(results)), now);
  }

  method ExecuteCall(sv: Server, call: Value, log: seq<Invocation>) returns (v: Value, after: seq<Invocation>)
    requires Callable(call)
    ensures (v, after) == Entry(sv, call, log)
    decreases Size(call), 1
  {
    var name := NameOf(call);
    if !name.Str? || !Known(sv, name.s) {
      return NotFound(name), log;
    }
    var spread := Spread(ParamsOf(call));
    if spread.None? {
      return Fault(INTERNAL, "not iterable"), log;
    }
    SpreadIsSmaller(call);
    var d := Invoke(sv, name.s, spread.value, log);
    return Wrap(d.outcome), d.log;
  }

  method Invoke(sv: Server, name: string, args: seq<Value>, log: seq<Invocation>) returns (d: Done)
    requires Known(sv, name)
    ensures d == Dispatch(sv, name, args, log)
    decreases SizeAll(args), 2
  {
    if name == MULTICALL && |args| == 1 && args[0].Array? {
      SizeOfItem(args, 0);
      d := SystemMulticall(sv, args[0].items, log);
    } else {
      d := Dispatch(sv, name, args, log);
    }
  }

  lemma {:induction false} RaiseIsFinal(sv: Server, calls: seq<Value>, i: nat, log: seq<Invocation>)
    requires i <= |calls| && Batch(sv, calls[..i], log).outcome.Raise?
    ensures Batch(sv, calls, log) == Batch(sv, calls[..i], log)
    decreases |calls|
  {
    if i == |calls| {
      assert calls[..i] == calls;
    } else {
      assert calls[..|calls| - 1][..i] == calls[..i];
      RaiseIsFinal(sv, calls[..|calls| - 1], i, log);
    }
  }

  // ------------------------------------------------------------ results in order

  predicate AllCallable(calls: seq<Value>) { forall i | 0 <= i < |calls| :: Callable(calls[i]) }

  lemma CallableSplit(calls: seq<Value>)
    requires calls != []
    ensures AllCallable(calls) <==> AllCallable(calls[..|calls| - 1]) && Callable(calls[|calls| - 1])
  {
  }

  lemma {:induction false} ReturnsIffCallable(sv: Server, calls: seq<Value>, log: seq<Invocation>)
    ensures Batch(sv, calls, log).outcome.Return? <==> AllCallable(calls)
    decreases |calls|
  {
    if calls != [] {
      ReturnsIffCallable(sv, calls[..|calls| - 1], log);
      CallableSplit(calls);
    }
  }

  /** A multicall raises exactly if one of its own entries is not a dict or names its method by an
      unhashable value; otherwise it returns one result per call, and the result of each call is
      that of executing it alone after everything before it. */
  lemma {:induction false} OneResultPerCall(sv: Server, calls: seq<Value>, log: seq<Invocation>)
    ensures
      var d := Batch(sv, calls, log);
      && (d.outcome.Return? <==> AllCallable(calls))
      && (d.outcome.Return? ==> d.outcome.v.Array? && |d.outcome.v.items| == |calls|)
      && (d.outcome.Return? ==> forall i | 0 <= i < |calls| ::
            d.outcome.v.items[i] == Entry(sv, calls[i], Batch(sv, calls[..i], log).log).0)
    decreases |calls|
  {
    if calls != [] {
      var n := |calls| - 1;
      OneResultPerCall(sv, calls[..n], log);
      assert calls == calls[..n] + [calls[n]];
      forall i | 0 <= i < n ensures calls[..n][..i] == calls[..i] {}
    }
  }

  // ------------------------------------------------------------ invocation order

  /** The ordinary invocations a method call stands for, left to right, whatever the handlers answer. */
  function FlatDispatch(sv: Server, name: string, args: seq<Value>): seq<Invocation>
    decreases SizeAll(args), 2
  {
    if name != MULTICALL then [Invocation(name, args)]
    else if |args| == 1 && args[0].Array? then
      SizeOfItem(args, 0);
      Flat(sv, args[0].items)
    else []
  }

  function FlatCall(sv: Server, call: Value): seq<Invocation>
    requires Callable(call)
    decreases Size(call), 1
  {
    if NameOf(call).Str? && Known(sv, NameOf(call).s) && Spread(ParamsOf(call)).Some? then
      SpreadIsSmaller(call);
      FlatDispatch(sv, NameOf(call).s, Spread(ParamsOf(call)).value)
    else []
  }

  /** A list of calls flattens call by call, up to the first entry that is not callable. */
  function Flat(sv: Server, calls: seq<Value>): seq<Invocation>
    decreases SizeAll(calls), 3, |calls|
  {
    if calls == [] then []
    else
      var n := |calls| - 1;
      SizePrefix(calls, n);
      SizeOfItem(calls, n);
      if AllCallable(calls) then Flat(sv, calls[..n]) + FlatCall(sv, calls[n]) else Flat(sv, calls[..n])
  }

  lemma {:induction false} DispatchOrder(sv: Server, name: string, args: seq<Value>, log: seq<Invocation>)
    requires Known(sv, name)
    ensures Dispatch(sv, name, args, log).log == log + FlatDispatch(sv, name, args)
    decreases SizeAll(args), 2
  {
    if name == MULTICALL && |args| == 1 && args[0].Array? {
      SizeOfItem(args, 0);
      HandlersRunInOrder(sv, args[0].items, log);
    }
  }

  lemma {:induction false} EntryOrder(sv: Server, call: Value, log: seq<Invocation>)
    requires Callable(call)
    ensures Entry(sv, call, log).1 == log + FlatCall(sv, call)
    decreases Size(call), 1
  {
    if NameOf(call).Str? && Known(sv, NameOf(call).s) && Spread(ParamsOf(call)).Some? {
      SpreadIsSmaller(call);
      DispatchOrder(sv, NameOf(call).s, Spread(ParamsOf(call)).value, log);
    }
  }

  lemma {:induction false} LastCall(sv: Server, calls: seq<Value>, log: seq<Invocation>)
    requires calls != []
    ensures var before := Batch(sv, calls[..|calls| - 1], log).log;
            Batch(sv, calls, log).log ==
              if AllCallable(calls) then Entry(sv, calls[|calls| - 1], before).1 else before
  {
    var n := |calls| - 1;
    ReturnsIffCallable(sv, calls[..n], log);
    CallableSplit(calls);
  }

  /** Over arbitrarily nested call trees the ordinary handlers are invoked in exactly the
      left-to-right order of the flattened tree; what they answer, and whether they raise, does
      not change what is invoked later. */
  lemma {:induction false} HandlersRunInOrder(sv: Server, calls: seq<Value>, log: seq<Invocation>)
    ensures Batch(sv, calls, log).log == log + Flat(sv, calls)
    decreases SizeAll(calls), 3, |calls|
  {
    if calls != [] {
      var n := |calls| - 1;
      SizePrefix(calls, n);
      SizeOfItem(calls, n);
      HandlersRunInOrder(sv, calls[..n], log);
      if AllCallable(calls) {
        EntryOrder(sv, calls[n], log + Flat(sv, calls[..n]));
      }
      LastCall(sv, calls, log);
    }
  }

  /** The arguments in the params member of a call: a list's elements, none if the member is missing,
      the characters or keys of what else can be iterated; None if it cannot be. */
  function Arguments(params: Option<Value>): Option<seq<Value>> {
    match params
    case None => Some([])
    case Some(Array(items)) => Some(items)
    case Some(Str(s)) => Some(seq(|s|, i requires 0 <= i < |s| => Str([s[i]])))
    case Some(Struct(None, None)) => Some([])
    case Some(Struct(Some(_), None)) => Some([Str("methodName")])
    case Some(Struct(None, Some(_))) => Some([Str("params")])
    case Some(Struct(Some(_), Some(_))) => Some([Str("methodName"), Str("params")])
    case Some(Fault(_, _)) => Some([Str("faultCode"), Str("faultString")])
    case Some(_) => None
  }

  /** What the caller of an ordinary method sees: a fault if the name is unknown, the arguments
      cannot be spread or the handler raises, else the handler's answer, with True for None. */
  function OrdinaryResult(sv: Server, name: string, params: Option<Value>, log: seq<Invocation>): Value {
    if name !in sv.methods then Fault(-32601, "Method not found: " + name)
    else match Arguments(params)
      case None => Fault(-32603, "not iterable")
      case Some(args) =>
        match sv.respond(Invocation(name, args), log)
        case Return(Nil) => Array([Bool(true)])
        case Return(r) => Array([r])
        case Raise(text) => Fault(-32603, text)
  }

  lemma EntryIsOrdinary(sv: Server, name: string, params: Option<Value>, log: seq<Invocation>)
    requires name != "system.multicall"
    ensures Entry(sv, Struct(Some(Str(name)), params), log).0 == OrdinaryResult(sv, name, params, log)
  {
    ArgumentsAreSpread(Struct(Some(Str(name)), params));
  }

  lemma ArgumentsAreSpread(call: Value)
    requires call.Struct?
    ensures Spread(ParamsOf(call)) == Arguments(call.params)
  {
    match call.params
    case Some(Str(s)) => assert Spread(Str(s)).value == Arguments(Some(Str(s))).value;
    case Some(Struct(m, p)) => assert Spread(Struct(m, p)).value == Arguments(Some(Struct(m, p))).value;
    case _ =>
  }

  /** In a multicall of any calls each ordinary call gets its own result in its own place, its
      handler being asked after exactly the flattened calls before it, whether those failed or not. */
  lemma {:induction false} ResultsInPlace(sv: Server, calls: seq<Value>, log: seq<Invocation>, i: nat,
                                          name: string, params: Option<Value>)
    requires AllCallable(calls) && i < |calls|
    requires calls[i] == Struct(Some(Str(name)), params) && name != "system.multicall"
    ensures
      var d := Batch(sv, calls, log);
      && d.outcome.Return? && d.outcome.v.Array? && |d.outcome.v.items| == |calls|
      && d.outcome.v.items[i] == OrdinaryResult(sv, name, params, log + Flat(sv, calls[..i]))
  {
    OneResultPerCall(sv, calls, log);
    HandlersRunInOrder(sv, calls[..i], log);
    EntryIsOrdinary(sv, name, params, log + Flat(sv, calls[..i]));
  }

  lemma NestedEntry(sv: Server, inner: seq<Value>, log: seq<Invocation>)
    ensures Entry(sv, Struct(Some(Str("system.multicall")), Some(Array([Array(inner)]))), log).0 ==
            Wrap(Batch(sv, inner, log).outcome)
  {
  }

  /** A multicall inside a multicall gets, in its own place, the wrapped list of its own calls' results,
      each that of the call executed after everything before it; or one fault for all of them if one of
      its entries cannot be dispatched. */
  lemma {:induction false} NestedResultsInPlace(sv: Server, calls: seq<Value>, log: seq<Invocation>, i: nat,
                                                inner: seq<Value>)
    requires AllCallable(calls) && i < |calls|
    requires calls[i] == Struct(Some(Str("system.multicall")), Some(Array([Array(inner)])))
    ensures
      var d := Batch(sv, calls, log);
      var before := log + Flat(sv, calls[..i]);
      && d.outcome.Return? && d.outcome.v.Array? && |d.outcome.v.items| == |calls|
      && var result := d.outcome.v.items[i];
         if AllCallable(inner) then
           && result.Array? && |result.items| == 1 && result.items[0].Array? && |result.items[0].items| == |inner|
           && forall k | 0 <= k < |inner| ::
                result.items[0].items[k] == Entry(sv, inner[k], before + Flat(sv, inner[..k])).0
         else result.Fault? && result.code == -32603
  {
    var before := log + Flat(sv, calls[..i]);
    OneResultPerCall(sv, calls, log);
    HandlersRunInOrder(sv, calls[..i], log);
    NestedEntry(sv, inner, before);
    OneResultPerCall(sv, inner, before);
    forall k | 0 <= k < |inner| ensures Batch(sv, inner[..k], before).log == before + Flat(sv, inner[..k]) {
      HandlersRunInOrder(sv, inner[..k], before);
    }
  }

  /** What a multicall can dispatch at all: faults, and structs whose method name, if there is one, is
      neither a list nor a dict. */
  lemma CallableIs(call: Value)
    ensures Callable(call) <==>
      match call
      case Struct(None, _) => true
      case Struct(Some(name), _) => !name.Array? && !name.Struct? && !name.Fault?
      case Fault(_, _) => true
      case _ => false
  {
  }

  /** A missing method name counts as the empty one; any other value in its place is no known name. */
  lemma OddNames(sv: Server, call: Value, log: seq<Invocation>)
    requires Callable(call)
    ensures call.Struct? && call.methodName.None? ==> Entry(sv, call, log).0 == OrdinaryResult(sv, "", call.params, log)
    ensures call.Fault? ==> Entry(sv, call, log).0 == OrdinaryResult(sv, "", None, log)
    ensures call.Struct? && call.methodName.Some? && !call.methodName.value.Str? ==>
              Entry(sv, call, log).0.Fault? && Entry(sv, call, log).0.code == -32601 && Entry(sv, call, log).1 == log
  {
    if call.Struct? { ArgumentsAreSpread(call); }
  }
}
