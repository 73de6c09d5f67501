/** Connection issues per transport, and the events published about them. */
module ConnectionState {
  import opened Basics

  datatype Transport = Json | RpcProxy

  /** A published SystemStatusChangedEvent about one interface. */
  datatype Notice = Notice(iid: string, connected: bool)

  datatype Issues = Issues(json: seq<string>, rpcProxy: seq<string>, log: seq<Notice>)

  const NO_ISSUES := Issues([], [], [])

  datatype Op = Add(issuer: Transport, iid: string) | Remove(issuer: Transport, iid: string) | ClearAll

  function Listed(s: Issues, t: Transport): seq<string> {
    if t.Json? then s.json else s.rpcProxy
  }

  function WithListed(s: Issues, t: Transport, l: seq<string>): Issues {
    if t.Json? then s.(json := l) else s.(rpcProxy := l)
  }

  function Publish(s: Issues, iid: string, connected: bool): Issues {
    s.(log := s.log + [Notice(iid, connected)])
  }

  /** Python's list.remove: drop the first occurrence. */
  function Without(l: seq<string>, x: string): seq<string> {
    if l == [] then [] else if l[0] == x then l[1..] else [l[0]] + Without(l[1..], x)
  }

  function WithIssue(s: Issues, t: Transport, iid: string): Issues {
    if iid in Listed(s, t) then s
    else Publish(WithListed(s, t, Listed(s, t) + [iid]), iid, false)
  }

  function WithoutIssue(s: Issues, t: Transport, iid: string): Issues {
    if iid !in Listed(s, t) then s
    else Publish(WithListed(s, t, Without(Listed(s, t), iid)), iid, true)
  }

  function Restored(iids: seq<string>): seq<Notice> {
    seq(|iids|, i requires 0 <= i < |iids| => Notice(iids[i], true))
  }

  function ClearIssues(s: Issues): Issues {
    Issues([], [], s.log + Restored(s.json + s.rpcProxy))
  }

  function Apply(s: Issues, op: Op): Issues {
    match op
    case Add(t, iid) => WithIssue(s, t, iid)
    case Remove(t, iid) => WithoutIssue(s, t, iid)
    case ClearAll => ClearIssues(s)
  }

  function ApplyAll(s: Issues, ops: seq<Op>): Issues {
    if ops == [] then s else Apply(ApplyAll(s, ops[..|ops| - 1]), ops[|ops| - 1])
  }

  // ------------------------------------------------------------ the object

  class CentralConnectionState {
    var jsonIssues: seq<string>
    var rpcProxyIssues: seq<string>
    ghost var published: seq<Notice>

    ghost function View(): Issues
      reads this
    {
      Issues(jsonIssues, rpcProxyIssues, published)
    }

    constructor ()
      ensures View() == NO_ISSUES
    {
      jsonIssues, rpcProxyIssues, published := [], [], [];
    }

    method PublishStateChange(iid: string, connected: bool)
      modifies this`published
      ensures published == old(published) + [Notice(iid, connected)]
    {
      published := published + [Notice(iid, connected)];
    }

    method AddIssue(issuer: Transport, iid: string) returns (added: bool)
      modifies this
      ensures View() == WithIssue(old(View()), issuer, iid)
      ensures added <==> iid !in Listed(old(View()), issuer)
    {
      added := false;
      if issuer.Json? && iid !in jsonIssues {
        jsonIssues := jsonIssues + [iid];
        added := true;
      } else if issuer.RpcProxy? && iid !in rpcProxyIssues {
        rpcProxyIssues := rpcProxyIssues + [iid];
        added := true;
      }
      if added {
        PublishStateChange(iid, false);
      }
    }

    method RemoveIssue(issuer: Transport, iid: string) returns (removed: bool)
      modifies this
      ensures View() == WithoutIssue(old(View()), issuer, iid)
      ensures removed <==> iid in Listed(old(View()), issuer)
    {
      removed := false;
      if issuer.Json? && iid in jsonIssues {
        jsonIssues := Without(jsonIssues, iid);
        removed := true;
      } else if issuer.RpcProxy? && iid in rpcProxyIssues {
        rpcProxyIssues := Without(rpcProxyIssues, iid);
        removed := true;
      }
      if removed {
        PublishStateChange(iid, true);
      }
    }

    method ClearAllIssues() returns (count: nat)
      modifies this
      ensures View() == ClearIssues(old(View()))
      ensures count == |old(jsonIssues)| + |old(rpcProxyIssues)|
    {
      count := |jsonIssues| + |rpcProxyIssues|;
      if count > 0 {
        var all := jsonIssues + rpcProxyIssues;
        jsonIssues, rpcProxyIssues := [], [];
        for i := 0 to |all|
          invariant jsonIssues == [] && rpcProxyIssues == []
          invariant published == old(published) + Restored(all)[..i]
        {
          PublishStateChange(all[i], true);
        }
      }
    }
  }

  // ------------------------------------------------------------ conservation

  /** Disconnected events minus connected events, over all interfaces. */
  function Net(log: seq<Notice>): int {
    if log == [] then 0 else Net(log[..|log| - 1]) + if log[|log| - 1].connected then -1 else 1
  }

  /** The same difference for one interface. */
  function NetOf(log: seq<Notice>, iid: string): int {
    if log == [] then 0
    else NetOf(log[..|log| - 1], iid) +
         (if log[|log| - 1].iid != iid then 0 else if log[|log| - 1].connected then -1 else 1)
  }

  predicate NoDuplicates(l: seq<string>) {
    forall i, j | 0 <= i < j < |l| :: l[i] != l[j]
  }

  lemma {:induction false} RemoveOnce(l: seq<string>, x: string)
    requires NoDuplicates(l) && x in l
    ensures NoDuplicates(Without(l, x)) && |Without(l, x)| == |l| - 1
    ensures forall y :: y in Without(l, x) <==> y in l && y != x
  {
    if l[0] != x {
      var w := Without(l[1..], x);
      RemoveOnce(l[1..], x);
      forall j | 0 <= j < |w| ensures w[j] != l[0] {
        assert w[j] in l[1..];
      }
    }
  }

  function Times(l: seq<string>, x: string): nat {
    if l == [] then 0 else Times(l[..|l| - 1], x) + if l[|l| - 1] == x then 1 else 0
  }

  lemma {:induction false} NetRestored(log: seq<Notice>, l: seq<string>, iid: string)
    ensures Net(log + Restored(l)) == Net(log) - |l|
    ensures NetOf(log + Restored(l), iid) == NetOf(log, iid) - Times(l, iid)
  {
    if l == [] {
      assert log + Restored(l) == log;
    } else {
      var k := |l| - 1;
      NetRestored(log, l[..k], iid);
      assert log + Restored(l) == log + Restored(l[..k]) + [Notice(l[k], true)];
    }
  }

  lemma {:induction false} TimesIsMembership(l: seq<string>, x: string)
    requires NoDuplicates(l)
    ensures Times(l, x) == One(x in l)
  {
    if l != [] {
      TimesIsMembership(l[..|l| - 1], x);
    }
  }

  lemma {:induction false} TimesConcat(l: seq<string>, m: seq<string>, x: string)
    ensures Times(l + m, x) == Times(l, x) + Times(m, x)
  {
    if m == [] {
      assert l + m == l;
    } else {
      assert (l + m)[..|l + m| - 1] == l + m[..|m| - 1];
      TimesConcat(l, m[..|m| - 1], x);
    }
  }

  /** The difference for an interface is the number of transports that list it. */
  predicate Matches(s: Issues, iid: string) {
    NetOf(s.log, iid) == One(iid in s.json) + One(iid in s.rpcProxy)
  }

  ghost predicate Conserved(s: Issues) {
    && NoDuplicates(s.json) && NoDuplicates(s.rpcProxy)
    && Net(s.log) == |s.json| + |s.rpcProxy|
    && forall iid :: Matches(s, iid)
  }

  lemma ApplyConserves(s: Issues, op: Op)
    requires Conserved(s)
    ensures Conserved(Apply(s, op))
  {
    var t := Apply(s, op);
    match op
    case Add(_, x) => OneNoticeConserves(s, t, Notice(x, false));
    case Remove(issuer, x) =>
      if x in Listed(s, issuer) { RemoveOnce(Listed(s, issuer), x); }
      OneNoticeConserves(s, t, Notice(x, true));
    case ClearAll =>
      NetRestored(s.log, s.json + s.rpcProxy, "");
      forall iid ensures Matches(t, iid) {
        assert Matches(s, iid);
        NetRestored(s.log, s.json + s.rpcProxy, iid);
        TimesConcat(s.json, s.rpcProxy, iid);
        TimesIsMembership(s.json, iid);
        TimesIsMembership(s.rpcProxy, iid);
      }
  }

  lemma OneNoticeConserves(s: Issues, t: Issues, n: Notice)
    requires Conserved(s) && NoDuplicates(t.json) && NoDuplicates(t.rpcProxy)
    requires t == s || t.log == s.log + [n]
    requires t != s ==> |t.json| + |t.rpcProxy| == |s.json| + |s.rpcProxy| + if n.connected then -1 else 1
    requires t != s ==> forall x :: One(x in t.json) + One(x in t.rpcProxy) ==
                                    One(x in s.json) + One(x in s.rpcProxy)
                                    + (if x != n.iid then 0 else if n.connected then -1 else 1)
    ensures Conserved(t)
  {
    if t != s {
      forall iid ensures Matches(t, iid) {
        assert Matches(s, iid);
      }
    }
  }

  /** Over every sequence of operations on both transports the lists stay duplicate-free,
      disconnected minus connected events equals the issue count, and for each interface it
      equals the number of transports that currently list it. */
  lemma {:induction false} IssuesAreConserved(ops: seq<Op>)
    ensures Conserved(ApplyAll(NO_ISSUES, ops))
  {
    if ops == [] {
      forall iid ensures Matches(NO_ISSUES, iid) {}
    } else {
      IssuesAreConserved(ops[..|ops| - 1]);
      ApplyConserves(ApplyAll(NO_ISSUES, ops[..|ops| - 1]), ops[|ops| - 1]);
    }
  }

  // ------------------------------------------------------------ what each operation does

  /** In every history: adding lists the id, removing unlists it, clearing unlists everything; and
      nothing else is listed or unlisted on either transport. */
  lemma OperationsListExactly(ops: seq<Op>, op: Op, t: Transport, x: string)
    ensures
      var before, after := ApplyAll(NO_ISSUES, ops), Apply(ApplyAll(NO_ISSUES, ops), op);
      x in Listed(after, t) <==>
        match op
        case Add(issuer, iid) => (issuer == t && iid == x) || x in Listed(before, t)
        case Remove(issuer, iid) => x in Listed(before, t) && !(issuer == t && iid == x)
        case ClearAll => false
  {
    IssuesAreConserved(ops);
    var before := ApplyAll(NO_ISSUES, ops);
    if op.Remove? && op.iid in Listed(before, op.issuer) {
      RemoveOnce(Listed(before, op.issuer), op.iid);
    }
  }

  /** Clearing publishes one connect for each listed id, those of the JSON client first. */
  predicate PublishesAll(before: Issues, log: seq<Notice>) {
    var k, n, m := |before.log|, |before.json|, |before.rpcProxy|;
    && |log| == k + n + m && before.log <= log
    && (forall i | 0 <= i < n :: log[k + i] == Notice(before.json[i], true))
    && (forall i | 0 <= i < m :: log[k + n + i] == Notice(before.rpcProxy[i], true))
  }

  lemma ClearPublishesAll(s: Issues)
    ensures PublishesAll(s, ClearIssues(s).log)
  {
    var all := s.json + s.rpcProxy;
    var log := s.log + Restored(all);
    forall i | 0 <= i < |all| ensures log[|s.log| + i] == Notice(all[i], true) {}
    forall i | 0 <= i < |s.rpcProxy| ensures log[|s.log| + |s.json| + i] == Notice(s.rpcProxy[i], true) {
      assert all[|s.json| + i] == s.rpcProxy[i];
    }
  }

  /** In every history: ids are listed in the order of their addition; adding an unlisted id publishes
      one disconnect, removing a listed one publishes one connect, clearing publishes one connect for
      each listed id, and nothing else is ever published. */
  lemma OperationsPublishExactly(ops: seq<Op>, op: Op)
    ensures
      var before, after := ApplyAll(NO_ISSUES, ops), Apply(ApplyAll(NO_ISSUES, ops), op);
      match op
      case Add(t, x) =>
        if x in Listed(before, t) then after == before
        else Listed(after, t) == Listed(before, t) + [x] && after.log == before.log + [Notice(x, false)]
      case Remove(t, x) =>
        if x in Listed(before, t) then after.log == before.log + [Notice(x, true)] else after == before
      case ClearAll => PublishesAll(before, after.log)
  {
    if op.ClearAll? { ClearPublishesAll(ApplyAll(NO_ISSUES, ops)); }
  }
}
