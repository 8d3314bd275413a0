/** What the forward and reverse lookups compute (ubdns_lookup_forward,
    ubdns_lookup_reverse), as functions of the engine's replies; the methods of
    Nss.Resolver are proved to compute exactly these. */
module Lookup {
  import opened Types
  import opened TrustPolicy
  import opened Aggregate
  import opened Sorting

  /** A forward lookup asks for A records for AF_INET or AF_UNSPEC ... */
  predicate WantsA(af: int) {
    af == AfInet || af == AfUnspec
  }

  /** ... and for AAAA records for AF_INET6 or AF_UNSPEC. */
  predicate WantsAAAA(af: int) {
    af == AfInet6 || af == AfUnspec
  }

  function QueryA(hn: string): Query {
    Query(hn, TypeA, ClassIn)
  }

  function QueryAAAA(hn: string): Query {
    Query(hn, TypeAAAA, ClassIn)
  }

  function QueryPtr(qname: string): Query {
    Query(qname, TypePtr, ClassIn)
  }

  /** Where a forward lookup stands after a pass: whether it is still succeeding, and
      the list accumulated so far. */
  datatype Progress = Progress(ok: bool, list: seq<Address>)

  /** The entries a result contributes for a family: its matching records if the
      policy accepts it, nothing otherwise. */
  function Kept(cfg: Config, res: UbResult, af: int): seq<Address>
    requires af == AfInet || af == AfInet6
  {
    if CheckResult(cfg, res) then Matching(res.data, af) else []
  }

  /** Whether an address pass succeeds: the query succeeds, and appending its
      entries to a list of n entries does not run out of memory. */
  predicate PassOk(cfg: Config, reply: Reply, af: int, n: nat, capacity: nat)
    requires af == AfInet || af == AfInet6
  {
    reply.status == 0 && !AllocFails(n, |Kept(cfg, reply.result, af)|, capacity)
  }

  /** One address pass: ub_resolve() then ubdns_add_result(). A failed pass leaves
      the list as it was. */
  function Pass(cfg: Config, reply: Reply, af: int, list: seq<Address>, capacity: nat): Progress
    requires af == AfInet || af == AfInet6
  {
    if reply.status != 0 then Progress(false, list)
    else if CheckResult(cfg, reply.result)
      && AllocFails(|list|, |Matching(reply.result.data, af)|, capacity) then Progress(false, list)
    else Progress(true, list + Kept(cfg, reply.result, af))
  }

  /** A forward lookup before its final sort: the return value and the accumulated
      list, given whether the context exists and the replies to the A and AAAA
      queries. A failed A pass skips the AAAA pass. */
  function ForwardUnsorted(hasCtx: bool, cfg: Config, af: int, replyA: Reply, replyAAAA: Reply,
                           capacity: nat): (int, seq<Address>)
  {
    if !hasCtx then (0, [])
    else
      var a := if WantsA(af) then Pass(cfg, replyA, AfInet, [], capacity) else Progress(true, []);
      if !a.ok then (0, a.list)
      else
        var b := if WantsAAAA(af) then Pass(cfg, replyAAAA, AfInet6, a.list, capacity) else a;
        (if b.ok then 1 else 0, b.list)
  }

  /** The queries a forward lookup issues, in order. */
  function ForwardQueries(hn: string, cfg: Config, af: int, replyA: Reply, capacity: nat): seq<Query> {
    (if WantsA(af) then [QueryA(hn)] else []) +
    (if WantsAAAA(af) && (!WantsA(af) || Pass(cfg, replyA, AfInet, [], capacity).ok) then [QueryAAAA(hn)] else [])
  }

  /** A pass succeeds iff its query succeeds and its append has memory enough; it
      then adds the accepted entries after the list, and otherwise leaves it alone. */
  lemma PassOutcome(cfg: Config, reply: Reply, af: int, list: seq<Address>, capacity: nat)
    requires af == AfInet || af == AfInet6
    ensures Pass(cfg, reply, af, list, capacity).ok <==> PassOk(cfg, reply, af, |list|, capacity)
    ensures Pass(cfg, reply, af, list, capacity).list ==
      if PassOk(cfg, reply, af, |list|, capacity) then list + Kept(cfg, reply.result, af) else list
  {
  }

  /** Without a context the lookup fails with an empty list. */
  lemma ForwardWithoutContext(cfg: Config, af: int, replyA: Reply, replyAAAA: Reply, capacity: nat)
    ensures ForwardUnsorted(false, cfg, af, replyA, replyAAAA, capacity) == (0, [])
  {
  }

  /** A family other than AF_INET, AF_INET6 and AF_UNSPEC issues no query and
      succeeds with an empty list. */
  lemma ForwardOtherFamily(hn: string, cfg: Config, af: int, replyA: Reply, replyAAAA: Reply, capacity: nat)
    requires af != AfInet && af != AfInet6 && af != AfUnspec
    ensures ForwardQueries(hn, cfg, af, replyA, capacity) == []
    ensures ForwardUnsorted(true, cfg, af, replyA, replyAAAA, capacity) == (1, [])
  {
  }

  /** The lookup returns 1 or 0, and 1 exactly when the context exists and every
      pass it asks for succeeds; the list is the accepted A entries of a successful
      A pass followed by the accepted AAAA entries of a successful AAAA pass. */
  lemma ForwardOutcome(hasCtx: bool, cfg: Config, af: int, replyA: Reply, replyAAAA: Reply, capacity: nat)
    ensures var (r, list) := ForwardUnsorted(hasCtx, cfg, af, replyA, replyAAAA, capacity);
      var okA := !WantsA(af) || PassOk(cfg, replyA, AfInet, 0, capacity);
      var keptA := if WantsA(af) && okA then Kept(cfg, replyA.result, AfInet) else [];
      var okAAAA := !WantsAAAA(af) || PassOk(cfg, replyAAAA, AfInet6, |keptA|, capacity);
      && (r == 0 || r == 1)
      && (r == 1 <==> hasCtx && okA && okAAAA)
      && list == if !hasCtx then [] else
           keptA + (if WantsAAAA(af) && okA && okAAAA then Kept(cfg, replyAAAA.result, AfInet6) else [])
  {
    if hasCtx {
      if WantsA(af) {
        PassOutcome(cfg, replyA, AfInet, [], capacity);
      }
      var a := if WantsA(af) then Pass(cfg, replyA, AfInet, [], capacity) else Progress(true, []);
      if a.ok && WantsAAAA(af) {
        PassOutcome(cfg, replyAAAA, AfInet6, a.list, capacity);
      }
    }
  }

  /** When both families are asked for and the AAAA pass fails, the lookup returns 0
      and still publishes the accepted A entries. */
  lemma ForwardKeepsAWhenAAAAFails(cfg: Config, replyA: Reply, replyAAAA: Reply, capacity: nat)
    requires PassOk(cfg, replyA, AfInet, 0, capacity)
    requires !PassOk(cfg, replyAAAA, AfInet6, |Kept(cfg, replyA.result, AfInet)|, capacity)
    ensures ForwardUnsorted(true, cfg, AfUnspec, replyA, replyAAAA, capacity) == (0, Kept(cfg, replyA.result, AfInet))
  {
    ForwardOutcome(true, cfg, AfUnspec, replyA, replyAAAA, capacity);
    var keptA := Kept(cfg, replyA.result, AfInet);
    assert keptA + [] == keptA;
  }

  /** Every published entry has scope 0, a family the caller asked for, and exactly
      that family's address size. */
  lemma ForwardEntriesWellFormed(hasCtx: bool, cfg: Config, af: int, replyA: Reply, replyAAAA: Reply, capacity: nat)
    ensures forall e :: e in ForwardUnsorted(hasCtx, cfg, af, replyA, replyAAAA, capacity).1 ==>
      && e.scope == 0
      && ((e.family == AfInet && WantsA(af)) || (e.family == AfInet6 && WantsAAAA(af)))
      && |e.address| == AddressSize(e.family)
  {
    ForwardOutcome(hasCtx, cfg, af, replyA, replyAAAA, capacity);
  }

  /** An order that ranks entries by family first. */
  ghost predicate FamilyFirst(le: (Address, Address) -> bool) {
    forall a: Address, b: Address :: a.family < b.family ==> !le(b, a)
  }

  /** After the final sort under such an order, every IPv4 entry precedes every IPv6
      entry. */
  lemma {:induction false} SortedFamiliesInOrder(le: (Address, Address) -> bool, list: seq<Address>)
    requires TotalOrder(le) && FamilyFirst(le)
    ensures var s := Sort(le, list);
      forall i, j :: 0 <= i < j < |s| ==> !(s[i].family == AfInet6 && s[j].family == AfInet)
  {
    var s := Sort(le, list);
    SortedPairwise(le, s);
  }

  /** An accepted, unsigned A answer with one four-byte record gives that address. */
  lemma ForwardOneAddress(capacity: nat)
    requires capacity >= 1
    ensures var res := UbResult(havedata := true, secure := false, bogus := false, data := [[10, 0, 0, 1]]);
      ForwardUnsorted(true, DefaultConfig, AfInet, Reply(0, res), Reply(0, res), capacity)
        == (1, [Address(AfInet, 0, [10, 0, 0, 1])])
  {
    var d: seq<seq<byte>> := [[10, 0, 0, 1]];
    assert d[..0] == [] && |d[0]| == 4;
    assert Matching(d, AfInet) == [Address(AfInet, 0, [10, 0, 0, 1])];
  }

  /** A bogus answer under the default policy contributes nothing, and the lookup
      still succeeds, with an empty list. */
  lemma ForwardBogusIsEmpty(data: seq<seq<byte>>, capacity: nat)
    ensures var res := UbResult(havedata := true, secure := false, bogus := true, data := data);
      ForwardUnsorted(true, DefaultConfig, AfInet, Reply(0, res), Reply(0, res), capacity) == (1, [])
  {
  }

  /** ubdns_lookup_reverse once its PTR query has been answered: the first record's
      name, if the query succeeded, the policy accepts the result and there is a
      first record. */
  function ReverseName(cfg: Config, reply: Reply, domainToStr: seq<byte> -> string): Option<string> {
    if reply.status == 0 && CheckResult(cfg, reply.result) && reply.result.data != []
    then Some(domainToStr(reply.result.data[0]))
    else None
  }

  /** Reverse lookups apply the same policy as forward ones: under a consistent
      configuration a name comes back iff the query succeeded with data in a state
      the policy admits and there is a first record. */
  lemma ReverseNameByState(cfg: Config, reply: Reply, domainToStr: seq<byte> -> string)
    requires Consistent(cfg)
    ensures ReverseName(cfg, reply, domainToStr).Some? <==>
      reply.status == 0 && reply.result.havedata && Admits(cfg, SecurityOf(reply.result))
      && reply.result.data != []
    ensures ReverseName(cfg, reply, domainToStr).Some? ==>
      ReverseName(cfg, reply, domainToStr).value == domainToStr(reply.result.data[0])
  {
    PolicyByState(cfg, reply.result);
  }
}
