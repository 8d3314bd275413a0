/** The Unbound resolver context the layer drives (struct ub_ctx). Its network,
    cache and validation are not part of this model: what it answers to a query and
    what reading a resolv.conf returns are fixed oracles given at creation, and the
    context records the calls made on it. */
module Engine {
  import opened Types

  /** The two resolv.conf files the layer tries: its own, then the system's. */
  datatype ResolvConfPath = AppResolvConf | SystemResolvConf

  class UbCtx {
    /** The reply ub_resolve() gives to each query. */
    const answer: Query -> Reply
    /** The status ub_ctx_resolvconf() returns for each file. */
    const resolvConfStatus: ResolvConfPath -> int

    /** Trust anchors added with ub_ctx_add_ta(), in order. */
    var anchors: seq<string>
    /** Files passed to ub_ctx_resolvconf(), in order. */
    var resolvConfs: seq<ResolvConfPath>
    /** Queries passed to ub_resolve(), in order. */
    var queries: seq<Query>

    /** ub_ctx_create() when it succeeds: a context with nothing configured. */
    constructor (answer: Query -> Reply, resolvConfStatus: ResolvConfPath -> int)
      ensures this.answer == answer && this.resolvConfStatus == resolvConfStatus
      ensures anchors == [] && resolvConfs == [] && queries == []
    {
      this.answer := answer;
      this.resolvConfStatus := resolvConfStatus;
      anchors, resolvConfs, queries := [], [], [];
    }

    /** ub_ctx_add_ta(): its status is ignored by the layer. */
    method AddTa(ta: string)
      modifies this
      ensures anchors == old(anchors) + [ta]
      ensures resolvConfs == old(resolvConfs) && queries == old(queries)
    {
      anchors := anchors + [ta];
    }

    /** ub_ctx_resolvconf(). */
    method ResolvConf(path: ResolvConfPath) returns (status: int)
      modifies this
      ensures status == resolvConfStatus(path)
      ensures resolvConfs == old(resolvConfs) + [path]
      ensures anchors == old(anchors) && queries == old(queries)
    {
      resolvConfs := resolvConfs + [path];
      status := resolvConfStatus(path);
    }

    /** ub_resolve(). */
    method Resolve(name: string, rrtype: int, rrclass: int) returns (status: int, res: UbResult)
      modifies this
      ensures Reply(status, res) == answer(Query(name, rrtype, rrclass))
      ensures queries == old(queries) + [Query(name, rrtype, rrclass)]
      ensures anchors == old(anchors) && resolvConfs == old(resolvConfs)
    {
      queries := queries + [Query(name, rrtype, rrclass)];
      var reply := answer(Query(name, rrtype, rrclass));
      status, res := reply.status, reply.result;
    }
  }
}
