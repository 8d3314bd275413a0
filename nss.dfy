/** The module's global state, the static context and configuration of lookup.c,
    and the operations that use it: initialisation and teardown, the three loaders,
    and the forward and reverse lookups. */
module Nss {
  import opened Types
  import opened Chars
  import opened TrustPolicy
  import opened Settings
  import opened KeyFiles
  import opened Aggregate
  import opened Sorting
  import opened Engine
  import opened Lookup

  /** What initialisation finds outside the module: whether ub_ctx_create()
      succeeds, the engine's oracles, which resolv.conf files exist, the key
      directory, and the policy file's lines (None when it cannot be opened). */
  datatype Env = Env(
    createOk: bool,
    answer: Query -> Reply,
    resolvConfStatus: ResolvConfPath -> int,
    appResolvConf: bool,
    systemResolvConf: bool,
    keyDir: Listing,
    cfgFile: Option<seq<string>>)

  /** The resolv.conf handed to the engine: the module's own if it exists, else the
      system's if that exists, else none. */
  function ResolvConfChoice(appExists: bool, systemExists: bool): Option<ResolvConfPath> {
    if appExists then Some(AppResolvConf)
    else if systemExists then Some(SystemResolvConf)
    else None
  }

  /** The status of ubdns_load_resolvconf: the engine's, or -1 when neither file exists. */
  function ResolvConfResult(status: ResolvConfPath -> int, appExists: bool, systemExists: bool): int {
    match ResolvConfChoice(appExists, systemExists)
    case None => -1
    case Some(p) => status(p)
  }

  /** The status of ubdns_load_keys: the errno of an unreadable directory, else 0. */
  function KeysResult(dir: Listing): int {
    match dir
    case Unreadable(e) => e
    case Entries(_) => 0
  }

  /** Initialisation leaves a context iff creation succeeds and the resolv.conf and
      key steps both return 0 (the policy step always does). */
  predicate InitKeepsContext(env: Env) {
    && env.createOk
    && ResolvConfResult(env.resolvConfStatus, env.appResolvConf, env.systemResolvConf) == 0
    && KeysResult(env.keyDir) == 0
  }

  /** Appending in two steps is appending the concatenation. */
  lemma AppendAssoc<T>(a: seq<T>, b: seq<T>, c: seq<T>)
    ensures (a + b) + c == a + (b + c)
  {
  }

  class Resolver {
    /** The engine context; null before initialisation, after a failed one, and
        after teardown. */
    var ctx: UbCtx?
    /** The trust-policy configuration. */
    var cfg: Config

    /** The configuration is always consistent: it starts with every flag off and
        only the policy loader changes it, normalising as it goes. */
    ghost predicate Valid()
      reads this
    {
      Consistent(cfg)
    }

    /** The state when the library is loaded, before its constructor runs. */
    constructor ()
      ensures Valid()
      ensures ctx == null && cfg == DefaultConfig
    {
      ctx := null;
      cfg := DefaultConfig;
    }

    /** ubdns_load_resolvconf. */
    method LoadResolvConf(appExists: bool, systemExists: bool) returns (ret: int)
      requires ctx != null
      modifies ctx
      ensures ret == ResolvConfResult(ctx.resolvConfStatus, appExists, systemExists)
      ensures ctx.resolvConfs == old(ctx.resolvConfs) +
        match ResolvConfChoice(appExists, systemExists) case None => [] case Some(p) => [p]
      ensures ctx.anchors == old(ctx.anchors) && ctx.queries == old(ctx.queries)
    {
      if appExists {
        ret := ctx.ResolvConf(AppResolvConf);
        return;
      }
      if systemExists {
        ret := ctx.ResolvConf(SystemResolvConf);
        return;
      }
      ret := -1;
    }

    /** ubdns_load_keys: every anchor of every usable key file goes to the engine, in
        directory order and line order; an unreadable directory adds nothing and
        returns its errno. */
    method LoadKeys(dir: Listing) returns (ret: int)
      requires ctx != null
      modifies ctx
      ensures ret == KeysResult(dir)
      ensures ctx.anchors == old(ctx.anchors) + (if dir.Entries? then DirAnchors(dir.entries) else [])
      ensures ctx.resolvConfs == old(ctx.resolvConfs) && ctx.queries == old(ctx.queries)
    {
      if dir.Unreadable? {
        return dir.errno;
      }
      var entries := dir.entries;
      var c := ctx;
      var i := 0;
      while i < |entries|
        invariant 0 <= i <= |entries|
        invariant ctx == c
        invariant c.anchors == old(c.anchors) + DirAnchors(entries[..i])
        invariant c.resolvConfs == old(c.resolvConfs) && c.queries == old(c.queries)
      {
        DirAnchorsStep(entries, i);
        LoadEntry(entries[i]);
        AppendAssoc(old(c.anchors), DirAnchors(entries[..i]), EntryAnchors(entries[i]));
        i := i + 1;
      }
      assert entries[..i] == entries;
      return 0;
    }

    /** One directory entry of ubdns_load_keys: a usable key file that opens has its
        anchors added; any other entry is skipped. */
    method LoadEntry(e: DirEntry)
      requires ctx != null
      modifies ctx
      ensures ctx.anchors == old(ctx.anchors) + EntryAnchors(e)
      ensures ctx.resolvConfs == old(ctx.resolvConfs) && ctx.queries == old(ctx.queries)
    {
      if IsKeyFileName(e.name) && e.lines.Some? {
        LoadKeyFile(e.lines.value);
      } else {
        assert EntryAnchors(e) == [];
      }
    }

    /** The line loop of ubdns_load_keys over one opened key file. */
    method LoadKeyFile(lines: seq<string>)
      requires ctx != null
      modifies ctx
      ensures ctx.anchors == old(ctx.anchors) + FileAnchors(lines)
      ensures ctx.resolvConfs == old(ctx.resolvConfs) && ctx.queries == old(ctx.queries)
    {
      var c := ctx;
      var j := 0;
      while j < |lines|
        invariant 0 <= j <= |lines|
        invariant c.anchors == old(c.anchors) + FileAnchors(lines[..j])
        invariant c.resolvConfs == old(c.resolvConfs) && c.queries == old(c.queries)
      {
        FileAnchorsStep(lines, j);
        var anchor := KeyLineAnchor(lines[j]);
        if anchor.Some? {
          c.AddTa(anchor.value);
        }
        AppendAssoc(old(c.anchors), FileAnchors(lines[..j]), LineAnchors(lines[j]));
        j := j + 1;
      }
      assert lines[..j] == lines;
    }

    /** ubdns_load_cfg: reads the policy file's directives, then normalises; a file
        that cannot be opened leaves the configuration as it is. Always returns 0. */
    method LoadCfg(file: Option<seq<string>>) returns (ret: int)
      requires Valid()
      modifies this`cfg
      ensures Valid()
      ensures ret == 0
      ensures cfg == LoadedConfig(old(cfg), file)
    {
      if file.None? {
        return 0;
      }
      var lines := file.value;
      var i := 0;
      while i < |lines|
        invariant 0 <= i <= |lines|
        invariant cfg == ApplyLines(old(cfg), lines[..i])
      {
        assert lines[..i + 1][..i] == lines[..i];
        var line := lines[i];
        if StrCaseEq(RequireSecureLine, line) {
          cfg := cfg.(requireSecure := true);
        } else if StrCaseEq(AcceptBogusLine, line) {
          cfg := cfg.(acceptBogus := true);
        } else if StrCaseEq(LoggingLine, line) {
          cfg := cfg.(logging := true);
        }
        i := i + 1;
      }
      assert lines[..i] == lines;
      if cfg.requireSecure {
        cfg := cfg.(acceptBogus := false);
      }
      return 0;
    }

    /** ubdns_init: creates the context, then loads resolv.conf, the keys and the
        policy in that order, stopping at the first failure; on a failure after
        creation the context is deleted. */
    method Init(env: Env)
      requires Valid()
      modifies this
      ensures Valid()
      ensures ctx != null <==> InitKeepsContext(env)
      ensures ctx != null ==>
        && fresh(ctx)
        && ctx.answer == env.answer && ctx.resolvConfStatus == env.resolvConfStatus
        && ctx.resolvConfs == [ResolvConfChoice(env.appResolvConf, env.systemResolvConf).value]
        && ctx.anchors == DirAnchors(env.keyDir.entries)
        && ctx.queries == []
      ensures cfg == if ctx != null then LoadedConfig(old(cfg), env.cfgFile) else old(cfg)
    {
      var ret := 0;
      if env.createOk {
        ctx := new UbCtx(env.answer, env.resolvConfStatus);
      } else {
        ctx := null;
      }
      if ctx != null {
        ret := LoadResolvConf(env.appResolvConf, env.systemResolvConf);
        if ret == 0 {
          ret := LoadKeys(env.keyDir);
          if ret == 0 {
            ret := LoadCfg(env.cfgFile);
          }
        }
      }
      if ret != 0 {
        ctx := null;
      }
    }

    /** ubdns_finish: the context is deleted and forgotten. */
    method Finish()
      requires Valid()
      modifies this
      ensures Valid()
      ensures ctx == null && cfg == old(cfg)
    {
      ctx := null;
    }

    /** ubdns_lookup_forward: the A pass, then the AAAA pass, as the family asks;
        the first failure skips the rest; the accumulated list is then sorted and
        published whatever the return value, which is 1 on success and 0 otherwise. */
    method LookupForward(hn: string, af: int, capacity: nat, le: (Address, Address) -> bool)
      returns (r: int, list: seq<Address>)
      requires Total(le)
      modifies ctx
      ensures r == 0 || r == 1
      ensures Sorted(le, list)
      ensures ctx == null ==> r == 0 && list == []
      ensures ctx != null ==>
        var (r0, unsorted) := ForwardUnsorted(true, cfg, af, ctx.answer(QueryA(hn)), ctx.answer(QueryAAAA(hn)), capacity);
        && r == r0
        && list == Sort(le, unsorted)
        && ctx.queries == old(ctx.queries) + ForwardQueries(hn, cfg, af, ctx.answer(QueryA(hn)), capacity)
        && ctx.anchors == old(ctx.anchors) && ctx.resolvConfs == old(ctx.resolvConfs)
    {
      var acc: seq<Address> := [];
      r := 1;
      if ctx == null {
        r := 0;
      } else {
        var c := ctx;
        var ok := true;
        if WantsA(af) {
          ok, acc := AddressPass(hn, AfInet, acc, capacity);
        }
        ghost var first := if WantsA(af) then [QueryA(hn)] else [];
        ghost var second := if ok && WantsAAAA(af) then [QueryAAAA(hn)] else [];
        assert c.queries == old(c.queries) + first;
        if ok && WantsAAAA(af) {
          ok, acc := AddressPass(hn, AfInet6, acc, capacity);
        }
        assert c.queries == (old(c.queries) + first) + second;
        AppendAssoc(old(c.queries), first, second);
        if !ok {
          r := 0;
        }
      }
      // r is never negative, so the list is always sorted and published.
      list := Sort(le, acc);
    }

    /** One pass of ubdns_lookup_forward: the query for the family's record type,
        then ubdns_add_result; false when either fails, and the list then stays as
        it was. */
    method AddressPass(hn: string, af: int, acc: seq<Address>, capacity: nat)
      returns (ok: bool, grown: seq<Address>)
      requires af == AfInet || af == AfInet6
      requires ctx != null
      modifies ctx
      ensures var q := if af == AfInet then QueryA(hn) else QueryAAAA(hn);
        && Progress(ok, grown) == Pass(cfg, ctx.answer(q), af, acc, capacity)
        && ctx.queries == old(ctx.queries) + [q]
      ensures ctx.anchors == old(ctx.anchors) && ctx.resolvConfs == old(ctx.resolvConfs)
    {
      var rrtype := if af == AfInet then TypeA else TypeAAAA;
      var status, res := ctx.Resolve(hn, rrtype, ClassIn);
      if status != 0 {
        return false, acc;
      }
      var ret;
      ret, grown := AddResult(acc, cfg, res, af, capacity);
      ok := ret == 0;
    }

    /** ubdns_lookup_reverse: one PTR query for the address's reverse name; the
        name of the first record comes back if the query succeeded, the policy
        accepts the result and there is a record. arpaName stands for the reverse
        name synthesis and domainToStr for the wire-to-text conversion. */
    method LookupReverse(addr: seq<byte>, af: int, arpaName: (seq<byte>, int) -> string,
                         domainToStr: seq<byte> -> string)
      returns (name: Option<string>)
      requires Valid()
      modifies ctx
      ensures ctx == null || (af != AfInet && af != AfInet6) ==> name == None
      ensures ctx != null && af != AfInet && af != AfInet6 ==> ctx.queries == old(ctx.queries)
      ensures ctx != null && (af == AfInet || af == AfInet6) ==>
        var q := QueryPtr(arpaName(addr, af));
        && ctx.queries == old(ctx.queries) + [q]
        && name == ReverseName(cfg, ctx.answer(q), domainToStr)
        && (name.Some? <==>
              && ctx.answer(q).status == 0
              && ctx.answer(q).result.havedata
              && Admits(cfg, SecurityOf(ctx.answer(q).result))
              && ctx.answer(q).result.data != [])
      ensures ctx != null ==> ctx.anchors == old(ctx.anchors) && ctx.resolvConfs == old(ctx.resolvConfs)
    {
      if ctx == null {
        return None;
      }
      var qname: string;
      if af == AfInet {
        qname := arpaName(addr, AfInet);
      } else if af == AfInet6 {
        qname := arpaName(addr, AfInet6);
      } else {
        return None;
      }
      var status, res := ctx.Resolve(qname, TypePtr, ClassIn);
      ReverseNameByState(cfg, Reply(status, res), domainToStr);
      if status == 0 && CheckResult(cfg, res) && res.data != [] {
        return Some(domainToStr(res.data[0]));
      }
      return None;
    }
  }
}
