/** The address list of a forward lookup and how an accepted result is appended to
    it (ubdns_add_result). */
module Aggregate {
  import opened Types
  import opened TrustPolicy

  /** The entries a result's answer records give for a family: one per record whose
      length is the family's address size, with that family, scope 0 and the record's
      bytes, in record order. Records of any other length give nothing. */
  function Matching(data: seq<seq<byte>>, af: int): (entries: seq<Address>)
    requires af == AfInet || af == AfInet6
    ensures |entries| <= |data|
    ensures forall e :: e in entries ==>
      e.family == af && e.scope == 0 && |e.address| == AddressSize(af)
    decreases |data|
  {
    if data == [] then []
    else
      var last := data[|data| - 1];
      Matching(data[..|data| - 1], af) + (if |last| == AddressSize(af) then [Address(af, 0, last)] else [])
  }

  /** The entries of two runs of records are those of the first run, then those of
      the second: the order of the records is kept. */
  lemma {:induction false} MatchingAppend(d1: seq<seq<byte>>, d2: seq<seq<byte>>, af: int)
    requires af == AfInet || af == AfInet6
    ensures Matching(d1 + d2, af) == Matching(d1, af) + Matching(d2, af)
    decreases |d2|
  {
    if d2 == [] {
      assert d1 + d2 == d1;
    } else {
      var init := d2[..|d2| - 1];
      assert (d1 + d2)[..|d1 + d2| - 1] == d1 + init;
      assert (d1 + d2)[|d1 + d2| - 1] == d2[|d2| - 1];
      MatchingAppend(d1, init, af);
    }
  }

  /** One more record of a prefix adds its entry, if it has one. */
  lemma MatchingStep(data: seq<seq<byte>>, af: int, i: nat)
    requires af == AfInet || af == AfInet6
    requires i < |data|
    ensures Matching(data[..i + 1], af) == Matching(data[..i], af) +
      (if |data[i]| == AddressSize(af) then [Address(af, 0, data[i])] else [])
  {
    assert data[..i + 1][..i] == data[..i];
  }

  /** A prefix of the records gives no more entries than all of them. */
  lemma MatchingPrefix(data: seq<seq<byte>>, af: int, i: nat)
    requires af == AfInet || af == AfInet6
    requires i <= |data|
    ensures |Matching(data[..i], af)| <= |Matching(data, af)|
  {
    MatchingAppend(data[..i], data[i..], af);
    assert data[..i] + data[i..] == data;
  }

  /** An entry is produced iff some record has the family's address size and holds
      exactly the entry's bytes. */
  lemma {:induction false} MatchingMembers(data: seq<seq<byte>>, af: int, e: Address)
    requires af == AfInet || af == AfInet6
    ensures e in Matching(data, af) <==>
      exists i :: 0 <= i < |data| && |data[i]| == AddressSize(af) && e == Address(af, 0, data[i])
    decreases |data|
  {
    if data != [] {
      var init, last := data[..|data| - 1], data[|data| - 1];
      MatchingMembers(init, af, e);
      if e in Matching(init, af) {
        var i :| 0 <= i < |init| && |init[i]| == AddressSize(af) && e == Address(af, 0, init[i]);
        assert data[i] == init[i];
      } else if |last| == AddressSize(af) && e == Address(af, 0, last) {
        assert data[|data| - 1] == last;
      } else {
        forall i | 0 <= i < |data| && |data[i]| == AddressSize(af)
          ensures e != Address(af, 0, data[i])
        {
          if i < |init| {
            assert data[i] == init[i];
          }
        }
      }
    }
  }

  /** Records of the wrong length only: nothing is appended. */
  lemma {:induction false} MatchingNone(data: seq<seq<byte>>, af: int)
    requires af == AfInet || af == AfInet6
    requires forall i :: 0 <= i < |data| ==> |data[i]| != AddressSize(af)
    ensures Matching(data, af) == []
    decreases |data|
  {
    if data != [] {
      MatchingNone(data[..|data| - 1], af);
    }
  }

  /** The allocation that fails for a matching record means the whole append fails. */
  lemma FailsAt(data: seq<seq<byte>>, af: int, i: nat, n: nat, capacity: nat)
    requires af == AfInet || af == AfInet6
    requires i < |data| && |data[i]| == AddressSize(af)
    requires n + |Matching(data[..i], af)| + 1 > capacity
    ensures AllocFails(n, |Matching(data, af)|, capacity)
  {
    MatchingStep(data, af, i);
    MatchingPrefix(data, af, i + 1);
  }

  /** Growing a list of n entries by `added`, one realloc() per entry, fails under an
      allocator that provides at most `capacity` entries. */
  predicate AllocFails(n: nat, added: nat, capacity: nat) {
    added > 0 && n + added > capacity
  }

  /** ubdns_add_result: a result the policy refuses leaves the list as it is and
      succeeds; an accepted one appends its matching entries after the existing ones,
      or, when an allocation fails, returns -1 and hands back the list unwritten. */
  method AddResult(list: seq<Address>, cfg: Config, res: UbResult, af: int, capacity: nat)
    returns (ret: int, out: seq<Address>)
    requires af == AfInet || af == AfInet6
    ensures ret == 0 || ret == -1
    ensures ret == -1 <==> CheckResult(cfg, res) && AllocFails(|list|, |Matching(res.data, af)|, capacity)
    ensures ret == -1 || !CheckResult(cfg, res) ==> out == list
    ensures ret == 0 && CheckResult(cfg, res) ==> out == list + Matching(res.data, af)
  {
    if !CheckResult(cfg, res) {
      return 0, list;
    }
    var data := res.data;
    var grown := list;
    var i := 0;
    while i < |data|
      invariant 0 <= i <= |data|
      invariant grown == list + Matching(data[..i], af)
      invariant !AllocFails(|list|, |Matching(data[..i], af)|, capacity)
    {
      MatchingStep(data, af, i);
      if |data[i]| == AddressSize(af) {
        if |grown| + 1 > capacity {
          FailsAt(data, af, i, |list|, capacity);
          return -1, list;
        }
        grown := grown + [Address(af, 0, data[i])];
      }
      i := i + 1;
    }
    assert data[..i] == data;
    return 0, grown;
  }
}
