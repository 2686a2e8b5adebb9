/**
 The client's search for an authentication type in `libtelnet/auth.c`: one
 AUTH SEND and the retries after it.
 */
module Auth {
  import opened Octets

  /** An authentication type and how it is to be used. */
  datatype Pair = Pair(kind: Byte, way: Byte)

  const SAVED := 256             // sizeof _auth_send_data

  datatype Result = Pending | Reject

  /** The table of authenticators, and the types that are supported and disabled. */
  datatype Policy = Policy(authenticators: seq<Pair>, supported: set<Byte>, disabled: set<Byte>)

  /** A pair that may be attempted. */
  predicate Able(pol: Policy, p: Pair) {
    p.kind in pol.supported && p.kind !in pol.disabled && p in pol.authenticators
  }

  /** Offer number `k`; an odd byte at the end is not an offer. */
  function Offer(data: seq<Byte>, k: nat): Pair
    requires 2 * k + 1 < |data|
  {
    Pair(data[2 * k], data[2 * k + 1])
  }

  /** The first `n` offers that may be attempted, by number. */
  function Eligible(data: seq<Byte>, n: nat, pol: Policy): seq<nat>
    requires 2 * n <= |data|
  {
    if n == 0 then [] else Eligible(data, n - 1, pol) + if Able(pol, Offer(data, n - 1)) then [n - 1] else []
  }

  /** They are in the order offered, each once, and no other is among them. */
  lemma {:induction false} EligibleOnce(data: seq<Byte>, n: nat, pol: Policy)
    requires 2 * n <= |data|
    ensures var t := Eligible(data, n, pol);
      && (forall i, j :: 0 <= i < j < |t| ==> t[i] < t[j])
      && (forall k :: k in t <==>
            0 <= k < n && var p := Pair(data[2 * k], data[2 * k + 1]);
            p.kind in pol.supported && p.kind !in pol.disabled && p in pol.authenticators)
  {
    if n > 0 {
      EligibleOnce(data, n - 1, pol);
      var s, t := Eligible(data, n - 1, pol), Eligible(data, n, pol);
      forall i, j | 0 <= i < j < |t| ensures t[i] < t[j] {
        if j == |s| { assert s[i] in s; }
      }
    }
  }

  predicate NoneOf(t: seq<nat>, accepts: nat -> bool) { forall k :: k in t ==> !accepts(k) }

  /** Of the attempts `t` the last, just before `at`, worked and no other did. */
  ghost predicate Used(t: seq<nat>, accepts: nat -> bool, at: nat) {
    t != [] && t[|t| - 1] == at - 1 && accepts(t[|t| - 1]) && NoneOf(t[..|t| - 1], accepts)
  }

  class Client {
    const server: bool
    const policy: Policy                 // authenticators, i_support, i_wont_support
    var saved: seq<Byte>                 // _auth_send_data
    var at: nat                          // auth_send_data, in offers from the start of `saved`
    var cnt: int                         // auth_send_cnt
    var nulls: nat                       // how often the NULL type was sent
    var result: Result                   // validuser
    ghost var tried: seq<nat>            // offers attempted since the last AUTH SEND

    ghost predicate Valid()
      reads this
    {
      && |saved| <= SAVED && 2 * at <= |saved|
      && (if cnt >= 0 then 2 * at + cnt == |saved| else 2 * at + 2 > |saved|)
      && tried == Eligible(saved, at, policy)
    }

    constructor (server: bool, policy: Policy)
      ensures Valid() && nulls == 0 && result == Pending
    {
      this.server, this.policy := server, policy;
      saved, at, cnt, nulls, result, tried := [], 0, 0, 0, Pending, [];
    }

    /** `findauthenticator`. */
    method Find(p: Pair) returns (found: bool)
      ensures found <==> p in policy.authenticators
    {
      var table := policy.authenticators;
      var i := 0;
      while i < |table| && table[i] != p
        invariant i <= |table| && p !in table[..i]
      {
        i := i + 1;
      }
      assert table[..|table|] == table;
      return i < |table|;
    }

    /** The body of the loop of `auth_send`: one offer, attempted if it may be. */
    method TryOffer(accepts: nat -> bool) returns (used: bool)
      requires 2 * at + 1 < |saved|
      modifies this`at, this`tried
      ensures at == old(at) + 1
      ensures tried == if Able(policy, Offer(saved, old(at))) then old(tried) + [old(at)] else old(tried)
      ensures used <==> Able(policy, Offer(saved, old(at))) && accepts(old(at))
    {
      var p := Offer(saved, at);
      at := at + 1;
      used := false;
      if p.kind in policy.supported && p.kind !in policy.disabled {
        var found := Find(p);
        if found {
          tried := tried + [at - 1];
          used := accepts(at - 1);
        }
      }
    }

    /**
     The loop of `auth_send`; `accepts` says of each offer whether attempting it
     works.  It stops after the first attempt that does, or has tried all; `more`
     are the attempts it makes.
     */
    method Search(accepts: nat -> bool) returns (ghost more: seq<nat>)
      requires Valid()
      modifies this`at, this`cnt, this`nulls, this`result, this`tried
      ensures Valid() && cnt < old(cnt) && at >= old(at) && tried == old(tried) + more
      ensures nulls == old(nulls) || nulls == old(nulls) + 1
      ensures nulls == old(nulls) ==> result == old(result) && Used(more, accepts, at)
      ensures nulls != old(nulls) ==> result == Reject && cnt < 0 && 2 * at + 2 > |saved| && NoneOf(more, accepts)
    {
      more := [];
      cnt := cnt - 2;
      while cnt >= 0
        invariant nulls == old(nulls) && result == old(result)
        invariant 2 * at + cnt + 2 == |saved| || (cnt < 0 && 2 * at + 2 > |saved|)
        invariant |saved| <= SAVED && 2 * at <= |saved| && cnt < old(cnt) && at >= old(at)
        invariant tried == Eligible(saved, at, policy)
        invariant tried == old(tried) + more && NoneOf(more, accepts)
        decreases cnt
      {
        var used := TryOffer(accepts);
        if Able(policy, Offer(saved, at - 1)) { more := more + [at - 1]; }
        if used {
          assert more[..|more| - 1] + [at - 1] == more;
          return;
        }
        cnt := cnt - 2;
      }
      nulls := nulls + 1;
      result := Reject;
    }

    /** `auth_send` with a new offer, of which at most SAVED bytes are kept. */
    method AuthSend(data: seq<Byte>, accepts: nat -> bool)
      requires Valid()
      modifies this
      ensures Valid()
      ensures server ==> saved == old(saved) && at == old(at) && tried == old(tried) && nulls == old(nulls)
      ensures !server ==> saved == (if |data| > SAVED then data[..SAVED] else data)
      ensures !server && nulls == old(nulls) ==> Used(tried, accepts, at)
      ensures !server && nulls != old(nulls) ==>
        result == Reject && at == |saved| / 2 && NoneOf(tried, accepts)
    {
      if server {
        return;
      }
      saved := if |data| > SAVED then data[..SAVED] else data;
      at, cnt, tried := 0, |saved|, [];
      ghost var more := Search(accepts);
      assert [] + more == more;
    }

    /** `auth_send_retry`: go on after the offer that was tried last. */
    method AuthSendRetry(accepts: nat -> bool)
      requires Valid()
      modifies this`at, this`cnt, this`nulls, this`result, this`tried
      ensures Valid() && old(tried) <= tried && (server || cnt < old(cnt))
      ensures !server && nulls == old(nulls) ==> Used(tried[|old(tried)|..], accepts, at)
      ensures !server && nulls != old(nulls) ==>
        && result == Reject && at == |saved| / 2
        && NoneOf(tried[|old(tried)|..], accepts)
    {
      if server {
        return;
      }
      ghost var more := Search(accepts);
      assert tried[|old(tried)|..] == more;
    }
  }
}
