// Which Business answers which WhatsApp phone id (interfaces/whatsapp/registry.py).
module WhatsAppRegistry {
  import opened Common

  // `runtime` is what building the Business's runtime for this adapter yields; None is a build that raises.
  datatype Adapter<R> = Adapter(kind: string, enabled: bool, phoneNumberId: Option<string>, runtime: Option<R>)

  // What loading one business.yaml comes to: a config, the config error the scan catches, or any other exception,
  // such as a file that is no UTF-8 text.
  datatype Load = Loaded | Invalid | Raises

  // One business.yaml in path order; `enabled` and `adapters` are those of a loaded one.
  datatype Business<R> = Business(load: Load, enabled: bool, adapters: seq<Adapter<R>>)

  datatype Candidate<R> = Candidate(phoneId: string, runtime: R)

  // The adapter could serve its phone id.
  predicate Eligible<R>(a: Adapter<R>) {
    a.kind == "whatsapp" && a.enabled && a.phoneNumberId.Some? && a.phoneNumberId.value != "" && a.runtime.Some?
  }

  function AdapterCandidates<R>(adapters: seq<Adapter<R>>): seq<Candidate<R>> {
    if adapters == [] then []
    else
      var last := adapters[|adapters| - 1];
      var before := AdapterCandidates(adapters[..|adapters| - 1]);
      if Eligible(last) then before + [Candidate(last.phoneNumberId.value, last.runtime.value)] else before
  }

  function OwnCandidates<R>(b: Business<R>): seq<Candidate<R>> {
    if b.load.Loaded? && b.enabled then AdapterCandidates(b.adapters) else []
  }

  // Every adapter that could serve, in Business then adapter order.
  function Candidates<R>(businesses: seq<Business<R>>): seq<Candidate<R>> {
    if businesses == [] then []
    else Candidates(businesses[..|businesses| - 1]) + OwnCandidates(businesses[|businesses| - 1])
  }

  function Claimed<R>(registry: map<string, R>, c: Candidate<R>): map<string, R> {
    if c.phoneId in registry then registry else registry[c.phoneId := c.runtime]
  }

  function RegistryOf<R>(candidates: seq<Candidate<R>>): map<string, R> {
    if candidates == [] then map[]
    else Claimed(RegistryOf(candidates[..|candidates| - 1]), candidates[|candidates| - 1])
  }

  lemma RegistrySnoc<R>(candidates: seq<Candidate<R>>, c: Candidate<R>)
    ensures RegistryOf(candidates + [c]) == Claimed(RegistryOf(candidates), c)
  {
    assert (candidates + [c])[..|candidates|] == candidates;
  }

  // The registry after one more adapter.
  function AfterAdapter<R>(registry: map<string, R>, a: Adapter<R>): map<string, R> {
    if Eligible(a) then Claimed(registry, Candidate(a.phoneNumberId.value, a.runtime.value)) else registry
  }

  lemma AdapterStep<R>(earlier: seq<Candidate<R>>, adapters: seq<Adapter<R>>, k: nat)
    requires k < |adapters|
    ensures RegistryOf(earlier + AdapterCandidates(adapters[..k + 1]))
            == AfterAdapter(RegistryOf(earlier + AdapterCandidates(adapters[..k])), adapters[k])
  {
    var own, a := AdapterCandidates(adapters[..k]), adapters[k];
    assert adapters[..k + 1][..k] == adapters[..k];
    if Eligible(a) {
      var c := Candidate(a.phoneNumberId.value, a.runtime.value);
      assert earlier + (own + [c]) == earlier + own + [c];
      RegistrySnoc(earlier + own, c);
    }
  }

  lemma BusinessStep<R>(businesses: seq<Business<R>>, i: nat)
    requires i < |businesses|
    ensures Candidates(businesses[..i + 1]) == Candidates(businesses[..i]) + OwnCandidates(businesses[i])
    ensures Candidates(businesses[..i]) + [] == Candidates(businesses[..i])
  {
    assert businesses[..i + 1][..i] == businesses[..i];
  }

  // A Business that counts adds its adapters' candidates, any other nothing.
  lemma ScanStep<R>(businesses: seq<Business<R>>, i: nat)
    requires i < |businesses|
    ensures var b, earlier := businesses[i], Candidates(businesses[..i]);
            Candidates(businesses[..i + 1])
            == if b.load.Loaded? && b.enabled then earlier + AdapterCandidates(b.adapters) else earlier
  {
    BusinessStep(businesses, i);
  }

  lemma NothingScanned<R>()
    ensures RegistryOf(Candidates<R>([])) == map[]
  {
  }

  predicate AnyRaises<R>(businesses: seq<Business<R>>) {
    exists i :: 0 <= i < |businesses| && businesses[i].load.Raises?
  }

  // The registry the scan returns; None when it raises.
  function Scanned<R>(businesses: seq<Business<R>>): Option<map<string, R>> {
    if AnyRaises(businesses) then None else Some(RegistryOf(Candidates(businesses)))
  }

  // The inner loop, for one Business.
  method ClaimPhoneIds<R>(before: map<string, R>, adapters: seq<Adapter<R>>, ghost earlier: seq<Candidate<R>>)
    returns (registry: map<string, R>)
    requires before == RegistryOf(earlier)
    ensures registry == RegistryOf(earlier + AdapterCandidates(adapters))
  {
    registry := before;
    assert earlier + [] == earlier;
    for k := 0 to |adapters|
      invariant registry == RegistryOf(earlier + AdapterCandidates(adapters[..k]))
    {
      var adapter := adapters[k];
      AdapterStep(earlier, adapters, k);
      if adapter.kind != "whatsapp" || !adapter.enabled {
        continue;
      }
      if adapter.phoneNumberId == None || adapter.phoneNumberId.value == "" {
        continue;
      }
      if adapter.phoneNumberId.value in registry {
        continue;
      }
      if adapter.runtime.Some? {
        registry := registry[adapter.phoneNumberId.value := adapter.runtime.value];
      }
    }
    assert adapters[..|adapters|] == adapters;
  }

  method BuildBusinessRegistry<R>(businesses: seq<Business<R>>) returns (result: Option<map<string, R>>)
    ensures result == Scanned(businesses)
  {
    hide RegistryOf, Candidates, AdapterCandidates;
    NothingScanned<R>();
    var registry: map<string, R> := map[];
    for i := 0 to |businesses|
      invariant registry == RegistryOf(Candidates(businesses[..i]))
      invariant forall j :: 0 <= j < i ==> !businesses[j].load.Raises?
    {
      var business := businesses[i];
      ghost var earlier := Candidates(businesses[..i]);
      ScanStep(businesses, i);
      if business.load.Raises? {
        return None;
      }
      if business.load.Invalid? {
        continue;
      }
      if !business.enabled {
        continue;
      }
      registry := ClaimPhoneIds(registry, business.adapters, earlier);
    }
    assert businesses[..|businesses|] == businesses;
    return Some(registry);
  }

  predicate IsFirst<R>(candidates: seq<Candidate<R>>, phoneId: string, i: nat) {
    i < |candidates| && candidates[i].phoneId == phoneId && forall j :: 0 <= j < i ==> candidates[j].phoneId != phoneId
  }

  // A phone id is served exactly when some candidate claims it, and by the first that does.
  lemma {:induction false} FirstCandidateServes<R>(candidates: seq<Candidate<R>>, phoneId: string)
    ensures phoneId in RegistryOf(candidates) <==> exists i: nat :: IsFirst(candidates, phoneId, i)
    ensures forall i: nat :: IsFirst(candidates, phoneId, i) ==>
              phoneId in RegistryOf(candidates) && RegistryOf(candidates)[phoneId] == candidates[i].runtime
  {
    if candidates != [] {
      var n := |candidates| - 1;
      var before := candidates[..n];
      FirstCandidateServes(before, phoneId);
      forall i: nat | i < n ensures IsFirst(before, phoneId, i) <==> IsFirst(candidates, phoneId, i) {
        assert forall j :: 0 <= j <= i ==> before[j] == candidates[j];
      }
      if phoneId !in RegistryOf(before) {
        NoneBefore(before, phoneId);
        assert IsFirst(candidates, phoneId, n) <==> candidates[n].phoneId == phoneId;
      } else {
        var i: nat :| IsFirst(before, phoneId, i);
        assert IsFirst(candidates, phoneId, i);
        assert forall k: nat :: IsFirst(candidates, phoneId, k) ==> k == i;
      }
    }
  }

  lemma {:induction false} NoneBefore<R>(candidates: seq<Candidate<R>>, phoneId: string)
    requires forall i: nat :: !IsFirst(candidates, phoneId, i)
    ensures forall j :: 0 <= j < |candidates| ==> candidates[j].phoneId != phoneId
  {
    if candidates != [] {
      var n := |candidates| - 1;
      forall i: nat ensures !IsFirst(candidates[..n], phoneId, i) {
        if i < n {
          assert forall j :: 0 <= j <= i ==> candidates[..n][j] == candidates[j];
          assert !IsFirst(candidates, phoneId, i);
        }
      }
      NoneBefore(candidates[..n], phoneId);
      assert forall j :: 0 <= j < n ==> candidates[j] == candidates[..n][j];
      assert !IsFirst(candidates, phoneId, n);
    }
  }

  /* ---------- Served by whom, in the configuration's terms ---------- */

  // Adapter `k` of Business `i`, both enabled, is a WhatsApp adapter with this phone id and a runtime.
  predicate Claims<R>(bs: seq<Business<R>>, i: nat, k: nat, phoneId: string) {
    && i < |bs| && bs[i].load == Loaded && bs[i].enabled && k < |bs[i].adapters|
    && var a := bs[i].adapters[k];
       a.kind == "whatsapp" && a.enabled && phoneId != "" && a.phoneNumberId == Some(phoneId) && a.runtime != None
  }

  predicate Earlier(i: nat, k: nat, i': nat, k': nat) { i < i' || (i == i' && k < k') }

  ghost predicate ClaimsFirst<R>(bs: seq<Business<R>>, i: nat, k: nat, phoneId: string) {
    && Claims(bs, i, k, phoneId)
    && forall i': nat, k': nat :: Earlier(i', k', i, k) ==> !Claims(bs, i', k', phoneId)
  }

  ghost predicate ClaimedBefore<R>(bs: seq<Business<R>>, n: nat, m: nat, phoneId: string) {
    exists i: nat, k: nat :: Earlier(i, k, n, m) && Claims(bs, i, k, phoneId)
  }

  // `registry` serves the phone id by the first claim before adapter `m` of Business `n`, if there is one.
  ghost predicate Serves<R>(bs: seq<Business<R>>, n: nat, m: nat, phoneId: string, registry: map<string, R>) {
    && (phoneId in registry <==> ClaimedBefore(bs, n, m, phoneId))
    && forall i: nat, k: nat :: Earlier(i, k, n, m) && ClaimsFirst(bs, i, k, phoneId) ==>
         phoneId in registry && Some(registry[phoneId]) == bs[i].adapters[k].runtime
  }

  lemma ServesNextAdapter<R>(bs: seq<Business<R>>, n: nat, m: nat, phoneId: string, registry: map<string, R>)
    requires n < |bs| && bs[n].load.Loaded? && bs[n].enabled && m < |bs[n].adapters|
    requires Serves(bs, n, m, phoneId, registry)
    ensures Serves(bs, n, m + 1, phoneId, AfterAdapter(registry, bs[n].adapters[m]))
  {
    var registry' := AfterAdapter(registry, bs[n].adapters[m]);
    assert forall i: nat, k: nat :: Earlier(i, k, n, m + 1) <==> Earlier(i, k, n, m) || (i == n && k == m);
    assert ClaimedBefore(bs, n, m + 1, phoneId) <==> ClaimedBefore(bs, n, m, phoneId) || Claims(bs, n, m, phoneId);
    assert ClaimsFirst(bs, n, m, phoneId) ==> !ClaimedBefore(bs, n, m, phoneId);
  }

  // The registry after the first `m` adapters of Business `n`.
  lemma {:induction false} ServesWithin<R>(bs: seq<Business<R>>, n: nat, m: nat, phoneId: string,
                                           earlier: seq<Candidate<R>>)
    requires n < |bs| && bs[n].load.Loaded? && bs[n].enabled && m <= |bs[n].adapters|
    requires Serves(bs, n, 0, phoneId, RegistryOf(earlier))
    ensures Serves(bs, n, m, phoneId, RegistryOf(earlier + AdapterCandidates(bs[n].adapters[..m])))
  {
    if m == 0 {
      assert earlier + [] == earlier;
    } else {
      ServesWithin(bs, n, m - 1, phoneId, earlier);
      AdapterStep(earlier, bs[n].adapters, m - 1);
      ServesNextAdapter(bs, n, m - 1, phoneId, RegistryOf(earlier + AdapterCandidates(bs[n].adapters[..m - 1])));
    }
  }

  // Behind its last adapter, or when it counts for nothing, the next Business begins.
  lemma ServesNextBusiness<R>(bs: seq<Business<R>>, n: nat, m: nat, phoneId: string, registry: map<string, R>)
    requires n < |bs| && Serves(bs, n, m, phoneId, registry)
    requires bs[n].load.Loaded? && bs[n].enabled ==> m == |bs[n].adapters|
    ensures Serves(bs, n + 1, 0, phoneId, registry)
  {
    forall i: nat, k: nat | Claims(bs, i, k, phoneId) ensures Earlier(i, k, n + 1, 0) <==> Earlier(i, k, n, m) {
    }
  }

  lemma {:induction false} ServesAfter<R>(bs: seq<Business<R>>, n: nat, phoneId: string)
    requires n <= |bs|
    ensures Serves(bs, n, 0, phoneId, RegistryOf(Candidates(bs[..n])))
  {
    if n > 0 {
      var b, earlier := bs[n - 1], Candidates(bs[..n - 1]);
      ServesAfter(bs, n - 1, phoneId);
      BusinessStep(bs, n - 1);
      if b.load.Loaded? && b.enabled {
        ServesWithin(bs, n - 1, |b.adapters|, phoneId, earlier);
        assert b.adapters[..|b.adapters|] == b.adapters;
        ServesNextBusiness(bs, n - 1, |b.adapters|, phoneId, RegistryOf(earlier + OwnCandidates(b)));
      } else {
        ServesNextBusiness(bs, n - 1, 0, phoneId, RegistryOf(earlier));
      }
    }
  }

  // A phone id is served exactly when an enabled WhatsApp adapter of an enabled Business claims it with a runtime, and
  // by the first that does, in Business then adapter order.
  lemma ServedExactly<R>(bs: seq<Business<R>>, phoneId: string)
    requires forall i :: 0 <= i < |bs| ==> bs[i].load != Raises
    ensures Scanned(bs).Some?
    ensures phoneId in Scanned(bs).value <==> exists i: nat, k: nat :: Claims(bs, i, k, phoneId)
    ensures forall i: nat, k: nat :: ClaimsFirst(bs, i, k, phoneId) ==>
              phoneId in Scanned(bs).value && Some(Scanned(bs).value[phoneId]) == bs[i].adapters[k].runtime
  {
    ServesAfter(bs, |bs|, phoneId);
    assert bs[..|bs|] == bs;
    assert forall i: nat, k: nat :: Claims(bs, i, k, phoneId) ==> Earlier(i, k, |bs|, 0);
  }

  /* ---------- A broken Business ---------- */

  lemma Associative<T>(x: seq<T>, y: seq<T>, z: seq<T>)
    ensures x + y + z == x + (y + z)
  {
  }

  lemma CandidatesSnoc<R>(before: seq<Business<R>>, last: Business<R>)
    ensures Candidates(before + [last]) == Candidates(before) + Candidates([last])
  {
    assert (before + [last])[..|before|] == before;
    assert [last][..0] == [];
  }

  lemma {:induction false} CandidatesConcat<R>(a: seq<Business<R>>, b: seq<Business<R>>)
    ensures Candidates(a + b) == Candidates(a) + Candidates(b)
  {
    if b == [] {
      assert a + b == a;
    } else {
      var before, last := b[..|b| - 1], b[|b| - 1];
      CandidatesConcat(a, before);
      CandidatesSnoc(a + before, last);
      CandidatesSnoc(before, last);
      assert b == before + [last];
      Associative(a, before, [last]);
      Associative(Candidates(a), Candidates(before), Candidates([last]));
    }
  }

  // A Business that does not load, is disabled, or whose every adapter is disabled, nameless or unloadable
  // contributes nothing.
  predicate Broken<R>(b: Business<R>) {
    !b.load.Loaded? || !b.enabled || forall i :: 0 <= i < |b.adapters| ==> !Eligible(b.adapters[i])
  }

  lemma {:induction false} BrokenHasNoCandidates<R>(adapters: seq<Adapter<R>>)
    requires forall i :: 0 <= i < |adapters| ==> !Eligible(adapters[i])
    ensures AdapterCandidates(adapters) == []
  {
    if adapters != [] { BrokenHasNoCandidates(adapters[..|adapters| - 1]); }
  }

  lemma BrokenContributesNothing<R>(a: seq<Business<R>>, broken: Business<R>, b: seq<Business<R>>)
    requires Broken(broken)
    ensures Candidates(a + [broken] + b) == Candidates(a + b)
  {
    if broken.load.Loaded? && broken.enabled { BrokenHasNoCandidates(broken.adapters); }
    CandidatesConcat(a + [broken], b);
    CandidatesConcat(a, [broken]);
    CandidatesConcat(a, b);
    assert [broken][..0] == [];
    assert Candidates([broken]) == [] + OwnCandidates(broken) == [];
    assert Candidates(a) + [] == Candidates(a);
  }

  lemma RaisesConcat<R>(a: seq<Business<R>>, b: seq<Business<R>>)
    ensures AnyRaises(a + b) <==> AnyRaises(a) || AnyRaises(b)
  {
    var all := a + b;
    if i :| 0 <= i < |a| && a[i].load.Raises? { assert all[i].load.Raises?; }
    if i :| 0 <= i < |b| && b[i].load.Raises? { assert all[|a| + i].load.Raises?; }
    if i :| 0 <= i < |all| && all[i].load.Raises? {
      assert if i < |a| then a[i].load.Raises? else b[i - |a|].load.Raises?;
    }
  }

  lemma RaisesSomewhere<R>(a: seq<Business<R>>, x: Business<R>, b: seq<Business<R>>)
    ensures AnyRaises(a + [x] + b) <==> AnyRaises(a + b) || x.load.Raises?
  {
    RaisesConcat(a + [x], b);
    RaisesConcat(a, [x]);
    RaisesConcat(a, b);
    assert AnyRaises([x]) <==> x.load.Raises? by { assert [x][0] == x; }
  }

  // It can be inserted anywhere, or removed, without any other Business noticing, exactly when loading it raises
  // nothing but the config error - or the scan fails without it as well.
  lemma BrokenBusinessIsIsolated<R>(a: seq<Business<R>>, broken: Business<R>, b: seq<Business<R>>)
    requires Broken(broken)
    ensures Scanned(a + [broken] + b) == Scanned(a + b) <==> !broken.load.Raises? || AnyRaises(a + b)
  {
    BrokenContributesNothing(a, broken, b);
    RaisesSomewhere(a, broken, b);
  }

  // One file that cannot be decoded leaves every Business without a runtime.
  lemma UndecodableFileStopsTheScan<R>(a: seq<Business<R>>, b: seq<Business<R>>)
    ensures Scanned(a + [Business(Raises, true, [])] + b) == None
  {
    RaisesSomewhere(a, Business(Raises, true, []), b);
  }
}
