// Message-id dedupe with lazy eviction from the front of an insertion-ordered
// dictionary (interface_layer/dedupe.py), and the accepted-delivery log it answers for.
module Dedupe {
  // One dictionary entry; the dictionary is the sequence of its entries in insertion order.
  datatype Entry = Entry(id: string, stamp: real)

  predicate Holds(seen: seq<Entry>, id: string) {
    exists i :: 0 <= i < |seen| && seen[i].id == id
  }

  predicate DistinctIds(seen: seq<Entry>) {
    forall i, j :: 0 <= i < j < |seen| ==> seen[i].id != seen[j].id
  }

  /* ---------- One call ---------- */

  function Evicted(seen: seq<Entry>, cutoff: real): seq<Entry> {
    if seen == [] || seen[0].stamp >= cutoff then seen else Evicted(seen[1..], cutoff)
  }

  // Eviction drops the longest prefix of entries older than the cutoff.
  lemma {:induction false} EvictedIsSuffix(seen: seq<Entry>, cutoff: real) returns (n: nat)
    ensures n <= |seen| && Evicted(seen, cutoff) == seen[n..]
    ensures forall i :: 0 <= i < n ==> seen[i].stamp < cutoff
    ensures n < |seen| ==> seen[n].stamp >= cutoff
  {
    if seen == [] || seen[0].stamp >= cutoff {
      n := 0;
    } else {
      var m := EvictedIsSuffix(seen[1..], cutoff);
      n := m + 1;
    }
  }

  predicate IsDup(ttl: real, seen: seq<Entry>, e: Entry) {
    Holds(Evicted(seen, e.stamp - ttl), e.id)
  }

  function After(ttl: real, seen: seq<Entry>, e: Entry): seq<Entry> {
    var left := Evicted(seen, e.stamp - ttl);
    if Holds(left, e.id) then left else left + [e]
  }

  class InMemoryDedupeStore {
    const ttlSeconds: real
    var seen: seq<Entry>

    constructor (ttlSeconds: real)
      ensures this.ttlSeconds == ttlSeconds && seen == []
    {
      this.ttlSeconds := ttlSeconds;
      seen := [];
    }

    predicate Valid()
      reads this
    {
      DistinctIds(seen)
    }

    method IsDuplicate(id: string, now: real) returns (duplicate: bool)
      requires Valid()
      modifies this
      ensures Valid()
      ensures duplicate == IsDup(ttlSeconds, old(seen), Entry(id, now))
      ensures seen == After(ttlSeconds, old(seen), Entry(id, now))
    {
      EvictExpired(now);
      if Holds(seen, id) {
        return true;
      }
      seen := seen + [Entry(id, now)];
      return false;
    }

    method EvictExpired(now: real)
      requires Valid()
      modifies this
      ensures Valid()
      ensures seen == Evicted(old(seen), now - ttlSeconds)
    {
      var cutoff := now - ttlSeconds;
      while seen != []
        invariant Evicted(seen, cutoff) == Evicted(old(seen), cutoff)
        invariant DistinctIds(seen)
        decreases |seen|
      {
        if seen[0].stamp >= cutoff {
          break;
        }
        assert forall i :: 0 < i < |seen| ==> seen[i].id != seen[0].id;
        seen := seen[1..];
      }
    }
  }

  /* ---------- Runs ---------- */

  function Run(ttl: real, calls: seq<Entry>): seq<Entry> {
    if calls == [] then []
    else After(ttl, Run(ttl, calls[..|calls| - 1]), calls[|calls| - 1])
  }

  // Was call number `n` answered "not a duplicate"?
  predicate Fresh(ttl: real, calls: seq<Entry>, n: nat)
    requires n < |calls|
  {
    !IsDup(ttl, Run(ttl, calls[..n]), calls[n])
  }

  predicate Sorted(calls: seq<Entry>) {
    forall i, j :: 0 <= i < j < |calls| ==> calls[i].stamp <= calls[j].stamp
  }

  /* ---------- Any clock ---------- */

  lemma PrefixStep(ttl: real, calls: seq<Entry>, n: nat)
    requires n < |calls|
    ensures Run(ttl, calls[..n + 1]) == After(ttl, Run(ttl, calls[..n]), calls[n])
  {
    assert calls[..n + 1][..n] == calls[..n];
  }

  lemma AfterKeeps(ttl: real, seen: seq<Entry>, e: Entry, kept: Entry)
    requires kept in seen && kept.stamp >= e.stamp - ttl
    ensures kept in After(ttl, seen, e)
    ensures kept.id == e.id ==> IsDup(ttl, seen, e)
  {
    var n := EvictedIsSuffix(seen, e.stamp - ttl);
    var i :| 0 <= i < |seen| && seen[i] == kept;
    assert seen[n..][i - n] == kept;
  }

  // While no reading exceeds the stamp of an accepted delivery by more than the time-to-live,
  // the delivery stays in the dictionary.
  lemma {:induction false} StaysUntilExpired(ttl: real, calls: seq<Entry>, i: nat, n: nat)
    requires i < n <= |calls|
    requires Fresh(ttl, calls, i)
    requires forall k :: i < k < n ==> calls[k].stamp - calls[i].stamp <= ttl
    ensures calls[i] in Run(ttl, calls[..n])
    decreases n
  {
    hide Holds;
    PrefixStep(ttl, calls, n - 1);
    if n == i + 1 {
      var left := Evicted(Run(ttl, calls[..i]), calls[i].stamp - ttl);
      assert (left + [calls[i]])[|left|] == calls[i];
    } else {
      StaysUntilExpired(ttl, calls, i, n - 1);
      AfterKeeps(ttl, Run(ttl, calls[..n - 1]), calls[n - 1], calls[i]);
    }
  }

  // Whatever the clock does, an accepted id is reported fresh again only after some reading
  // exceeds its stamp by more than the time-to-live.
  lemma FreshAgainOnlyAfterTtl(ttl: real, calls: seq<Entry>, i: nat, j: nat)
    requires i < j < |calls| && calls[i].id == calls[j].id
    requires Fresh(ttl, calls, i) && Fresh(ttl, calls, j)
    ensures exists k :: i < k <= j && calls[k].stamp - calls[i].stamp > ttl
  {
    if forall k :: i < k <= j ==> calls[k].stamp - calls[i].stamp <= ttl {
      StaysUntilExpired(ttl, calls, i, j);
      AfterKeeps(ttl, Run(ttl, calls[..j]), calls[j], calls[i]);
    }
  }

  /* ---------- A clock that never goes back ---------- */

  // `e` is one of the first `n` calls and was accepted.
  ghost predicate AcceptedBefore(ttl: real, calls: seq<Entry>, n: nat, e: Entry)
    requires n <= |calls|
  {
    exists i :: 0 <= i < n && calls[i] == e && Fresh(ttl, calls, i)
  }

  // The dictionary is sorted, holds only accepted deliveries, and has dropped only those
  // older than the time-to-live.
  ghost predicate Ordered(seen: seq<Entry>, now: real) {
    Sorted(seen) && DistinctIds(seen) && forall i :: 0 <= i < |seen| ==> seen[i].stamp <= now
  }

  ghost predicate OnlyAccepted(ttl: real, calls: seq<Entry>, n: nat, seen: seq<Entry>)
    requires n <= |calls|
  {
    forall e :: e in seen ==> AcceptedBefore(ttl, calls, n, e)
  }

  ghost predicate DropsOnlyExpired(ttl: real, calls: seq<Entry>, n: nat, seen: seq<Entry>, now: real)
    requires n <= |calls|
  {
    forall e :: AcceptedBefore(ttl, calls, n, e) ==> e in seen || e.stamp < now - ttl
  }

  lemma AfterIsOrdered(ttl: real, seen: seq<Entry>, e: Entry)
    requires Ordered(seen, e.stamp)
    ensures Ordered(After(ttl, seen, e), e.stamp)
  {
    var n := EvictedIsSuffix(seen, e.stamp - ttl);
  }

  lemma AfterAddsOnly(ttl: real, seen: seq<Entry>, e: Entry, x: Entry)
    requires x in After(ttl, seen, e)
    ensures x in seen || (x == e && !IsDup(ttl, seen, e))
  {
    var n := EvictedIsSuffix(seen, e.stamp - ttl);
  }

  lemma AcceptedBeforeStep(ttl: real, calls: seq<Entry>, n: nat, e: Entry)
    requires n < |calls|
    ensures AcceptedBefore(ttl, calls, n + 1, e) <==>
            AcceptedBefore(ttl, calls, n, e) || (e == calls[n] && Fresh(ttl, calls, n))
  {
    if AcceptedBefore(ttl, calls, n, e) {
      var i :| 0 <= i < n && calls[i] == e && Fresh(ttl, calls, i);
      assert 0 <= i < n + 1;
    }
  }

  lemma AfterHasNew(ttl: real, seen: seq<Entry>, e: Entry)
    requires !IsDup(ttl, seen, e)
    ensures e in After(ttl, seen, e)
  {
    var left := Evicted(seen, e.stamp - ttl);
    assert (left + [e])[|left|] == e;
  }

  lemma TracksStep(ttl: real, calls: seq<Entry>, n: nat, seen: seq<Entry>, t: real)
    requires n < |calls| && seen == Run(ttl, calls[..n]) && t <= calls[n].stamp
    requires OnlyAccepted(ttl, calls, n, seen) && DropsOnlyExpired(ttl, calls, n, seen, t)
    ensures OnlyAccepted(ttl, calls, n + 1, After(ttl, seen, calls[n]))
    ensures DropsOnlyExpired(ttl, calls, n + 1, After(ttl, seen, calls[n]), calls[n].stamp)
  {
    var e := calls[n];
    forall x | x in After(ttl, seen, e)
      ensures AcceptedBefore(ttl, calls, n + 1, x)
    {
      AfterAddsOnly(ttl, seen, e, x);
      AcceptedBeforeStep(ttl, calls, n, x);
    }
    forall x | AcceptedBefore(ttl, calls, n + 1, x)
      ensures x in After(ttl, seen, e) || x.stamp < e.stamp - ttl
    {
      AcceptedBeforeStep(ttl, calls, n, x);
      if AcceptedBefore(ttl, calls, n, x) {
        if x in seen && x.stamp >= e.stamp - ttl {
          AfterKeeps(ttl, seen, e, x);
        }
      } else {
        AfterHasNew(ttl, seen, e);
      }
    }
  }

  // The reading of call number `n - 1`, or `first` before any call.
  function Latest(calls: seq<Entry>, n: nat, first: real): real
    requires n <= |calls|
  {
    if n == 0 then first else calls[n - 1].stamp
  }

  lemma {:induction false} RunTracks(ttl: real, calls: seq<Entry>, n: nat, first: real)
    requires Sorted(calls) && n <= |calls|
    ensures Ordered(Run(ttl, calls[..n]), Latest(calls, n, first))
    ensures OnlyAccepted(ttl, calls, n, Run(ttl, calls[..n]))
    ensures DropsOnlyExpired(ttl, calls, n, Run(ttl, calls[..n]), Latest(calls, n, first))
  {
    if n > 0 {
      var e, seen := calls[n - 1], Run(ttl, calls[..n - 1]);
      RunTracks(ttl, calls, n - 1, e.stamp);
      PrefixStep(ttl, calls, n - 1);
      AfterIsOrdered(ttl, seen, e);
      TracksStep(ttl, calls, n - 1, seen, Latest(calls, n - 1, e.stamp));
    }
  }

  // With a clock that never goes back the dictionary stays sorted by stamp, and the answer is
  // "duplicate" exactly when the id was accepted at or after now minus the time-to-live.
  lemma DuplicateExactlyWithinTtl(ttl: real, calls: seq<Entry>, n: nat)
    requires Sorted(calls) && n < |calls|
    ensures Sorted(Run(ttl, calls[..n])) && DistinctIds(Run(ttl, calls[..n]))
    ensures !Fresh(ttl, calls, n) <==>
            exists e :: AcceptedBefore(ttl, calls, n, e) && e.id == calls[n].id && e.stamp >= calls[n].stamp - ttl
  {
    var seen, now := Run(ttl, calls[..n]), calls[n];
    RunTracks(ttl, calls, n, now.stamp);
    if !Fresh(ttl, calls, n) {
      var e := DupWitness(ttl, seen, now);
      assert AcceptedBefore(ttl, calls, n, e);
    }
    if e :| AcceptedBefore(ttl, calls, n, e) && e.id == now.id && e.stamp >= now.stamp - ttl {
      AfterKeeps(ttl, seen, now, e);
    }
  }

  lemma DupWitness(ttl: real, seen: seq<Entry>, now: Entry) returns (e: Entry)
    requires Sorted(seen) && IsDup(ttl, seen, now)
    ensures e in seen && e.id == now.id && e.stamp >= now.stamp - ttl
  {
    var k := EvictedIsSuffix(seen, now.stamp - ttl);
    var i :| 0 <= i < |seen[k..]| && seen[k..][i].id == now.id;
    e := seen[k + i];
    assert k < |seen| && seen[k].stamp <= e.stamp;
  }
}
