/** A cluster of independent towers over one mempool: registration, going offline and online,
    and the totals. */
module Cluster {
  import opened Ledger
  import opened Accounting
  import opened Validation
  import opened Pool
  import opened Cascade
  import opened Cover
  import opened Lifecycle
  import opened Channels
  import opened Watch

  /** `BadIndex` also stands for the language's own index error. */
  datatype ClusterError = LengthMismatch | BadIndex | Refused(why: LifecycleError)

  /** Where a watcher is paid, and how much for each intervention. */
  datatype WatcherSpec = WatcherSpec(payout: Script, fee: int)

  // ---------- lists of watchers ----------

  /** The sequence without the members of a set, in the same order. */
  function Excluding<T(==)>(s: seq<T>, gone: set<T>): (r: seq<T>)
    ensures SetOf(r) == SetOf(s) - gone
  {
    if s == [] then []
    else
      var n := |s| - 1;
      var front, last := Excluding(s[..n], gone), if s[n] in gone then [] else [s[n]];
      assert s == s[..n] + [s[n]];
      SetOfAppend(s[..n], [s[n]]);
      SetOfAppend(front, last);
      front + last
  }

  lemma {:induction false} ExcludingTwice<T>(s: seq<T>, a: set<T>, b: set<T>)
    ensures Excluding(Excluding(s, a), b) == Excluding(s, a + b)
  {
    if s != [] {
      var n := |s| - 1;
      ExcludingTwice(s[..n], a, b);
      var front := Excluding(s[..n], a);
      if s[n] !in a {
        assert Excluding(s, a)[..|front|] == front && Excluding(s, a)[|front|] == s[n];
      } else {
        assert Excluding(s, a) == front;
      }
    }
  }

  lemma {:induction false} ExcludingKeepsDistinct<T>(s: seq<T>, gone: set<T>)
    requires NoRepeats(s)
    ensures NoRepeats(Excluding(s, gone))
  {
    if s != [] {
      var n := |s| - 1;
      ExcludingKeepsDistinct(s[..n], gone);
      assert s[n] !in SetOf(s[..n]);
      assert s[n] !in SetOf(Excluding(s[..n], gone));
    }
  }

  lemma {:induction false} ExcludingOne<T>(s: seq<T>, x: T, i: nat)
    requires NoRepeats(s) && i < |s| && s[i] == x
    ensures Excluding(s, {x}) == s[..i] + s[i + 1..]
  {
    var n := |s| - 1;
    if i == n {
      ExcludingNone(s[..n], {x});
    } else {
      ExcludingOne(s[..n], x, i);
      assert s[..n][..i] + s[..n][i + 1..] + [s[n]] == s[..i] + s[i + 1..];
    }
  }

  lemma {:induction false} ExcludingNone<T>(s: seq<T>, gone: set<T>)
    requires SetOf(s) !! gone
    ensures Excluding(s, gone) == s
  {
    if s != [] {
      var n := |s| - 1;
      assert s[n] in SetOf(s) && s[n] in s;
      assert forall x :: x in SetOf(s[..n]) ==> x in SetOf(s);
      ExcludingNone(s[..n], gone);
    }
  }

  /** The sequence with new members appended in order; those already there keep their place. */
  function Joined<T(==)>(s: seq<T>, more: seq<T>): (r: seq<T>)
    ensures s <= r && SetOf(r) == SetOf(s) + SetOf(more)
    ensures NoRepeats(s) ==> NoRepeats(r)
  {
    if more == [] then s
    else
      var n := |more| - 1;
      var front := Joined(s, more[..n]);
      assert more == more[..n] + [more[n]];
      SetOfAppend(more[..n], [more[n]]);
      SetOfAppend(front, [more[n]]);
      if more[n] in front then front else front + [more[n]]
  }

  /** How many leading numbers lie from `lo` below `hi`. */
  function Leading(s: seq<int>, lo: int, hi: int): (n: nat)
    ensures n <= |s| && forall k :: 0 <= k < n ==> lo <= s[k] < hi
    ensures n < |s| ==> !(lo <= s[n] < hi)
  {
    if s == [] || !(lo <= s[0] < hi) then 0
    else
      var n := Leading(s[1..], lo, hi);
      assert forall k :: 1 <= k < n + 1 ==> s[k] == s[1..][k - 1];
      n + 1
  }

  lemma {:induction false} LeadingIs(s: seq<int>, lo: int, hi: int, n: nat)
    requires n <= |s| && forall k :: 0 <= k < n ==> lo <= s[k] < hi
    requires n < |s| ==> !(lo <= s[n] < hi)
    ensures Leading(s, lo, hi) == n
  {
    if n > 0 {
      assert forall k :: 0 <= k < |s| - 1 ==> s[1..][k] == s[k + 1];
      LeadingIs(s[1..], lo, hi, n - 1);
    }
  }

  lemma JoinedStep<T>(s: seq<T>, more: seq<T>, x: T)
    ensures var front := Joined(s, more);
            Joined(s, more + [x]) == if x in front then front else front + [x]
  {
    assert (more + [x])[..|more|] == more;
  }

  /** If exactly the chosen members of a list gain one each, the total gains their number. */
  lemma {:induction false} TotalGains<T>(s: seq<T>, chosen: set<T>, a: seq<nat>, b: seq<nat>)
    requires NoRepeats(s) && chosen <= SetOf(s) && |a| == |b| == |s|
    requires forall i :: 0 <= i < |s| ==> b[i] == a[i] + if s[i] in chosen then 1 else 0
    ensures Total(b) == Total(a) + |chosen|
  {
    if s == [] {
      assert chosen == {};
    } else {
      hide SetOf, NoRepeats;
      var n := |s| - 1;
      Peeled(s, chosen);
      FrontGains(s, chosen, a, b);
      TotalGains(s[..n], chosen - {s[n]}, a[..n], b[..n]);
      assert b[n] == a[n] + if s[n] in chosen then 1 else 0;
    }
  }

  lemma FrontGains<T>(s: seq<T>, chosen: set<T>, a: seq<nat>, b: seq<nat>)
    requires s != [] && NoRepeats(s) && |a| == |b| == |s|
    requires forall i :: 0 <= i < |s| ==> b[i] == a[i] + if s[i] in chosen then 1 else 0
    ensures var n := |s| - 1;
            && NoRepeats(s[..n])
            && forall i :: 0 <= i < n ==> b[..n][i] == a[..n][i] + if s[..n][i] in chosen - {s[n]} then 1 else 0
  {
    assert forall i :: 0 <= i < |s| - 1 ==> s[i] != s[|s| - 1];
  }

  lemma Peeled<T>(s: seq<T>, chosen: set<T>)
    requires s != [] && chosen <= SetOf(s)
    ensures var last, rest := s[|s| - 1], chosen - {s[|s| - 1]};
            && rest <= SetOf(s[..|s| - 1])
            && |chosen| == |rest| + if last in chosen then 1 else 0
  {
    var n := |s| - 1;
    assert s == s[..n] + [s[n]];
    SetOfAppend(s[..n], [s[n]]);
    if s[n] in chosen { assert chosen == (chosen - {s[n]}) + {s[n]}; } else { assert chosen == chosen - {s[n]}; }
  }

  /** If every observer gains the same, 0 or 1, and no one else anything, so much more in total. */
  lemma ObserversGain<T>(ws: seq<T>, obs: seq<T>, a: seq<nat>, b: seq<nat>, before: seq<nat>, after: seq<nat>,
                         gain: nat)
    requires NoRepeats(ws) && NoRepeats(obs) && SetOf(obs) <= SetOf(ws) && gain <= 1
    requires |a| == |b| == |ws| && |before| == |after| == |obs|
    requires forall i, k :: 0 <= i < |ws| && 0 <= k < |obs| && ws[i] == obs[k] ==> a[i] == before[k] && b[i] == after[k]
    requires forall i :: 0 <= i < |ws| && ws[i] !in obs ==> b[i] == a[i]
    requires forall k :: 0 <= k < |obs| ==> after[k] == before[k] + gain
    ensures Total(b) == Total(a) + gain * |obs|
  {
    SizeOfSet(obs);
    var chosen := if gain == 1 then SetOf(obs) else {};
    forall i | 0 <= i < |ws| ensures b[i] == a[i] + if ws[i] in chosen then 1 else 0 {
      if ws[i] in obs {
        var k :| 0 <= k < |obs| && obs[k] == ws[i];
        assert after[k] == before[k] + gain;
      }
    }
    TotalGains(ws, chosen, a, b);
  }

  // ---------- what is registered ----------

  /** The pre-signed forfeits of one watcher: each offender's bond, its own script and fee. */
  function Forfeits(t: Terms, signer: Signer, verify: Interpreter, confirmed: bool, spec: WatcherSpec,
                    offenders: seq<int>): Result<map<nat, Tx>, LifecycleError>
    requires ValidTerms(t)
  {
    if offenders == [] then Ok(map[])
    else
      var n := |offenders| - 1;
      var front := Forfeits(t, signer, verify, confirmed, spec, offenders[..n]);
      if front.Err? then front
      else
        var tx := SignedForfeit(t, signer, verify, confirmed, offenders[n], Some(spec.payout), spec.fee);
        if tx.Err? then Err(tx.error) else Ok(front.value[offenders[n] := tx.value])
  }

  /** What a watcher holds is just what was asked for: for each offender the channel's signed
      forfeit of that bond, paying the watcher's own script its own fee. */
  lemma {:induction false} ForfeitsAreOwn(t: Terms, signer: Signer, verify: Interpreter, confirmed: bool,
                                          spec: WatcherSpec, offenders: seq<int>)
    requires ValidTerms(t)
    ensures var r := Forfeits(t, signer, verify, confirmed, spec, offenders);
            && (r.Ok? <==> (forall o :: o in offenders ==>
                 SignedForfeit(t, signer, verify, confirmed, o, Some(spec.payout), spec.fee).Ok?))
            && (r.Ok? ==> (forall o: nat :: o in r.value <==> o in offenders))
            && (r.Ok? ==> (forall o: nat :: o in r.value ==>
                 SignedForfeit(t, signer, verify, confirmed, o, Some(spec.payout), spec.fee) == Ok(r.value[o])))
  {
    hide SignedForfeit;
    if offenders != [] {
      var n := |offenders| - 1;
      ForfeitsAreOwn(t, signer, verify, confirmed, spec, offenders[..n]);
      assert offenders == offenders[..n] + [offenders[n]];
      OffendersAreNatural(t, signer, verify, confirmed, offenders[n], Some(spec.payout), spec.fee);
    }
  }

  lemma OffendersAreNatural(t: Terms, signer: Signer, verify: Interpreter, confirmed: bool, offender: int,
                            tower: Option<Script>, fee: int)
    requires ValidTerms(t)
    ensures SignedForfeit(t, signer, verify, confirmed, offender, tower, fee).Ok? ==> offender >= 0
  {
  }

  /** A signed state spends the funding output alone, under the sequence number of its version. */
  lemma SignedStateIsState(t: Terms, signer: Signer, confirmed: bool, s: State)
    requires ValidTerms(t)
    ensures var r := SignedState(t, signer, confirmed, s);
            r.Ok? ==>
              IsState(r.value, t.funding) && r.value.inputs[0].sequence == START_SEQUENCE + s.version
  {
    hide Quantise, Payments;
  }

  /** How many watchers are served before the first one whose forfeits are refused. */
  function Served(t: Terms, signer: Signer, verify: Interpreter, confirmed: bool, specs: seq<WatcherSpec>,
                  offenders: seq<int>): (n: nat)
    requires ValidTerms(t)
    ensures n <= |specs|
    ensures forall k :: 0 <= k < n ==> Forfeits(t, signer, verify, confirmed, specs[k], offenders).Ok?
    ensures n < |specs| ==> Forfeits(t, signer, verify, confirmed, specs[n], offenders).Err?
  {
    if specs == [] || Forfeits(t, signer, verify, confirmed, specs[0], offenders).Err? then 0
    else
      var n := Served(t, signer, verify, confirmed, specs[1..], offenders);
      assert forall k :: 1 <= k < n + 1 ==> specs[k] == specs[1..][k - 1];
      n + 1
  }

  lemma {:induction false} ServedIs(t: Terms, signer: Signer, verify: Interpreter, confirmed: bool,
                                    specs: seq<WatcherSpec>, offenders: seq<int>, n: nat)
    requires ValidTerms(t) && n <= |specs|
    requires forall k :: 0 <= k < n ==> Forfeits(t, signer, verify, confirmed, specs[k], offenders).Ok?
    requires n < |specs| ==> Forfeits(t, signer, verify, confirmed, specs[n], offenders).Err?
    ensures Served(t, signer, verify, confirmed, specs, offenders) == n
  {
    hide Forfeits;
    if n > 0 {
      assert forall k :: 0 <= k < |specs| - 1 ==> specs[1..][k] == specs[k + 1];
      ServedIs(t, signer, verify, confirmed, specs[1..], offenders, n - 1);
    }
  }

  /** The first refused forfeit decides. */
  lemma {:induction false} ForfeitsStop(t: Terms, signer: Signer, verify: Interpreter, confirmed: bool,
                                        spec: WatcherSpec, offenders: seq<int>, k: nat)
    requires ValidTerms(t) && k <= |offenders|
    requires Forfeits(t, signer, verify, confirmed, spec, offenders[..k]).Err?
    ensures Forfeits(t, signer, verify, confirmed, spec, offenders)
         == Forfeits(t, signer, verify, confirmed, spec, offenders[..k])
  {
    if k < |offenders| {
      var n := |offenders| - 1;
      assert offenders[..n][..k] == offenders[..k];
      ForfeitsStop(t, signer, verify, confirmed, spec, offenders[..n], k);
    } else {
      assert offenders[..k] == offenders;
    }
  }

  lemma CountsDoNotMatter(s: PoolState, t: PoolState)
    requires s.entries == t.entries && s.spentBy == t.spentBy
    ensures Indexed(s) ==> Indexed(t)
  {
    assert forall o, id :: (Holds(t, o, id) <==> Holds(s, o, id)) && (Spends(t, id, o) <==> Spends(s, id, o));
  }

  class WatchCluster {
    const mempool: Mempool
    var watchers: seq<Tower>

    ghost predicate Valid()
      reads this, mempool, mempool.observers
    {
      && NoRepeats(watchers) && NoRepeats(mempool.observers)
      && (forall w :: w in watchers ==> w.mempool == mempool)
    }

    /** Records are well formed, and only watchers of this cluster observe the mempool. */
    ghost predicate Ready()
      reads this, mempool, mempool.observers, watchers
    {
      && Valid() && mempool.Wired() && SetOf(mempool.observers) <= SetOf(watchers)
      && (forall w :: w in watchers ==> WellFormedRegistry(w.registry))
    }

    lemma WiredMeans()
      ensures mempool.Wired() <==>
                && NoRepeats(mempool.observers) && Indexed(mempool.State())
                && (forall w :: w in mempool.observers ==> w.mempool == mempool && WellFormedRegistry(w.registry))
    {
      var obs := mempool.observers;
      assert forall i :: 0 <= i < |obs| ==> Registries(obs)[i] == obs[i].registry;
      assert forall i :: 0 <= i < |obs| ==> obs[i] in obs;
    }

    /** The watcher with this index; negative ones count from the end. */
    function At(i: int): Tower
      requires -|watchers| <= i < |watchers|
      reads this
    {
      if i < 0 then watchers[i + |watchers|] else watchers[i]
    }

    function Named(indices: seq<int>): (named: seq<Tower>)
      requires forall k :: 0 <= k < |indices| ==> -|watchers| <= indices[k] < |watchers|
      reads this
      ensures forall w :: w in named ==> w in watchers
    {
      if indices == [] then []
      else Named(indices[..|indices| - 1]) + [At(indices[|indices| - 1])]
    }

    /** One watcher is named for each index, in order: from the front, or from the end if negative. */
    lemma {:induction false} NamedAre(indices: seq<int>, k: nat)
      requires forall j :: 0 <= j < |indices| ==> -|watchers| <= indices[j] < |watchers|
      ensures |Named(indices)| == |indices|
      ensures k < |indices| ==>
                Named(indices)[k] == if indices[k] >= 0 then watchers[indices[k]] else watchers[|watchers| + indices[k]]
      decreases |indices|
    {
      if indices != [] { NamedAre(indices[..|indices| - 1], k); }
    }

    constructor (mempool: Mempool, watchers: seq<Tower>)
      ensures this.mempool == mempool && this.watchers == watchers
    {
      this.mempool, this.watchers := mempool, watchers;
    }

    /** Gives every watcher the channel's current state, signed, and its own forfeits. Stops at the
        first forfeit that is refused; the watchers before it stay registered. */
    method RegisterChannel(ch: Channel, specs: seq<WatcherSpec>, offenders: seq<int>)
        returns (r: Result<(), ClusterError>)
      requires Valid() && ch.Valid()
      modifies (set w | w in watchers)`registry
      ensures Valid() && (old(Ready()) ==> Ready())
      ensures var current := SignedState(ch.terms, ch.signer, ch.confirmed, ch.state);
              var n := Served(ch.terms, ch.signer, ch.verify, ch.confirmed, specs, offenders);
              && r == (if |specs| != |watchers| then Err(LengthMismatch)
                       else if current.Err? then Err(Refused(current.error))
                       else if n < |specs| then Err(Refused(
                         Forfeits(ch.terms, ch.signer, ch.verify, ch.confirmed, specs[n], offenders).error))
                       else Ok(()))
              && forall i :: 0 <= i < |watchers| ==>
                   watchers[i].registry ==
                     if |specs| == |watchers| && current.Ok? && i < n
                     then old(watchers[i].registry)[ch.terms.funding := WatchRecord(current.value,
                       Forfeits(ch.terms, ch.signer, ch.verify, ch.confirmed, specs[i], offenders).value)]
                     else old(watchers[i].registry)
    {
      hide Forfeits, SignedState, SignedForfeit, IsState, Served, Ready, ValidTerms;
      if |specs| != |watchers| { return Err(LengthMismatch); }
      ghost var t, confirmed := ch.terms, ch.confirmed;
      SignedStateIsState(t, ch.signer, confirmed, ch.state);
      var current := ch.SignStateTx(ch.state);
      if current.Err? { return Err(Refused(current.error)); }
      for i := 0 to |watchers|
        invariant Valid() && (old(Ready()) ==> Ready())
        invariant forall k :: 0 <= k < i ==> Forfeits(t, ch.signer, ch.verify, confirmed, specs[k], offenders).Ok?
        invariant forall k :: 0 <= k < |watchers| ==>
                    watchers[k].registry ==
                      if k < i
                      then old(watchers[k].registry)[t.funding := WatchRecord(current.value,
                        Forfeits(t, ch.signer, ch.verify, confirmed, specs[k], offenders).value)]
                      else old(watchers[k].registry)
      {
        var forfeits := BuildForfeits(ch, specs[i], offenders);
        if forfeits.Err? {
          ServedIs(t, ch.signer, ch.verify, confirmed, specs, offenders, i);
          return Err(Refused(forfeits.error));
        }
        Hand(watchers[i], ch.terms.funding, WatchRecord(current.value, forfeits.value));
      }
      ServedIs(t, ch.signer, ch.verify, confirmed, specs, offenders, |specs|);
      return Ok(());
    }

    /** Registers one well-formed record with one watcher. */
    method Hand(w: Tower, channel: TxId, record: WatchRecord)
      requires Valid() && w in watchers && IsState(record.current, channel)
      modifies w`registry
      ensures w.registry == old(w.registry)[channel := record]
      ensures Valid() && (old(Ready()) ==> Ready())
    {
      hide Indexed;
      w.Register(channel, record);
      assert mempool.State() == old(mempool.State());
      assert WellFormedRecord(channel, record);
      forall i | 0 <= i < |mempool.observers| && old(mempool.Wired())
        ensures WellFormedRegistry(mempool.observers[i].registry)
      {
        assert old(Registries(mempool.observers))[i] == old(mempool.observers[i].registry);
      }
    }

    method BuildForfeits(ch: Channel, spec: WatcherSpec, offenders: seq<int>)
        returns (r: Result<map<nat, Tx>, LifecycleError>)
      requires ch.Valid()
      ensures r == Forfeits(ch.terms, ch.signer, ch.verify, ch.confirmed, spec, offenders)
    {
      hide SignedForfeit;
      var byOffender: map<nat, Tx> := map[];
      for k := 0 to |offenders|
        invariant Forfeits(ch.terms, ch.signer, ch.verify, ch.confirmed, spec, offenders[..k]) == Ok(byOffender)
      {
        assert offenders[..k + 1][..k] == offenders[..k];
        OffendersAreNatural(ch.terms, ch.signer, ch.verify, ch.confirmed, offenders[k], Some(spec.payout), spec.fee);
        var forfeit := ch.ForfeitBondTx(offenders[k], Some(spec.payout), spec.fee);
        if forfeit.Err? {
          ForfeitsStop(ch.terms, ch.signer, ch.verify, ch.confirmed, spec, offenders, k + 1);
          return Err(forfeit.error);
        }
        byOffender := byOffender[offenders[k] := forfeit.value];
      }
      assert offenders[..|offenders|] == offenders;
      return Ok(byOffender);
    }

    method TotalInterventions() returns (n: nat)
      ensures n == Total(Interventions(watchers))
    {
      n := 0;
      for i := 0 to |watchers|
        invariant n == Total(Interventions(watchers)[..i])
      {
        assert Interventions(watchers)[..i + 1][..i] == Interventions(watchers)[..i];
        n := n + watchers[i].interventions;
      }
      assert Interventions(watchers)[..|watchers|] == Interventions(watchers);
    }

    lemma NamedStep(indices: seq<int>, k: nat)
      requires k < |indices| && forall j :: 0 <= j <= k ==> -|watchers| <= indices[j] < |watchers|
      ensures Named(indices[..k + 1]) == Named(indices[..k]) + [At(indices[k])]
      ensures SetOf(Named(indices[..k + 1])) == SetOf(Named(indices[..k])) + {At(indices[k])}
    {
      assert indices[..k + 1][..k] == indices[..k];
      SetOfAppend(Named(indices[..k]), [At(indices[k])]);
    }

    /** Takes the named watchers offline; stops at the first index that is negative or too high. */
    method Disable(indices: seq<int>) returns (r: Result<(), ClusterError>)
      requires Valid()
      modifies mempool`observers
      ensures Valid() && (old(Ready()) ==> Ready())
      ensures var n := Leading(indices, 0, |watchers|);
              && r == (if n == |indices| then Ok(()) else Err(BadIndex))
              && mempool.observers == Excluding(old(mempool.observers), SetOf(Named(indices[..n])))
    {
      hide Excluding, Named, SetOf, NoRepeats, Leading;
      ghost var before := mempool.observers;
      NamesNone(indices);
      ExcludingNone(before, SetOf(Named(indices[..0])));
      for k := 0 to |indices|
        invariant Valid() && (old(Ready()) ==> Ready())
        invariant forall i :: 0 <= i < k ==> 0 <= indices[i] < |watchers|
        invariant mempool.observers == Excluding(before, SetOf(Named(indices[..k])))
      {
        if !(0 <= indices[k] < |watchers|) {
          LeadingIs(indices, 0, |watchers|, k);
          return Err(BadIndex);
        }
        var w := watchers[indices[k]];
        ExcludingTwice(before, SetOf(Named(indices[..k])), {w});
        NamedStep(indices, k);
        Remove(w);
      }
      LeadingIs(indices, 0, |watchers|, |indices|);
      return Ok(());
    }

    lemma NamesNone(indices: seq<int>)
      ensures SetOf(Named(indices[..0])) == {}
    {
    }

    /** Removes an observer if it is there. */
    method Remove(w: Tower)
      requires Valid()
      modifies mempool`observers
      ensures mempool.observers == Excluding(old(mempool.observers), {w})
      ensures Valid() && (old(Ready()) ==> Ready())
    {
      hide Indexed, Mempool.Wired;
      WiredMeans();
      ghost var before := mempool.observers;
      ExcludingKeepsDistinct(before, {w});
      for i := 0 to |mempool.observers|
        invariant mempool.observers == before
        invariant forall k :: 0 <= k < i ==> mempool.observers[k] != w
      {
        if mempool.observers[i] == w {
          ExcludingOne(before, w, i);
          mempool.observers := mempool.observers[..i] + mempool.observers[i + 1..];
          CountsDoNotMatter(old(mempool.State()), mempool.State());
          WiredMeans();
          return;
        }
      }
      ExcludingNone(before, {w});
    }

    /** Brings the named watchers back online, in order; those already online keep their place.
        Negative indices count from the end; stops at the first one out of range. */
    method Enable(indices: seq<int>) returns (r: Result<(), ClusterError>)
      requires Valid()
      modifies mempool`observers
      ensures Valid() && (old(Ready()) ==> Ready())
      ensures var n := Leading(indices, -|watchers|, |watchers|);
              && r == (if n == |indices| then Ok(()) else Err(BadIndex))
              && mempool.observers == Joined(old(mempool.observers), Named(indices[..n]))
    {
      hide SetOf, NoRepeats, Leading, Joined, Named, Ready;
      ghost var before := mempool.observers;
      JoinsNone(indices);
      for k := 0 to |indices|
        invariant Valid() && (old(Ready()) ==> Ready())
        invariant forall i :: 0 <= i < k ==> -|watchers| <= indices[i] < |watchers|
        invariant mempool.observers == Joined(before, Named(indices[..k]))
      {
        if !(-|watchers| <= indices[k] < |watchers|) {
          LeadingIs(indices, -|watchers|, |watchers|, k);
          return Err(BadIndex);
        }
        NamedStep(indices, k);
        JoinedStep(before, Named(indices[..k]), At(indices[k]));
        Append(At(indices[k]));
      }
      LeadingIs(indices, -|watchers|, |watchers|, |indices|);
      assert indices[..|indices|] == indices;
      return Ok(());
    }

    lemma JoinsNone(indices: seq<int>)
      ensures Joined(mempool.observers, Named(indices[..0])) == mempool.observers
    {
    }

    /** Appends an observer unless it is there. */
    method Append(w: Tower)
      requires Valid() && w in watchers
      modifies mempool`observers
      ensures mempool.observers == old(mempool.observers) + if w in old(mempool.observers) then [] else [w]
      ensures Valid() && (old(Ready()) ==> Ready())
    {
      hide Indexed, Mempool.Wired;
      WiredMeans();
      if w !in mempool.observers {
        SetOfAppend(mempool.observers, [w]);
        mempool.observers := mempool.observers + [w];
        CountsDoNotMatter(old(mempool.State()), mempool.State());
        WiredMeans();
      }
    }
  }

  /** A party broadcasts an outdated state of a channel of which every watcher holds the same
      current state. If it gets into the mempool, every watcher online counts one intervention,
      no other does, and the current state takes its place as long as one watcher is online. If it
      does not get in, nothing happens. */
  method BroadcastStale(cluster: WatchCluster, channel: TxId, stale: Tx, current: Tx) returns (v: Verdict)
    requires cluster.Ready()
    requires forall w :: w in cluster.watchers ==> channel in w.registry && w.registry[channel].current == current
    requires IsState(stale, channel) && IsState(current, channel)
    requires stale.inputs[0].sequence < current.inputs[0].sequence
    requires Validation.Valid(cluster.mempool.store.utxos, cluster.mempool.verify, current)
    modifies cluster.mempool`entries, cluster.mempool`spentBy, (set t | t in cluster.mempool.observers)`interventions
    ensures cluster.Ready()
    ensures var entered := old(Inserts(cluster.mempool.State(), cluster.mempool.Env(), stale));
            var m := cluster.mempool;
            && (v.Accepted? <==> entered || old(IdOf(stale) in m.entries))
            && Total(Interventions(cluster.watchers))
               == old(Total(Interventions(cluster.watchers))) + (if entered then |m.observers| else 0)
            && (entered && m.observers != [] ==> IdOf(current) in m.entries && IdOf(stale) !in m.entries)
            && (entered && m.observers == [] ==> IdOf(stale) in m.entries)
            && (!entered ==> m.entries == old(m.entries))
  {
    hide Inserts, Validation.Valid, Indexed, Total, NoRepeats, SetOf, Pool.Admit, IsState, SharedRecord;
    ghost var m := cluster.mempool;
    ghost var s, env := m.State(), m.Env();
    ghost var before := Interventions(cluster.watchers);
    ghost var entered := Inserts(s, env, stale);
    assert WellFormedEnv(env) && SharedRecord(env, channel, current) by { ObserversShare(cluster, channel, current); }
    v := cluster.mempool.Admit(stale);
    AdmitCases(s, env, stale);
    if entered { ClusterIsExact(s, env, channel, stale, current); }
    ObserversGain(cluster.watchers, m.observers, before, Interventions(cluster.watchers), s.counts,
                  m.State().counts, if entered then 1 else 0);
  }

  lemma ObserversShare(cluster: WatchCluster, channel: TxId, current: Tx)
    requires cluster.Ready()
    requires forall w :: w in cluster.watchers ==> channel in w.registry && w.registry[channel].current == current
    ensures WellFormedEnv(cluster.mempool.Env()) && SharedRecord(cluster.mempool.Env(), channel, current)
  {
    var m := cluster.mempool;
    forall i | 0 <= i < |m.observers| ensures m.observers[i] in cluster.watchers {
      assert m.observers[i] in SetOf(m.observers);
    }
  }
}
