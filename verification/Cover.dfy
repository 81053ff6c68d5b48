/** What the towers achieve: every watched channel they see ends covered, over any number of
    towers with records of any versions; how often they intervene; and what stays for good. */
module Cover {
  import opened Ledger
  import opened Validation
  import opened Pool
  import opened Cascade

  /** Tower `i` watches `o`; if `o` is held, then under a sequence number no lower than that of
      the tower's own record. */
  ghost predicate Covered(s: PoolState, env: Env, i: nat, o: Outpoint)
    requires WellFormedEnv(env) && Indexed(s) && i < |env.towers|
  {
    o.vout == 0 && o.txid in env.towers[i] && o in s.spentBy
    ==> HolderSeq(s, o) >= env.towers[i][o.txid].current.inputs[0].sequence
  }

  /** The records' transactions are valid as long as the funding output is unspent. */
  ghost predicate RecordsValid(env: Env) {
    forall i, c :: 0 <= i < |env.towers| && c in env.towers[i] && Outpoint(c, 0) in env.utxos
      ==> Valid(env.utxos, env.verify, env.towers[i][c].current)
  }

  /** Whatever was covered stays covered. */
  ghost predicate KeepsCover(s: PoolState, t: PoolState, env: Env)
    requires WellFormedEnv(env) && Indexed(s) && Indexed(t)
  {
    forall i: nat, o :: i < |env.towers| && Covered(s, env, i, o) ==> Covered(t, env, i, o)
  }

  ghost predicate CoversInputs(t: PoolState, env: Env, tx: Tx)
    requires WellFormedEnv(env) && Indexed(t)
  {
    forall i: nat, o :: i < |env.towers| && o in Prevs(tx.inputs) ==> Covered(t, env, i, o)
  }

  /** Every input of `tx` still held is held at least as high as some input of `tx` there. */
  ghost predicate Landed(t: PoolState, tx: Tx)
    requires Indexed(t)
  {
    forall o :: o in Prevs(tx.inputs) && o in t.spentBy ==> AtLeast(t, tx, o)
  }

  lemma LandedStays(s: PoolState, t: PoolState, tx: Tx)
    requires Indexed(s) && Indexed(t) && Landed(s, tx) && Raised(s, t, tx)
    ensures Landed(t, tx)
  {
    forall o | o in Prevs(tx.inputs) && o in t.spentBy ensures AtLeast(t, tx, o) {
      if SameHolder(s, t, o) {
        SameHolderSameSeq(s, t, o);
        assert AtLeast(s, tx, o);
      }
    }
  }

  /** Tower `i` is done with input `k`: its outpoint is covered, or the input was not outdated. */
  ghost predicate Handled(t: PoolState, env: Env, tx: Tx, i: nat, k: nat)
    requires WellFormedEnv(env) && Indexed(t) && i < |env.towers| && k < |tx.inputs|
  {
    Covered(t, env, i, tx.inputs[k].prev) || !Stale(env, i, tx, k)
  }

  lemma HandledCovers(t: PoolState, env: Env, tx: Tx, i: nat)
    requires WellFormedEnv(env) && Indexed(t) && i < |env.towers| && Landed(t, tx)
    requires forall k: nat :: k < |tx.inputs| ==> Handled(t, env, tx, i, k)
    ensures forall o :: o in Prevs(tx.inputs) ==> Covered(t, env, i, o)
  {
    forall o | o in Prevs(tx.inputs) ensures Covered(t, env, i, o) {
      if o in t.spentBy {
        assert AtLeast(t, tx, o);
        var k: nat :| k < |tx.inputs| && tx.inputs[k].prev == o && tx.inputs[k].sequence <= HolderSeq(t, o);
        assert Handled(t, env, tx, i, k);
      }
    }
  }

  /** A refused answer was not needed: the outpoint is already held high enough. */
  lemma AnswerCovers(s: PoolState, env: Env, tx: Tx, i: nat, j: nat)
    requires WellFormedEnv(env) && Indexed(s) && i < |env.towers| && j < |tx.inputs| && Stale(env, i, tx, j)
    requires RecordsValid(env) && tx.inputs[j].prev in env.utxos
    requires !Inserts(s, env, env.towers[i][tx.inputs[j].prev.txid].current)
    ensures Covered(s, env, i, tx.inputs[j].prev)
  {
    var o := tx.inputs[j].prev;
    var current := env.towers[i][o.txid].current;
    assert WellFormedRecord(o.txid, env.towers[i][o.txid]);
    assert Outpoint(o.txid, 0) == o;
    assert Prevs(current.inputs) == {o};
    if o in s.spentBy {
      assert Holds(s, o, s.spentBy[o]) && Spends(s, s.spentBy[o], o);
      if IdOf(current) in s.entries {
        assert Spends(s, IdOf(current), o) && Holds(s, o, IdOf(current));
      } else {
        var clash := Conflicts(s, current);
        assert clash == {s.spentBy[o]};
        assert |clash| == 1;
      }
    } else {
      assert Conflicts(s, current) == {};
      assert Spends(s, IdOf(current), o) <==> Holds(s, o, IdOf(current));
    }
  }

  lemma CountedCover(s: PoolState, t: PoolState, env: Env, i: nat)
    requires WellFormedEnv(env) && Indexed(s) && Indexed(t)
    requires KeepsCover(s, t, env)
    ensures Indexed(Counted(t, i)) && KeepsCover(s, Counted(t, i), env) && KeepsCover(t, Counted(t, i), env)
  {
    var u := Counted(t, i);
    assert forall o, id :: (Holds(u, o, id) <==> Holds(t, o, id)) && (Spends(u, id, o) <==> Spends(t, id, o));
    forall x: nat, o | x < |env.towers| && Covered(t, env, x, o) ensures Covered(u, env, x, o) {
      if o in t.spentBy { assert SameHolder(t, u, o); SameHolderSameSeq(t, u, o); }
    }
  }

  /** A submission that inserts itself leaves all its watched inputs covered, for every tower;
      any submission keeps whatever was covered. */
  lemma {:induction false} AdmitCovers(s: PoolState, env: Env, tx: Tx)
    requires WellFormedEnv(env) && Indexed(s) && RecordsValid(env)
    ensures Indexed(Admit(s, env, tx).0) && KeepsCover(s, Admit(s, env, tx).0, env)
    ensures Inserts(s, env, tx) ==> CoversInputs(Admit(s, env, tx).0, env, tx)
    decreases Measure(tx), 2, 0
  {
    AdmitEvolves(s, env, tx);
    AdmitCases(s, env, tx);
    if Inserts(s, env, tx) {
      var t := Inserted(s, env, tx);
      InsertionRaises(s, env, tx);
      assert InputsUnspent(env, tx) by { InsertsUnspent(s, env, tx); }
      NotifyCovers(t, env, tx, 0);
      var u := Admit(s, env, tx).0;
      forall i: nat, o | i < |env.towers| && Covered(s, env, i, o) ensures Covered(u, env, i, o) {
        if o !in Prevs(tx.inputs) && o in t.spentBy { SameHolderSameSeq(s, t, o); assert Covered(t, env, i, o); }
        if o !in Prevs(tx.inputs) && o !in t.spentBy { assert Covered(t, env, i, o); }
      }
    }
  }

  ghost predicate InputsUnspent(env: Env, tx: Tx) {
    forall k :: 0 <= k < |tx.inputs| ==> tx.inputs[k].prev in env.utxos
  }

  lemma InsertsUnspent(s: PoolState, env: Env, tx: Tx)
    requires Inserts(s, env, tx)
    ensures InputsUnspent(env, tx)
  {
    forall k | 0 <= k < |tx.inputs| ensures tx.inputs[k].prev in env.utxos {
      assert Unlocks(env.utxos, env.verify, tx, k);
    }
  }

  lemma {:induction false} NotifyCovers(s: PoolState, env: Env, tx: Tx, i: nat)
    requires WellFormedEnv(env) && Indexed(s) && RecordsValid(env) && Landed(s, tx) && InputsUnspent(env, tx)
    ensures Indexed(Notify(s, env, tx, i)) && KeepsCover(s, Notify(s, env, tx, i), env)
    ensures forall x: nat, o :: i <= x < |env.towers| && o in Prevs(tx.inputs) ==>
            Covered(Notify(s, env, tx, i), env, x, o)
    decreases Measure(tx), 1, |env.towers| - i
  {
    if i < |env.towers| {
      var t := Observe(s, env, tx, i, 0);
      ObserveCovers(s, env, tx, i, 0);
      ObserveEvolves(s, env, tx, i, 0);
      LandedStays(s, t, tx);
      HandledCovers(t, env, tx, i);
      NotifyCovers(t, env, tx, i + 1);
    }
  }

  lemma KeepsCoverOnwards(s: PoolState, t: PoolState, u: PoolState, env: Env)
    requires WellFormedEnv(env) && Indexed(s) && Indexed(t) && Indexed(u)
    requires KeepsCover(s, t, env) && KeepsCover(t, u, env)
    ensures KeepsCover(s, u, env)
  {
  }

  lemma CoverCarries(s: PoolState, t: PoolState, env: Env, i: nat, o: Outpoint)
    requires WellFormedEnv(env) && Indexed(s) && Indexed(t) && i < |env.towers|
    requires KeepsCover(s, t, env) && Covered(s, env, i, o)
    ensures Covered(t, env, i, o)
  {
  }

  /** After a tower's answer to an outdated input, counted or not, the outpoint is covered. */
  lemma AnswerLeavesCovered(s: PoolState, env: Env, tx: Tx, i: nat, j: nat)
    requires WellFormedEnv(env) && Indexed(s) && i < |env.towers| && j < |tx.inputs| && Stale(env, i, tx, j)
    requires RecordsValid(env) && InputsUnspent(env, tx)
    ensures var (s1, v) := Admit(s, env, env.towers[i][tx.inputs[j].prev.txid].current);
            var s2 := if v.Accepted? then Counted(s1, i) else s1;
            Indexed(s2) && KeepsCover(s, s2, env) && Covered(s2, env, i, tx.inputs[j].prev)
    decreases Measure(tx), 0, 0
  {
    hide KeepsCover, Covered, Inserts, RecordsValid, Indexed, Counted;
    var o := tx.inputs[j].prev;
    var current := env.towers[i][o.txid].current;
    assert WellFormedRecord(o.txid, env.towers[i][o.txid]);
    var s1 := Admit(s, env, current).0;
    AdmitCovers(s, env, current);
    AdmitCases(s, env, current);
    if Inserts(s, env, current) {
      assert o in Prevs(current.inputs);
    } else {
      AnswerCovers(s, env, tx, i, j);
    }
    assert Covered(s1, env, i, o);
    CountedCover(s, s1, env, i);
    CoverCarries(s1, Counted(s1, i), env, i, o);
  }

  lemma {:induction false} ObserveCovers(s: PoolState, env: Env, tx: Tx, i: nat, j: nat)
    requires WellFormedEnv(env) && Indexed(s) && i < |env.towers|
    requires RecordsValid(env) && InputsUnspent(env, tx)
    ensures var t := Observe(s, env, tx, i, j);
            && Indexed(t) && KeepsCover(s, t, env)
            && (forall k: nat :: j <= k < |tx.inputs| ==> Handled(t, env, tx, i, k))
    decreases Measure(tx), 0, |tx.inputs| - j
  {
    hide Covered, RecordsValid, InputsUnspent, Indexed, Counted, Admit;
    if j < |tx.inputs| {
      if !Stale(env, i, tx, j) {
        ObserveCovers(s, env, tx, i, j + 1);
      } else {
        var (s1, v) := Admit(s, env, env.towers[i][tx.inputs[j].prev.txid].current);
        var s2 := if v.Accepted? then Counted(s1, i) else s1;
        AnswerLeavesCovered(s, env, tx, i, j);
        ObserveCovers(s2, env, tx, i, j + 1);
        KeepsCoverOnwards(s, s2, Observe(s2, env, tx, i, j + 1), env);
        CoverCarries(s2, Observe(s2, env, tx, i, j + 1), env, i, tx.inputs[j].prev);
      }
    }
  }

  // ---------- runs of submissions ----------

  ghost function AdmitAll(s: PoolState, env: Env, txs: seq<Tx>): PoolState
    requires WellFormedEnv(env)
    decreases txs
  {
    if txs == [] then s else AdmitAll(Admit(s, env, txs[0]).0, env, txs[1..])
  }

  ghost predicate FullyCovered(s: PoolState, env: Env)
    requires WellFormedEnv(env) && Indexed(s)
  {
    forall i: nat, o :: i < |env.towers| ==> Covered(s, env, i, o)
  }

  /** Over every run of submissions from a covered pool, every watched funding outpoint that is
      held is held at least as high as every online tower's record. */
  lemma {:induction false} EveryRunIsCovered(s: PoolState, env: Env, txs: seq<Tx>)
    requires WellFormedEnv(env) && Indexed(s) && RecordsValid(env) && FullyCovered(s, env)
    ensures Indexed(AdmitAll(s, env, txs)) && FullyCovered(AdmitAll(s, env, txs), env)
    decreases txs
  {
    if txs != [] {
      AdmitCovers(s, env, txs[0]);
      EveryRunIsCovered(Admit(s, env, txs[0]).0, env, txs[1..]);
    }
  }

  /** Once a final transaction is in the pool, no later submission displaces it, and nothing
      else is ever held on any of its inputs. */
  lemma {:induction false} FinalityIsAbsorbing(s: PoolState, env: Env, txs: seq<Tx>, tx: Tx, rival: Tx)
    requires WellFormedEnv(env) && Indexed(s)
    requires IdOf(tx) in s.entries && IsFinal(tx)
    requires rival != tx && Prevs(rival.inputs) * Prevs(tx.inputs) != {}
    ensures IdOf(tx) in AdmitAll(s, env, txs).entries
    ensures IdOf(rival) !in AdmitAll(s, env, txs).entries
    decreases txs
  {
    if txs == [] {
      if IdOf(rival) in s.entries { EntriesAreDisjoint(s, IdOf(tx), IdOf(rival)); }
    } else {
      AdmitEvolves(s, env, txs[0]);
      FinalityIsAbsorbing(Admit(s, env, txs[0]).0, env, txs[1..], tx, rival);
    }
  }

  // ---------- a cluster with one shared record ----------

  ghost predicate SharedRecord(env: Env, channel: TxId, current: Tx)
    requires WellFormedEnv(env)
  {
    forall i :: 0 <= i < |env.towers| ==> channel in env.towers[i] && env.towers[i][channel].current == current
  }

  /** A state transaction of the channel: one input, spending its funding output. */
  predicate IsState(tx: Tx, channel: TxId) {
    |tx.inputs| == 1 && tx.inputs[0].prev == Outpoint(channel, 0)
  }

  /** The number of interventions counted so far, over all online towers. */
  function Total(counts: seq<nat>): nat {
    if counts == [] then 0 else Total(counts[..|counts| - 1]) + counts[|counts| - 1]
  }

  /** The total of nothing is zero, and one more tower adds its count. */
  lemma TotalAdds(counts: seq<nat>, last: nat)
    ensures Total([]) == 0 && Total(counts + [last]) == Total(counts) + last
  {
    assert (counts + [last])[..|counts|] == counts;
  }

  lemma {:induction false} NotifyQuiet(s: PoolState, env: Env, tx: Tx, i: nat)
    requires WellFormedEnv(env)
    requires forall x: nat, j: nat :: x < |env.towers| && j < |tx.inputs| ==> !Stale(env, x, tx, j)
    ensures Notify(s, env, tx, i) == s
    decreases |env.towers| - i
  {
    if i < |env.towers| {
      ObserveQuiet(s, env, tx, i, 0);
      NotifyQuiet(s, env, tx, i + 1);
    }
  }

  lemma {:induction false} ObserveQuiet(s: PoolState, env: Env, tx: Tx, i: nat, j: nat)
    requires WellFormedEnv(env) && i < |env.towers|
    requires forall k: nat :: k < |tx.inputs| ==> !Stale(env, i, tx, k)
    ensures Observe(s, env, tx, i, j) == s
    decreases |tx.inputs| - j
  {
    if j < |tx.inputs| { ObserveQuiet(s, env, tx, i, j + 1); }
  }

  /** A submission that spends no output 0 of a channel that an online tower watches under a lower
      sequence number than that tower's record takes its place, and nothing else happens. */
  lemma QuietWhenCurrent(s: PoolState, env: Env, tx: Tx)
    requires WellFormedEnv(env) && Indexed(s) && Inserts(s, env, tx)
    requires forall i: nat, j: nat :: i < |env.towers| && j < |tx.inputs| ==>
               var o := tx.inputs[j].prev;
               o.vout == 0 && o.txid in env.towers[i] ==>
                 tx.inputs[j].sequence >= env.towers[i][o.txid].current.inputs[0].sequence
    ensures Admit(s, env, tx).0 == Inserted(s, env, tx)
  {
    hide Inserts, Indexed, Inserted;
    AdmitCases(s, env, tx);
    NotifyQuiet(Inserted(s, env, tx), env, tx, 0);
  }

  /** The answer to an outdated state that holds its channel: it takes its place. */
  lemma AnswerOvertakes(s: PoolState, env: Env, channel: TxId, stale: Tx, current: Tx)
    requires WellFormedEnv(env) && Indexed(s) && SharedRecord(env, channel, current) && IsState(current, channel)
    requires IsState(stale, channel) && stale.inputs[0].sequence < current.inputs[0].sequence
    requires IdOf(stale) in s.entries && Valid(env.utxos, env.verify, current)
    ensures Admit(s, env, current) == (Inserted(s, env, current), Judge(env.utxos, env.verify, current))
    ensures Admit(s, env, current).1.Accepted?
    ensures Inserted(s, env, current).counts == s.counts
    ensures IdOf(current) in Inserted(s, env, current).entries
    ensures IdOf(stale) !in Inserted(s, env, current).entries
  {
    hide Indexed, Valid, Outranks, IsState, SharedRecord;
    OnlyStaleConflicts(s, channel, stale, current);
    AdmitCases(s, env, current);
    assert Inserts(s, env, current);
    NothingIsStale(env, channel, current);
    NotifyQuiet(Inserted(s, env, current), env, current, 0);
  }

  lemma NothingIsStale(env: Env, channel: TxId, current: Tx)
    requires WellFormedEnv(env) && SharedRecord(env, channel, current) && IsState(current, channel)
    ensures forall x: nat, j: nat :: x < |env.towers| && j < |current.inputs| ==> !Stale(env, x, current, j)
  {
  }

  lemma OnlyStaleConflicts(s: PoolState, channel: TxId, stale: Tx, current: Tx)
    requires Indexed(s) && IsState(current, channel) && IsState(stale, channel) && IdOf(stale) in s.entries
    requires stale.inputs[0].sequence < current.inputs[0].sequence
    ensures Conflicts(s, current) == {IdOf(stale)} && |Conflicts(s, current)| == 1
    ensures Only(Conflicts(s, current)) == IdOf(stale) && OutranksAll(s, current) && IdOf(current) !in s.entries
  {
    var o := Outpoint(channel, 0);
    assert s.entries[IdOf(stale)].tx == stale;
    assert Prevs(stale.inputs) == {o} && Prevs(current.inputs) == {o} by {
      assert stale.inputs[0].prev == o && current.inputs[0].prev == o;
    }
    assert Spends(s, IdOf(stale), o) && Holds(s, o, IdOf(stale));
    assert Spends(s, IdOf(current), o) <==> Holds(s, o, IdOf(current));
    assert Conflicts(s, current) == {IdOf(stale)};
    assert Only(Conflicts(s, current)) == IdOf(stale) by { assert IdOf(stale) in {Only(Conflicts(s, current))}; }
  }

  /** Every count from position `i` on, one higher. */
  function BumpedFrom(counts: seq<nat>, i: nat): seq<nat> {
    seq(|counts|, x requires 0 <= x < |counts| => if x >= i then counts[x] + 1 else counts[x])
  }

  lemma {:induction false} TotalBumped(counts: seq<nat>)
    ensures Total(BumpedFrom(counts, 0)) == Total(counts) + |counts|
  {
    if counts != [] {
      var n := |counts| - 1;
      TotalBumped(counts[..n]);
      assert BumpedFrom(counts, 0)[..n] == BumpedFrom(counts[..n], 0);
    }
  }

  lemma BumpedStep(counts: seq<nat>, i: nat)
    requires i < |counts|
    ensures BumpedFrom(counts[i := counts[i] + 1], i + 1) == BumpedFrom(counts, i)
  {
  }

  /** One tower's answer to an outdated single-input state, counted. */
  lemma ObserveOnce(s: PoolState, env: Env, channel: TxId, stale: Tx, current: Tx, i: nat)
    requires WellFormedEnv(env) && i < |env.towers| && SharedRecord(env, channel, current)
    requires IsState(current, channel)
    requires IsState(stale, channel) && stale.inputs[0].sequence < current.inputs[0].sequence
    ensures Measure(current) < Measure(stale)
    ensures var (t, v) := Admit(s, env, current);
            Observe(s, env, stale, i, 0) == if v.Accepted? then Counted(t, i) else t
  {
    assert Stale(env, i, stale, 0);
    var (t, v) := Admit(s, env, current);
    var t' := if v.Accepted? then Counted(t, i) else t;
    assert Observe(t', env, stale, i, 1) == t';
  }

  /** Once the current state is in the pool, each further tower that sees the outdated one
      resubmits it, finds it there, and counts an intervention. */
  lemma {:induction false} NotifyRest(s: PoolState, env: Env, channel: TxId, stale: Tx, current: Tx, i: nat)
    requires WellFormedEnv(env) && SharedRecord(env, channel, current) && IsState(current, channel)
    requires IsState(stale, channel) && stale.inputs[0].sequence < current.inputs[0].sequence
    requires IdOf(current) in s.entries && |s.counts| == |env.towers|
    ensures Notify(s, env, stale, i) == s.(counts := BumpedFrom(s.counts, i))
    decreases |env.towers| - i
  {
    if i < |env.towers| {
      ObserveOnce(s, env, channel, stale, current, i);
      NotifyRest(Counted(s, i), env, channel, stale, current, i + 1);
      BumpedStep(s.counts, i);
    } else {
      assert BumpedFrom(s.counts, i) == s.counts;
    }
  }

  lemma NotifyFirst(s: PoolState, t: PoolState, env: Env, channel: TxId, stale: Tx, current: Tx)
    requires WellFormedEnv(env) && |env.towers| >= 1
    requires SharedRecord(env, channel, current) && IsState(current, channel)
    requires IsState(stale, channel) && stale.inputs[0].sequence < current.inputs[0].sequence
    requires Admit(s, env, current).0 == t && Admit(s, env, current).1.Accepted?
    ensures Notify(s, env, stale, 0) == Notify(Counted(t, 0), env, stale, 1)
  {
    ObserveOnce(s, env, channel, stale, current, 0);
  }

  /** All online towers answer an outdated state, the first of them by getting the current one in. */
  lemma AllTowersAnswer(s: PoolState, t: PoolState, env: Env, channel: TxId, stale: Tx, current: Tx)
    requires WellFormedEnv(env) && |s.counts| == |env.towers| >= 1
    requires SharedRecord(env, channel, current) && IsState(current, channel)
    requires IsState(stale, channel) && stale.inputs[0].sequence < current.inputs[0].sequence
    requires Notify(s, env, stale, 0) == Notify(Counted(t, 0), env, stale, 1)
    requires IdOf(current) in t.entries && t.counts == s.counts
    ensures Notify(s, env, stale, 0) == t.(counts := BumpedFrom(s.counts, 0))
  {
    NotifyRest(Counted(t, 0), env, channel, stale, current, 1);
    BumpedStep(s.counts, 0);
  }

  /** With one shared record, an outdated state that gets in is overtaken if any tower is
      online, and every online tower counts one intervention; with none online it stays. */
  lemma ClusterIsExact(s: PoolState, env: Env, channel: TxId, stale: Tx, current: Tx)
    requires WellFormedEnv(env) && Indexed(s) && |s.counts| == |env.towers|
    requires SharedRecord(env, channel, current) && IsState(current, channel)
    requires IsState(stale, channel) && stale.inputs[0].sequence < current.inputs[0].sequence
    requires Inserts(s, env, stale) && Valid(env.utxos, env.verify, current)
    ensures var t := Admit(s, env, stale).0;
            && |t.counts| == |s.counts| && (forall i :: 0 <= i < |s.counts| ==> t.counts[i] == s.counts[i] + 1)
            && Total(t.counts) == Total(s.counts) + |env.towers|
            && (|env.towers| >= 1 ==> IdOf(current) in t.entries && IdOf(stale) !in t.entries)
            && (|env.towers| == 0 ==> IdOf(stale) in t.entries)
  {
    hide Valid, Judge, Indexed, Inserts, Inserted, Admit, Notify, IsState, SharedRecord, BumpedFrom;
    AdmitCases(s, env, stale);
    var s1 := Inserted(s, env, stale);
    NewcomerIsHeld(s, env, stale);
    if |env.towers| >= 1 {
      AnswerOvertakes(s1, env, channel, stale, current);
      NotifyFirst(s1, Inserted(s1, env, current), env, channel, stale, current);
      AllTowersAnswer(s1, Inserted(s1, env, current), env, channel, stale, current);
    } else {
      NotifyQuiet(s1, env, stale, 0);
    }
    EachBumped(s.counts);
    TotalBumped(s.counts);
  }

  lemma NewcomerIsHeld(s: PoolState, env: Env, tx: Tx)
    requires WellFormedEnv(env) && Indexed(s) && Inserts(s, env, tx)
    ensures var t := Inserted(s, env, tx);
            Indexed(t) && t.counts == s.counts && IdOf(tx) in t.entries
  {
    InsertionEvolves(s, env, tx);
  }

  lemma EachBumped(counts: seq<nat>)
    ensures var more := BumpedFrom(counts, 0);
            |more| == |counts| && forall i :: 0 <= i < |counts| ==> more[i] == counts[i] + 1
  {
  }
}
