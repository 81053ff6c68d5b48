/** Durable channel states: what a crash between any two store transactions leaves behind, and
    what is recovered from it. Calls on different channels interleave freely. */
module Recovery {
  import opened Ledger
  import opened Accounting
  import opened Lifecycle

  datatype Meta = Meta(terms: Terms, confirmed: bool)

  /** The two tables; each write below is one transaction. */
  datatype Disk = Disk(meta: map<TxId, Meta>, states: map<TxId, map<nat, State>>)

  const EMPTY_DISK: Disk := Disk(map[], map[])

  function PutMeta(d: Disk, id: TxId, m: Meta): Disk {
    d.(meta := d.meta[id := m])
  }

  function Rows(d: Disk, id: TxId): map<nat, State> {
    if id in d.states then d.states[id] else map[]
  }

  /** Inserts a row, or replaces the one of the same version. */
  function PutState(d: Disk, id: TxId, s: State): Disk {
    d.(states := d.states[id := Rows(d, id)[s.version := s]])
  }

  /** The row with the highest version. */
  ghost function Latest(rows: map<nat, State>): Option<State> {
    if v: nat :| IsHighest(rows, v) then Some(rows[v]) else None
  }

  ghost predicate IsHighest(rows: map<nat, State>, v: nat) {
    v in rows && forall x: nat :: x in rows ==> x <= v
  }

  lemma HighestIsUnique(rows: map<nat, State>, v: nat, x: nat)
    requires IsHighest(rows, v) && IsHighest(rows, x)
    ensures v == x
  {
  }

  lemma LatestIs(rows: map<nat, State>, v: nat)
    requires IsHighest(rows, v)
    ensures Latest(rows) == Some(rows[v])
  {
    forall x: nat | IsHighest(rows, x) ensures rows[x] == rows[v] { HighestIsUnique(rows, v, x); }
  }

  datatype Recovered = Recovered(terms: Terms, confirmed: bool, state: State)

  /** None if the channel is unknown; the initial state if no state was ever written; otherwise
      the latest one, which is checked again. */
  ghost function Recover(d: Disk, id: TxId): Result<Option<Recovered>, AccountingError> {
    if id !in d.meta then Ok(None)
    else
      var m := d.meta[id];
      match Latest(Rows(d, id))
      case None =>
        if m.terms.cfg.n == 0 then Err(NotConserving)
        else Ok(Some(Recovered(m.terms, m.confirmed, InitialState(m.terms.cfg, 0))))
      case Some(s) =>
        if Conserving(s, m.terms.cfg) then Ok(Some(Recovered(m.terms, m.confirmed, s))) else Err(NotConserving)
  }

  /** What recovery reads: nothing without a row of terms; else those terms, the flag beside them,
      and the state of the highest version, if it conserves, or the initial one if there is none. */
  lemma RecoverIs(d: Disk, id: TxId, v: nat)
    ensures id !in d.meta ==> Recover(d, id) == Ok(None)
    ensures id in d.meta && (id !in d.states || d.states[id] == map[]) && d.meta[id].terms.cfg.n > 0 ==>
              Recover(d, id) == Ok(Some(Recovered(d.meta[id].terms, d.meta[id].confirmed,
                                                  InitialState(d.meta[id].terms.cfg, 0))))
    ensures id in d.meta && id in d.states && v in d.states[id] && (forall x: nat :: x in d.states[id] ==> x <= v) ==>
              Recover(d, id) == if Conserving(d.states[id][v], d.meta[id].terms.cfg)
                then Ok(Some(Recovered(d.meta[id].terms, d.meta[id].confirmed, d.states[id][v])))
                else Err(NotConserving)
  {
    hide Conserving, InitialState;
    if id in d.states && v in d.states[id] && forall x: nat :: x in d.states[id] ==> x <= v {
      LatestIs(Rows(d, id), v);
    }
    if id !in d.states || d.states[id] == map[] { NoLatest(Rows(d, id)); }
  }

  lemma NoLatest(rows: map<nat, State>)
    requires rows == map[]
    ensures Latest(rows) == None
  {
  }

  // ---------- the running program ----------

  /** Where a channel's holder of the lock is in persisting it. */
  datatype Phase = Idle | MetaDue | StateDue

  /** A channel in memory. `past` lists all states it has had, the last being the current one;
      `persisted` counts those that have reached the store. */
  datatype Live = Live(terms: Terms, confirmed: bool, phase: Phase, past: seq<State>, persisted: nat)

  datatype Waiting = Waiting(id: TxId, order: Order)

  /** `waiting` holds the transfers that have passed the check for a closed channel, but not yet
      taken the channel's lock. */
  datatype World = World(live: map<TxId, Live>, closed: set<TxId>, waiting: seq<Waiting>, disk: Disk)

  const EMPTY_WORLD: World := World(map[], {}, [], EMPTY_DISK)

  datatype Step =
    | Add(id: TxId, channel: Live)
    | Confirm(id: TxId)
    | Arrive(transfer: Waiting)
    | Enter(i: nat)
    | Close(id: TxId)
    | WriteMeta(id: TxId)
    | WriteState(id: TxId)

  function Current(l: Live): State
    requires l.past != []
  {
    l.past[|l.past| - 1]
  }

  /** A channel that is handed to the manager for the first time. */
  predicate NewChannel(id: TxId, l: Live) {
    && ValidTerms(l.terms) && l.terms.funding == id
    && |l.past| == 1 && Conserving(l.past[0], l.terms.cfg) && l.phase == MetaDue && l.persisted == 0
  }

  predicate Enabled(w: World, step: Step) {
    match step
    case Add(id, l) => id !in w.live && NewChannel(id, l)
    case Confirm(id) => id in w.live
    case Arrive(t) => t.id !in w.closed
    case Enter(i) => i < |w.waiting| && (w.waiting[i].id in w.live ==> w.live[w.waiting[i].id].phase == Idle)
    case Close(id) => id in w.live && id !in w.closed && w.live[id].phase == Idle && w.live[id].confirmed
    case WriteMeta(id) => id in w.live && w.live[id].phase == MetaDue
    case WriteState(id) => id in w.live && w.live[id].phase == StateDue && w.live[id].past != []
  }

  /** A transfer on the current state: the new state is in memory before anything is written. */
  function Transferred(l: Live, order: Order): Live {
    if l.past == [] || |Current(l).balances| != l.terms.cfg.n then l
    else
      match Transfer(Current(l), order.sender, order.recipient, order.delta, l.terms.cfg)
      case Ok(s) => l.(past := l.past + [s], phase := MetaDue)
      case Err(_) => l
  }

  function Next(w: World, step: Step): World
    requires Enabled(w, step)
  {
    match step
    case Add(id, l) => w.(live := w.live[id := l])
    case Confirm(id) => w.(live := w.live[id := w.live[id].(confirmed := true)])
    case Arrive(t) => w.(waiting := w.waiting + [t])
    case Enter(i) =>
      var t := w.waiting[i];
      w.(waiting := w.waiting[..i] + w.waiting[i + 1..],
         live := if t.id in w.live then w.live[t.id := Transferred(w.live[t.id], t.order)] else w.live)
    case Close(id) => w.(closed := w.closed + {id}, live := w.live[id := w.live[id].(phase := MetaDue)])
    case WriteMeta(id) =>
      var l := w.live[id];
      w.(disk := PutMeta(w.disk, id, Meta(l.terms, l.confirmed)), live := w.live[id := l.(phase := StateDue)])
    case WriteState(id) =>
      var l := w.live[id];
      w.(disk := PutState(w.disk, id, Current(l)), live := w.live[id := l.(phase := Idle, persisted := |l.past|)])
  }

  predicate IsRun(w: World, steps: seq<Step>)
    decreases steps
  {
    steps != [] ==> Enabled(w, steps[0]) && IsRun(Next(w, steps[0]), steps[1..])
  }

  function RunFrom(w: World, steps: seq<Step>): World
    requires IsRun(w, steps)
    decreases steps
  {
    if steps == [] then w else RunFrom(Next(w, steps[0]), steps[1..])
  }

  lemma {:induction false} RunAppend(w: World, a: seq<Step>, b: seq<Step>)
    requires IsRun(w, a) && IsRun(RunFrom(w, a), b)
    ensures IsRun(w, a + b) && RunFrom(w, a + b) == RunFrom(RunFrom(w, a), b)
    decreases a
  {
    if a == [] {
      assert a + b == b;
    } else {
      assert (a + b)[1..] == a[1..] + b;
      RunAppend(Next(w, a[0]), a[1..], b);
    }
  }

  lemma SingleRuns(w: World, step: Step)
    requires Enabled(w, step)
    ensures IsRun(w, [step]) && RunFrom(w, [step]) == Next(w, step)
  {
    assert [step][1..] == [];
  }

  /** A run that is one step longer. */
  lemma Extend(w: World, steps: seq<Step>, step: Step)
    requires IsRun(w, steps) && Enabled(RunFrom(w, steps), step)
    ensures IsRun(w, steps + [step]) && RunFrom(w, steps + [step]) == Next(RunFrom(w, steps), step)
  {
    SingleRuns(RunFrom(w, steps), step);
    RunAppend(w, steps, [step]);
  }

  // ---------- what every run keeps ----------

  /** The states of a channel: each conserving, each one version after the one before it. */
  ghost predicate History(l: Live) {
    && ValidTerms(l.terms) && l.past != []
    && (forall i :: 0 <= i < |l.past| ==>
        Conserving(l.past[i], l.terms.cfg) && l.past[i].version == l.past[0].version + i)
  }

  /** The rows are exactly the states persisted so far, and at most the current one is missing. */
  ghost predicate RowsMatch(rows: map<nat, State>, l: Live)
    requires l.past != []
  {
    && l.persisted <= |l.past| <= l.persisted + 1
    && (forall v: nat :: v in rows <==> l.past[0].version <= v < l.past[0].version + l.persisted)
    && (forall v: nat :: v in rows ==> rows[v] == l.past[v - l.past[0].version])
  }

  ghost predicate MetaMatches(d: Disk, id: TxId, l: Live) {
    && (id in d.meta ==> d.meta[id].terms == l.terms && (d.meta[id].confirmed ==> l.confirmed))
    && (id in d.meta <==> l.persisted > 0 || l.phase == StateDue)
    && (l.phase == Idle ==> l.persisted == |l.past|)
  }

  ghost predicate Kept(w: World, id: TxId) {
    if id in w.live then
      History(w.live[id]) && RowsMatch(Rows(w.disk, id), w.live[id]) && MetaMatches(w.disk, id, w.live[id])
    else
      id !in w.disk.meta && id !in w.disk.states
  }

  lemma TransferredKeeps(l: Live, order: Order)
    requires History(l)
    ensures History(Transferred(l, order))
    ensures Transferred(l, order) == l || (Transferred(l, order).past[..|l.past|] == l.past
            && Transferred(l, order) == l.(past := Transferred(l, order).past, phase := MetaDue)
            && |Transferred(l, order).past| == |l.past| + 1)
  {
    var s := Current(l);
    TransferExact(s, order.sender, order.recipient, order.delta, l.terms.cfg);
  }

  /** The channel that a step works on, if any. */
  function Target(w: World, step: Step): Option<TxId>
    requires Enabled(w, step)
  {
    match step
    case Add(id, _) => Some(id)
    case Confirm(id) => Some(id)
    case Arrive(_) => None
    case Enter(i) => Some(w.waiting[i].id)
    case Close(id) => Some(id)
    case WriteMeta(id) => Some(id)
    case WriteState(id) => Some(id)
  }

  /** Steps on other channels change nothing about this one, in memory or in the tables. */
  lemma OthersUnchanged(w: World, step: Step, id: TxId)
    requires Enabled(w, step) && Target(w, step) != Some(id)
    ensures var w' := Next(w, step);
            && (id in w'.live <==> id in w.live) && (id in w.live ==> w'.live[id] == w.live[id])
            && (id in w'.disk.meta <==> id in w.disk.meta)
               && (id in w.disk.meta ==> w'.disk.meta[id] == w.disk.meta[id])
            && (id in w'.disk.states <==> id in w.disk.states) && Rows(w'.disk, id) == Rows(w.disk, id)
  {
  }

  lemma StepKeeps(w: World, step: Step, id: TxId)
    requires Enabled(w, step) && Kept(w, id)
    ensures Kept(Next(w, step), id)
  {
    if Target(w, step) != Some(id) {
      OthersUnchanged(w, step, id);
      hide Next, Enabled, Rows, Target, History, RowsMatch;
    } else if step.Enter? {
      EnterKeeps(w, step.i);
    } else if step.WriteState? {
      WriteStateKeeps(w, id);
    } else if step.Add? {
      assert Rows(Next(w, step).disk, id) == map[];
    } else {
      SameHistory(Rows(w.disk, id), w.live[id], Next(w, step).live[id]);
      assert Rows(Next(w, step).disk, id) == Rows(w.disk, id);
      hide History, RowsMatch, Rows;
    }
  }

  lemma SameHistory(rows: map<nat, State>, l: Live, l': Live)
    requires l.terms == l'.terms && l.past == l'.past && l.persisted == l'.persisted
    ensures History(l') <==> History(l)
    ensures l.past != [] ==> (RowsMatch(rows, l') <==> RowsMatch(rows, l))
  {
  }

  lemma EnterKeeps(w: World, i: nat)
    requires Enabled(w, Enter(i)) && Kept(w, w.waiting[i].id)
    ensures Kept(Next(w, Enter(i)), w.waiting[i].id)
  {
    var t := w.waiting[i];
    if t.id in w.live {
      var l, l' := w.live[t.id], Transferred(w.live[t.id], t.order);
      TransferredKeeps(l, t.order);
      RowsStillMatch(Rows(w.disk, t.id), l, l');
    }
  }

  lemma RowsStillMatch(rows: map<nat, State>, l: Live, l': Live)
    requires l.past != [] && RowsMatch(rows, l) && l.persisted == |l.past|
    requires l' == l || (l'.persisted == l.persisted && |l'.past| == |l.past| + 1 && l'.past[..|l.past|] == l.past)
    ensures l'.past != [] && RowsMatch(rows, l')
  {
    assert l'.past[0] == l'.past[..|l.past|][0];
    forall v: nat | v in rows ensures rows[v] == l'.past[v - l'.past[0].version] {
      assert l'.past[v - l.past[0].version] == l'.past[..|l.past|][v - l.past[0].version];
    }
  }

  lemma WriteStateKeeps(w: World, id: TxId)
    requires Enabled(w, WriteState(id)) && Kept(w, id)
    ensures Kept(Next(w, WriteState(id)), id)
  {
    var l, w' := w.live[id], Next(w, WriteState(id));
    WriteKeeps(Rows(w.disk, id), l);
    assert Rows(w'.disk, id) == Rows(w.disk, id)[Current(l).version := Current(l)];
    SameHistory(Rows(w'.disk, id), l.(persisted := |l.past|), w'.live[id]);
    assert History(w'.live[id]) by { assert w'.live[id].past == l.past && w'.live[id].terms == l.terms; }
    hide Rows, RowsMatch, History;
  }

  lemma WriteKeeps(rows: map<nat, State>, l: Live)
    requires History(l) && RowsMatch(rows, l)
    ensures RowsMatch(rows[Current(l).version := Current(l)], l.(persisted := |l.past|))
  {
  }

  lemma {:induction false} RunKeeps(w: World, steps: seq<Step>, id: TxId)
    requires IsRun(w, steps) && Kept(w, id)
    ensures Kept(RunFrom(w, steps), id)
    decreases steps
  {
    if steps != [] {
      StepKeeps(w, steps[0], id);
      RunKeeps(Next(w, steps[0]), steps[1..], id);
    }
  }

  /** What recovery finds for a channel whose tables match its history. */
  lemma RecoverFinds(d: Disk, id: TxId, l: Live)
    requires History(l) && RowsMatch(Rows(d, id), l) && MetaMatches(d, id, l)
    ensures id !in d.meta ==> Recover(d, id) == Ok(None) && |l.past| == 1 && l.phase == MetaDue
    ensures id in d.meta && l.persisted > 0
        ==> Recover(d, id) == Ok(Some(Recovered(l.terms, d.meta[id].confirmed, l.past[l.persisted - 1])))
    ensures id in d.meta && l.persisted == 0
        ==> |l.past| == 1
            && Recover(d, id) == Ok(Some(Recovered(l.terms, d.meta[id].confirmed, InitialState(l.terms.cfg, 0))))
  {
    var rows := Rows(d, id);
    if l.persisted > 0 {
      var v := l.past[0].version + l.persisted - 1;
      assert IsHighest(rows, v);
      LatestIs(rows, v);
    } else if id in d.meta {
      assert rows == map[];
      assert Latest(rows) == None;
    }
  }

  predicate StartsInitial(l: Live) {
    l.past != [] && l.terms.cfg.n > 0 && l.past[0] == InitialState(l.terms.cfg, 0)
  }

  /** At every point of every run, that is with a crash between any two store transactions of any
      interleaving of calls: a channel that was added in its initial state is recovered either not
      at all - before its first transaction, when it has done nothing yet - or in exactly the
      current state of its run or the one before it. That state conserves, its version is the
      in-memory version or one less, and a confirmation is never invented. */
  lemma RecoversTheRun(steps: seq<Step>, id: TxId)
    requires IsRun(EMPTY_WORLD, steps)
    ensures var w := RunFrom(EMPTY_WORLD, steps);
            id !in w.live ==> Recover(w.disk, id) == Ok(None)
    ensures var w := RunFrom(EMPTY_WORLD, steps);
            id in w.live && StartsInitial(w.live[id]) ==>
              || (Recover(w.disk, id) == Ok(None) && |w.live[id].past| == 1)
              || exists v: nat :: RecoveredAt(w, id, v)
    ensures var w := RunFrom(EMPTY_WORLD, steps);
            id in w.live && w.live[id].phase == Idle ==>
                w.live[id].past != [] && RecoveredAt(w, id, |w.live[id].past| - 1)
  {
    hide IsRun, RunFrom;
    RunKeeps(EMPTY_WORLD, steps, id);
    var w := RunFrom(EMPTY_WORLD, steps);
    if id in w.live {
      var l := w.live[id];
      RecoverFinds(w.disk, id, l);
      if id in w.disk.meta && StartsInitial(l) {
        var v := if l.persisted > 0 then l.persisted - 1 else 0;
        assert RecoveredAt(w, id, v);
      }
    }
  }

  /** Recovery gives the v-th state of the channel's run, the current one or the one before. */
  ghost predicate RecoveredAt(w: World, id: TxId, v: nat)
    requires id in w.live
  {
    var l := w.live[id];
    && v < |l.past| <= v + 2
    && Conserving(l.past[v], l.terms.cfg)
    && Recover(w.disk, id).Ok? && Recover(w.disk, id).value.Some?
    && var r := Recover(w.disk, id).value.value;
       r.terms == l.terms && r.state == l.past[v] && (r.confirmed ==> l.confirmed)
       && Current(l).version - 1 <= r.state.version <= Current(l).version
  }

  /** The two parts of a run. */
  lemma {:induction false} RunSplits(w: World, a: seq<Step>, b: seq<Step>)
    requires IsRun(w, a + b)
    ensures IsRun(w, a) && IsRun(RunFrom(w, a), b) && RunFrom(w, a + b) == RunFrom(RunFrom(w, a), b)
    decreases a
  {
    if a == [] {
      assert a + b == b;
    } else {
      assert (a + b)[1..] == a[1..] + b;
      RunSplits(Next(w, a[0]), a[1..], b);
    }
  }

  /** Only writing its terms changes a channel's row of terms. */
  lemma {:induction false} MetaStays(w: World, steps: seq<Step>, id: TxId)
    requires IsRun(w, steps) && id in w.disk.meta && WriteMeta(id) !in steps
    ensures id in RunFrom(w, steps).disk.meta && RunFrom(w, steps).disk.meta[id] == w.disk.meta[id]
    decreases steps
  {
    if steps != [] {
      assert steps[0] in steps;
      MetaStays(Next(w, steps[0]), steps[1..], id);
    }
  }

  /** The recovered flag is the one that the channel had when its terms were last written, and it is
      always recovered then. */
  lemma RecoversTheFlag(before: seq<Step>, after: seq<Step>, id: TxId)
    requires IsRun(EMPTY_WORLD, before + [WriteMeta(id)] + after) && WriteMeta(id) !in after
    ensures IsRun(EMPTY_WORLD, before) && id in RunFrom(EMPTY_WORLD, before).live
    ensures var r := Recover(RunFrom(EMPTY_WORLD, before + [WriteMeta(id)] + after).disk, id);
            && r.Ok? && r.value.Some?
            && r.value.value.confirmed == RunFrom(EMPTY_WORLD, before).live[id].confirmed
  {
    var step := WriteMeta(id);
    RunSplits(EMPTY_WORLD, before + [step], after);
    RunSplits(EMPTY_WORLD, before, [step]);
    var w := RunFrom(EMPTY_WORLD, before);
    assert Enabled(w, step);
    SingleRuns(w, step);
    MetaStays(Next(w, step), after, id);
    var all := before + [step] + after;
    hide IsRun, RunFrom;
    RunKeeps(EMPTY_WORLD, all, id);
    FlagIsRead(RunFrom(EMPTY_WORLD, all), id);
  }

  lemma FlagIsRead(w: World, id: TxId)
    requires Kept(w, id) && id in w.disk.meta
    ensures var r := Recover(w.disk, id);
            r.Ok? && r.value.Some? && r.value.value.confirmed == w.disk.meta[id].confirmed
  {
    hide Recover;
    RecoverFinds(w.disk, id, w.live[id]);
  }

  /** A channel added in any other state: a crash between its first two transactions recovers the
      initial state instead, which it never had. */
  lemma AddedLateIsLost(id: TxId, l: Live) returns (steps: seq<Step>)
    requires NewChannel(id, l) && !StartsInitial(l)
    ensures IsRun(EMPTY_WORLD, steps)
    ensures var w := RunFrom(EMPTY_WORLD, steps);
            && id in w.live && w.live[id].past == l.past
            && Recover(w.disk, id).Ok? && Recover(w.disk, id).value.Some?
            && Recover(w.disk, id).value.value.state == InitialState(l.terms.cfg, 0) != l.past[0]
  {
    var a, b := Add(id, l), WriteMeta(id);
    steps := [a, b];
    var w1 := Next(EMPTY_WORLD, a);
    var w2 := Next(w1, b);
    assert steps[1..] == [b] && [b][1..] == [];
    assert IsRun(w2, []) && IsRun(w1, [b]) && IsRun(EMPTY_WORLD, steps);
    assert RunFrom(w2, []) == w2 && RunFrom(w1, [b]) == w2 && RunFrom(EMPTY_WORLD, steps) == RunFrom(w1, [b]);
    assert Rows(w2.disk, id) == map[];
    RecoverFinds(w2.disk, id, w2.live[id]);
  }

  // ---------- closing ----------

  predicate NoneWaiting(w: World, id: TxId) {
    forall i :: 0 <= i < |w.waiting| ==> w.waiting[i].id != id
  }

  /** A channel that is closed while no transfer waits for its lock never changes again, and what
      recovery gives once the close is written is its final state. */
  lemma {:induction false} NothingAfterClose(w: World, steps: seq<Step>, id: TxId)
    requires IsRun(w, steps) && id in w.closed && id in w.live && NoneWaiting(w, id)
    ensures id in RunFrom(w, steps).live && RunFrom(w, steps).live[id].past == w.live[id].past
    decreases steps
  {
    if steps != [] {
      var w' := Next(w, steps[0]);
      assert NoneWaiting(w', id);
      NothingAfterClose(w', steps[1..], id);
    }
  }

  /** In general a closed channel stays as it is, in every continuation, exactly when no waiting
      transfer is legal on its state. */
  lemma {:induction false} OnlyLegalWaitersChange(w: World, steps: seq<Step>, id: TxId)
    requires IsRun(w, steps) && id in w.closed && id in w.live && NoLegalWaiter(w, id)
    ensures id in RunFrom(w, steps).live && RunFrom(w, steps).live[id].past == w.live[id].past
    decreases steps
  {
    if steps != [] {
      var w' := Next(w, steps[0]);
      forall t | t in w'.waiting && t.id == id ensures Transferred(w'.live[id], t.order).past == w'.live[id].past {
        assert t in w.waiting;
        assert w'.live[id].past == w.live[id].past && w'.live[id].terms == w.live[id].terms;
        assert Transferred(w.live[id], t.order).past == w.live[id].past;
      }
      OnlyLegalWaitersChange(w', steps[1..], id);
    }
  }

  ghost predicate NoLegalWaiter(w: World, id: TxId)
    requires id in w.live
  {
    forall t :: t in w.waiting && t.id == id ==> Transferred(w.live[id], t.order).past == w.live[id].past
  }

  ghost predicate ClosedForGood(w: World, id: TxId)
    requires id in w.live
  {
    forall steps | IsRun(w, steps) :: id in RunFrom(w, steps).live ==>
        RunFrom(w, steps).live[id].past == w.live[id].past
  }

  /** The check for a closed channel is made before the lock is taken: on a closed channel that is
      not being written, nothing more commits exactly when no waiting transfer is legal. */
  lemma ClosedExactly(w: World, id: TxId)
    requires id in w.closed && id in w.live && w.live[id].phase == Idle
    ensures ClosedForGood(w, id) <==> NoLegalWaiter(w, id)
  {
    if NoLegalWaiter(w, id) {
      forall steps | IsRun(w, steps)
        ensures id in RunFrom(w, steps).live && RunFrom(w, steps).live[id].past == w.live[id].past
      {
        OnlyLegalWaitersChange(w, steps, id);
      }
    } else {
      var t :| t in w.waiting && t.id == id && Transferred(w.live[id], t.order).past != w.live[id].past;
      var i :| 0 <= i < |w.waiting| && w.waiting[i] == t;
      var steps := [Enter(i)];
      assert steps[1..] == [];
      assert IsRun(Next(w, Enter(i)), []);
      assert RunFrom(w, steps) == Next(w, Enter(i));
    }
  }

  /** The channel after it was added, confirmed, persisted and closed, with a transfer waiting. */
  function ClosedWithWaiter(id: TxId, l: Live, order: Order): World
    requires NewChannel(id, l)
  {
    var d := PutState(PutMeta(EMPTY_DISK, id, Meta(l.terms, true)), id, Current(l));
    World(map[id := l.(confirmed := true, phase := Idle, persisted := 1)], {id}, [Waiting(id, order)],
          PutState(PutMeta(d, id, Meta(l.terms, true)), id, Current(l)))
  }

  /** Both writes of a channel that is about to be persisted. */
  lemma WritesBoth(steps: seq<Step>, id: TxId, l: Live, w: World) returns (longer: seq<Step>)
    requires IsRun(EMPTY_WORLD, steps) && RunFrom(EMPTY_WORLD, steps) == w
    requires id in w.live && w.live[id] == l && l.phase == MetaDue && l.past != []
    ensures IsRun(EMPTY_WORLD, longer)
    ensures RunFrom(EMPTY_WORLD, longer)
         == w.(live := w.live[id := l.(phase := Idle, persisted := |l.past|)],
               disk := PutState(PutMeta(w.disk, id, Meta(l.terms, l.confirmed)), id, Current(l)))
  {
    hide IsRun, RunFrom, PutState, PutMeta;
    Extend(EMPTY_WORLD, steps, WriteMeta(id));
    Extend(EMPTY_WORLD, steps + [WriteMeta(id)], WriteState(id));
    longer := steps + [WriteMeta(id)] + [WriteState(id)];
  }

  lemma AddedAndPersisted(id: TxId, l: Live) returns (steps: seq<Step>)
    requires NewChannel(id, l)
    ensures IsRun(EMPTY_WORLD, steps)
    ensures var d := PutState(PutMeta(EMPTY_DISK, id, Meta(l.terms, true)), id, Current(l));
            RunFrom(EMPTY_WORLD, steps)
                == World(map[id := l.(confirmed := true, phase := Idle, persisted := 1)], {}, [], d)
  {
    hide IsRun, RunFrom, PutState, PutMeta;
    EmptyRun(EMPTY_WORLD);
    Extend(EMPTY_WORLD, [], Add(id, l));
    Extend(EMPTY_WORLD, [] + [Add(id, l)], Confirm(id));
    steps := [] + [Add(id, l)] + [Confirm(id)];
    steps := WritesBoth(steps, id, l.(confirmed := true), RunFrom(EMPTY_WORLD, steps));
  }

  lemma EmptyRun(w: World)
    ensures IsRun(w, []) && RunFrom(w, []) == w
  {
  }

  lemma ClosedWhileWaiting(id: TxId, l: Live, order: Order) returns (steps: seq<Step>)
    requires NewChannel(id, l)
    ensures IsRun(EMPTY_WORLD, steps) && RunFrom(EMPTY_WORLD, steps) == ClosedWithWaiter(id, l, order)
  {
    hide IsRun, RunFrom, PutState, PutMeta, NewChannel;
    var added := AddedAndPersisted(id, l);
    Extend(EMPTY_WORLD, added, Arrive(Waiting(id, order)));
    Extend(EMPTY_WORLD, added + [Arrive(Waiting(id, order))], Close(id));
    steps := added + [Arrive(Waiting(id, order))] + [Close(id)];
    var w := RunFrom(EMPTY_WORLD, steps);
    assert w.closed == {id} && w.waiting == [Waiting(id, order)];
    NewHasOneState(id, l);
    steps := WritesBoth(steps, id, w.live[id], w);
  }

  lemma NewHasOneState(id: TxId, l: Live)
    requires NewChannel(id, l)
    ensures |l.past| == 1
  {
  }

  /** The race is real: for every channel and every transfer that is legal on it, a run from the
      empty program closes the channel, persists it, and then commits the transfer. */
  lemma TransferAfterClose(id: TxId, l: Live, order: Order, s: State) returns (steps: seq<Step>)
    requires NewChannel(id, l)
    requires Transfer(Current(l), order.sender, order.recipient, order.delta, l.terms.cfg) == Ok(s)
    ensures IsRun(EMPTY_WORLD, steps) && IsRun(RunFrom(EMPTY_WORLD, steps), [Enter(0)])
    ensures var w := RunFrom(EMPTY_WORLD, steps);
            && id in w.closed && id in w.live && w.live[id].phase == Idle && !NoLegalWaiter(w, id)
            && RunFrom(w, [Enter(0)]).live[id].past == w.live[id].past + [s]
  {
    steps := ClosedWhileWaiting(id, l, order);
    var w := ClosedWithWaiter(id, l, order);
    SingleRuns(w, Enter(0));
    assert w.waiting[0] in w.waiting;
    assert Transferred(w.live[id], order).past == w.live[id].past + [s];
  }
}
