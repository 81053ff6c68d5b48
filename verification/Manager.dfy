/** The store and the channel manager as objects: calls one after the other, each of which is a
    run of the interleaved program, so that every crash point is covered by its theorems. */
module Manager {
  import opened Ledger
  import opened Accounting
  import opened Validation
  import opened Lifecycle
  import opened Channels
  import opened Recovery

  class SystemStore {
    var meta: map<TxId, Meta>
    var states: map<TxId, map<nat, State>>
    /** What the disk has held after each transaction so far: the crash points. */
    ghost var history: seq<Disk>

    ghost function Contents(): Disk
      reads this
    {
      Disk(meta, states)
    }

    constructor ()
      ensures Contents() == EMPTY_DISK && history == [EMPTY_DISK]
    {
      meta, states := map[], map[];
      history := [EMPTY_DISK];
    }

    method PutChannelMeta(id: TxId, m: Meta)
      modifies this
      ensures meta == old(meta)[id := m] && states == old(states)
      ensures Contents() == PutMeta(old(Contents()), id, m)
      ensures history == old(history) + [Contents()]
    {
      meta := meta[id := m];
      history := history + [Contents()];
    }

    method PutChannelState(id: TxId, s: State)
      modifies this
      ensures meta == old(meta)
      ensures states == old(states)[id := (if id in old(states) then old(states)[id] else map[])[s.version := s]]
      ensures Contents() == PutState(old(Contents()), id, s)
      ensures history == old(history) + [Contents()]
    {
      var rows := if id in states then states[id] else map[];
      states := states[id := rows[s.version := s]];
      history := history + [Contents()];
    }

    /** Looks through all rows of a channel for the highest version. */
    method GetLatestChannelState(id: TxId) returns (r: Option<State>)
      ensures r == Latest(Rows(Contents(), id))
      ensures r == None <==> id !in states || states[id] == map[]
      ensures r.Some? ==> id in states && exists v: nat ::
                v in states[id] && r.value == states[id][v] && forall x: nat :: x in states[id] ==> x <= v
    {
      var rows := if id in states then states[id] else map[];
      var unseen := rows.Keys;
      r := None;
      var best: nat := 0;
      while unseen != {}
        invariant unseen <= rows.Keys
        invariant r == None ==> unseen == rows.Keys
        invariant r.Some? ==> best in rows && r == Some(rows[best]) && forall x: nat :: x in rows && x !in unseen ==>
                  x <= best
        decreases |unseen|
      {
        var v: nat :| v in unseen;
        unseen := unseen - {v};
        if r == None || v > best { r, best := Some(rows[v]), v; }
      }
      if r.Some? {
        assert IsHighest(rows, best);
        LatestIs(rows, best);
      }
    }

    /** Rebuilds what the tables say about a channel. */
    method RecoverChannel(id: TxId) returns (r: Result<Option<Recovered>, AccountingError>)
      ensures r == Recover(Contents(), id)
    {
      if id !in meta { return Ok(None); }
      var m := meta[id];
      var latest := GetLatestChannelState(id);
      if latest == None {
        if m.terms.cfg.n == 0 { return Err(NotConserving); }
        return Ok(Some(Recovered(m.terms, m.confirmed, InitialState(m.terms.cfg, 0))));
      }
      if !Conserving(latest.value, m.terms.cfg) { return Err(NotConserving); }
      return Ok(Some(Recovered(m.terms, m.confirmed, latest.value)));
    }
  }

  datatype ManagerError =
    | AlreadyRegistered
    | NotRegistered
    | AlreadyClosed
    | Refused(why: AccountingError)
    | NotSigned(cause: LifecycleError)

  // ---------- calls as runs ----------

  /** The in-memory channel after its state has been written. */
  function Written(l: Live, confirmed: bool): Live {
    l.(confirmed := confirmed, phase := Idle, persisted := |l.past|)
  }

  function Persisted(w: World, id: TxId, l: Live): World
    requires l.past != []
  {
    w.(live := w.live[id := l], disk := PutState(PutMeta(w.disk, id, Meta(l.terms, l.confirmed)), id, Current(l)))
  }

  /** Persisting a channel: its confirmation becomes known, and the two transactions follow. */
  function PersistSteps(id: TxId, confirmed: bool): seq<Step> {
    (if confirmed then [Confirm(id)] else []) + [WriteMeta(id), WriteState(id)]
  }

  lemma WritesRun(w: World, id: TxId)
    requires id in w.live && w.live[id].phase == MetaDue && w.live[id].past != []
    ensures IsRun(w, [WriteMeta(id), WriteState(id)])
    ensures RunFrom(w, [WriteMeta(id), WriteState(id)]) == Persisted(w, id, Written(w.live[id], w.live[id].confirmed))
  {
    var w1 := Next(w, WriteMeta(id));
    SingleRuns(w, WriteMeta(id));
    SingleRuns(w1, WriteState(id));
    assert [WriteMeta(id)] + [WriteState(id)] == [WriteMeta(id), WriteState(id)];
    assert Next(w1, WriteState(id)).live == w.live[id := Written(w.live[id], w.live[id].confirmed)];
    hide IsRun, RunFrom;
    RunAppend(w, [WriteMeta(id)], [WriteState(id)]);
  }

  lemma PersistRuns(w: World, id: TxId, confirmed: bool)
    requires id in w.live && w.live[id].phase == MetaDue && w.live[id].past != []
             && (w.live[id].confirmed ==> confirmed)
    ensures IsRun(w, PersistSteps(id, confirmed))
    ensures RunFrom(w, PersistSteps(id, confirmed)) == Persisted(w, id, Written(w.live[id], confirmed))
  {
    hide IsRun, RunFrom;
    var both := [WriteMeta(id), WriteState(id)];
    if confirmed {
      var w1 := Next(w, Confirm(id));
      SingleRuns(w, Confirm(id));
      WritesRun(w1, id);
      RunAppend(w, [Confirm(id)], both);
      assert w1.live[id := Written(w1.live[id], true)] == w.live[id := Written(w.live[id], true)];
    } else {
      WritesRun(w, id);
      assert [] + both == both;
    }
  }

  lemma OneThenPersist(w: World, a: seq<Step>, id: TxId, confirmed: bool)
    requires IsRun(w, a)
    requires var v := RunFrom(w, a);
             id in v.live && v.live[id].phase == MetaDue && v.live[id].past != []
                 && (v.live[id].confirmed ==> confirmed)
    ensures var v := RunFrom(w, a);
            && IsRun(w, a + PersistSteps(id, confirmed))
            && RunFrom(w, a + PersistSteps(id, confirmed)) == Persisted(v, id, Written(v.live[id], confirmed))
  {
    PersistRuns(RunFrom(w, a), id, confirmed);
    RunAppend(w, a, PersistSteps(id, confirmed));
  }

  /** A transfer that finds no other waiting: it arrives and enters at once. */
  lemma TransferRuns(w: World, id: TxId, order: Order)
    requires w.waiting == [] && id !in w.closed && id in w.live && w.live[id].phase == Idle
    ensures var steps := [Arrive(Waiting(id, order)), Enter(0)];
            IsRun(w, steps) && RunFrom(w, steps) == w.(live := w.live[id := Transferred(w.live[id], order)])
  {
    var a, b := Arrive(Waiting(id, order)), Enter(0);
    var w1 := Next(w, a);
    SingleRuns(w, a);
    SingleRuns(w1, b);
    RunAppend(w, [a], [b]);
    assert [a] + [b] == [a, b];
  }

  /** The run has left the channel idle, in this state. */
  ghost predicate Tracks(w: World, id: TxId, terms: Terms, s: State, confirmed: bool) {
    && id in w.live && w.live[id].phase == Idle && w.live[id].past != []
    && Current(w.live[id]) == s && w.live[id].terms == terms && (w.live[id].confirmed ==> confirmed)
  }

  /** After a persist the channel is tracked in its new state, and every other one as before. */
  lemma PersistedTracks(w: World, id: TxId, l: Live)
    requires l.phase == Idle && l.past != []
    ensures Tracks(Persisted(w, id, l), id, l.terms, Current(l), l.confirmed)
    ensures forall x, t, s, c :: x != id ==> (Tracks(Persisted(w, id, l), x, t, s, c) <==> Tracks(w, x, t, s, c))
  {
  }

  /** Adding a channel and persisting it. */
  lemma AddRuns(w: World, id: TxId, terms: Terms, s: State, confirmed: bool)
    requires id !in w.live && ValidTerms(terms) && terms.funding == id && Conserving(s, terms.cfg)
    ensures var steps := [Add(id, Live(terms, false, MetaDue, [s], 0))] + PersistSteps(id, confirmed);
            IsRun(w, steps) && RunFrom(w, steps) == Persisted(w, id, Live(terms, confirmed, Idle, [s], 1))
  {
    var l := Live(terms, false, MetaDue, [s], 0);
    SingleRuns(w, Add(id, l));
    OneThenPersist(w, [Add(id, l)], id, confirmed);
    assert w.live[id := l][id := Written(l, confirmed)] == w.live[id := Written(l, confirmed)];
  }

  /** A legal transfer and its persist. */
  lemma TransferThenPersist(w: World, id: TxId, order: Order, s: State, confirmed: bool)
    requires w.waiting == [] && id !in w.closed && id in w.live && w.live[id].phase == Idle && w.live[id].past != []
    requires w.live[id].confirmed ==> confirmed
    requires |Current(w.live[id]).balances| == w.live[id].terms.cfg.n
    requires Transfer(Current(w.live[id]), order.sender, order.recipient, order.delta, w.live[id].terms.cfg) == Ok(s)
    ensures var steps := [Arrive(Waiting(id, order)), Enter(0)] + PersistSteps(id, confirmed);
            var l := w.live[id];
            && IsRun(w, steps)
            && RunFrom(w, steps) == Persisted(w, id, Live(l.terms, confirmed, Idle, l.past + [s], |l.past| + 1))
  {
    var l := w.live[id];
    TransferRuns(w, id, order);
    var l' := Transferred(l, order);
    assert l' == l.(past := l.past + [s], phase := MetaDue);
    hide Transferred, Transfer, IsRun, RunFrom;
    OneThenPersist(w, [Arrive(Waiting(id, order)), Enter(0)], id, confirmed);
    assert w.live[id := l'][id := Written(l', confirmed)] == w.live[id := Written(l', confirmed)];
  }

  lemma CloseRuns(w: World, id: TxId)
    requires id in w.live && id !in w.closed && w.live[id].phase == Idle && w.live[id].past != []
    ensures var steps := [Confirm(id), Close(id)] + PersistSteps(id, true);
            && IsRun(w, steps)
            && RunFrom(w, steps) == Persisted(w, id, Written(w.live[id], true)).(closed := w.closed + {id})
  {
    var w1 := Next(w, Confirm(id));
    var l := w.live[id].(confirmed := true, phase := MetaDue);
    SingleRuns(w, Confirm(id));
    SingleRuns(w1, Close(id));
    RunAppend(w, [Confirm(id)], [Close(id)]);
    assert [Confirm(id)] + [Close(id)] == [Confirm(id), Close(id)];
    var w2 := Next(w1, Close(id));
    assert w2 == w.(closed := w.closed + {id}, live := w.live[id := l]);
    OneThenPersist(w, [Confirm(id), Close(id)], id, true);
    assert w.live[id := l][id := Written(l, true)] == w.live[id := Written(l, true)];
  }

  // ---------- the manager ----------

  /** What the run knows of a channel. */
  datatype Snapshot = Snapshot(terms: Terms, state: State, confirmed: bool)

  /** These channels, all idle, and these tables. */
  ghost predicate WorldMatches(w: World, closed: set<TxId>, seen: map<TxId, Snapshot>, d: Disk) {
    && w.waiting == [] && w.closed == closed && w.disk == d && w.live.Keys == seen.Keys
    && forall id :: id in seen ==> Tracks(w, id, seen[id].terms, seen[id].state, seen[id].confirmed)
  }

  /** The run so far has led to these channels, all idle, and to these tables. */
  ghost predicate RunMatches(trace: seq<Step>, closed: set<TxId>, seen: map<TxId, Snapshot>, d: Disk) {
    IsRun(EMPTY_WORLD, trace) && WorldMatches(RunFrom(EMPTY_WORLD, trace), closed, seen, d)
  }

  function AfterPersist(d: Disk, id: TxId, s: Snapshot): Disk {
    PutState(PutMeta(d, id, Meta(s.terms, s.confirmed)), id, s.state)
  }

  lemma PersistedMatches(w: World, closed: set<TxId>, seen: map<TxId, Snapshot>, d: Disk,
                         closed': set<TxId>, id: TxId, l: Live)
    requires WorldMatches(w, closed, seen, d) && l.phase == Idle && l.past != []
    ensures var s := Snapshot(l.terms, Current(l), l.confirmed);
            WorldMatches(Persisted(w, id, l).(closed := closed'), closed', seen[id := s], AfterPersist(d, id, s))
  {
    PersistedTracks(w, id, l);
    var v := Persisted(w, id, l);
    forall x, t, s, c ensures Tracks(v.(closed := closed'), x, t, s, c) <==> Tracks(v, x, t, s, c) {}
    hide PutMeta, PutState, Tracks;
  }

  lemma Continue(trace: seq<Step>, closed: set<TxId>, seen: map<TxId, Snapshot>, d: Disk, steps: seq<Step>,
                 closed': set<TxId>, id: TxId, l: Live)
    requires RunMatches(trace, closed, seen, d) && l.phase == Idle && l.past != []
    requires IsRun(RunFrom(EMPTY_WORLD, trace), steps)
    requires var w := RunFrom(EMPTY_WORLD, trace);
             RunFrom(w, steps) == Persisted(w, id, l).(closed := closed')
    ensures var s := Snapshot(l.terms, Current(l), l.confirmed);
            RunMatches(trace + steps, closed', seen[id := s], AfterPersist(d, id, s))
  {
    hide WorldMatches, IsRun, RunFrom, Persisted, AfterPersist;
    RunAppend(EMPTY_WORLD, trace, steps);
    PersistedMatches(RunFrom(EMPTY_WORLD, trace), closed, seen, d, closed', id, l);
  }

  lemma AddMatches(trace: seq<Step>, closed: set<TxId>, seen: map<TxId, Snapshot>, d: Disk, id: TxId, s: Snapshot)
      returns (steps: seq<Step>)
    requires RunMatches(trace, closed, seen, d) && id !in seen
    requires ValidTerms(s.terms) && s.terms.funding == id && Conserving(s.state, s.terms.cfg)
    ensures RunMatches(trace + steps, closed, seen[id := s], AfterPersist(d, id, s))
  {
    AddRuns(RunFrom(EMPTY_WORLD, trace), id, s.terms, s.state, s.confirmed);
    steps := [Add(id, Live(s.terms, false, MetaDue, [s.state], 0))] + PersistSteps(id, s.confirmed);
    Continue(trace, closed, seen, d, steps, closed, id, Live(s.terms, s.confirmed, Idle, [s.state], 1));
  }

  lemma TransferMatches(trace: seq<Step>, closed: set<TxId>, seen: map<TxId, Snapshot>, d: Disk, id: TxId,
                        order: Order, s: Snapshot)
      returns (steps: seq<Step>)
    requires RunMatches(trace, closed, seen, d) && id in seen && id !in closed
    requires seen[id].terms == s.terms && (seen[id].confirmed ==> s.confirmed)
    requires |seen[id].state.balances| == s.terms.cfg.n
    requires Transfer(seen[id].state, order.sender, order.recipient, order.delta, s.terms.cfg) == Ok(s.state)
    ensures RunMatches(trace + steps, closed, seen[id := s], AfterPersist(d, id, s))
  {
    var w := RunFrom(EMPTY_WORLD, trace);
    assert Tracks(w, id, seen[id].terms, seen[id].state, seen[id].confirmed);
    TransferThenPersist(w, id, order, s.state, s.confirmed);
    steps := [Arrive(Waiting(id, order)), Enter(0)] + PersistSteps(id, s.confirmed);
    hide Transfer, RunFrom, IsRun, PersistSteps;
    Continue(trace, closed, seen, d, steps, closed, id,
             Live(s.terms, s.confirmed, Idle, w.live[id].past + [s.state], |w.live[id].past| + 1));
  }

  lemma CloseMatches(trace: seq<Step>, closed: set<TxId>, seen: map<TxId, Snapshot>, d: Disk, id: TxId)
      returns (steps: seq<Step>)
    requires RunMatches(trace, closed, seen, d) && id in seen && id !in closed
    ensures var s := seen[id].(confirmed := true);
            RunMatches(trace + steps, closed + {id}, seen[id := s], AfterPersist(d, id, s))
  {
    var w := RunFrom(EMPTY_WORLD, trace);
    assert Tracks(w, id, seen[id].terms, seen[id].state, seen[id].confirmed);
    CloseRuns(w, id);
    steps := [Confirm(id), Close(id)] + PersistSteps(id, true);
    hide RunFrom, IsRun, PersistSteps;
    Continue(trace, closed, seen, d, steps, closed + {id}, id, Written(w.live[id], true));
  }

  /** A channel in memory is as the run has left it; it may have been confirmed since. */
  ghost predicate InStep(ch: Channel, id: TxId, s: Snapshot)
    reads ch
  {
    && ch.Valid() && ch.terms.funding == id
    && s.terms == ch.terms && s.state == ch.state && (s.confirmed ==> ch.confirmed)
  }

  lemma InStepMeans(ch: Channel, id: TxId, s: Snapshot)
    ensures InStep(ch, id, s) <==>
              && ch.Valid() && ch.terms.funding == id
              && s.terms == ch.terms && s.state == ch.state && (s.confirmed ==> ch.confirmed)
  {
  }

  lemma SignedIsConfirmed(t: Terms, signer: Signer, verify: Interpreter, confirmed: bool, s: State)
    requires ValidTerms(t) && SignedClose(t, signer, verify, confirmed, s).Ok?
    ensures confirmed
  {
  }

  lemma FlagAfterPersist(d: Disk, id: TxId, s: Snapshot)
    ensures var r := Recover(AfterPersist(d, id, s), id);
            r.Ok? && r.value.Some? ==> r.value.value.confirmed == s.confirmed
  {
  }

  class ChannelManager {
    const store: SystemStore
    var channels: map<TxId, Channel>
    var closed: set<TxId>
    /** The steps of all calls so far, and what they have led to. */
    ghost var trace: seq<Step>
    ghost var seen: map<TxId, Snapshot>

    ghost predicate Valid()
      reads this, store, channels.Values
    {
      && RunMatches(trace, closed, seen, store.Contents())
      && seen.Keys == channels.Keys
      && (forall id :: id in channels ==> InStep(channels[id], id, seen[id]))
    }

    constructor (store: SystemStore)
      requires store.Contents() == EMPTY_DISK
      ensures Valid() && this.store == store && channels == map[] && closed == {}
    {
      this.store := store;
      channels, closed, trace, seen := map[], {}, [], map[];
    }

    /** The two transactions that persist a channel. */
    method Persist(id: TxId, ch: Channel)
      modifies store
      ensures store.Contents() == AfterPersist(old(store.Contents()), id, Snapshot(ch.terms, ch.state, ch.confirmed))
      ensures store.history == old(store.history) + [
                PutMeta(old(store.Contents()), id, Meta(ch.terms, ch.confirmed)),
                store.Contents()]
    {
      store.PutChannelMeta(id, Meta(ch.terms, ch.confirmed));
      store.PutChannelState(id, ch.state);
    }

    /** Registers a channel and persists it. */
    method Add(ch: Channel) returns (r: Result<TxId, ManagerError>)
      requires Valid() && ch.Valid()
      modifies this, store
      ensures Valid()
      ensures r == if ch.terms.funding in old(channels) then Err(AlreadyRegistered) else Ok(ch.terms.funding)
      ensures r.Ok? ==> channels == old(channels)[ch.terms.funding := ch]
      ensures r.Ok? ==> Recover(store.Contents(), ch.terms.funding)
                          == Ok(Some(Recovered(ch.terms, ch.confirmed, ch.state)))
      ensures r.Err? ==> channels == old(channels)
      ensures closed == old(closed)
      ensures r.Err? ==> unchanged(store)
      ensures r.Ok? ==>
                store.history == old(store.history) + [
                  PutMeta(old(store.Contents()), ch.terms.funding, Meta(ch.terms, ch.confirmed)),
                  store.Contents()]
    {
      hide RunMatches, AfterPersist, Recover, InStep, Channel.Valid, ValidTerms, Conserving;
      ch.Conserves();
      var id := ch.terms.funding;
      if id in channels { return Err(AlreadyRegistered); }
      ghost var s := Snapshot(ch.terms, ch.state, ch.confirmed);
      ghost var steps := AddMatches(trace, closed, seen, store.Contents(), id, s);
      InStepMeans(ch, id, s);
      FlagAfterPersist(store.Contents(), id, s);
      Persist(id, ch);
      trace, seen := trace + steps, seen[id := s];
      channels := channels[id := ch];
      RecoversCurrent(id);
      return Ok(id);
    }

    /** A legal transfer on an open channel changes its state and persists it; everything else is
        refused and changes nothing. */
    method ApplyTransfer(id: TxId, order: Order) returns (r: Result<nat, ManagerError>)
      requires Valid()
      modifies this, store, set x | x in channels.Values
      ensures Valid() && channels == old(channels) && closed == old(closed)
      ensures id in closed ==> r == Err(AlreadyClosed)
      ensures id !in closed && id !in channels ==> r == Err(NotRegistered)
      ensures id !in closed && id in channels ==>
                match Transfer(old(channels[id].state), order.sender, order.recipient, order.delta,
                               channels[id].terms.cfg)
                case Ok(s) => r == Ok(s.version) && channels[id].state == s
                case Err(e) => r == Err(Refused(e)) && channels[id].state == old(channels[id].state)
      ensures r.Ok? ==>
                && id in channels
                && Recover(store.Contents(), id)
                   == Ok(Some(Recovered(channels[id].terms, channels[id].confirmed, channels[id].state)))
      ensures forall x :: x in channels && (x != id || r.Err?) ==> channels[x].state == old(channels[x].state)
      ensures r.Err? ==> unchanged(store)
      ensures r.Ok? ==>
                && id in channels
                && store.history == old(store.history) + [
                     PutMeta(old(store.Contents()), id, Meta(channels[id].terms, channels[id].confirmed)),
                     store.Contents()]
    {
      hide RunMatches, AfterPersist, Recover, Transfer, InStep, Channel.Valid, ValidTerms, Conserving;
      if id in closed { return Err(AlreadyClosed); }
      if id !in channels { return Err(NotRegistered); }
      var ch := channels[id];
      InStepMeans(ch, id, seen[id]);
      ch.Conserves();
      forall x | x in channels && x != id ensures channels[x] != ch {
        InStepMeans(channels[x], x, seen[x]);
      }
      var moved := ch.ApplyTransfer(order.sender, order.recipient, order.delta);
      if moved.Err? { return Err(Refused(moved.error)); }
      ghost var s := Snapshot(ch.terms, ch.state, ch.confirmed);
      InStepMeans(ch, id, s);
      ghost var steps := TransferMatches(trace, closed, seen, store.Contents(), id, order, s);
      FlagAfterPersist(store.Contents(), id, s);
      Persist(id, ch);
      trace, seen := trace + steps, seen[id := s];
      RecoversCurrent(id);
      return Ok(ch.state.version);
    }

    /** A close that can be signed and unlocks seals the channel and persists it once more. */
    method CooperativeClose(id: TxId) returns (r: Result<Tx, ManagerError>)
      requires Valid()
      modifies this, store
      ensures Valid() && channels == old(channels)
      ensures id !in channels ==> r == Err(NotRegistered)
      ensures id in channels && id in old(closed) ==> r == Err(AlreadyClosed)
      ensures id in channels && id !in old(closed) ==>
                var ch := channels[id];
                match SignedClose(ch.terms, ch.signer, ch.verify, ch.confirmed, ch.state)
                case Ok(tx) => r == Ok(tx)
                case Err(e) => r == Err(NotSigned(e))
      ensures closed == if r.Ok? then old(closed) + {id} else old(closed)
      ensures r.Ok? ==>
                && id in channels && channels[id].confirmed
                && Recover(store.Contents(), id) == Ok(Some(Recovered(channels[id].terms, true, channels[id].state)))
      ensures r.Err? ==> unchanged(store)
      ensures r.Ok? ==>
                && id in channels
                && store.history == old(store.history) + [
                     PutMeta(old(store.Contents()), id, Meta(channels[id].terms, channels[id].confirmed)),
                     store.Contents()]
    {
      hide RunMatches, AfterPersist, Recover, SignedClose, InStep, Channel.Valid, ValidTerms, Conserving;
      if id !in channels { return Err(NotRegistered); }
      var ch := channels[id];
      InStepMeans(ch, id, seen[id]);
      ch.Conserves();
      if id in closed { return Err(AlreadyClosed); }
      var signed := ch.CooperativeClose(None);
      if signed.Err? { return Err(NotSigned(signed.error)); }
      assert ch.confirmed by { SignedIsConfirmed(ch.terms, ch.signer, ch.verify, ch.confirmed, ch.state); }
      ghost var steps := CloseMatches(trace, closed, seen, store.Contents(), id);
      ghost var s := seen[id].(confirmed := true);
      InStepMeans(ch, id, s);
      FlagAfterPersist(store.Contents(), id, s);
      Persist(id, ch);
      closed := closed + {id};
      trace, seen := trace + steps, seen[id := s];
      RecoversCurrent(id);
      return Ok(signed.value);
    }

    /** Between calls, recovery from the store gives every registered channel in its current state. */
    lemma RecoversCurrent(id: TxId)
      requires Valid() && id in channels
      ensures Recover(store.Contents(), id).Ok? && Recover(store.Contents(), id).value.Some?
      ensures Recover(store.Contents(), id).value.value.state == channels[id].state
      ensures Recover(store.Contents(), id).value.value.terms == channels[id].terms
    {
      assert InStep(channels[id], id, seen[id]);
      assert Tracks(RunFrom(EMPTY_WORLD, trace), id, seen[id].terms, seen[id].state, seen[id].confirmed);
      RecoversTheRun(trace, id);
    }
  }
}
