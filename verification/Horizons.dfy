/** Settling a path over time: parties claim with the secret and return from the locktime on, and
    honest parties react within given bounds. */
module Horizons {
  import opened Routing

  datatype Status = Open | Claimed(at: nat) | Returned(at: nat)

  /** The chain's height and what has become of each hop. */
  datatype Net = Net(now: nat, hops: seq<Status>)

  /** Who is honest, and how long an honest intermediary takes at most to claim its incoming hop
      once its outgoing hop is claimed, and to return its outgoing hop once that is possible. */
  datatype Setting = Setting(path: Path, honest: set<nat>, claimWithin: nat, returnWithin: nat)

  datatype Step = Tick | Claim(hop: nat) | Return(hop: nat)

  predicate ValidSetting(w: Setting) {
    WellBuilt(w.path)
  }

  function Start(w: Setting): Net {
    Net(0, seq(|w.path.hops|, _ => Open))
  }

  /** The payee of hop j is party j + 1; it is an intermediary unless j is the last hop. */
  predicate Intermediary(w: Setting, p: nat) {
    1 <= p < |w.path.hops|
  }

  predicate HonestIntermediary(w: Setting, p: nat) {
    Intermediary(w, p) && p in w.honest
  }

  /** An honest intermediary has had its time: it must act before the height grows. */
  predicate Overdue(w: Setting, n: Net, p: nat)
    requires |n.hops| == |w.path.hops| && Intermediary(w, p)
  {
    || (n.hops[p].Claimed? && n.hops[p - 1].Open? && n.now >= n.hops[p].at + w.claimWithin)
    || (n.hops[p].Open? && n.now >= w.path.hops[p].locktime + w.returnWithin)
  }

  /** A hop can be claimed by anyone who may know the secret: the last payee, a dishonest one, or
      an honest one once the secret is on the chain. It can be returned from its locktime on. */
  ghost predicate Enabled(w: Setting, n: Net, step: Step)
    requires |n.hops| == |w.path.hops|
  {
    match step
    case Tick => forall p: nat :: HonestIntermediary(w, p) ==> !Overdue(w, n, p)
    case Claim(j) => && j < |n.hops| && n.hops[j].Open?
                     && (HonestIntermediary(w, j + 1) ==> exists i :: 0 <= i < |n.hops| && n.hops[i].Claimed?)
    case Return(j) => j < |n.hops| && n.hops[j].Open? && n.now >= w.path.hops[j].locktime
  }

  function Apply(n: Net, step: Step): Net
    requires step.Tick? || step.hop < |n.hops|
  {
    match step
    case Tick => n.(now := n.now + 1)
    case Claim(j) => n.(hops := n.hops[j := Claimed(n.now)])
    case Return(j) => n.(hops := n.hops[j := Returned(n.now)])
  }

  /** Every step of the run is possible when it is taken. */
  ghost predicate IsRun(w: Setting, n: Net, steps: seq<Step>)
    requires |n.hops| == |w.path.hops|
    decreases steps
  {
    steps != [] ==> Enabled(w, n, steps[0]) && IsRun(w, Apply(n, steps[0]), steps[1..])
  }

  ghost function RunFrom(w: Setting, n: Net, steps: seq<Step>): (r: Net)
    requires |n.hops| == |w.path.hops| && IsRun(w, n, steps)
    ensures |r.hops| == |n.hops|
    decreases steps
  {
    if steps == [] then n else RunFrom(w, Apply(n, steps[0]), steps[1..])
  }

  /** The intermediary has paid and was not paid. */
  predicate Loses(n: Net, p: nat)
    requires 1 <= p < |n.hops|
  {
    n.hops[p].Claimed? && n.hops[p - 1].Returned?
  }

  // ---------- safety ----------

  /** What holds around an honest intermediary's two hops at all times. */
  predicate Guarded(w: Setting, n: Net, p: nat)
    requires |n.hops| == |w.path.hops| && Intermediary(w, p)
  {
    var outgoing, incoming := n.hops[p], n.hops[p - 1];
    var latest := w.path.hops[p].locktime + w.returnWithin;
    && (outgoing.Open? ==> n.now <= latest)
    && (outgoing.Claimed? ==> outgoing.at <= latest && outgoing.at <= n.now)
    && (outgoing.Claimed? && incoming.Open? ==> n.now <= outgoing.at + w.claimWithin)
    && (outgoing.Returned? ==> w.path.hops[p].locktime <= outgoing.at <= latest && outgoing.at <= n.now)
    && (incoming.Returned? ==>
          w.path.hops[p].locktime + w.path.delta <= incoming.at <= n.now && outgoing.Returned?
              && outgoing.at < incoming.at)
  }

  lemma Gap(w: Setting, p: nat)
    requires ValidSetting(w) && Intermediary(w, p)
    ensures w.path.hops[p - 1].locktime == w.path.hops[p].locktime + w.path.delta
    ensures w.path.hops[p].locktime > 0
  {
    Times(p, w.path.delta);
    LaterIsLower(w.path, p);
  }

  lemma GuardedStep(w: Setting, n: Net, step: Step, p: nat)
    requires ValidSetting(w) && |n.hops| == |w.path.hops| && HonestIntermediary(w, p)
    requires w.claimWithin + w.returnWithin < w.path.delta
    requires Enabled(w, n, step) && Guarded(w, n, p)
    ensures Guarded(w, Apply(n, step), p)
  {
    Gap(w, p);
    if step.Tick? { assert !Overdue(w, n, p); }
  }

  lemma {:induction false} GuardedThroughout(w: Setting, n: Net, steps: seq<Step>, p: nat)
    requires ValidSetting(w) && |n.hops| == |w.path.hops| && HonestIntermediary(w, p)
    requires w.claimWithin + w.returnWithin < w.path.delta
    requires IsRun(w, n, steps) && Guarded(w, n, p)
    ensures Guarded(w, RunFrom(w, n, steps), p)
    decreases steps
  {
    if steps != [] {
      GuardedStep(w, n, steps[0], p);
      GuardedThroughout(w, Apply(n, steps[0]), steps[1..], p);
    }
  }

  /** With reactions faster than the stagger, an honest intermediary never loses, in any run and
      against any other parties; and if its incoming hop came back, its outgoing hop came back
      strictly earlier. */
  lemma HonestNeverLose(w: Setting, steps: seq<Step>, p: nat)
    requires ValidSetting(w) && HonestIntermediary(w, p) && IsRun(w, Start(w), steps)
    requires w.claimWithin + w.returnWithin < w.path.delta
    ensures var n := RunFrom(w, Start(w), steps);
            && !Loses(n, p)
            && (n.hops[p - 1].Returned? ==> n.hops[p].Returned? && n.hops[p].at < n.hops[p - 1].at)
  {
    Gap(w, p);
    GuardedThroughout(w, Start(w), steps, p);
  }

  // ---------- the bound is exact ----------

  function Ticks(k: nat): seq<Step> {
    seq(k, _ => Tick)
  }

  lemma {:induction false} Appended(w: Setting, n: Net, a: seq<Step>, b: seq<Step>)
    requires |n.hops| == |w.path.hops| && IsRun(w, n, a) && IsRun(w, RunFrom(w, n, a), b)
    ensures IsRun(w, n, a + b) && RunFrom(w, n, a + b) == RunFrom(w, RunFrom(w, n, a), b)
    decreases a
  {
    if a == [] {
      assert a + b == b;
    } else {
      assert (a + b)[1..] == a[1..] + b;
      Appended(w, Apply(n, a[0]), a[1..], b);
    }
  }

  ghost predicate TicksAt(w: Setting, n: Net, time: nat)
    requires |n.hops| == |w.path.hops|
  {
    Enabled(w, n.(now := time), Tick)
  }

  lemma {:induction false} TicksRun(w: Setting, n: Net, k: nat)
    requires |n.hops| == |w.path.hops|
    requires forall time: nat :: n.now <= time < n.now + k ==> TicksAt(w, n, time)
    ensures IsRun(w, n, Ticks(k)) && RunFrom(w, n, Ticks(k)) == n.(now := n.now + k)
    decreases k
  {
    if k > 0 {
      var m := n.(now := n.now + 1);
      assert TicksAt(w, n, n.now) && n.(now := n.now) == n;
      assert Ticks(k)[1..] == Ticks(k - 1);
      forall time: nat | m.now <= time < m.now + (k - 1) ensures TicksAt(w, m, time) {
        assert TicksAt(w, n, time) && m.(now := time) == n.(now := time);
      }
      TicksRun(w, m, k - 1);
    }
  }

  lemma OneStep(w: Setting, n: Net, step: Step)
    requires |n.hops| == |w.path.hops| && Enabled(w, n, step)
    ensures IsRun(w, n, [step]) && RunFrom(w, n, [step]) == Apply(n, step)
  {
    assert [step][1..] == [];
  }

  /** From a claim of its outgoing hop on, an intermediary that claims too late loses the incoming one. */
  lemma LateClaim(w: Setting, n: Net, p: nat) returns (steps: seq<Step>)
    requires ValidSetting(w) && |n.hops| == |w.path.hops| && Intermediary(w, p) && w.honest == {p}
    requires n.hops[p] == Claimed(n.now) && n.hops[p - 1].Open?
    requires n.now + w.claimWithin >= w.path.hops[p].locktime + w.path.delta
    ensures IsRun(w, n, steps) && Loses(RunFrom(w, n, steps), p)
  {
    Gap(w, p);
    assert forall time: nat :: n.now <= time < n.now + w.claimWithin ==> TicksAt(w, n, time);
    TicksRun(w, n, w.claimWithin);
    var late := n.(now := n.now + w.claimWithin);
    OneStep(w, late, Return(p - 1));
    Appended(w, n, Ticks(w.claimWithin), [Return(p - 1)]);
    steps := Ticks(w.claimWithin) + [Return(p - 1)];
  }

  /** With slower reactions the only honest intermediary loses: its outgoing hop is claimed just
      before it returns it, and its incoming hop is returned before it claims that. */
  lemma SlowReactionsLose(path: Path, claimWithin: nat, returnWithin: nat, p: nat) returns (steps: seq<Step>)
    requires WellBuilt(path) && 1 <= p < |path.hops|
    requires claimWithin + returnWithin >= path.delta
    ensures var w := Setting(path, {p}, claimWithin, returnWithin);
            IsRun(w, Start(w), steps) && Loses(RunFrom(w, Start(w), steps), p)
  {
    var w := Setting(path, {p}, claimWithin, returnWithin);
    Gap(w, p);
    var wait := path.hops[p].locktime + returnWithin;
    var n0 := Start(w);
    assert forall time: nat :: time < wait ==> TicksAt(w, n0, time);
    TicksRun(w, n0, wait);
    var n1 := n0.(now := wait);
    OneStep(w, n1, Claim(p));
    var rest := LateClaim(w, Apply(n1, Claim(p)), p);
    Appended(w, n1, [Claim(p)], rest);
    Appended(w, n0, Ticks(wait), [Claim(p)] + rest);
    steps := Ticks(wait) + ([Claim(p)] + rest);
  }

  ghost predicate SafeForAll(path: Path, claimWithin: nat, returnWithin: nat) {
    forall honest, steps, p | HonestIntermediary(Setting(path, honest, claimWithin, returnWithin), p) ::
      var w := Setting(path, honest, claimWithin, returnWithin);
      IsRun(w, Start(w), steps) ==> !Loses(RunFrom(w, Start(w), steps), p)
  }

  /** On a built path of at least two hops, honest intermediaries are safe in all runs exactly
      when their two reaction times together stay below the stagger. Reacting within delta itself
      is not enough. */
  lemma SafeExactly(path: Path, claimWithin: nat, returnWithin: nat)
    requires WellBuilt(path) && |path.hops| >= 2
    ensures SafeForAll(path, claimWithin, returnWithin) <==> claimWithin + returnWithin < path.delta
  {
    if claimWithin + returnWithin < path.delta {
      forall honest, steps, p | HonestIntermediary(Setting(path, honest, claimWithin, returnWithin), p)
        ensures var w := Setting(path, honest, claimWithin, returnWithin);
                IsRun(w, Start(w), steps) ==> !Loses(RunFrom(w, Start(w), steps), p) {
        var w := Setting(path, honest, claimWithin, returnWithin);
        if IsRun(w, Start(w), steps) { HonestNeverLose(w, steps, p); }
      }
    } else {
      var steps := SlowReactionsLose(path, claimWithin, returnWithin, 1);
      assert HonestIntermediary(Setting(path, {1}, claimWithin, returnWithin), 1);
    }
  }

  /** Time never locks up: whenever the height cannot grow, some honest intermediary can act. */
  lemma NeverStuck(w: Setting, n: Net)
    requires ValidSetting(w) && |n.hops| == |w.path.hops| && !Enabled(w, n, Tick)
    ensures exists step: Step :: !step.Tick? && Enabled(w, n, step)
  {
    var p: nat :| HonestIntermediary(w, p) && Overdue(w, n, p);
    if n.hops[p].Claimed? {
      assert Enabled(w, n, Claim(p - 1));
    } else {
      assert Enabled(w, n, Return(p));
    }
  }

  // ---------- all intermediaries honest: all or nothing ----------

  predicate SecretFromSink(n: Net)
    requires |n.hops| >= 1
  {
    forall i :: 0 <= i < |n.hops| && n.hops[i].Claimed? ==> n.hops[|n.hops| - 1].Claimed?
  }

  lemma {:induction false} SecretStartsAtSink(w: Setting, n: Net, steps: seq<Step>)
    requires ValidSetting(w) && |n.hops| == |w.path.hops| && IsRun(w, n, steps) && SecretFromSink(n)
    requires forall p: nat :: Intermediary(w, p) ==> p in w.honest
    ensures SecretFromSink(RunFrom(w, n, steps))
    decreases steps
  {
    if steps != [] {
      var n' := Apply(n, steps[0]);
      if steps[0].Claim? && steps[0].hop + 1 < |n.hops| { assert HonestIntermediary(w, steps[0].hop + 1); }
      SecretStartsAtSink(w, n', steps[1..]);
    }
  }

  /** If every intermediary is honest and fast enough, a settled path is settled as a whole: every
      hop is claimed, or every hop is returned. */
  lemma AllOrNothing(w: Setting, steps: seq<Step>)
    requires ValidSetting(w) && IsRun(w, Start(w), steps)
    requires forall p: nat :: Intermediary(w, p) ==> p in w.honest
    requires w.claimWithin + w.returnWithin < w.path.delta
    ensures var n := RunFrom(w, Start(w), steps);
            (forall j :: 0 <= j < |n.hops| ==> !n.hops[j].Open?) ==>
              || (forall j :: 0 <= j < |n.hops| ==> n.hops[j].Claimed?)
              || (forall j :: 0 <= j < |n.hops| ==> n.hops[j].Returned?)
  {
    var n := RunFrom(w, Start(w), steps);
    SecretStartsAtSink(w, Start(w), steps);
    if forall j :: 0 <= j < |n.hops| ==> !n.hops[j].Open? {
      if i :| 0 <= i < |n.hops| && n.hops[i].Claimed? {
        ClaimedDownTo(w, steps, 0);
      }
    }
  }

  /** Claims spread from the last hop to every earlier one. */
  lemma {:induction false} ClaimedDownTo(w: Setting, steps: seq<Step>, j: nat)
    requires ValidSetting(w) && IsRun(w, Start(w), steps) && j < |w.path.hops|
    requires forall p: nat :: Intermediary(w, p) ==> p in w.honest
    requires w.claimWithin + w.returnWithin < w.path.delta
    requires var n := RunFrom(w, Start(w), steps);
             n.hops[|n.hops| - 1].Claimed? && forall i :: 0 <= i < |n.hops| ==> !n.hops[i].Open?
    ensures forall i :: j <= i < |w.path.hops| ==> RunFrom(w, Start(w), steps).hops[i].Claimed?
    decreases |w.path.hops| - j
  {
    if j + 1 < |w.path.hops| {
      ClaimedDownTo(w, steps, j + 1);
      HonestNeverLose(w, steps, j + 1);
    }
  }
}
