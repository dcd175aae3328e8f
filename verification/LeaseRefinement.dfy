/** Each pass of the Postgres backend is a run of the lease protocol, the runtime handling every change at once. */
module LeaseRefinement {
  import opened Common
  import opened Wrappers
  import opened Sequences
  import opened Leases
  import opened PostgresOwnership
  import opened LeaseProtocol

  /** Yield a change and handle it, so many times. */
  function YieldAll(w: WorkerId, a: Action, n: nat): seq<Action> {
    if n == 0 then [] else [a, Handle(w)] + YieldAll(w, a, n - 1)
  }

  function Shards(changes: seq<Change>): seq<ShardId> {
    seq(|changes|, i requires 0 <= i < |changes| => changes[i].shard)
  }

  /** The steps of the first half of a pass: renew, then yield the releases. */
  function RenewalSteps(wk: Worker, w: WorkerId, renewNow: Time, releases: seq<Change>): seq<Action> {
    [RenewWith(wk, w, renewNow, Shards(releases))] + YieldAll(w, YieldReleased(w), |releases|)
  }

  /** Of the second half: decide, and with room left claim, yield the acquisitions and rest. */
  function FillSteps(w: WorkerId, claimNow: Time, room: int, acquired: seq<ShardId>): seq<Action> {
    [Decide(w)] + if room <= 0 then [] else ClaimSteps(w, claimNow, acquired)
  }

  function ClaimSteps(w: WorkerId, claimNow: Time, acquired: seq<ShardId>): seq<Action> {
    [ClaimSome(w, claimNow, acquired)] + (YieldAll(w, YieldAcquired(w), |acquired|) + [Rest(w)])
  }

  lemma RunsCompose(sys: System, actions: seq<Action>, more: seq<Action>)
    requires IsRun(sys, actions) && IsRun(Final(sys, actions), more)
    ensures IsRun(sys, actions + more) && Final(sys, actions + more) == Final(Final(sys, actions), more)
    decreases |actions|
  {
    hide Apply, Enabled;
    if actions == [] {
      assert actions + more == more;
    } else {
      assert (actions + more)[1..] == actions[1..] + more;
      RunsCompose(Apply(sys, actions[0]), actions[1..], more);
    }
  }

  lemma OneStep(sys: System, a: Action)
    requires Enabled(sys, a)
    ensures IsRun(sys, [a]) && Final(sys, [a]) == Apply(sys, a)
  {
    hide Enabled, Apply;
    assert [a][1..] == [];
  }

  lemma TwoSteps(sys: System, a: Action, b: Action, rest: seq<Action>)
    requires Enabled(sys, a) && Enabled(Apply(sys, a), b) && IsRun(Apply(Apply(sys, a), b), rest)
    ensures IsRun(sys, [a, b] + rest) && Final(sys, [a, b] + rest) == Final(Apply(Apply(sys, a), b), rest)
  {
    hide Enabled, Apply;
    assert ([a, b] + rest)[1..] == [b] + rest && ([b] + rest)[1..] == rest;
  }

  /** A worker between two changes, its tasks being what it owns. */
  predicate IsSettled(sys: System, w: WorkerId) {
    Ready(sys, w) && sys.workers[w].tasks == sys.workers[w].owned
  }

  function AfterReleases(wk: Worker, lost: seq<ShardId>): Worker {
    var owned := wk.owned - SetOf(lost);
    wk.(owned := owned, tasks := owned, gen := Releasing([]), emitted := wk.emitted + Releases(lost))
  }

  function Releases(lost: seq<ShardId>): seq<Change> {
    seq(|lost|, i requires 0 <= i < |lost| => Released(lost[i]))
  }

  function AfterAcquisitions(wk: Worker, acquired: seq<ShardId>): Worker {
    var owned := wk.owned + SetOf(acquired);
    wk.(owned := owned, tasks := owned, gen := Acquiring([]), emitted := wk.emitted + Acquisitions(acquired))
  }

  // One release, yielded and handled.
  function OneReleased(wk: Worker): Worker
    requires wk.gen.Releasing? && wk.gen.lost != []
  {
    Handled(Emit(wk, Released(wk.gen.lost[0])).(gen := Releasing(wk.gen.lost[1..])))
  }

  lemma OneReleasedMeans(wk: Worker, lost: seq<ShardId>)
    requires wk.gen == Releasing(lost) && lost != [] && wk.tasks == wk.owned && wk.yielded.None?
    ensures OneReleased(wk) ==
      wk.(owned := wk.owned - {lost[0]}, tasks := wk.owned - {lost[0]}, gen := Releasing(lost[1..]),
          emitted := wk.emitted + [Released(lost[0])])
  {
  }

  lemma ReleasesGoOn(wk: Worker, lost: seq<ShardId>)
    requires wk.gen == Releasing(lost) && lost != [] && wk.tasks == wk.owned && wk.yielded.None?
    ensures AfterReleases(OneReleased(wk), lost[1..]) == AfterReleases(wk, lost)
  {
    OneReleasedMeans(wk, lost);
    hide OneReleased;
    assert lost == [lost[0]] + lost[1..];
    assert SetOf(lost) == {lost[0]} + SetOf(lost[1..]);
    hide SetOf;
    var owned := wk.owned - {lost[0]};
    assert owned - SetOf(lost[1..]) == wk.owned - SetOf(lost);
    assert wk.emitted + [Released(lost[0])] + Releases(lost[1..]) == wk.emitted + Releases(lost);
  }

  lemma ReleaseFirst(sys: System, w: WorkerId, lost: seq<ShardId>)
    requires IsSettled(sys, w) && sys.workers[w].gen == Releasing(lost) && lost != []
    ensures Enabled(sys, YieldReleased(w)) && Enabled(Apply(sys, YieldReleased(w)), Handle(w))
    ensures var s := Apply(Apply(sys, YieldReleased(w)), Handle(w));
            && IsSettled(s, w) && s.workers[w].gen == Releasing(lost[1..])
            && s == SetWorker(sys, w, s.workers[w])
            && AfterReleases(s.workers[w], lost[1..]) == AfterReleases(sys.workers[w], lost)
  {
    hide AfterReleases, Handled, Emit, OneReleased;
    var wk := sys.workers[w];
    OneReleasedMeans(wk, lost);
    ReleasesGoOn(wk, lost);
    YieldedIsHandled(sys, w);
  }

  lemma YieldedIsHandled(sys: System, w: WorkerId)
    requires Ready(sys, w) && sys.workers[w].gen.Releasing? && sys.workers[w].gen.lost != []
    ensures Enabled(sys, YieldReleased(w)) && Enabled(Apply(sys, YieldReleased(w)), Handle(w))
    ensures Apply(Apply(sys, YieldReleased(w)), Handle(w)) == SetWorker(sys, w, OneReleased(sys.workers[w]))
  {
    var wk := sys.workers[w];
    SetTwice(sys.workers, w, Emit(wk, Released(wk.gen.lost[0])).(gen := Releasing(wk.gen.lost[1..])), OneReleased(wk));
    hide Handled;
  }

  lemma {:induction false} ReleasesRun(sys: System, w: WorkerId, lost: seq<ShardId>)
    requires IsSettled(sys, w) && sys.workers[w].gen == Releasing(lost)
    ensures var steps := YieldAll(w, YieldReleased(w), |lost|);
            && IsRun(sys, steps)
            && Final(sys, steps) == SetWorker(sys, w, AfterReleases(sys.workers[w], lost))
            && IsSettled(Final(sys, steps), w)
    decreases |lost|
  {
    hide IsRun, Final, Enabled, Apply;
    if lost == [] {
      NothingYielded(sys, w);
    } else {
      ReleaseFirst(sys, w, lost);
      var s := Apply(Apply(sys, YieldReleased(w)), Handle(w));
      hide AfterReleases;
      ReleasesRun(s, w, lost[1..]);
      TwoSteps(sys, YieldReleased(w), Handle(w), YieldAll(w, YieldReleased(w), |lost| - 1));
      assert sys.workers[w := s.workers[w]][w := AfterReleases(sys.workers[w], lost)]
        == sys.workers[w := AfterReleases(sys.workers[w], lost)];
    }
  }

  lemma NothingYielded(sys: System, w: WorkerId)
    requires IsSettled(sys, w)
    ensures IsRun(sys, []) && Final(sys, []) == sys
    ensures var wk := sys.workers[w];
            && (wk.gen == Releasing([]) ==> SetWorker(sys, w, AfterReleases(wk, [])) == sys)
            && (wk.gen == Acquiring([]) ==> SetWorker(sys, w, AfterAcquisitions(wk, [])) == sys)
  {
    var wk := sys.workers[w];
    assert wk.emitted + Releases([]) == wk.emitted && wk.emitted + Acquisitions([]) == wk.emitted;
    assert wk.owned - SetOf([]) == wk.owned && wk.owned + SetOf([]) == wk.owned;
    assert sys.workers[w := wk] == sys.workers;
  }

  // One acquisition, yielded and handled.
  function OneAcquired(wk: Worker): Worker
    requires wk.gen.Acquiring? && wk.gen.acquired != []
  {
    Handled(Emit(wk, Acquired(wk.gen.acquired[0])).(gen := Acquiring(wk.gen.acquired[1..])))
  }

  lemma OneAcquiredMeans(wk: Worker, acquired: seq<ShardId>)
    requires wk.gen == Acquiring(acquired) && acquired != [] && wk.tasks == wk.owned && wk.yielded.None?
    requires acquired[0] !in wk.owned
    ensures OneAcquired(wk) ==
      wk.(owned := wk.owned + {acquired[0]}, tasks := wk.owned + {acquired[0]}, gen := Acquiring(acquired[1..]),
          emitted := wk.emitted + [Acquired(acquired[0])])
  {
  }

  lemma AcquisitionsGoOn(wk: Worker, acquired: seq<ShardId>)
    requires wk.gen == Acquiring(acquired) && acquired != [] && wk.tasks == wk.owned && wk.yielded.None?
    requires Distinct(acquired) && SetOf(acquired) !! wk.owned
    ensures acquired[0] !in wk.owned
    ensures Distinct(acquired[1..]) && SetOf(acquired[1..]) !! wk.owned + {acquired[0]}
    ensures AfterAcquisitions(OneAcquired(wk), acquired[1..]) == AfterAcquisitions(wk, acquired)
  {
    assert acquired == [acquired[0]] + acquired[1..];
    assert SetOf(acquired) == {acquired[0]} + SetOf(acquired[1..]);
    assert acquired[0] !in SetOf(acquired[1..]) && Distinct(acquired[1..]);
    hide SetOf, Distinct;
    assert acquired[0] in SetOf(acquired);
    OneAcquiredMeans(wk, acquired);
    hide OneAcquired;
    var owned := wk.owned + {acquired[0]};
    assert owned + SetOf(acquired[1..]) == wk.owned + SetOf(acquired);
    assert wk.emitted + [Acquired(acquired[0])] + Acquisitions(acquired[1..]) == wk.emitted + Acquisitions(acquired);
  }

  lemma AcquireFirst(sys: System, w: WorkerId, acquired: seq<ShardId>)
    requires IsSettled(sys, w) && sys.workers[w].gen == Acquiring(acquired) && acquired != []
    requires Distinct(acquired) && SetOf(acquired) !! sys.workers[w].owned
    ensures Enabled(sys, YieldAcquired(w)) && Enabled(Apply(sys, YieldAcquired(w)), Handle(w))
    ensures var s := Apply(Apply(sys, YieldAcquired(w)), Handle(w));
            && IsSettled(s, w) && s.workers[w].gen == Acquiring(acquired[1..])
            && s == SetWorker(sys, w, s.workers[w])
            && Distinct(acquired[1..]) && SetOf(acquired[1..]) !! s.workers[w].owned
            && AfterAcquisitions(s.workers[w], acquired[1..]) == AfterAcquisitions(sys.workers[w], acquired)
  {
    hide AfterAcquisitions, Handled, Emit, OneAcquired, Distinct, SetOf;
    var wk := sys.workers[w];
    AcquisitionsGoOn(wk, acquired);
    OneAcquiredMeans(wk, acquired);
    TakenIsHandled(sys, w);
  }

  lemma TakenIsHandled(sys: System, w: WorkerId)
    requires Ready(sys, w) && sys.workers[w].gen.Acquiring? && sys.workers[w].gen.acquired != []
    ensures Enabled(sys, YieldAcquired(w)) && Enabled(Apply(sys, YieldAcquired(w)), Handle(w))
    ensures Apply(Apply(sys, YieldAcquired(w)), Handle(w)) == SetWorker(sys, w, OneAcquired(sys.workers[w]))
  {
    var wk := sys.workers[w];
    SetTwice(sys.workers, w, Emit(wk, Acquired(wk.gen.acquired[0])).(gen := Acquiring(wk.gen.acquired[1..])),
             OneAcquired(wk));
    hide Handled;
  }

  lemma {:induction false} AcquiresRun(sys: System, w: WorkerId, acquired: seq<ShardId>)
    requires IsSettled(sys, w) && sys.workers[w].gen == Acquiring(acquired)
    requires Distinct(acquired) && SetOf(acquired) !! sys.workers[w].owned
    ensures var steps := YieldAll(w, YieldAcquired(w), |acquired|);
            && IsRun(sys, steps)
            && Final(sys, steps) == SetWorker(sys, w, AfterAcquisitions(sys.workers[w], acquired))
            && IsSettled(Final(sys, steps), w)
    decreases |acquired|
  {
    hide IsRun, Final, Enabled, Apply, Distinct, SetOf;
    if acquired == [] {
      NothingYielded(sys, w);
    } else {
      AcquireFirst(sys, w, acquired);
      var s := Apply(Apply(sys, YieldAcquired(w)), Handle(w));
      hide AfterAcquisitions;
      AcquiresRun(s, w, acquired[1..]);
      TwoSteps(sys, YieldAcquired(w), Handle(w), YieldAll(w, YieldAcquired(w), |acquired| - 1));
      assert sys.workers[w := s.workers[w]][w := AfterAcquisitions(sys.workers[w], acquired)]
        == sys.workers[w := AfterAcquisitions(sys.workers[w], acquired)];
    }
  }

  lemma {:induction false} ReleasedOnce(owned: set<ShardId>, releases: seq<Change>)
    requires Alternating(owned, releases) && forall c :: c in releases ==> c.Released?
    ensures Distinct(Shards(releases)) && SetOf(Shards(releases)) <= owned
    ensures OwnedAfter(owned, releases) == owned - SetOf(Shards(releases))
  {
    if releases == [] {
      assert SetOf(Shards(releases)) == {};
    } else {
      var init, last := releases[..|releases| - 1], releases[|releases| - 1];
      ReleasedOnce(owned, init);
      assert last in releases;
      assert Shards(releases) == Shards(init) + [last.shard];
      assert SetOf(Shards(releases)) == SetOf(Shards(init)) + {last.shard};
    }
  }

  lemma ReleasesAreLost(rows: LeaseTable, w: WorkerId, owned: set<ShardId>, releases: seq<Change>)
    requires Alternating(owned, releases) && forall c :: c in releases ==> c.Released?
    requires forall s :: s in Lost(rows, w, owned) <==> Released(s) in releases
    ensures Distinct(Shards(releases)) && SetOf(Shards(releases)) == Lost(rows, w, owned)
    ensures Releases(Shards(releases)) == releases && |Shards(releases)| == |releases|
  {
    ReleasedOnce(owned, releases);
    hide Lost, Alternating;
    forall i | 0 <= i < |releases| ensures releases[i] == Released(Shards(releases)[i]) {
      assert releases[i] in releases;
    }
    forall s ensures s in SetOf(Shards(releases)) <==> Released(s) in releases {
      if Released(s) in releases {
        var i :| 0 <= i < |releases| && releases[i] == Released(s);
        assert Shards(releases)[i] == s;
      }
    }
  }

  /** The first half of a pass, up to the decision whether to claim. */
  lemma RenewalRun(sys: System, w: WorkerId, renewNow: Time, releases: seq<Change>)
    requires IsSettled(sys, w) && sys.workers[w].gen.AtRenew? && sys.workers[w].clock <= renewNow
    requires var owned := sys.workers[w].owned;
             && Alternating(owned, releases) && (forall c :: c in releases ==> c.Released?)
             && forall s :: s in Lost(sys.rows, w, owned) <==> Released(s) in releases
    ensures var wk := sys.workers[w];
            var steps := RenewalSteps(wk, w, renewNow, releases);
            && IsRun(sys, steps)
            && var f := Final(sys, steps);
               && IsSettled(f, w) && f.workers == sys.workers[w := f.workers[w]]
               && f.rows == Renewed(sys.rows, w, wk.owned, renewNow + wk.lease)
               && var wk' := f.workers[w];
                  && wk'.gen == Releasing([]) && wk'.owned == wk.owned - Lost(sys.rows, w, wk.owned)
                  && wk'.emitted == wk.emitted + releases && wk'.clock <= renewNow
                  && wk'.lease == wk.lease && wk'.maxShards == wk.maxShards
  {
    hide Alternating, Renewed, Lost, SetOf, Distinct, Enabled, Apply, IsRun, Final;
    var wk, order := sys.workers[w], Shards(releases);
    ReleasesAreLost(sys.rows, w, wk.owned, releases);
    hide Shards, Releases;
    var renew := RenewWith(wk, w, renewNow, order);
    RenewFirst(sys, w, renewNow, order);
    hide RenewWith;
    OneStep(sys, renew);
    var s := Apply(sys, renew);
    ReleasesRun(s, w, order);
    SetTwice(sys.workers, w, s.workers[w], AfterReleases(s.workers[w], order));
    RunsCompose(sys, [renew], YieldAll(w, YieldReleased(w), |order|));
  }

  lemma SetTwice(workers: map<WorkerId, Worker>, w: WorkerId, a: Worker, b: Worker)
    ensures workers[w := a][w := b] == workers[w := b]
  {
  }

  function RenewWith(wk: Worker, w: WorkerId, renewNow: Time, order: seq<ShardId>): Action {
    if wk.owned == {} then RenewNothing(w) else RenewAll(w, renewNow, order)
  }

  lemma RenewFirst(sys: System, w: WorkerId, renewNow: Time, order: seq<ShardId>)
    requires IsSettled(sys, w) && sys.workers[w].gen.AtRenew? && sys.workers[w].clock <= renewNow
    requires Distinct(order) && SetOf(order) == Lost(sys.rows, w, sys.workers[w].owned)
    ensures var wk, renew := sys.workers[w], RenewWith(sys.workers[w], w, renewNow, order);
            && Enabled(sys, renew)
            && var s := Apply(sys, renew);
               && IsSettled(s, w) && s.workers == sys.workers[w := s.workers[w]]
               && s.rows == Renewed(sys.rows, w, wk.owned, renewNow + wk.lease)
               && var wk' := s.workers[w];
                  && wk'.gen == Releasing(order) && wk'.owned == wk.owned && wk'.emitted == wk.emitted
                  && wk'.clock <= renewNow && wk'.lease == wk.lease && wk'.maxShards == wk.maxShards
  {
    var wk := sys.workers[w];
    if wk.owned == {} {
      assert Lost(sys.rows, w, wk.owned) == {};
      DistinctCount(order);
      RenewNone(sys.rows, w, renewNow + wk.lease);
    }
    hide Renewed, Lost, SetOf, Distinct;
  }

  /** The second half, when there is room: claim, take what was claimed, and rest. */
  lemma ClaimRun(sys: System, w: WorkerId, claimNow: Time, room: nat, acquired: seq<ShardId>)
    requires IsSettled(sys, w) && sys.workers[w].gen == Claiming(room) && sys.workers[w].clock <= claimNow
    requires ValidPick(sys.rows, claimNow, room, acquired) && SetOf(acquired) !! sys.workers[w].owned
    ensures var wk := sys.workers[w];
            var steps := ClaimSteps(w, claimNow, acquired);
            && IsRun(sys, steps)
            && var f := Final(sys, steps);
               && IsSettled(f, w) && f.workers == sys.workers[w := f.workers[w]]
               && f.rows == Claimed(sys.rows, w, SetOf(acquired), claimNow + wk.lease)
               && var wk' := f.workers[w];
                  && wk'.gen.AtRenew? && wk'.owned == wk.owned + SetOf(acquired)
                  && wk'.emitted == wk.emitted + Acquisitions(acquired)
  {
    hide SetOf, Distinct, Claimed, ValidPick, IsRun, Final, Enabled, Apply, Acquisitions;
    var wk, claim, takes := sys.workers[w], ClaimSome(w, claimNow, acquired), YieldAll(w, YieldAcquired(w), |acquired|);
    ClaimFirst(sys, w, claimNow, room, acquired);
    OneStep(sys, claim);
    var s := Apply(sys, claim);
    AcquiresRun(s, w, acquired);
    var t := Final(s, takes);
    SetTwice(sys.workers, w, s.workers[w], t.workers[w]);
    RestLast(t, w);
    OneStep(t, Rest(w));
    SetTwice(sys.workers, w, t.workers[w], Apply(t, Rest(w)).workers[w]);
    RunsCompose(s, takes, [Rest(w)]);
    RunsCompose(sys, [claim], takes + [Rest(w)]);
  }

  lemma ClaimFirst(sys: System, w: WorkerId, claimNow: Time, room: nat, acquired: seq<ShardId>)
    requires IsSettled(sys, w) && sys.workers[w].gen == Claiming(room) && sys.workers[w].clock <= claimNow
    requires ValidPick(sys.rows, claimNow, room, acquired)
    ensures Distinct(acquired) && Enabled(sys, ClaimSome(w, claimNow, acquired))
    ensures var wk, s := sys.workers[w], Apply(sys, ClaimSome(w, claimNow, acquired));
            && IsSettled(s, w) && s.workers == sys.workers[w := s.workers[w]]
            && s.rows == Claimed(sys.rows, w, SetOf(acquired), claimNow + wk.lease)
            && var wk' := s.workers[w];
               wk'.gen == Acquiring(acquired) && wk'.owned == wk.owned && wk'.emitted == wk.emitted
  {
    assert Distinct(acquired);
    hide SetOf, Distinct, Claimed;
  }

  lemma RestLast(sys: System, w: WorkerId)
    requires IsSettled(sys, w) && sys.workers[w].gen == Acquiring([])
    ensures Enabled(sys, Rest(w))
    ensures var s := Apply(sys, Rest(w));
            IsSettled(s, w) && s.rows == sys.rows && s.workers == sys.workers[w := sys.workers[w].(gen := AtRenew)]
  {
  }

  lemma DecideNext(sys: System, w: WorkerId)
    requires IsSettled(sys, w) && sys.workers[w].gen == Releasing([])
    ensures Enabled(sys, Decide(w))
    ensures var s, wk := Apply(sys, Decide(w)), sys.workers[w];
            var room := wk.maxShards - |wk.owned|;
            && IsSettled(s, w) && s.rows == sys.rows
            && s.workers == sys.workers[w := wk.(gen := if room > 0 then Claiming(room) else AtRenew)]
  {
  }

  /** What a worker that is between two passes has in the end of one. */
  predicate Passed(sys: System, f: System, w: WorkerId, rows: LeaseTable, owned: set<ShardId>, changes: seq<Change>) {
    && IsSettled(sys, w) && IsSettled(f, w) && f.workers == sys.workers[w := f.workers[w]]
    && f.rows == rows
    && f.workers[w].gen.AtRenew? && f.workers[w].owned == owned
    && f.workers[w].emitted == sys.workers[w].emitted + changes
  }

  lemma FillWithRoom(sys: System, w: WorkerId, claimNow: Time, acquired: seq<ShardId>)
    requires IsSettled(sys, w) && sys.workers[w].gen == Releasing([]) && sys.workers[w].clock <= claimNow
    requires var room := sys.workers[w].maxShards - |sys.workers[w].owned|;
             && room > 0 && ValidPick(sys.rows, claimNow, room, acquired)
             && SetOf(acquired) !! sys.workers[w].owned
    ensures var wk := sys.workers[w];
            var steps := FillSteps(w, claimNow, wk.maxShards - |wk.owned|, acquired);
            && IsRun(sys, steps)
            && Passed(sys, Final(sys, steps), w, Claimed(sys.rows, w, SetOf(acquired), claimNow + wk.lease),
                      wk.owned + SetOf(acquired), Acquisitions(acquired))
  {
    hide SetOf, ValidPick, Claimed, Acquisitions, IsRun, Final, Enabled, Apply, ClaimSteps;
    DecideNext(sys, w);
    var room, t := sys.workers[w].maxShards - |sys.workers[w].owned|, Apply(sys, Decide(w));
    OneStep(sys, Decide(w));
    ClaimRun(t, w, claimNow, room, acquired);
    SetTwice(sys.workers, w, t.workers[w], Final(t, ClaimSteps(w, claimNow, acquired)).workers[w]);
    RunsCompose(sys, [Decide(w)], ClaimSteps(w, claimNow, acquired));
  }

  lemma FillWithoutRoom(sys: System, w: WorkerId, claimNow: Time)
    requires IsSettled(sys, w) && sys.workers[w].gen == Releasing([])
    requires sys.workers[w].maxShards <= |sys.workers[w].owned|
    ensures var wk := sys.workers[w];
            var steps := FillSteps(w, claimNow, wk.maxShards - |wk.owned|, []);
            && IsRun(sys, steps)
            && Passed(sys, Final(sys, steps), w, Claimed(sys.rows, w, SetOf([]), claimNow + wk.lease),
                      wk.owned + SetOf([]), Acquisitions([]))
  {
    ClaimNone(sys.rows, w, claimNow + sys.workers[w].lease);
    NoAcquisition();
    assert SetOf<ShardId>([]) == {};
    hide SetOf, Claimed, Acquisitions, IsRun, Final, Enabled, Apply, ClaimSteps;
    DecideNext(sys, w);
    OneStep(sys, Decide(w));
    assert [Decide(w)] + [] == [Decide(w)];
  }

  /** What the contract of a pass says of its releases and acquisitions. */
  ghost predicate IsPass(rows: LeaseTable, w: WorkerId, wk: Worker, renewNow: Time, locked: set<ShardId>,
                         claimNow: Time, releases: seq<Change>, acquired: seq<ShardId>) {
    var lost := Lost(rows, w, wk.owned);
    var room := wk.maxShards - |wk.owned - lost|;
    && Alternating(wk.owned, releases) && (forall c :: c in releases ==> c.Released?)
    && (forall s :: s in lost <==> Released(s) in releases)
    && (if room > 0 then
          LowestClaimable(Renewed(rows, w, wk.owned, renewNow + wk.lease), locked, claimNow, room, acquired)
        else acquired == [])
  }

  lemma PassParts(rows: LeaseTable, w: WorkerId, wk: Worker, renewNow: Time, locked: set<ShardId>, claimNow: Time,
                  releases: seq<Change>, acquired: seq<ShardId>)
    requires IsPass(rows, w, wk, renewNow, locked, claimNow, releases, acquired)
    requires claimNow <= renewNow + wk.lease
    ensures var kept := wk.owned - Lost(rows, w, wk.owned);
            if wk.maxShards - |kept| > 0 then
              && ValidPick(Renewed(rows, w, wk.owned, renewNow + wk.lease), claimNow, wk.maxShards - |kept|, acquired)
              && SetOf(acquired) !! kept
            else acquired == []
  {
    var kept := wk.owned - Lost(rows, w, wk.owned);
    RenewedAreOwned(rows, w, wk.owned, renewNow + wk.lease);
    if wk.maxShards - |kept| > 0 {
      FreshLeasesAreNotPicked(Renewed(rows, w, wk.owned, renewNow + wk.lease), w, kept, renewNow + wk.lease, claimNow,
                              wk.maxShards - |kept|, acquired);
    }
  }

  /** A pass of the Postgres backend, as its contract has it, is a run of the protocol by its worker, with the
      same table, the same owned shards and the same changes in the end; provided that it claims before the
      leases it has renewed run out. The runtime raises nothing on the way. */
  lemma PassIsRun(sys: System, w: WorkerId, renewNow: Time, locked: set<ShardId>, claimNow: Time,
                  releases: seq<Change>, acquired: seq<ShardId>)
    requires IsSettled(sys, w) && sys.workers[w].gen.AtRenew?
    requires sys.workers[w].clock <= renewNow <= claimNow <= renewNow + sys.workers[w].lease
    requires IsPass(sys.rows, w, sys.workers[w], renewNow, locked, claimNow, releases, acquired)
    ensures var wk := sys.workers[w];
            var kept := wk.owned - Lost(sys.rows, w, wk.owned);
            var renewed := Renewed(sys.rows, w, wk.owned, renewNow + wk.lease);
            var steps := RenewalSteps(wk, w, renewNow, releases)
                         + FillSteps(w, claimNow, wk.maxShards - |kept|, acquired);
            && IsRun(sys, steps)
            && Passed(sys, Final(sys, steps), w, Claimed(renewed, w, SetOf(acquired), claimNow + wk.lease),
                      kept + SetOf(acquired), releases + Acquisitions(acquired))
  {
    hide IsPass, Renewed, Lost, SetOf, ValidPick, Claimed, Acquisitions, IsRun, Final, RenewalSteps, FillSteps, Passed;
    var wk, first := sys.workers[w], RenewalSteps(sys.workers[w], w, renewNow, releases);
    PassParts(sys.rows, w, wk, renewNow, locked, claimNow, releases, acquired);
    RenewalOfPass(sys, w, renewNow, locked, claimNow, releases, acquired);
    var s := Final(sys, first);
    var room := wk.maxShards - |s.workers[w].owned|;
    if room > 0 {
      FillWithRoom(s, w, claimNow, acquired);
    } else {
      FillWithoutRoom(s, w, claimNow);
    }
    var last := FillSteps(w, claimNow, room, acquired);
    RunsCompose(sys, first, last);
    PassesOn(sys, s, Final(s, last), w, Claimed(s.rows, w, SetOf(acquired), claimNow + wk.lease),
             s.workers[w].owned + SetOf(acquired), releases, Acquisitions(acquired));
  }

  lemma RenewalOfPass(sys: System, w: WorkerId, renewNow: Time, locked: set<ShardId>, claimNow: Time,
                      releases: seq<Change>, acquired: seq<ShardId>)
    requires IsSettled(sys, w) && sys.workers[w].gen.AtRenew? && sys.workers[w].clock <= renewNow
    requires IsPass(sys.rows, w, sys.workers[w], renewNow, locked, claimNow, releases, acquired)
    ensures var wk, steps := sys.workers[w], RenewalSteps(sys.workers[w], w, renewNow, releases);
            && IsRun(sys, steps)
            && var f := Final(sys, steps);
               && IsSettled(f, w) && f.workers == sys.workers[w := f.workers[w]]
               && f.rows == Renewed(sys.rows, w, wk.owned, renewNow + wk.lease)
               && var wk' := f.workers[w];
                  && wk'.gen == Releasing([]) && wk'.owned == wk.owned - Lost(sys.rows, w, wk.owned)
                  && wk'.emitted == wk.emitted + releases && wk'.clock <= renewNow
                  && wk'.lease == wk.lease && wk'.maxShards == wk.maxShards
  {
    hide Renewed, Lost, Alternating, LowestClaimable, IsRun, Final, RenewalSteps;
    RenewalRun(sys, w, renewNow, releases);
  }

  lemma PassesOn(sys: System, s: System, f: System, w: WorkerId, rows: LeaseTable, owned: set<ShardId>,
                 first: seq<Change>, second: seq<Change>)
    requires IsSettled(sys, w) && w in s.workers && s.workers == sys.workers[w := s.workers[w]]
    requires s.workers[w].emitted == sys.workers[w].emitted + first
    requires Passed(s, f, w, rows, owned, second)
    ensures Passed(sys, f, w, rows, owned, first + second)
  {
    SetTwice(sys.workers, w, s.workers[w], f.workers[w]);
    assert sys.workers[w].emitted + first + second == sys.workers[w].emitted + (first + second);
  }
}
