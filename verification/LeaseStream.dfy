/** The stream of changes that a worker's lease generator feeds to the shard runtime. */
module LeaseStream {
  import opened Common
  import opened Wrappers
  import opened Sequences
  import opened Leases
  import opened LeaseProtocol

  /** Not a late claim of this worker: if it claims, it reads the clock before the leases of its preceding
      renewal have run out. (With nothing owned there was no renewal and nothing to run out.) */
  predicate Prompt(sys: System, a: Action, w: WorkerId) {
    a.ClaimSome? && a.w == w && w in sys.workers ==>
      var wk := sys.workers[w];
      wk.owned == {} || a.now <= wk.renewedAt + wk.lease
  }

  /** A run in which this worker's claims are prompt, whatever the other workers do. */
  predicate IsPromptRun(sys: System, actions: seq<Action>, w: WorkerId)
    decreases |actions|
  {
    actions == [] ||
    (Enabled(sys, actions[0]) && Prompt(sys, actions[0], w) && IsPromptRun(Apply(sys, actions[0]), actions[1..], w))
  }

  lemma {:induction false} PromptRunIsRun(sys: System, actions: seq<Action>, w: WorkerId)
    requires IsPromptRun(sys, actions, w)
    ensures IsRun(sys, actions)
    decreases |actions|
  {
    if actions != [] {
      PromptRunIsRun(Apply(sys, actions[0]), actions[1..], w);
    }
  }

  /** The runtime's tasks are the owned shards, up to the one change it has not yet handled. */
  predicate InStep(wk: Worker) {
    && !wk.failed
    && match wk.yielded
       case None => wk.tasks == wk.owned
       case Some(Acquired(s)) => s !in wk.tasks && wk.owned == wk.tasks + {s}
       case Some(Released(s)) => s in wk.tasks && wk.owned == wk.tasks - {s}
  }

  predicate History(wk: Worker) {
    Alternating({}, wk.emitted) && wk.owned == OwnedAfter({}, wk.emitted)
  }

  predicate Pending(wk: Worker) {
    match wk.gen
    case AtRenew => true
    case Releasing(lost) => Distinct(lost) && SetOf(lost) <= wk.owned && (wk.owned == {} || wk.clock == wk.renewedAt)
    case Claiming(limit) => 0 < limit && (wk.owned == {} || wk.clock == wk.renewedAt)
    case Acquiring(acquired) => Distinct(acquired) && SetOf(acquired) !! wk.owned
  }

  function Kept(wk: Worker): set<ShardId> {
    match wk.gen
    case Releasing(lost) => wk.owned - SetOf(lost)
    case Claiming(_) => wk.owned
    case _ => {}
  }

  /** What the latest renewal kept is leased at least until the renewal's clock plus the lease time,
      by whomever. */
  predicate Fresh(rows: LeaseTable, wk: Worker) {
    forall s :: s in Kept(wk) ==>
      s in rows && rows[s].leaseUntil.Some? && wk.renewedAt + wk.lease <= rows[s].leaseUntil.value
  }

  predicate StreamInv(rows: LeaseTable, wk: Worker) {
    InStep(wk) && History(wk) && Pending(wk) && Fresh(rows, wk)
  }

  predicate StreamOf(sys: System, w: WorkerId) {
    w in sys.workers ==> StreamInv(sys.rows, sys.workers[w])
  }

  lemma HandleKeepsStream(rows: LeaseTable, wk: Worker)
    requires StreamInv(rows, wk) && wk.yielded.Some?
    ensures StreamInv(rows, Handled(wk)) && Handled(wk).tasks == Handled(wk).owned
  {
  }

  lemma FirstOfDistinct(xs: seq<ShardId>)
    requires Distinct(xs) && xs != []
    ensures Distinct(xs[1..]) && SetOf(xs) == {xs[0]} + SetOf(xs[1..]) && xs[0] !in SetOf(xs[1..])
  {
    assert xs == [xs[0]] + xs[1..];
  }

  lemma ReleaseKeepsStream(rows: LeaseTable, wk: Worker)
    requires StreamInv(rows, wk) && wk.yielded.None? && wk.gen.Releasing? && wk.gen.lost != []
    ensures StreamInv(rows, Emit(wk, Released(wk.gen.lost[0])).(gen := Releasing(wk.gen.lost[1..])))
  {
    var s, rest := wk.gen.lost[0], wk.gen.lost[1..];
    OneMoreChange({}, wk.emitted, Released(s));
    FirstOfDistinct(wk.gen.lost);
    hide SetOf, Distinct, Alternating, OwnedAfter;
  }

  lemma AcquireKeepsStream(rows: LeaseTable, wk: Worker)
    requires StreamInv(rows, wk) && wk.yielded.None? && wk.gen.Acquiring? && wk.gen.acquired != []
    ensures StreamInv(rows, Emit(wk, Acquired(wk.gen.acquired[0])).(gen := Acquiring(wk.gen.acquired[1..])))
  {
    var s, rest := wk.gen.acquired[0], wk.gen.acquired[1..];
    OneMoreChange({}, wk.emitted, Acquired(s));
    FirstOfDistinct(wk.gen.acquired);
    hide SetOf, Distinct, Alternating, OwnedAfter;
  }

  lemma RenewKeepsStream(rows: LeaseTable, w: WorkerId, wk: Worker, now: Time, order: seq<ShardId>)
    requires StreamInv(rows, wk)
    requires Distinct(order) && SetOf(order) == Lost(rows, w, wk.owned)
    ensures StreamInv(Renewed(rows, w, wk.owned, now + wk.lease),
                      wk.(gen := Releasing(order), clock := now, renewedAt := now))
  {
  }

  lemma ClaimKeepsStream(rows: LeaseTable, wk: Worker, wk': Worker, now: Time, limit: nat, picked: seq<ShardId>,
                         after: LeaseTable)
    requires RowInv(rows) && StreamInv(rows, wk) && wk.gen == Claiming(limit)
    requires wk.owned == {} || now <= wk.renewedAt + wk.lease
    requires ValidPick(rows, now, limit, picked)
    requires wk' == wk.(gen := Acquiring(picked), clock := now, held := wk'.held)
    ensures StreamInv(after, wk')
  {
    forall s | s in SetOf(picked) ensures s !in wk.owned {
      assert s in picked && Claimable(rows[s], now);
      assert s in wk.owned ==> s in Kept(wk);
    }
  }

  lemma FreshStays(rows: LeaseTable, after: LeaseTable, wk: Worker)
    requires StreamInv(rows, wk)
    requires forall s :: s in rows ==> s in after && NotEarlier(rows[s].leaseUntil, after[s].leaseUntil)
    ensures StreamInv(after, wk)
  {
  }

  lemma ActorKeepsStream(sys: System, a: Action)
    requires Inv(sys) && Enabled(sys, a) && !a.Provision? && !a.Start? && !a.Crash?
    requires StreamInv(sys.rows, sys.workers[a.w]) && Prompt(sys, a, a.w)
    ensures a.w in Apply(sys, a).workers && StreamInv(Apply(sys, a).rows, Apply(sys, a).workers[a.w])
  {
    hide Alternating, OwnedAfter, Claimed, DisjointWrites, EpochsDiffer, WorkerInv, LeaseInv, WriteInv;
    var wk := sys.workers[a.w];
    match a
    case RenewNothing(w) =>
    case RenewAll(w, now, order) => RenewKeepsStream(sys.rows, w, wk, now, order);
    case YieldReleased(w) => ReleaseKeepsStream(sys.rows, wk);
    case Decide(w) =>
    case ClaimSome(w, now, picked) =>
      ClaimKeepsStream(sys.rows, wk, Apply(sys, a).workers[w], now, wk.gen.limit, picked, Apply(sys, a).rows);
    case YieldAcquired(w) => AcquireKeepsStream(sys.rows, wk);
    case Handle(w) => HandleKeepsStream(sys.rows, wk);
    case Rest(w) =>
  }

  lemma OthersStay(sys: System, a: Action, w: WorkerId)
    requires Enabled(sys, a) && w in Apply(sys, a).workers && (a.Provision? || a.w != w)
    ensures w in sys.workers && Apply(sys, a).workers[w] == sys.workers[w]
  {
  }

  lemma StartedStream(sys: System, a: Action)
    requires Enabled(sys, a) && a.Start?
    ensures StreamOf(Apply(sys, a), a.w)
  {
  }

  lemma StepKeepsStream(sys: System, a: Action, w: WorkerId)
    requires Inv(sys) && StreamOf(sys, w) && Enabled(sys, a) && Prompt(sys, a, w)
    ensures StreamOf(Apply(sys, a), w)
  {
    hide Inv, StreamInv, Apply, Enabled, Prompt;
    var sys' := Apply(sys, a);
    if w in sys'.workers {
      if a.Provision? || a.w != w {
        OthersStay(sys, a, w);
        forall s | s in sys.rows
          ensures s in sys'.rows && NotEarlier(sys.rows[s].leaseUntil, sys'.rows[s].leaseUntil)
        {
          StepMovesRowForward(sys, a, s);
        }
        FreshStays(sys.rows, sys'.rows, sys.workers[w]);
      } else if a.Start? {
        StartedStream(sys, a);
      } else if a.Crash? {
        CrashedIsGone(sys, a);
      } else {
        assert w in sys.workers by { ActorIsThere(sys, a); }
        ActorKeepsStream(sys, a);
      }
    }
  }

  lemma CrashedIsGone(sys: System, a: Action)
    requires Enabled(sys, a) && a.Crash?
    ensures a.w !in Apply(sys, a).workers
  {
  }

  lemma ActorIsThere(sys: System, a: Action)
    requires Enabled(sys, a) && !a.Provision? && !a.Start?
    ensures a.w in sys.workers
  {
  }

  lemma {:induction false} PromptRunKeepsStream(sys: System, actions: seq<Action>, w: WorkerId)
    requires Inv(sys) && StreamOf(sys, w) && IsPromptRun(sys, actions, w)
    ensures IsRun(sys, actions) && StreamOf(Final(sys, actions), w)
    decreases |actions|
  {
    PromptRunIsRun(sys, actions, w);
    if actions != [] {
      StepKeepsStream(sys, actions[0], w);
      StepKeepsInv(sys, actions[0]);
      hide Inv, StreamOf, Apply, Enabled, Prompt;
      PromptRunKeepsStream(Apply(sys, actions[0]), actions[1..], w);
    }
  }

  /** In every run in which a worker's own claims are prompt, however late the others', its changes alternate
      per shard, its runtime never raises "Shard already acquired", and between changes its tasks are the
      owned shards. */
  lemma StreamIsWellFormed(sys: System, actions: seq<Action>, w: WorkerId)
    requires Init(sys) && IsPromptRun(sys, actions, w)
    ensures IsRun(sys, actions)
    ensures w in Final(sys, actions).workers ==>
      var wk := Final(sys, actions).workers[w];
      && Alternating({}, wk.emitted)
      && wk.owned == OwnedAfter({}, wk.emitted)
      && !wk.failed
      && (wk.yielded.None? ==> wk.tasks == wk.owned)
  {
    PromptRunKeepsStream(sys, actions, w);
  }

  /** A late claim is what can go wrong. A worker about to claim can be handed a shard that it owns already
      exactly when the shard's lease, its own or another worker's by now, has run out by its clock. That is
      never before the end of the leases it has just renewed; and for a shard that the table still names as
      its own it is exactly then. */
  lemma ReclaimedExactlyWhenLate(sys: System, w: WorkerId, s: ShardId, now: Time)
    requires Inv(sys) && Ready(sys, w) && StreamInv(sys.rows, sys.workers[w])
    requires sys.workers[w].gen.Claiming? && s in sys.workers[w].owned
    requires sys.workers[w].clock <= now
    ensures s in sys.rows && sys.rows[s].leaseUntil.Some?
    ensures (exists picked :: s in picked && Enabled(sys, ClaimSome(w, now, picked)))
            <==> sys.rows[s].leaseUntil.value < now
    ensures sys.workers[w].renewedAt + sys.workers[w].lease <= sys.rows[s].leaseUntil.value
    ensures OwnedBy(sys.rows, s, w) ==>
      sys.workers[w].renewedAt + sys.workers[w].lease == sys.rows[s].leaseUntil.value
  {
    LeasedSinceRenewal(sys, w, s);
    hide Inv, StreamInv;
    if sys.rows[s].leaseUntil.value < now {
      OnePick(sys, w, s, now);
      assert s in [s];
    }
  }

  lemma OnePick(sys: System, w: WorkerId, s: ShardId, now: Time)
    requires Ready(sys, w) && sys.workers[w].gen.Claiming? && 0 < sys.workers[w].gen.limit
    requires sys.workers[w].clock <= now && s in sys.rows && Claimable(sys.rows[s], now)
    ensures Enabled(sys, ClaimSome(w, now, [s]))
  {
  }

  lemma LeasedSinceRenewal(sys: System, w: WorkerId, s: ShardId)
    requires Inv(sys) && Ready(sys, w) && StreamInv(sys.rows, sys.workers[w])
    requires sys.workers[w].gen.Claiming? && s in sys.workers[w].owned
    ensures s in sys.rows && sys.rows[s].owner.Some? && sys.rows[s].leaseUntil.Some?
    ensures sys.workers[w].renewedAt + sys.workers[w].lease <= sys.rows[s].leaseUntil.value
    ensures OwnedBy(sys.rows, s, w) ==>
      sys.workers[w].renewedAt + sys.workers[w].lease == sys.rows[s].leaseUntil.value
    ensures 0 < sys.workers[w].gen.limit && sys.workers[w].tasks == sys.workers[w].owned
  {
    var wk := sys.workers[w];
    hide Inv;
    LeaseOfOwned(sys, w, s);
  }

  lemma LeaseOfOwned(sys: System, w: WorkerId, s: ShardId)
    requires Inv(sys) && w in sys.workers && s in sys.workers[w].owned
    requires sys.workers[w].clock == sys.workers[w].renewedAt
    requires s in sys.rows && sys.rows[s].leaseUntil.Some?
    requires sys.workers[w].renewedAt + sys.workers[w].lease <= sys.rows[s].leaseUntil.value
    ensures sys.rows[s].owner.Some?
    ensures OwnedBy(sys.rows, s, w) ==>
      sys.workers[w].renewedAt + sys.workers[w].lease == sys.rows[s].leaseUntil.value
  {
    var wk := sys.workers[w];
    assert LeaseInv(sys.rows, sys.writes, w, wk) && WorkerInv(wk);
    hide WriteInv, DisjointWrites, EpochsDiffer;
  }

  /** And then the worker does fail: the next three steps are the claim, the yield and the raise. */
  lemma LateClaimFails(sys: System, w: WorkerId, s: ShardId, now: Time)
    requires Inv(sys) && Ready(sys, w) && StreamInv(sys.rows, sys.workers[w])
    requires sys.workers[w].gen.Claiming? && s in sys.workers[w].owned
    requires sys.workers[w].clock <= now
    requires s in sys.rows && sys.rows[s].leaseUntil.Some? && sys.rows[s].leaseUntil.value < now
    ensures var actions := [ClaimSome(w, now, [s]), YieldAcquired(w), Handle(w)];
            IsRun(sys, actions) && w in Final(sys, actions).workers && Final(sys, actions).workers[w].failed
  {
    LeasedSinceRenewal(sys, w, s);
    hide Inv, StreamInv;
    OnePick(sys, w, s, now);
    var s1 := Apply(sys, ClaimSome(w, now, [s]));
    OneClaimed(sys, w, s, now);
    hide Apply, Enabled;
    OneYielded(s1, w, s);
    var s2 := Apply(s1, YieldAcquired(w));
    OneRaised(s2, w, s);
    ThreeSteps(sys, ClaimSome(w, now, [s]), YieldAcquired(w), Handle(w));
  }

  lemma OneClaimed(sys: System, w: WorkerId, s: ShardId, now: Time)
    requires Enabled(sys, ClaimSome(w, now, [s]))
    ensures var sys' := Apply(sys, ClaimSome(w, now, [s]));
            && Ready(sys', w) && sys'.workers[w].gen == Acquiring([s]) && sys'.workers[w].tasks == sys.workers[w].tasks
  {
  }

  lemma OneYielded(sys: System, w: WorkerId, s: ShardId)
    requires Ready(sys, w) && sys.workers[w].gen == Acquiring([s])
    ensures Enabled(sys, YieldAcquired(w))
    ensures var sys' := Apply(sys, YieldAcquired(w));
            && w in sys'.workers && !sys'.workers[w].failed
            && sys'.workers[w].yielded == Some(Acquired(s)) && sys'.workers[w].tasks == sys.workers[w].tasks
  {
  }

  lemma OneRaised(sys: System, w: WorkerId, s: ShardId)
    requires w in sys.workers && !sys.workers[w].failed
    requires sys.workers[w].yielded == Some(Acquired(s)) && s in sys.workers[w].tasks
    ensures Enabled(sys, Handle(w))
    ensures w in Apply(sys, Handle(w)).workers && Apply(sys, Handle(w)).workers[w].failed
  {
  }

  lemma ThreeSteps(sys: System, a: Action, b: Action, c: Action)
    requires Enabled(sys, a) && Enabled(Apply(sys, a), b) && Enabled(Apply(Apply(sys, a), b), c)
    ensures IsRun(sys, [a, b, c]) && Final(sys, [a, b, c]) == Apply(Apply(Apply(sys, a), b), c)
  {
    hide Enabled, Apply;
    var s1 := Apply(sys, a);
    var s2 := Apply(s1, b);
    var s3 := Apply(s2, c);
    assert [a, b, c][1..] == [b, c] && [b, c][1..] == [c] && [c][1..] == [];
    assert IsRun(s3, []) && Final(s3, []) == s3;
    assert IsRun(s2, [c]) && Final(s2, [c]) == s3;
    assert IsRun(s1, [b, c]) && Final(s1, [b, c]) == s3;
  }

  ghost predicate CanFail(sys: System, w: WorkerId) {
    exists actions :: IsRun(sys, actions) && w in Final(sys, actions).workers && Final(sys, actions).workers[w].failed
  }

  lemma CanFailBefore(sys: System, a: Action, w: WorkerId)
    requires Enabled(sys, a) && CanFail(Apply(sys, a), w)
    ensures CanFail(sys, w)
  {
    var actions :| IsRun(Apply(sys, a), actions) && w in Final(Apply(sys, a), actions).workers
                   && Final(Apply(sys, a), actions).workers[w].failed;
    assert ([a] + actions)[1..] == actions;
    assert IsRun(sys, [a] + actions);
  }

  lemma FailedCanFail(sys: System, w: WorkerId)
    requires w in sys.workers && sys.workers[w].failed
    ensures CanFail(sys, w)
  {
    assert IsRun(sys, []);
  }

  // The worker of the example: ten seconds of lease, room for two shards.
  function ExampleWorker(gen: Generator, owned: set<ShardId>, held: map<ShardId, int>, emitted: seq<Change>): Worker {
    Worker(10, 2, owned, gen, None, owned, false, 0, 0, held, emitted)
  }

  function ExampleStart(): System {
    System(map[0 := LeaseRow(None, None, 0)], map[], {})
  }

  function ExampleLeased(wk: Worker): System {
    System(map[0 := LeaseRow(Some("w"), Some(10), 1)], map["w" := wk], {LeaseWrite(0, 1, "w", 0, 10)})
  }

  function ExampleReady(): System {
    System(map[0 := LeaseRow(None, None, 0)], map["w" := ExampleWorker(Claiming(2), {}, map[], [])], {})
  }

  lemma FromReady()
    requires CanFail(ExampleLeased(ExampleWorker(Acquiring([0]), {}, map[0 := 1], [])), "w")
    ensures CanFail(ExampleReady(), "w")
  {
    hide CanFail;
    var s0, w := ExampleReady(), "w";
    assert [0][0] == 0;
    var s1 := Apply(s0, ClaimSome(w, 0, [0]));
    assert SetOf([0]) == {0};
    assert ClaimWrites(s0.rows, w, {0}, 0, 10) == {LeaseWrite(0, 1, w, 0, 10)};
    assert s1.rows == map[0 := LeaseRow(Some(w), Some(10), 1)];
    assert HeldAfterClaim(s0.rows, map[], {0}) == map[0 := 1];
    assert s1.writes == {LeaseWrite(0, 1, w, 0, 10)};
    assert s1.workers[w] == ExampleWorker(Acquiring([0]), {}, map[0 := 1], []);
    assert s1.workers == map[w := ExampleWorker(Acquiring([0]), {}, map[0 := 1], [])];
    hide SetOf, ClaimWrites, HeldAfterClaim, Claimed;
    assert s1 == ExampleLeased(ExampleWorker(Acquiring([0]), {}, map[0 := 1], []));
    CanFailBefore(s0, ClaimSome(w, 0, [0]), w);
  }

  lemma FromStart()
    requires CanFail(ExampleReady(), "w")
    ensures CanFail(ExampleStart(), "w")
  {
    hide CanFail;
    var s0, w := ExampleStart(), "w";
    var s1 := Apply(s0, Start(w, 10, 2, 0));
    var s2 := Apply(s1, RenewNothing(w));
    var s3 := Apply(s2, Decide(w));
    assert s3 == ExampleReady();
    CanFailBefore(s2, Decide(w), w);
    CanFailBefore(s1, RenewNothing(w), w);
    CanFailBefore(s0, Start(w, 10, 2, 0), w);
  }

  lemma FromClaimed()
    requires CanFail(ExampleLeased(ExampleWorker(AtRenew, {0}, map[0 := 1], [Acquired(0)])), "w")
    ensures CanFail(ExampleLeased(ExampleWorker(Acquiring([0]), {}, map[0 := 1], [])), "w")
  {
    hide CanFail;
    var s0, w := ExampleLeased(ExampleWorker(Acquiring([0]), {}, map[0 := 1], [])), "w";
    var s1 := Apply(s0, YieldAcquired(w));
    var s2 := Apply(s1, Handle(w));
    assert s1.workers[w].emitted == [Acquired(0)] && s1.workers[w].owned == {0};
    assert s2.workers[w].tasks == {0} && [0][1..] == [];
    assert s2.workers[w] == ExampleWorker(Acquiring([]), {0}, map[0 := 1], [Acquired(0)]);
    var s3 := Apply(s2, Rest(w));
    assert s3 == ExampleLeased(ExampleWorker(AtRenew, {0}, map[0 := 1], [Acquired(0)]));
    CanFailBefore(s2, Rest(w), w);
    CanFailBefore(s1, Handle(w), w);
    CanFailBefore(s0, YieldAcquired(w), w);
  }

  lemma FromRenewed()
    ensures CanFail(ExampleLeased(ExampleWorker(Claiming(1), {0}, map[0 := 1], [Acquired(0)])), "w")
  {
    hide CanFail;
    var s0, w := ExampleLeased(ExampleWorker(Claiming(1), {0}, map[0 := 1], [Acquired(0)])), "w";
    var s1 := Apply(s0, ClaimSome(w, 11, [0]));
    var s2 := Apply(s1, YieldAcquired(w));
    var s3 := Apply(s2, Handle(w));
    FailedCanFail(s3, w);
    CanFailBefore(s2, Handle(w), w);
    CanFailBefore(s1, YieldAcquired(w), w);
    CanFailBefore(s0, ClaimSome(w, 11, [0]), w);
  }

  lemma FromResting()
    ensures CanFail(ExampleLeased(ExampleWorker(AtRenew, {0}, map[0 := 1], [Acquired(0)])), "w")
  {
    FromRenewed();
    hide CanFail;
    var s0, w := ExampleLeased(ExampleWorker(AtRenew, {0}, map[0 := 1], [Acquired(0)])), "w";
    assert Lost(s0.rows, w, {0}) == {} == SetOf([]);
    var s1 := Apply(s0, RenewAll(w, 0, []));
    assert RenewWrites(s0.rows, w, {0}, 0, 10) == {LeaseWrite(0, 1, w, 0, 10)};
    assert s1.rows == s0.rows;
    assert |{0}| == 1;
    var s2 := Apply(s1, Decide(w));
    assert s2 == ExampleLeased(ExampleWorker(Claiming(1), {0}, map[0 := 1], [Acquired(0)]));
    CanFailBefore(s1, Decide(w), w);
    CanFailBefore(s0, RenewAll(w, 0, []), w);
  }

  /** One shard and one worker with room for two and ten seconds of lease: it acquires the shard and
      renews it at second 0, claims at second 11, and ends in "Shard already acquired". */
  lemma LateClaimFailsInSomeRun()
    ensures Init(ExampleStart()) && CanFail(ExampleStart(), "w")
  {
    FromResting();
    FromClaimed();
    FromReady();
    FromStart();
  }
}
