/**
 How long a claim protects its rows. Database calls are instant, there is one clock, and a publish
 ends, one way or the other, within the publish timeout.
 */
module LeaseTiming {
  import opened Wrappers
  import opened Integers

  type Instant = nat

  datatype Config = Config(pollInterval: int, lockTimeout: int, publishTimeout: int, batchSize: int)

  const SECOND := 1_000_000_000

  const DEFAULT := Config(SECOND, 30 * SECOND, 5 * SECOND, 10)

  /** `Validate`: the checks made before the dispatcher runs. */
  predicate Valid(c: Config) {
    c.pollInterval > 0 && c.lockTimeout > 0 && c.publishTimeout > 0 && c.batchSize > 0
    && c.lockTimeout >= c.publishTimeout
  }

  datatype Row = Row(lockedAt: Option<Instant>, published: bool)

  /** A dispatcher's unfinished rows; it has been publishing the first since `startedAt`. */
  datatype Worker = Worker(claimedAt: Instant, queue: seq<nat>, startedAt: Instant)

  datatype State = State(now: Instant, rows: map<nat, Row>, workers: map<nat, Worker>)

  /** How a publish ended: marked, mark failed, released, release failed. */
  datatype Ending = Marked | MarkFailed | Released | ReleaseFailed

  datatype Step =
    | Tick(now: Instant)
    | Insert(row: nat)
    | Claim(worker: nat, ids: seq<nat>)
    | Finish(worker: nat, ending: Ending)
    | Crash(worker: nat)

  predicate Claimable(row: Row, now: Instant, c: Config) {
    !row.published && (row.lockedAt.None? || row.lockedAt.value < now - c.lockTimeout)
  }

  predicate Distinct(ids: seq<nat>) {
    forall i, j | 0 <= i < j < |ids| :: ids[i] != ids[j]
  }

  predicate Enabled(c: Config, s: State, step: Step) {
    match step
    case Tick(t) => s.now <= t && forall w | w in s.workers :: t <= s.workers[w].startedAt + c.publishTimeout
    case Insert(r) => r !in s.rows
    case Claim(w, ids) =>
      && w !in s.workers && 0 < |ids| <= c.batchSize && Distinct(ids)
      && forall i | 0 <= i < |ids| :: ids[i] in s.rows && Claimable(s.rows[ids[i]], s.now, c)
    case Finish(w, _) => w in s.workers && s.workers[w].queue != []
    case Crash(w) => w in s.workers
  }

  function RowAfter(row: Row, e: Ending): Row {
    match e
    case Marked => Row(None, true)
    case Released => row.(lockedAt := None)
    case _ => row
  }

  function Do(c: Config, s: State, step: Step): State {
    if !Enabled(c, s, step) then s
    else
      match step
      case Tick(t) => s.(now := t)
      case Insert(r) => s.(rows := s.rows[r := Row(None, false)])
      case Claim(w, ids) =>
        State(s.now, map r | r in s.rows :: if r in ids then s.rows[r].(lockedAt := Some(s.now)) else s.rows[r],
              s.workers[w := Worker(s.now, ids, s.now)])
      case Finish(w, e) =>
        var k := s.workers[w];
        State(s.now, if k.queue[0] in s.rows then s.rows[k.queue[0] := RowAfter(s.rows[k.queue[0]], e)] else s.rows,
              if |k.queue| == 1 then s.workers - {w} else s.workers[w := Worker(k.claimedAt, k.queue[1..], s.now)])
      case Crash(w) => s.(workers := s.workers - {w})
  }

  function Run(c: Config, s: State, steps: seq<Step>): State {
    if steps == [] then s else Do(c, Run(c, s, steps[..|steps| - 1]), steps[|steps| - 1])
  }

  /** No two dispatchers have the same row to do. */
  ghost predicate Exclusive(s: State) {
    forall v, w, r | v in s.workers && w in s.workers && r in s.workers[v].queue && r in s.workers[w].queue :: v == w
  }

  /** From an idle start, at every point of every run. */
  ghost predicate LeaseHolds(c: Config) {
    forall rows, now, steps :: Exclusive(Run(c, State(now, rows, map[]), steps))
  }

  // ----- long enough -----

  /** How long after its claim a dispatcher with `left` rows to do may have begun the first of them. */
  function Allowance(c: Config, left: int): int {
    (c.batchSize - left) * c.publishTimeout
  }

  lemma AllowanceGrows(c: Config, left: int)
    ensures Allowance(c, left - 1) == Allowance(c, left) + c.publishTimeout
    ensures Allowance(c, 0) == c.batchSize * c.publishTimeout
    ensures c.publishTimeout >= 0 && left <= c.batchSize ==> Allowance(c, left) >= 0
    ensures c.publishTimeout >= 0 && left >= 0 ==> Allowance(c, left) <= Allowance(c, 0)
  {
    var (n, t) := (c.batchSize, c.publishTimeout);
    assert (n - (left - 1)) * t == (n - left) * t + t;
    assert (n - left) * t == n * t - left * t;
    assert t >= 0 && left >= 0 ==> left * t >= 0;
  }

  /** The dispatcher is on schedule, and its rows still carry its own lock. */
  ghost predicate OnSchedule(c: Config, s: State, k: Worker) {
    && 0 < |k.queue| <= c.batchSize && Distinct(k.queue)
    && k.startedAt <= k.claimedAt + Allowance(c, |k.queue|)
    && s.now <= k.startedAt + c.publishTimeout
    && forall i | 0 <= i < |k.queue| :: k.queue[i] in s.rows && s.rows[k.queue[i]] == Row(Some(k.claimedAt), false)
  }

  ghost predicate Inv(c: Config, s: State) {
    Exclusive(s) && forall w | w in s.workers :: OnSchedule(c, s, s.workers[w])
  }

  predicate LongEnough(c: Config) {
    c.batchSize * c.publishTimeout <= c.lockTimeout
  }

  lemma NotYetClaimable(c: Config, s: State, k: Worker, r: nat)
    requires Valid(c) && LongEnough(c) && OnSchedule(c, s, k) && r in k.queue
    ensures r in s.rows && !Claimable(s.rows[r], s.now, c)
  {
    AllowanceGrows(c, |k.queue|);
    AllowanceGrows(c, |k.queue| - 1);
    hide Allowance;
  }

  lemma ClaimKeepsInv(c: Config, s: State, w: nat, ids: seq<nat>)
    requires Valid(c) && LongEnough(c) && Inv(c, s) && Enabled(c, s, Claim(w, ids))
    ensures Inv(c, Do(c, s, Claim(w, ids)))
  {
    hide Allowance, LongEnough;
    var s' := Do(c, s, Claim(w, ids));
    forall v, r | v in s.workers && r in s.workers[v].queue ensures r !in ids {
      NotYetClaimable(c, s, s.workers[v], r);
    }
    AllowanceGrows(c, |ids|);
    forall v | v in s'.workers ensures OnSchedule(c, s', s'.workers[v]) {
      if v in s.workers {
        assert OnSchedule(c, s, s.workers[v]);
        forall i | 0 <= i < |s.workers[v].queue|
          ensures s'.rows[s.workers[v].queue[i]] == s.rows[s.workers[v].queue[i]]
        {
          assert s.workers[v].queue[i] in s.workers[v].queue;
        }
      }
    }
  }

  lemma FinishKeepsInv(c: Config, s: State, w: nat, e: Ending)
    requires Valid(c) && Inv(c, s) && Enabled(c, s, Finish(w, e))
    ensures Inv(c, Do(c, s, Finish(w, e)))
  {
    hide Allowance;
    var s' := Do(c, s, Finish(w, e));
    var k := s.workers[w];
    assert OnSchedule(c, s, k) && k.queue[0] in k.queue;
    AllowanceGrows(c, |k.queue|);
    forall v | v in s'.workers ensures OnSchedule(c, s', s'.workers[v]) {
      assert OnSchedule(c, s, s.workers[v]);
      forall i | 0 <= i < |s'.workers[v].queue|
        ensures s'.rows[s'.workers[v].queue[i]] == s.rows[s'.workers[v].queue[i]]
      {
        if v == w {
          assert k.queue[i + 1] != k.queue[0];
        } else {
          assert s.workers[v].queue[i] in s.workers[v].queue;
        }
      }
    }
    forall v, u, r | v in s'.workers && u in s'.workers && r in s'.workers[v].queue && r in s'.workers[u].queue
      ensures v == u
    {
      assert r in s.workers[v].queue && r in s.workers[u].queue;
    }
  }

  lemma StepKeepsInv(c: Config, s: State, step: Step)
    requires Valid(c) && LongEnough(c) && Inv(c, s)
    ensures Inv(c, Do(c, s, step))
  {
    if Enabled(c, s, step) {
      match step
      case Claim(w, ids) => ClaimKeepsInv(c, s, w, ids);
      case Finish(w, e) => FinishKeepsInv(c, s, w, e);
      case _ =>
        var s' := Do(c, s, step);
        forall w | w in s'.workers ensures OnSchedule(c, s', s'.workers[w]) {
          assert OnSchedule(c, s, s.workers[w]);
        }
    }
  }

  lemma {:induction false} RunKeepsInv(c: Config, s: State, steps: seq<Step>)
    requires Valid(c) && LongEnough(c) && s.workers == map[]
    ensures Inv(c, Run(c, s, steps))
    decreases |steps|
  {
    hide Do;
    if steps != [] {
      RunKeepsInv(c, s, steps[..|steps| - 1]);
      hide Inv;
      StepKeepsInv(c, Run(c, s, steps[..|steps| - 1]), steps[|steps| - 1]);
    }
  }

  // ----- too short -----

  function AllIDs(n: int): (ids: seq<nat>)
    ensures |ids| == if n < 0 then 0 else n
    ensures forall i | 0 <= i < |ids| :: ids[i] == i
  {
    seq(if n < 0 then 0 else n, i => i)
  }

  lemma AllIDsComplete(n: int)
    ensures forall r: nat :: r in AllIDs(n) <==> r < n
  {
    forall r: nat ensures r in AllIDs(n) <==> r < n {
      if r < n {
        assert AllIDs(n)[r] == r;
      }
    }
  }

  function AllRows(n: int): map<nat, Row> {
    map r | r in AllIDs(n) :: Row(None, false)
  }

  /** The first dispatcher after its claim of everything at time 0 and `i` publishes of full length. */
  function Slow(c: Config, i: nat): State
    requires c.publishTimeout >= 0 && i <= c.batchSize
  {
    State(i * c.publishTimeout,
          map r | r in AllIDs(c.batchSize) :: if r < i then Row(None, true) else Row(Some(0), false),
          map[0 := Worker(0, AllIDs(c.batchSize)[i..], i * c.publishTimeout)])
  }

  function SlowSteps(c: Config, i: nat): seq<Step> {
    if i == 0 then [Claim(0, AllIDs(c.batchSize))]
    else SlowSteps(c, i - 1) + [Tick(if c.publishTimeout >= 0 then i * c.publishTimeout else 0), Finish(0, Marked)]
  }

  lemma RunAppend(c: Config, s: State, steps: seq<Step>, step: Step)
    ensures Run(c, s, steps + [step]) == Do(c, Run(c, s, steps), step)
  {
    assert (steps + [step])[..|steps|] == steps;
  }

  lemma FirstClaim(c: Config)
    requires Valid(c)
    ensures Do(c, State(0, AllRows(c.batchSize), map[]), Claim(0, AllIDs(c.batchSize))) == Slow(c, 0)
  {
    var ids := AllIDs(c.batchSize);
    AllIDsComplete(c.batchSize);
    assert ids[0..] == ids;
    var s := Do(c, State(0, AllRows(c.batchSize), map[]), Claim(0, ids));
    assert s.rows == Slow(c, 0).rows;
    assert s.workers == Slow(c, 0).workers;
  }

  lemma SlowStep(c: Config, i: nat)
    requires Valid(c) && 0 < i < c.batchSize
    ensures Do(c, Do(c, Slow(c, i - 1), Tick(i * c.publishTimeout)), Finish(0, Marked)) == Slow(c, i)
  {
    AllIDsComplete(c.batchSize);
    var s := Slow(c, i - 1);
    assert i * c.publishTimeout == (i - 1) * c.publishTimeout + c.publishTimeout;
    var t := Do(c, s, Tick(i * c.publishTimeout));
    assert t == s.(now := i * c.publishTimeout);
    var u := Do(c, t, Finish(0, Marked));
    assert AllIDs(c.batchSize)[i - 1..][0] == i - 1;
    assert AllIDs(c.batchSize)[i - 1..][1..] == AllIDs(c.batchSize)[i..];
    assert u.rows == Slow(c, i).rows;
    assert u.workers == Slow(c, i).workers;
  }

  lemma {:induction false} SlowRun(c: Config, i: nat)
    requires Valid(c) && i < c.batchSize
    ensures Run(c, State(0, AllRows(c.batchSize), map[]), SlowSteps(c, i)) == Slow(c, i)
    decreases i
  {
    var s0 := State(0, AllRows(c.batchSize), map[]);
    hide Do, Slow;
    if i == 0 {
      var step := Claim(0, AllIDs(c.batchSize));
      RunAppend(c, s0, [], step);
      assert [] + [step] == SlowSteps(c, 0);
      FirstClaim(c);
    } else {
      SlowRun(c, i - 1);
      var tick, fin := Tick(i * c.publishTimeout), Finish(0, Marked);
      RunAppend(c, s0, SlowSteps(c, i - 1), tick);
      RunAppend(c, s0, SlowSteps(c, i - 1) + [tick], fin);
      assert SlowSteps(c, i) == SlowSteps(c, i - 1) + [tick] + [fin];
      SlowStep(c, i);
    }
  }

  /** At one tick past the lock timeout the slow dispatcher is still publishing row `j`, whose lock has expired. */
  lemma SecondClaim(c: Config, j: nat)
    requires Valid(c) && j < c.batchSize
    requires j * c.publishTimeout <= c.lockTimeout < j * c.publishTimeout + c.publishTimeout
    ensures !Exclusive(Do(c, Do(c, Slow(c, j), Tick(c.lockTimeout + 1)), Claim(1, [j])))
  {
    var s := Do(c, Slow(c, j), Tick(c.lockTimeout + 1));
    assert s == Slow(c, j).(now := c.lockTimeout + 1);
    AllIDsComplete(c.batchSize);
    var s' := Do(c, s, Claim(1, [j]));
    assert AllIDs(c.batchSize)[j..][0] == j;
    assert j in s'.workers[0].queue && j in s'.workers[1].queue;
  }

  /** When the batch can outlast the lock, a slow first dispatcher shares a row with a second one. */
  lemma DoubleClaim(c: Config)
    requires Valid(c) && !LongEnough(c)
    ensures !LeaseHolds(c)
  {
    hide Do, Exclusive, Slow, SlowSteps;
    var j := c.lockTimeout / c.publishTimeout;
    assert j * c.publishTimeout <= c.lockTimeout < j * c.publishTimeout + c.publishTimeout;
    if c.batchSize <= j {
      MulMonotone(c.batchSize, j, c.publishTimeout);
      assert false;
    }
    SlowRun(c, j);
    var s0 := State(0, AllRows(c.batchSize), map[]);
    var tick, claim := Tick(c.lockTimeout + 1), Claim(1, [j]);
    RunAppend(c, s0, SlowSteps(c, j), tick);
    RunAppend(c, s0, SlowSteps(c, j) + [tick], claim);
    SecondClaim(c, j);
    assert !Exclusive(Run(c, s0, SlowSteps(c, j) + [tick] + [claim]));
  }

  /** No row is claimed by a second dispatcher before the first is done with it, in any run, exactly when a whole batch
      of slowest publishes fits in the lock timeout. */
  lemma LeaseHoldsIffBatchFits(c: Config)
    requires Valid(c)
    ensures LeaseHolds(c) <==> c.batchSize * c.publishTimeout <= c.lockTimeout
  {
    if LongEnough(c) {
      forall rows, now, steps ensures Exclusive(Run(c, State(now, rows, map[]), steps)) {
        RunKeepsInv(c, State(now, rows, map[]), steps);
      }
    } else {
      DoubleClaim(c);
    }
  }

  /** What the configured check gives by itself: enough for batches of one, and for no larger size. */
  lemma ValidSufficesOnlyForSingles(n: int)
    requires n > 0
    ensures (forall c | Valid(c) && c.batchSize == n :: LeaseHolds(c)) <==> n == 1
  {
    hide LeaseHolds;
    if n == 1 {
      forall c | Valid(c) && c.batchSize == n ensures LeaseHolds(c) {
        LeaseHoldsIffBatchFits(c);
      }
    } else {
      var c := Config(1, 1, 1, n);
      LeaseHoldsIffBatchFits(c);
      assert Valid(c) && !LeaseHolds(c);
    }
  }

  /** The default configuration passes the check and does not keep the lease: ten publishes of five seconds outlast
      thirty. */
  lemma DefaultOutlastsItsLock()
    ensures Valid(DEFAULT) && !LeaseHolds(DEFAULT)
  {
    LeaseHoldsIffBatchFits(DEFAULT);
  }
}
