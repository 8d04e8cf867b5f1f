/**
 The dispatcher at work on the outbox table. What one pass does is shown to be a run of
 `OutboxRelay`, so that everything proved there of all runs holds of it.
 */
module OutboxDispatching {
  import opened Wrappers
  import opened Integers
  import opened Domain
  import opened OrderStore
  import opened OutboxRelay
  import opened Sequences
  import LeaseTiming

  /** How the publish of a row, and the statement after it, turn out. */
  datatype Reply = Reply(published: bool, stored: bool, at: Time)

  function AfterRow(rows: Rows, c: Claimed, r: Reply): Rows {
    if !r.stored then rows
    else if r.published then MarkedPublished(rows, c.id, r.at)
    else if ReleaseSucceeds(rows, c.id) then Released(rows, c.id)
    else rows
  }

  function AfterRows(rows: Rows, claimed: seq<Claimed>, replies: seq<Reply>): Rows
    requires |claimed| <= |replies|
  {
    if claimed == [] then rows
    else
      var n := |claimed| - 1;
      AfterRow(AfterRows(rows, claimed[..n], replies), claimed[n], replies[n])
  }

  /** What was sent, in order. */
  function Sent(claimed: seq<Claimed>, replies: seq<Reply>): seq<Claimed>
    requires |claimed| <= |replies|
  {
    if claimed == [] then []
    else
      var n := |claimed| - 1;
      Sent(claimed[..n], replies) + if replies[n].published then [claimed[n]] else []
  }

  ghost function RowSteps(w: nat, r: Reply): seq<Step> {
    [Publish(w, r.published), if r.published then Mark(w, r.stored, r.at) else Release(w, r.stored)]
  }

  lemma RunAppend(s: State, steps: seq<Step>, step: Step)
    ensures Run(s, steps + [step]) == Do(Run(s, steps), step)
  {
    assert (steps + [step])[..|steps|] == steps;
  }

  /** A row's publish and the statement after it, as two steps of the relay. */
  lemma RowIsTwoSteps(s: State, steps: seq<Step>, w: nat, r: Reply)
    requires var t := Run(s, steps);
             Inv(t) && w in t.workers && t.workers[w].phase == Publishing && t.workers[w].queue != []
    ensures var t, t' := Run(s, steps), Run(s, steps + RowSteps(w, r));
            && Inv(t') && t'.rows == AfterRow(t.rows, t.workers[w].queue[0], r)
            && t'.workers == if |t.workers[w].queue| == 1
                             then t.workers - {w} else t.workers[w := Worker(t.workers[w].queue[1..], Publishing)]
  {
    var (first, second) := (RowSteps(w, r)[0], RowSteps(w, r)[1]);
    var t := Run(s, steps);
    RunAppend(s, steps, first);
    RunAppend(s, steps + [first], second);
    assert steps + RowSteps(w, r) == steps + [first] + [second];
    StepKeepsInv(t, first);
    StepKeepsInv(Do(t, first), second);
    hide Inv, Run;
    TwoSteps(t, w, r);
  }

  lemma TwoSteps(t: State, w: nat, r: Reply)
    requires w in t.workers && t.workers[w].phase == Publishing && t.workers[w].queue != []
    requires t.releases.Keys == t.rows.Keys
    ensures var t' := Do(Do(t, RowSteps(w, r)[0]), RowSteps(w, r)[1]);
            && t'.rows == AfterRow(t.rows, t.workers[w].queue[0], r)
            && t'.workers == if |t.workers[w].queue| == 1
                             then t.workers - {w} else t.workers[w := Worker(t.workers[w].queue[1..], Publishing)]
  {
    hide Released, MarkedPublished;
  }

  /** The rows a claim may choose from. */
  function Open(rows: Rows, busy: set<RowID>, now: Time, lockTimeout: nat): set<RowID> {
    set r | r in rows && r !in busy && Claimable(rows[r], now, lockTimeout)
  }

  function Pending(rows: Rows): nat {
    |set r | r in rows && rows[r].publishedAt.None?|
  }

  function IDs(claimed: seq<Claimed>): set<RowID> {
    set c | c in claimed :: c.id
  }

  function Copies(rows: Rows, ids: seq<RowID>): (claimed: seq<Claimed>)
    requires forall i | 0 <= i < |ids| :: ids[i] in rows
    ensures |claimed| == |ids|
  {
    seq(|ids|, i requires 0 <= i < |ids| => CopyOf(ids[i], rows[ids[i]]))
  }

  lemma CopiedIDs(rows: Rows, ids: seq<RowID>)
    requires forall i | 0 <= i < |ids| :: ids[i] in rows
    ensures IDs(Copies(rows, ids)) == set i | 0 <= i < |ids| :: ids[i]
  {
    var claimed := Copies(rows, ids);
    forall i | 0 <= i < |ids| ensures ids[i] in IDs(claimed) {
      assert claimed[i] in claimed;
    }
  }

  /** The claim as a step of the relay. */
  lemma ClaimIsStep(s: State, w: nat, ids: seq<RowID>, busy: set<RowID>, now: Time, lockTimeout: nat)
    requires Inv(s) && w !in s.workers && ids != []
    requires forall i | 0 <= i < |ids| :: ids[i] in s.rows && ids[i] in Open(s.rows, busy, now, lockTimeout)
    ensures var s' := Do(s, Claim(w, ids, now, lockTimeout));
            && Run(s, [Claim(w, ids, now, lockTimeout)]) == s' && Inv(s')
            && s'.rows == Locked(s.rows, IDs(Copies(s.rows, ids)), now)
            && s'.workers == s.workers[w := Worker(Copies(s.rows, ids), Publishing)]
  {
    var step := Claim(w, ids, now, lockTimeout);
    RunAppend(s, [], step);
    assert [] + [step] == [step];
    StepKeepsInv(s, step);
    CopiedIDs(s.rows, ids);
  }

  /** Oldest first: no claimable row left out is older than one taken, and none is left out while there is room. */
  ghost predicate OldestFirst(rows: Rows, ids: seq<RowID>, open: set<RowID>, limit: int) {
    && |ids| <= limit
    && (forall i | 0 <= i < |ids| :: ids[i] in open)
    && (forall i, j | 0 <= i < j < |ids| :: ids[i] != ids[j])
    && (forall r | r in open && r !in ids :: |ids| == limit)
    && (forall r, i | r in open && r in rows && r !in ids && 0 <= i < |ids| && ids[i] in rows ::
        rows[ids[i]].createdAt <= rows[r].createdAt)
  }

  ghost predicate IsOldest(rows: Rows, open: set<RowID>, x: RowID)
    requires open <= rows.Keys
  {
    x in open && forall y | y in open :: rows[x].createdAt <= rows[y].createdAt
  }

  lemma {:induction false} OldestExists(rows: Rows, open: set<RowID>)
    requires open != {} && open <= rows.Keys
    ensures exists x :: IsOldest(rows, open, x)
    decreases |open|
  {
    var z :| z in open;
    if w :| w in open && w != z {
      assert w in open - {z};
      OldestExists(rows, open - {z});
      var x :| IsOldest(rows, open - {z}, x);
      var oldest := if rows[z].createdAt < rows[x].createdAt then z else x;
      forall y | y in open ensures rows[oldest].createdAt <= rows[y].createdAt {
        if y != z {
          assert y in open - {z};
        }
      }
      assert IsOldest(rows, open, oldest);
    } else {
      assert IsOldest(rows, open, z);
    }
  }

  /** When the backlog is logged: after every claim, and for an idle backlog at most once per interval. */
  function LogTime(last: Time, now: Time, claimed: nat, pending: nat, interval: nat): Time {
    if claimed > 0 then now
    else if pending == 0 then last
    else if last != 0 && now - last < interval then last
    else now
  }

  // ----- the same rows in the lease's terms -----

  function LeaseRow(row: OutboxRow): LeaseTiming.Row {
    LeaseTiming.Row(row.lockedAt, row.publishedAt.Some?)
  }

  function EndingOf(row: OutboxRow, r: Reply): LeaseTiming.Ending {
    if r.published then if r.stored then LeaseTiming.Marked else LeaseTiming.MarkFailed
    else if r.stored && row.attempts < MAX_INT32 then LeaseTiming.Released else LeaseTiming.ReleaseFailed
  }

  /** The lease's rows are claimed and finished as these are, with times and payloads left out. */
  lemma LeaseAgrees(row: OutboxRow, after: OutboxRow, reply: Reply, now: Time, c: LeaseTiming.Config)
    requires LeaseTiming.Valid(c) && Due(row, now, c.lockTimeout) && Fares(row, after, reply, now)
    ensures forall other: OutboxRow, t: Time ::
              LeaseTiming.Claimable(LeaseRow(other), t, c) <==> Due(other, t, c.lockTimeout)
    ensures LeaseRow(after) == LeaseTiming.RowAfter(LeaseTiming.Row(Some(now), false), EndingOf(row, reply))
  {
  }

  // ----- a pass in the fields of the rows -----

  /** Not published, and not locked or locked for longer than the timeout. */
  predicate Due(row: OutboxRow, now: Time, lockTimeout: nat) {
    row.publishedAt == None && (row.lockedAt.Some? ==> row.lockedAt.value + lockTimeout < now)
  }

  /** The rows taken are due and in no other claim, at most `limit` of them, each once; a due row is left out only when
      there is no room, and then it is not older than one taken. */
  ghost predicate TakesOldest(rows: Rows, ids: seq<RowID>, busy: set<RowID>, now: Time, lockTimeout: nat, limit: int) {
    && |ids| <= limit
    && (forall i | 0 <= i < |ids| :: ids[i] in rows && ids[i] !in busy && Due(rows[ids[i]], now, lockTimeout))
    && (forall i, j | 0 <= i < j < |ids| :: ids[i] != ids[j])
    && (forall r | r in rows && r !in busy && r !in ids && Due(rows[r], now, lockTimeout) ::
          && |ids| == limit
          && forall i | 0 <= i < |ids| && ids[i] in rows :: rows[ids[i]].createdAt <= rows[r].createdAt)
  }

  lemma OldestAreTaken(rows: Rows, ids: seq<RowID>, busy: set<RowID>, now: Time, lockTimeout: nat, limit: int)
    requires OldestFirst(rows, ids, Open(rows, busy, now, lockTimeout), limit)
    ensures TakesOldest(rows, ids, busy, now, lockTimeout, limit)
  {
    var open := Open(rows, busy, now, lockTimeout);
    forall r | r in rows ensures r in open <==> r !in busy && Due(rows[r], now, lockTimeout) {
    }
  }

  /** What a claimed row has become: published and marked, released for a later pass, or still locked by this one. */
  predicate Fares(before: OutboxRow, after: OutboxRow, reply: Reply, now: Time) {
    if !reply.stored || (!reply.published && before.attempts >= MAX_INT32) then after == before.(lockedAt := Some(now))
    else if reply.published then after == before.(publishedAt := Some(reply.at), lockedAt := None)
    else after == before.(lockedAt := None, attempts := before.attempts + 1)
  }

  /** One pass over the claimed rows: each fares as its reply says, a published and marked one is never due again, and
      all other rows stand. */
  ghost predicate Passes(before: Rows, after: Rows, ids: seq<RowID>, replies: seq<Reply>, now: Time, lockTimeout: nat)
    requires |ids| <= |replies| && forall i | 0 <= i < |ids| :: ids[i] in before
  {
    && after.Keys == before.Keys
    && (forall i | 0 <= i < |ids| :: ids[i] in after && Fares(before[ids[i]], after[ids[i]], replies[i], now))
    && (forall i, later | 0 <= i < |ids| && replies[i].published && replies[i].stored ::
          ids[i] in after && !Due(after[ids[i]], later, lockTimeout))
    && (forall r | r in before && r !in ids :: r in after && after[r] == before[r])
  }

  /** The backlog is logged after every claim that takes a row, and otherwise, while a row is unpublished, once per
      interval. */
  ghost predicate Logs(last: Time, logged: Time, now: Time, ids: seq<RowID>, rows: Rows, interval: nat) {
    logged == if ids != [] then now
              else if forall r | r in rows :: rows[r].publishedAt.Some? then last
              else if last != 0 && now < last + interval then last
              else now
  }

  lemma LockedIs(rows: Rows, ids: seq<RowID>, now: Time)
    requires forall i | 0 <= i < |ids| :: ids[i] in rows
    ensures var locked := Locked(rows, IDs(Copies(rows, ids)), now);
            && locked.Keys == rows.Keys
            && (forall i | 0 <= i < |ids| :: locked[ids[i]] == rows[ids[i]].(lockedAt := Some(now)))
            && (forall r | r in rows && r !in ids :: locked[r] == rows[r])
  {
    CopiedIDs(rows, ids);
  }

  lemma AfterRowIs(rows: Rows, c: Claimed, before: OutboxRow, reply: Reply, now: Time)
    requires c.id in rows && rows[c.id] == before.(lockedAt := Some(now))
    ensures var after := AfterRow(rows, c, reply);
            after.Keys == rows.Keys && Fares(before, after[c.id], reply, now)
            && forall r | r in rows && r != c.id :: after[r] == rows[r]
  {
  }

  /** The first `n` claimed rows have fared as their replies say, the others are locked, and the rest stand. */
  ghost predicate FaredUpTo(before: Rows, after: Rows, ids: seq<RowID>, replies: seq<Reply>, now: Time, n: nat)
    requires n <= |ids| <= |replies| && forall i | 0 <= i < |ids| :: ids[i] in before
  {
    && after.Keys == before.Keys
    && (forall i | 0 <= i < n :: Fares(before[ids[i]], after[ids[i]], replies[i], now))
    && (forall i | n <= i < |ids| :: after[ids[i]] == before[ids[i]].(lockedAt := Some(now)))
    && (forall r | r in before && r !in ids :: after[r] == before[r])
  }

  lemma OneMoreFares(before: Rows, partly: Rows, ids: seq<RowID>, replies: seq<Reply>, now: Time, n: nat, c: Claimed)
    requires n < |ids| <= |replies| && (forall i | 0 <= i < |ids| :: ids[i] in before)
    requires forall i, j | 0 <= i < j < |ids| :: ids[i] != ids[j]
    requires FaredUpTo(before, partly, ids, replies, now, n) && c.id == ids[n]
    ensures FaredUpTo(before, AfterRow(partly, c, replies[n]), ids, replies, now, n + 1)
  {
    hide AfterRow, Fares;
    AfterRowIs(partly, c, before[ids[n]], replies[n], now);
    var after := AfterRow(partly, c, replies[n]);
    forall i | 0 <= i < |ids| && i != n ensures after[ids[i]] == partly[ids[i]] {
      assert ids[i] != ids[n];
    }
  }

  lemma {:induction false} RowsFare(rows: Rows, ids: seq<RowID>, replies: seq<Reply>, now: Time, n: nat)
    requires n <= |ids| <= |replies| && (forall i | 0 <= i < |ids| :: ids[i] in rows)
    requires forall i, j | 0 <= i < j < |ids| :: ids[i] != ids[j]
    ensures var claimed := Copies(rows, ids);
            FaredUpTo(rows, AfterRows(Locked(rows, IDs(claimed), now), claimed[..n], replies), ids, replies, now, n)
    decreases n
  {
    hide AfterRow, Fares, Locked, Copies, IDs;
    var claimed := Copies(rows, ids);
    if n == 0 {
      LockedIs(rows, ids, now);
    } else {
      RowsFare(rows, ids, replies, now, n - 1);
      hide FaredUpTo;
      assert claimed[..n][..n - 1] == claimed[..n - 1];
      CopyHasID(rows, ids, n - 1);
      var partly := AfterRows(Locked(rows, IDs(claimed), now), claimed[..n - 1], replies);
      OneMoreFares(rows, partly, ids, replies, now, n - 1, claimed[n - 1]);
    }
  }

  lemma CopyHasID(rows: Rows, ids: seq<RowID>, i: nat)
    requires i < |ids| && forall j | 0 <= j < |ids| :: ids[j] in rows
    ensures var row := rows[ids[i]]; Copies(rows, ids)[i] == Claimed(ids[i], row.topic, row.key, row.payload)
  {
  }

  /** Of the first `n` rows those whose publish succeeded, in that order, each sent under its topic and key; `at` are
      their positions. */
  ghost predicate Delivers(messages: seq<Claimed>, rows: Rows, ids: seq<RowID>, replies: seq<Reply>, n: nat,
                           at: seq<nat>)
    requires n <= |ids| <= |replies| && forall i | 0 <= i < |ids| :: ids[i] in rows
  {
    && |at| == |messages|
    && (forall j, k | 0 <= j < k < |at| :: at[j] < at[k])
    && (forall j | 0 <= j < |at| ::
        at[j] < n && replies[at[j]].published && IsRow(messages[j], ids[at[j]], rows[ids[at[j]]]))
    && (forall i | 0 <= i < n && replies[i].published :: i in at)
  }

  predicate IsRow(message: Claimed, id: RowID, row: OutboxRow) {
    message.id == id && message.topic == row.topic && message.key == row.key && message.payload == row.payload
  }

  lemma DeliversMore(messages: seq<Claimed>, rows: Rows, ids: seq<RowID>, replies: seq<Reply>, n: nat, at: seq<nat>,
                     message: Claimed)
    requires n < |ids| <= |replies| && forall i | 0 <= i < |ids| :: ids[i] in rows
    requires Delivers(messages, rows, ids, replies, n, at) && IsRow(message, ids[n], rows[ids[n]])
    ensures if replies[n].published then Delivers(messages + [message], rows, ids, replies, n + 1, at + [n])
            else Delivers(messages, rows, ids, replies, n + 1, at)
  {
    hide IsRow;
    forall i | 0 <= i < n + 1 && replies[i].published ensures i in at + [n] {
      assert i < n ==> i in at;
    }
  }

  lemma {:induction false} SentDelivers(rows: Rows, ids: seq<RowID>, replies: seq<Reply>, n: nat) returns (at: seq<nat>)
    requires n <= |ids| <= |replies| && forall i | 0 <= i < |ids| :: ids[i] in rows
    ensures Delivers(Sent(Copies(rows, ids)[..n], replies), rows, ids, replies, n, at)
    decreases n
  {
    hide Copies, Delivers;
    var claimed := Copies(rows, ids);
    if n == 0 {
      at := [];
      NothingSent(rows, ids, replies);
    } else {
      at := SentDelivers(rows, ids, replies, n - 1);
      assert claimed[..n][..n - 1] == claimed[..n - 1];
      CopyHasID(rows, ids, n - 1);
      DeliversMore(Sent(claimed[..n - 1], replies), rows, ids, replies, n - 1, at, claimed[n - 1]);
      assert Sent(claimed[..n - 1], replies) + [] == Sent(claimed[..n - 1], replies);
      at := if replies[n - 1].published then at + [n - 1] else at;
    }
  }

  class OutboxDispatcher {
    const worker: nat
    const config: LeaseTiming.Config
    const statsLogInterval: nat
    var rows: Rows
    var sent: seq<Claimed>
    var lastStatsLogAt: Time
    ghost var relay: State

    ghost predicate Valid()
      reads this
    {
      relay.rows == rows && Inv(relay) && worker !in relay.workers
    }

    constructor (worker: nat, config: LeaseTiming.Config)
      ensures Valid() && relay == START && this.worker == worker && this.config == config && sent == []
      ensures statsLogInterval == 30 * LeaseTiming.SECOND && lastStatsLogAt == 0
    {
      this.worker, this.config, statsLogInterval := worker, config, 30 * LeaseTiming.SECOND;
      rows, sent, lastStatsLogAt, relay := map[], [], 0, START;
    }

    /** `ClaimPendingOrderOutboxEvents`; `busy` are the rows other claims have locked at this moment. */
    method ClaimPending(now: Time, busy: set<RowID>) returns (claimed: seq<Claimed>, ghost ids: seq<RowID>)
      requires config.batchSize > 0 && config.lockTimeout > 0
      modifies this`rows
      ensures OldestFirst(old(rows), ids, Open(old(rows), busy, now, config.lockTimeout), config.batchSize)
      ensures (forall i | 0 <= i < |ids| :: ids[i] in old(rows)) && claimed == Copies(old(rows), ids)
      ensures rows == Locked(old(rows), IDs(claimed), now)
    {
      var chosen: seq<RowID> := [];
      var open := Open(rows, busy, now, config.lockTimeout);
      var left := open;
      while left != {} && |chosen| < config.batchSize
        invariant rows == old(rows) && left <= open && |chosen| <= config.batchSize
        invariant forall i | 0 <= i < |chosen| :: chosen[i] in open && chosen[i] !in left
        invariant forall i, j | 0 <= i < j < |chosen| :: chosen[i] != chosen[j]
        invariant forall r | r in open && r !in left :: r in chosen
        invariant forall r, i | r in left && 0 <= i < |chosen| :: rows[chosen[i]].createdAt <= rows[r].createdAt
        decreases |left|
      {
        OldestExists(rows, left);
        ghost var before := chosen;
        var x :| x in left && forall y | y in left :: rows[x].createdAt <= rows[y].createdAt;
        chosen := chosen + [x];
        left := left - {x};
        forall r | r in open && r !in left ensures r in chosen {
          assert r == x || r in before;
        }
      }
      ids := chosen;
      claimed := Copies(rows, chosen);
      rows := Locked(rows, IDs(claimed), now);
    }

    /** The loop over the claimed rows; `begun` is the run of the relay so far. */
    method DispatchRows(claimed: seq<Claimed>, replies: seq<Reply>, ghost before: State, ghost begun: seq<Step>)
      returns (ghost steps: seq<Step>)
      requires claimed != [] && |replies| >= |claimed|
      requires relay == Run(before, begun) && Inv(relay) && relay.rows == rows && worker !in before.workers
      requires relay.workers == before.workers[worker := Worker(claimed, Publishing)]
      modifies this`rows, this`sent, this`relay
      ensures Valid() && relay == Run(before, steps)
      ensures rows == AfterRows(old(rows), claimed, replies)
      ensures sent == old(sent) + Sent(claimed, replies)
    {
      hide Run, Inv, AfterRow, RowSteps;
      steps := begun;
      var i := 0;
      WholePrefix(claimed);
      while i < |claimed|
        invariant 0 <= i <= |claimed|
        invariant relay == Run(before, steps) && Inv(relay) && relay.rows == rows
        invariant relay.workers == if i == |claimed|
                                   then before.workers else before.workers[worker := Worker(claimed[i..], Publishing)]
        invariant rows == AfterRows(old(rows), claimed[..i], replies)
        invariant sent == old(sent) + Sent(claimed[..i], replies)
      {
        var reply := replies[i];
        RowIsTwoSteps(before, steps, worker, reply);
        steps := steps + RowSteps(worker, reply);
        relay := Run(before, steps);
        rows := AfterRow(rows, claimed[i], reply);
        if reply.published {
          sent := sent + [claimed[i]];
        }
        assert claimed[..i + 1][..i] == claimed[..i];
        i := i + 1;
      }
    }

    /**
     `dispatchOnce`. `claimOk` and `statsOk` say whether those queries answer, `replies` how each claimed row fares.
     */
    method DispatchOnce(now: Time, claimOk: bool, statsOk: bool, busy: set<RowID>, replies: seq<Reply>)
      returns (claimed: seq<Claimed>, ghost ids: seq<RowID>, ghost steps: seq<Step>)
      requires Valid() && LeaseTiming.Valid(config) && |replies| >= config.batchSize
      modifies this
      ensures Valid() && (!claimOk ==> ids == [])
      ensures claimOk ==> OldestFirst(old(rows), ids, Open(old(rows), busy, now, config.lockTimeout), config.batchSize)
      ensures (forall i | 0 <= i < |ids| :: ids[i] in old(rows)) && claimed == Copies(old(rows), ids)
      ensures relay == Run(old(relay), steps)
      ensures rows == AfterRows(if claimOk then Locked(old(rows), IDs(claimed), now) else old(rows), claimed, replies)
      ensures sent == old(sent) + Sent(claimed, replies)
      ensures if claimOk
              then TakesOldest(old(rows), ids, busy, now, config.lockTimeout, config.batchSize) else ids == []
      ensures |ids| <= |replies| && Passes(old(rows), rows, ids, replies, now, config.lockTimeout)
      ensures old(sent) <= sent && exists at :: Delivers(sent[|old(sent)|..], old(rows), ids, replies, |ids|, at)
      ensures if claimOk && statsOk
              then Logs(old(lastStatsLogAt), lastStatsLogAt, now, ids, old(rows), statsLogInterval)
              else lastStatsLogAt == old(lastStatsLogAt)
      ensures lastStatsLogAt == if claimOk && statsOk
                                then LogTime(old(lastStatsLogAt), now, |claimed|, Pending(old(rows)), statsLogInterval)
                                else old(lastStatsLogAt)
    {
      hide Do, Inv, Copies, Locked, Open, OldestFirst, TakesOldest, Pending, Claimable, AfterRow, Delivers;
      hide Passes, Logs, LogTime;
      claimed, ids, steps := [], [], [];
      if !claimOk {
        NothingSent(rows, [], replies);
        NothingPasses(rows, replies, now, config.lockTimeout);
        assert sent[|sent|..] == [];
        return;
      }
      ghost var before := relay;
      claimed, ids := ClaimPending(now, busy);
      OldestAreTaken(before.rows, ids, busy, now, config.lockTimeout, config.batchSize);
      TakenAreDistinct(before.rows, ids, busy, now, config.lockTimeout, config.batchSize);
      WholePrefix(claimed);
      PassIs(before.rows, ids, replies, now, config.lockTimeout);
      ghost var at := SentDelivers(before.rows, ids, replies, |ids|);
      CopiedIDs(before.rows, ids);
      LockedPending(before.rows, IDs(claimed), now);
      LogsWhen(lastStatsLogAt, now, ids, before.rows, statsLogInterval);
      if statsOk {
        lastStatsLogAt := LogTime(lastStatsLogAt, now, |claimed|, Pending(rows), statsLogInterval);
      }
      if claimed == [] {
        NothingLocked(before.rows, now);
        assert sent[|sent|..] == Sent(claimed, replies);
        return;
      }
      ClaimIsStep(before, worker, ids, busy, now, config.lockTimeout);
      relay := Run(before, [Claim(worker, ids, now, config.lockTimeout)]);
      ghost var sentBefore := sent;
      steps := DispatchRows(claimed, replies, before, [Claim(worker, ids, now, config.lockTimeout)]);
      assert sent[|sentBefore|..] == Sent(claimed, replies);
    }
  }

  lemma NothingSent(rows: Rows, ids: seq<RowID>, replies: seq<Reply>)
    requires |ids| <= |replies| && forall i | 0 <= i < |ids| :: ids[i] in rows
    ensures Delivers([], rows, ids, replies, 0, [])
  {
  }

  lemma TakenAreDistinct(rows: Rows, ids: seq<RowID>, busy: set<RowID>, now: Time, lockTimeout: nat, limit: int)
    requires TakesOldest(rows, ids, busy, now, lockTimeout, limit)
    ensures |ids| <= limit && forall i, j | 0 <= i < j < |ids| :: ids[i] != ids[j]
  {
  }

  lemma NothingPasses(rows: Rows, replies: seq<Reply>, now: Time, lockTimeout: nat)
    ensures Passes(rows, rows, [], replies, now, lockTimeout)
  {
  }

  lemma PassIs(rows: Rows, ids: seq<RowID>, replies: seq<Reply>, now: Time, lockTimeout: nat)
    requires |ids| <= |replies| && (forall i | 0 <= i < |ids| :: ids[i] in rows)
    requires forall i, j | 0 <= i < j < |ids| :: ids[i] != ids[j]
    ensures var claimed := Copies(rows, ids);
            Passes(rows, AfterRows(Locked(rows, IDs(claimed), now), claimed, replies), ids, replies, now, lockTimeout)
  {
    hide Copies, Locked, IDs, AfterRows;
    RowsFare(rows, ids, replies, now, |ids|);
    WholePrefix(Copies(rows, ids));
  }

  lemma LogsWhen(last: Time, now: Time, ids: seq<RowID>, rows: Rows, interval: nat)
    ensures Logs(last, LogTime(last, now, |ids|, Pending(rows), interval), now, ids, rows, interval)
  {
    hide Pending;
    NothingPending(rows);
  }

  lemma NothingLocked(rows: Rows, now: Time)
    ensures Locked(rows, IDs([]), now) == rows
  {
  }

  lemma NothingPending(rows: Rows)
    ensures Pending(rows) == 0 <==> forall r | r in rows :: rows[r].publishedAt.Some?
  {
    var pending := set r | r in rows && rows[r].publishedAt.None?;
    if r :| r in rows && rows[r].publishedAt.None? {
      assert r in pending;
    }
  }

  lemma LockedPending(rows: Rows, ids: set<RowID>, now: Time)
    ensures Pending(Locked(rows, ids, now)) == Pending(rows)
  {
    var locked := Locked(rows, ids, now);
    assert (set r | r in locked && locked[r].publishedAt.None?) == (set r | r in rows && rows[r].publishedAt.None?);
  }
}
