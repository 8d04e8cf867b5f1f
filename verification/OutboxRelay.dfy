/**
 The outbox and its dispatchers. Any number of dispatchers claim, publish, mark and release rows;
 each database call and each publish is a step that can fail, and a dispatcher can crash anywhere.
 */
module OutboxRelay {
  import opened Wrappers
  import opened Integers
  import opened Domain
  import opened OrderStore

  type Rows = map<RowID, OutboxRow>

  /** `ClaimPendingOrderOutboxEvents` may take the row. */
  predicate Claimable(row: OutboxRow, now: Time, lockTimeout: nat) {
    row.publishedAt.None? && (row.lockedAt.None? || row.lockedAt.value < now - lockTimeout)
  }

  /** The UPDATE of a claim: stamps the lock of the chosen rows. */
  function Locked(rows: Rows, ids: set<RowID>, now: Time): Rows {
    map r | r in rows :: if r in ids then rows[r].(lockedAt := Some(now)) else rows[r]
  }

  /** `MarkOrderOutboxEventPublished`. */
  function MarkedPublished(rows: Rows, id: RowID, at: Time): Rows {
    if id in rows then rows[id := rows[id].(publishedAt := Some(at), lockedAt := None)] else rows
  }

  /** `ReleaseOrderOutboxEvent`: no guard on `published_at`; the attempt counter is an INT. */
  function Released(rows: Rows, id: RowID): Rows {
    if id in rows && rows[id].attempts < MAX_INT32
    then rows[id := rows[id].(lockedAt := None, attempts := rows[id].attempts + 1)] else rows
  }

  predicate ReleaseSucceeds(rows: Rows, id: RowID) {
    id in rows && rows[id].attempts < MAX_INT32
  }

  /** A row as the dispatcher read it. */
  datatype Claimed = Claimed(id: RowID, topic: string, key: string, payload: Event)

  function CopyOf(id: RowID, row: OutboxRow): Claimed {
    Claimed(id, row.topic, row.key, row.payload)
  }

  datatype Phase = Publishing | Marking | Releasing

  /** A dispatcher inside `dispatchOnce`: the rows still to do, the first of them under way. */
  datatype Worker = Worker(queue: seq<Claimed>, phase: Phase)

  /** `acked` and `releases` record what has happened: successful publishes, and committed releases per row. */
  datatype State = State(rows: Rows, workers: map<nat, Worker>, acked: set<Claimed>, releases: map<RowID, nat>)

  datatype Step =
    | Insert(id: RowID, row: OutboxRow)
    | Claim(worker: nat, ids: seq<RowID>, now: Time, lockTimeout: nat)
    | Publish(worker: nat, ok: bool)
    | Mark(worker: nat, ok: bool, at: Time)
    | Release(worker: nat, ok: bool)
    | Crash(worker: nat)

  /** On to the next row, or out of `dispatchOnce`. */
  function Advanced(workers: map<nat, Worker>, w: nat): map<nat, Worker>
    requires w in workers
  {
    if |workers[w].queue| <= 1 then workers - {w} else workers[w := Worker(workers[w].queue[1..], Publishing)]
  }

  predicate Enabled(s: State, step: Step) {
    match step
    case Insert(id, row) => id !in s.rows && row.attempts == 0 && row.publishedAt.None? && row.lockedAt.None?
    case Claim(w, ids, now, lockTimeout) =>
      && w !in s.workers && ids != []
      && (forall i | 0 <= i < |ids| :: ids[i] in s.rows && Claimable(s.rows[ids[i]], now, lockTimeout))
    case Publish(w, _) => w in s.workers && s.workers[w].phase == Publishing && s.workers[w].queue != []
    case Mark(w, _, _) => w in s.workers && s.workers[w].phase == Marking && s.workers[w].queue != []
    case Release(w, _) => w in s.workers && s.workers[w].phase == Releasing && s.workers[w].queue != []
    case Crash(w) => w in s.workers
  }

  function Do(s: State, step: Step): State {
    if !Enabled(s, step) then s
    else
      match step
      case Insert(id, row) => s.(rows := s.rows[id := row], releases := s.releases[id := 0])
      case Claim(w, ids, now, _) =>
        s.(rows := Locked(s.rows, set i | 0 <= i < |ids| :: ids[i], now),
           workers := s.workers[w := Worker(seq(|ids|, i requires 0 <= i < |ids| => CopyOf(ids[i], s.rows[ids[i]])),
                                            Publishing)])
      case Publish(w, ok) =>
        var c := s.workers[w].queue[0];
        if ok then s.(workers := s.workers[w := s.workers[w].(phase := Marking)], acked := s.acked + {c})
        else s.(workers := s.workers[w := s.workers[w].(phase := Releasing)])
      case Mark(w, ok, at) =>
        s.(rows := if ok then MarkedPublished(s.rows, s.workers[w].queue[0].id, at) else s.rows,
           workers := Advanced(s.workers, w))
      case Release(w, ok) =>
        var id := s.workers[w].queue[0].id;
        var done := ok && ReleaseSucceeds(s.rows, id) && id in s.releases;
        State(if done then Released(s.rows, id) else s.rows, Advanced(s.workers, w), s.acked,
              if done then s.releases[id := s.releases[id] + 1] else s.releases)
      case Crash(w) => s.(workers := s.workers - {w})
  }

  function Run(s: State, steps: seq<Step>): State {
    if steps == [] then s else Do(Run(s, steps[..|steps| - 1]), steps[|steps| - 1])
  }

  const START := State(map[], map[], {}, map[])

  // ----- what the runs range over -----

  /** Rows arrive at any time, a publish can fail, and a dispatcher can crash anywhere, leaving the rows as they are. */
  lemma AnythingHappens(s: State, id: RowID, row: OutboxRow, w: nat)
    requires row.attempts == 0 && row.publishedAt.None? && row.lockedAt.None?
    ensures id !in s.rows ==> Do(s, Insert(id, row)) == s.(rows := s.rows[id := row], releases := s.releases[id := 0])
    ensures w in s.workers ==> Do(s, Crash(w)) == s.(workers := s.workers - {w})
    ensures w in s.workers && s.workers[w].phase == Publishing && s.workers[w].queue != [] ==>
              && Do(s, Publish(w, false)) == s.(workers := s.workers[w := s.workers[w].(phase := Releasing)])
              && Do(s, Publish(w, true)) == s.(workers := s.workers[w := s.workers[w].(phase := Marking)],
                                               acked := s.acked + {s.workers[w].queue[0]})
  {
  }

  // ----- delivery guarantees -----

  /** A worker's copies are true, and it marks a row only once the row's payload was published. */
  ghost predicate WorkerOK(w: Worker, rows: Rows, acked: set<Claimed>) {
    && (forall i | 0 <= i < |w.queue| ::
        w.queue[i].id in rows && w.queue[i] == CopyOf(w.queue[i].id, rows[w.queue[i].id]))
    && (w.phase == Marking && w.queue != [] ==> w.queue[0] in acked)
  }

  ghost predicate Inv(s: State) {
    && s.releases.Keys == s.rows.Keys
    && (forall r | r in s.rows ::
          && s.rows[r].attempts == s.releases[r] <= MAX_INT32
          && (s.rows[r].publishedAt.Some? ==> CopyOf(r, s.rows[r]) in s.acked))
    && (forall w | w in s.workers :: WorkerOK(s.workers[w], s.rows, s.acked))
  }

  /** No row is lost or rewritten, and a published row stays published. */
  ghost predicate RowsPersist(a: Rows, b: Rows) {
    forall r | r in a ::
      r in b && b[r].payload == a[r].payload && b[r].topic == a[r].topic && b[r].key == a[r].key
      && b[r].createdAt == a[r].createdAt
      && (a[r].publishedAt.Some? ==> b[r].publishedAt.Some?)
  }

  lemma WorkerStaysOK(w: Worker, a: Rows, b: Rows, acked: set<Claimed>, acked': set<Claimed>)
    requires WorkerOK(w, a, acked) && RowsPersist(a, b) && acked <= acked'
    ensures WorkerOK(w, b, acked')
  {
  }

  lemma StepPersists(s: State, step: Step)
    ensures RowsPersist(s.rows, Do(s, step).rows)
    ensures s.acked <= Do(s, step).acked
  {
  }

  /** A table whose rows persist, counters and publications still accounted for. */
  ghost predicate TableOK(rows: Rows, acked: set<Claimed>, releases: map<RowID, nat>) {
    && releases.Keys == rows.Keys
    && forall r | r in rows ::
         && rows[r].attempts == releases[r] <= MAX_INT32
         && (rows[r].publishedAt.Some? ==> CopyOf(r, rows[r]) in acked)
  }

  lemma StepKeepsTable(s: State, step: Step)
    requires Inv(s)
    ensures var s' := Do(s, step); TableOK(s'.rows, s'.acked, s'.releases)
  {
    hide RowsPersist;
    if step.Mark? && Enabled(s, step) {
      assert WorkerOK(s.workers[step.worker], s.rows, s.acked);
    }
  }

  lemma ClaimedOK(s: State, step: Step, w: nat)
    requires w !in s.workers && w in Do(s, step).workers
    ensures WorkerOK(Do(s, step).workers[w], Do(s, step).rows, Do(s, step).acked)
  {
    hide Claimable;
  }

  lemma StepKeepsWorkers(s: State, step: Step, w: nat)
    requires Inv(s) && w in Do(s, step).workers
    ensures WorkerOK(Do(s, step).workers[w], Do(s, step).rows, Do(s, step).acked)
  {
    hide RowsPersist, Locked, MarkedPublished, Released, Claimable;
    StepPersists(s, step);
    if w in s.workers {
      assert WorkerOK(s.workers[w], s.rows, s.acked);
      WorkerStaysOK(s.workers[w], s.rows, Do(s, step).rows, s.acked, Do(s, step).acked);
    } else {
      ClaimedOK(s, step, w);
    }
  }

  lemma StepKeepsInv(s: State, step: Step)
    requires Inv(s)
    ensures Inv(Do(s, step))
  {
    hide Do, WorkerOK;
    StepKeepsTable(s, step);
    forall w | w in Do(s, step).workers ensures WorkerOK(Do(s, step).workers[w], Do(s, step).rows, Do(s, step).acked) {
      StepKeepsWorkers(s, step, w);
    }
  }

  lemma {:induction false} RunKeepsInv(steps: seq<Step>)
    ensures Inv(Run(START, steps))
    decreases |steps|
  {
    hide Do;
    if steps != [] {
      RunKeepsInv(steps[..|steps| - 1]);
      hide Inv;
      StepKeepsInv(Run(START, steps[..|steps| - 1]), steps[|steps| - 1]);
    }
  }

  /** From any point of a run on, rows persist. */
  lemma {:induction false} RunPersists(s: State, steps: seq<Step>)
    ensures RowsPersist(s.rows, Run(s, steps).rows)
    decreases |steps|
  {
    hide Do;
    if steps != [] {
      RunPersists(s, steps[..|steps| - 1]);
      StepPersists(Run(s, steps[..|steps| - 1]), steps[|steps| - 1]);
    }
  }

  lemma {:induction false} RunSplits(s: State, a: seq<Step>, b: seq<Step>)
    ensures Run(s, a + b) == Run(Run(s, a), b)
    decreases |b|
  {
    hide Do;
    if b == [] {
      assert a + b == a;
    } else {
      assert (a + b)[..|a + b| - 1] == a + b[..|b| - 1];
      RunSplits(s, a, b[..|b| - 1]);
    }
  }

  /** At this step a dispatcher's mark of the row commits. */
  predicate Marks(s: State, step: Step, r: RowID) {
    step.Mark? && step.ok && step.worker in s.workers
    && s.workers[step.worker].phase == Marking && s.workers[step.worker].queue != []
    && s.workers[step.worker].queue[0].id == r
  }

  lemma StepMarks(s: State, step: Step, r: RowID)
    requires r in Do(s, step).rows
    ensures Do(s, step).rows[r].publishedAt ==
            if Marks(s, step, r) then Some(step.at) else if r in s.rows then s.rows[r].publishedAt else None
  {
  }

  lemma StepAdds(s: State, step: Step, r: RowID)
    requires r !in s.rows && Inv(s)
    ensures !Marks(s, step, r)
  {
    if step.Mark? && step.worker in s.workers {
      assert WorkerOK(s.workers[step.worker], s.rows, s.acked);
    }
  }

  /** The time of the last mark of the row that committed, if any did. */
  function LastMark(steps: seq<Step>, r: RowID): Option<Time> {
    if steps == [] then None
    else
      var n := |steps| - 1;
      if Marks(Run(START, steps[..n]), steps[n], r) then Some(steps[n].at) else LastMark(steps[..n], r)
  }

  lemma {:induction false} AbsentUnmarked(steps: seq<Step>, r: RowID)
    requires r !in Run(START, steps).rows
    ensures LastMark(steps, r) == None
    decreases |steps|
  {
    hide Do, Marks;
    if steps != [] {
      var n := |steps| - 1;
      var s := Run(START, steps[..n]);
      StepPersists(s, steps[n]);
      RunKeepsInv(steps[..n]);
      StepAdds(s, steps[n], r);
      AbsentUnmarked(steps[..n], r);
    }
  }

  /** Over all runs of all dispatchers a row carries the time of the last mark of it that committed: it is published
      exactly when one did. */
  lemma {:induction false} PublishedIffMarked(steps: seq<Step>, r: RowID)
    requires r in Run(START, steps).rows
    ensures Run(START, steps).rows[r].publishedAt == LastMark(steps, r)
    ensures LastMark(steps, r).Some? <==> exists k | 0 <= k < |steps| :: Marks(Run(START, steps[..k]), steps[k], r)
    decreases |steps|
  {
    hide Do, Marks;
    if steps != [] {
      var n := |steps| - 1;
      var s := Run(START, steps[..n]);
      assert forall k | 0 <= k < n :: steps[..n][..k] == steps[..k];
      StepMarks(s, steps[n], r);
      if r in s.rows {
        PublishedIffMarked(steps[..n], r);
      } else {
        AbsentUnmarked(steps[..n], r);
        RunKeepsInv(steps[..n]);
        StepAdds(s, steps[n], r);
        NoneMarked(steps[..n], r);
      }
    }
  }

  lemma {:induction false} NoneMarked(steps: seq<Step>, r: RowID)
    requires LastMark(steps, r) == None
    ensures forall k | 0 <= k < |steps| :: !Marks(Run(START, steps[..k]), steps[k], r)
    decreases |steps|
  {
    hide Do, Marks, Run;
    if steps != [] {
      var n := |steps| - 1;
      assert forall k | 0 <= k < n :: steps[..n][..k] == steps[..k];
      NoneMarked(steps[..n], r);
    }
  }

  /**
   Over all runs of all dispatchers: a row once inserted is never lost or rewritten; `published_at` is set only after
   that row was published, payload, topic and key; a published row stays published, so no later claim takes it; and
   `attempt_count` is the number of committed releases.
   */
  lemma OutboxDelivers(before: seq<Step>, after: seq<Step>, r: RowID, now: Time, lockTimeout: nat)
    requires r in Run(START, before).rows
    ensures var s, s' := Run(START, before), Run(START, before + after);
            && r in s'.rows && CopyOf(r, s'.rows[r]) == CopyOf(r, s.rows[r])
            && r in s'.releases && s'.rows[r].attempts == s'.releases[r]
            && (s'.rows[r].publishedAt.Some? ==> CopyOf(r, s.rows[r]) in s'.acked)
            && (s.rows[r].publishedAt.Some? ==>
                s'.rows[r].publishedAt.Some? && !Claimable(s'.rows[r], now, lockTimeout))
  {
    hide Do, Run;
    RunKeepsInv(before + after);
    RunSplits(START, before, after);
    RunPersists(Run(START, before), after);
  }
}
