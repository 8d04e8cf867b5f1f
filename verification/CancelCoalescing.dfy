/**
 The gateway's coalescing of cancel requests that carry one idempotency key: the first caller owns the
 downstream call, callers with the same fingerprint wait for it, others are turned away. The two
 table operations run under the mutex and are one step each.
 */
module CancelCoalescing {
  import opened Wrappers

  datatype CancelResult = CancelResult(orderID: string, customerID: string, status: string, reason: string,
                                       updatedAt: string)

  /** What a downstream cancel comes to. */
  datatype Outcome = Success(result: CancelResult) | Failure(error: string)

  /** `closes` counts how often `done` was closed; `key` is the key the record was created under. */
  datatype Record = Record(key: string, fingerprint: string, closes: nat, result: Option<CancelResult>,
                           err: Option<string>)

  /** All records ever allocated, and the map from keys to the current ones. */
  datatype Table = Table(index: map<string, nat>, records: seq<Record>)

  datatype Role = Conflict | Waiter(record: nat) | Owner(record: nat)

  predicate TableOK(t: Table) {
    forall k | k in t.index :: t.index[k] < |t.records|
  }

  function BeginRole(t: Table, key: string, fingerprint: string): Role
    requires TableOK(t)
  {
    if key !in t.index then Owner(|t.records|)
    else if t.records[t.index[key]].fingerprint != fingerprint then Conflict
    else Waiter(t.index[key])
  }

  function BeginTable(t: Table, key: string, fingerprint: string): Table {
    if key in t.index then t
    else Table(t.index[key := |t.records|], t.records + [Record(key, fingerprint, 0, None, None)])
  }

  function Finished(r: Record, o: Outcome): Record {
    match o
    case Success(result) => r.(closes := r.closes + 1, result := Some(result))
    case Failure(error) => r.(closes := r.closes + 1, err := Some(error))
  }

  function FinishTable(t: Table, key: string, record: nat, o: Outcome): Table
    requires record < |t.records|
  {
    Table(if o.Failure? then t.index - {key} else t.index, t.records[record := Finished(t.records[record], o)])
  }

  /** What a waiter reads once `done` is closed. */
  function AnswerOf(r: Record): Outcome {
    if r.result.Some? then Success(r.result.value) else Failure(if r.err.Some? then r.err.value else "")
  }

  /** The record is what its owner made of a fresh one by finishing it with this outcome. */
  predicate FinishedWith(r: Record, o: Outcome) {
    r == Finished(Record(r.key, r.fingerprint, 0, None, None), o)
  }

  // ----- the protocol -----

  datatype Phase =
    | Calling(record: nat)                    // the downstream cancel is in flight
    | Called(record: nat, outcome: Outcome)   // it came back; finish not yet run
    | Waiting(record: nat)
    | Answered(record: nat, outcome: Outcome)
    | TurnedAway

  datatype Caller = Caller(key: string, fingerprint: string, phase: Phase)

  /** `started` lists the keys of all downstream cancels, in the order they were started. */
  datatype State = State(table: Table, callers: map<nat, Caller>, started: seq<string>)

  datatype Step =
    | Arrive(caller: nat, key: string, fingerprint: string)
    | Return(caller: nat, outcome: Outcome)
    | Finish(caller: nat)
    | Wake(caller: nat)

  function Do(s: State, step: Step): State {
    match step
    case Arrive(c, key, f) =>
      if c in s.callers || !TableOK(s.table) then s
      else
        (match BeginRole(s.table, key, f)
         case Conflict => s.(callers := s.callers[c := Caller(key, f, TurnedAway)])
         case Waiter(r) => s.(callers := s.callers[c := Caller(key, f, Waiting(r))])
         case Owner(r) =>
           State(BeginTable(s.table, key, f), s.callers[c := Caller(key, f, Calling(r))], s.started + [key]))
    case Return(c, o) =>
      if c in s.callers && s.callers[c].phase.Calling?
      then s.(callers := s.callers[c := s.callers[c].(phase := Called(s.callers[c].phase.record, o))]) else s
    case Finish(c) =>
      if c in s.callers && s.callers[c].phase.Called? && s.callers[c].phase.record < |s.table.records|
      then
        var p := s.callers[c].phase;
        s.(table := FinishTable(s.table, s.callers[c].key, p.record, p.outcome),
           callers := s.callers[c := s.callers[c].(phase := Answered(p.record, p.outcome))])
      else s
    case Wake(c) =>
      if c in s.callers && s.callers[c].phase.Waiting? && s.callers[c].phase.record < |s.table.records|
         && s.table.records[s.callers[c].phase.record].closes > 0
      then
        var r := s.callers[c].phase.record;
        s.(callers := s.callers[c := s.callers[c].(phase := Answered(r, AnswerOf(s.table.records[r])))])
      else s
  }

  const START := State(Table(map[], []), map[], [])

  /** The record a caller owns and has not finished. */
  predicate Owns(k: Caller, r: nat) {
    (k.phase.Calling? || k.phase.Called?) && k.phase.record == r
  }

  ghost predicate RecordOK(s: State, r: nat)
    requires r < |s.table.records|
  {
    var rec := s.table.records[r];
    && rec.closes <= 1
    && (rec.closes == 0 <==> rec.result.None? && rec.err.None?)
    && (rec.result.None? || rec.err.None?)
    // an open record, and a successful one, is the current one of its key; a failed one is not
    && (rec.err.None? <==> rec.key in s.table.index && s.table.index[rec.key] == r)
    && (rec.closes == 0 ==> exists c :: c in s.callers && Owns(s.callers[c], r))
  }

  ghost predicate CallerOK(s: State, c: nat)
    requires c in s.callers
  {
    var k := s.callers[c];
    && (!k.phase.TurnedAway? ==> k.phase.record < |s.table.records|
                                 && s.table.records[k.phase.record].key == k.key
                                 && s.table.records[k.phase.record].fingerprint == k.fingerprint)
    && (k.phase.Calling? || k.phase.Called? ==> s.table.records[k.phase.record].closes == 0)
    && (k.phase.Answered? ==> s.table.records[k.phase.record].closes == 1
                              && AnswerOf(s.table.records[k.phase.record]) == k.phase.outcome)
  }

  ghost predicate Inv(s: State) {
    && (forall k | k in s.table.index ::
        s.table.index[k] < |s.table.records| && s.table.records[s.table.index[k]].key == k)
    && (forall r | 0 <= r < |s.table.records| :: RecordOK(s, r))
    && (forall c | c in s.callers :: CallerOK(s, c))
    && (forall a, b | a in s.callers && b in s.callers && a != b ::
          (s.callers[a].phase.Calling? || s.callers[a].phase.Called?)
          && (s.callers[b].phase.Calling? || s.callers[b].phase.Called?)
          ==> s.callers[a].phase.record != s.callers[b].phase.record)
  }

  lemma ArriveKeepsInv(s: State, c: nat, key: string, f: string)
    requires Inv(s) && c !in s.callers
    ensures Inv(Do(s, Arrive(c, key, f)))
  {
    hide RecordOK;
    ArriveKeepsRecords(s, c, key, f);
    ArriveKeepsCallers(s, c, key, f);
    forall d | d in s.callers ensures CallerOK(s, d) {
    }
  }

  lemma ArriveKeepsRecords(s: State, c: nat, key: string, f: string)
    requires Inv(s) && c !in s.callers
    ensures var s' := Do(s, Arrive(c, key, f)); forall r | 0 <= r < |s'.table.records| :: RecordOK(s', r)
  {
    var s' := Do(s, Arrive(c, key, f));
    forall r | 0 <= r < |s'.table.records| ensures RecordOK(s', r) {
      if r < |s.table.records| {
        assert RecordOK(s, r);
        if s.table.records[r].closes == 0 {
          var d :| d in s.callers && Owns(s.callers[d], r);
          assert d in s'.callers && Owns(s'.callers[d], r);
        }
      } else {
        assert Owns(s'.callers[c], r);
      }
    }
  }

  lemma ArriveKeepsCallers(s: State, c: nat, key: string, f: string)
    requires Inv(s) && c !in s.callers
    ensures var s' := Do(s, Arrive(c, key, f)); forall d | d in s'.callers :: CallerOK(s', d)
  {
    hide RecordOK;
    var s' := Do(s, Arrive(c, key, f));
    forall d | d in s'.callers ensures CallerOK(s', d) {
      assert d in s.callers ==> CallerOK(s, d);
    }
  }

  lemma ReturnKeepsInv(s: State, c: nat, o: Outcome)
    requires Inv(s)
    ensures Inv(Do(s, Return(c, o)))
  {
    var s' := Do(s, Return(c, o));
    forall r | 0 <= r < |s'.table.records| ensures RecordOK(s', r) {
      assert RecordOK(s, r);
      if s.table.records[r].closes == 0 {
        var d :| d in s.callers && Owns(s.callers[d], r);
        assert d in s'.callers && Owns(s'.callers[d], r);
      }
    }
    forall d | d in s'.callers ensures CallerOK(s', d) {
      assert CallerOK(s, d);
    }
  }

  lemma FinishKeepsInv(s: State, c: nat)
    requires Inv(s) && c in s.callers && s.callers[c].phase.Called?
    ensures Inv(Do(s, Finish(c)))
  {
    var s' := Do(s, Finish(c));
    var p := s.callers[c].phase;
    assert CallerOK(s, c) && RecordOK(s, p.record);
    forall r | 0 <= r < |s'.table.records| ensures RecordOK(s', r) {
      assert RecordOK(s, r);
      if r != p.record && s.table.records[r].closes == 0 {
        var d :| d in s.callers && Owns(s.callers[d], r);
        assert d in s'.callers && Owns(s'.callers[d], r);
      }
    }
    forall d | d in s'.callers ensures CallerOK(s', d) {
      assert CallerOK(s, d);
    }
  }

  lemma WakeKeepsInv(s: State, c: nat)
    requires Inv(s)
    ensures Inv(Do(s, Wake(c)))
  {
    var s' := Do(s, Wake(c));
    forall r | 0 <= r < |s'.table.records| ensures RecordOK(s', r) {
      assert RecordOK(s, r);
      if s.table.records[r].closes == 0 {
        var d :| d in s.callers && Owns(s.callers[d], r);
        assert d in s'.callers && Owns(s'.callers[d], r);
      }
    }
    forall d | d in s'.callers ensures CallerOK(s', d) {
      assert CallerOK(s, d);
      if s.callers[d].phase.Waiting? {
        assert RecordOK(s, s.callers[d].phase.record);
      }
    }
  }

  lemma StepKeepsInv(s: State, step: Step)
    requires Inv(s)
    ensures Inv(Do(s, step))
  {
    hide RecordOK, CallerOK;
    match step
    case Arrive(c, key, f) => if c !in s.callers { ArriveKeepsInv(s, c, key, f); }
    case Return(c, o) => ReturnKeepsInv(s, c, o);
    case Finish(c) => if c in s.callers && s.callers[c].phase.Called? { FinishKeepsInv(s, c); }
    case Wake(c) => WakeKeepsInv(s, c);
  }

  function Run(s: State, steps: seq<Step>): State
    decreases |steps|
  {
    if steps == [] then s else Run(Do(s, steps[0]), steps[1..])
  }

  lemma {:induction false} RunKeepsInv(s: State, steps: seq<Step>)
    requires Inv(s)
    ensures Inv(Run(s, steps))
    decreases |steps|
  {
    hide Do, Inv;
    if steps != [] {
      StepKeepsInv(s, steps[0]);
      RunKeepsInv(Do(s, steps[0]), steps[1..]);
    }
  }

  lemma StartInv()
    ensures Inv(START)
  {
  }

  /** A downstream cancel for this key has succeeded and been recorded. */
  ghost predicate Succeeded(t: Table, key: string) {
    exists r | 0 <= r < |t.records| :: t.records[r].key == key && t.records[r].result.Some?
  }

  /** In every reachable state: at most one downstream cancel per key is in flight and none after a success; no `done`
      is closed twice; everyone answered through a record got the outcome stored in it; and a caller still waiting has
      an owner at work or an outcome to read. */
  lemma Coalesced(steps: seq<Step>, a: nat, b: nat)
    requires var s := Run(START, steps); a in s.callers && b in s.callers
    ensures var s := Run(START, steps);
            var ka, kb := s.callers[a], s.callers[b];
            && (ka.phase.Calling? && kb.phase.Calling? && ka.key == kb.key ==> a == b)
            && (ka.phase.Calling? ==> !Succeeded(s.table, ka.key))
            && (forall r | 0 <= r < |s.table.records| :: s.table.records[r].closes <= 1)
            && (ka.phase.Answered? && kb.phase.Answered? && ka.phase.record == kb.phase.record ==>
                ka.phase.outcome == kb.phase.outcome)
            && (ka.phase.Waiting? ==>
                  ka.phase.record < |s.table.records|
                  && (s.table.records[ka.phase.record].closes == 1
                      || exists c :: c in s.callers && Owns(s.callers[c], ka.phase.record)))
  {
    hide Do, Run;
    StartInv();
    RunKeepsInv(START, steps);
    var s := Run(START, steps);
    assert CallerOK(s, a) && CallerOK(s, b);
    forall r | 0 <= r < |s.table.records| ensures s.table.records[r].closes <= 1 {
      assert RecordOK(s, r);
    }
    if s.callers[a].phase.Calling? {
      assert RecordOK(s, s.callers[a].phase.record);
      if s.callers[b].phase.Calling? {
        assert RecordOK(s, s.callers[b].phase.record);
      }
      forall r | 0 <= r < |s.table.records| && s.table.records[r].key == s.callers[a].key
        ensures s.table.records[r].result.None?
      {
        assert RecordOK(s, r);
      }
    }
    if s.callers[a].phase.Waiting? {
      assert RecordOK(s, s.callers[a].phase.record);
    }
  }

  lemma StepAfterSuccess(s: State, step: Step, key: string)
    requires Inv(s) && Succeeded(s.table, key)
    ensures Succeeded(Do(s, step).table, key)
    ensures s.started <= Do(s, step).started
    ensures forall i | |s.started| <= i < |Do(s, step).started| :: Do(s, step).started[i] != key
  {
    var s' := Do(s, step);
    var r :| 0 <= r < |s.table.records| && s.table.records[r].key == key && s.table.records[r].result.Some?;
    assert RecordOK(s, r);
    if step.Finish? && step.caller in s.callers && s.callers[step.caller].phase.Called? {
      assert CallerOK(s, step.caller);
    }
    assert s'.table.records[r].key == key && s'.table.records[r].result.Some?;
  }

  lemma {:induction false} RunSplits(s: State, a: seq<Step>, b: seq<Step>)
    ensures Run(s, a + b) == Run(Run(s, a), b)
    decreases |a|
  {
    hide Do;
    if a == [] {
      assert a + b == b;
    } else {
      assert (a + b)[1..] == a[1..] + b;
      RunSplits(Do(s, a[0]), a[1..], b);
    }
  }

  lemma {:induction false} StartsNoMore(s: State, steps: seq<Step>, key: string)
    requires Inv(s) && Succeeded(s.table, key)
    ensures var s' := Run(s, steps);
            && Succeeded(s'.table, key) && s.started <= s'.started
            && forall i | |s.started| <= i < |s'.started| :: s'.started[i] != key
    decreases |steps|
  {
    hide Do, Succeeded, RecordOK, CallerOK;
    if steps != [] {
      StepKeepsInv(s, steps[0]);
      StepAfterSuccess(s, steps[0], key);
      StartsNoMore(Do(s, steps[0]), steps[1..], key);
    }
  }

  /** After one success, in any continuation of any run, no further downstream cancel is started for that key. */
  lemma NoCallAfterSuccess(before: seq<Step>, after: seq<Step>, key: string)
    requires Succeeded(Run(START, before).table, key)
    ensures var s, s' := Run(START, before), Run(START, before + after);
            && Succeeded(s'.table, key) && s.started <= s'.started
            && forall i | |s.started| <= i < |s'.started| :: s'.started[i] != key
  {
    hide Do, Run, Succeeded, Inv;
    StartInv();
    RunKeepsInv(START, before);
    RunSplits(START, before, after);
    StartsNoMore(Run(START, before), after, key);
  }

  /** In every reachable state an owner about to finish owns an open record, and that record is the one its key maps to:
      closing it is its first close, and on failure it takes out its own entry. */
  lemma FinishRemovesOwnRecord(steps: seq<Step>, c: nat)
    requires var s := Run(START, steps); c in s.callers && s.callers[c].phase.Called?
    ensures var s := Run(START, steps);
            var (key, record) := (s.callers[c].key, s.callers[c].phase.record);
            && key in s.table.index && s.table.index[key] == record
            && record < |s.table.records| && s.table.records[record].closes == 0
  {
    hide Do, Run;
    StartInv();
    RunKeepsInv(START, steps);
    var s := Run(START, steps);
    assert CallerOK(s, c) && RecordOK(s, s.callers[c].phase.record);
  }

  // ----- what becomes of a request -----

  /** A call for this key that is under way or has succeeded. */
  predicate Live(t: Table, key: string, r: nat) {
    r < |t.records| && t.records[r].key == key && t.records[r].err.None?
  }

  lemma LiveIsCurrent(s: State, key: string, r: nat)
    requires Inv(s)
    ensures Live(s.table, key, r) <==> key in s.table.index && s.table.index[key] == r
  {
    if r < |s.table.records| {
      assert RecordOK(s, r);
    }
  }

  /** A new request starts a downstream call exactly when none for its key is under way or has succeeded; it waits for
      the one there is when the fingerprint is the same, and is turned away when it is not. */
  ghost predicate Arrives(s: State, c: nat, key: string, f: string, s': State) {
    && c in s'.callers && s'.callers == s.callers[c := Caller(key, f, s'.callers[c].phase)]
    && var phase := s'.callers[c].phase;
       && (phase.Calling? <==> forall r: nat :: !Live(s.table, key, r))
       && (phase.Calling? ==>
             && s'.started == s.started + [key]
             && phase.record == |s.table.records| && Live(s'.table, key, phase.record)
             && s'.table.records == s.table.records + [s'.table.records[phase.record]]
             && s'.table.records[phase.record].fingerprint == f && s'.table.records[phase.record].closes == 0)
       && (!phase.Calling? ==> s'.table == s.table && s'.started == s.started)
       && (phase.Waiting? ==> Live(s.table, key, phase.record))
       && (phase.Waiting? <==> exists r: nat :: Live(s.table, key, r) && s.table.records[r].fingerprint == f)
       && (phase.TurnedAway? <==> exists r: nat :: Live(s.table, key, r) && s.table.records[r].fingerprint != f)
  }

  lemma ArrivalIs(steps: seq<Step>, c: nat, key: string, f: string)
    requires c !in Run(START, steps).callers
    ensures Arrives(Run(START, steps), c, key, f, Do(Run(START, steps), Arrive(c, key, f)))
  {
    StartInv();
    RunKeepsInv(START, steps);
    ArrivalAt(Run(START, steps), c, key, f);
  }

  lemma ArrivalAt(s: State, c: nat, key: string, f: string)
    requires Inv(s) && c !in s.callers
    ensures Arrives(s, c, key, f, Do(s, Arrive(c, key, f)))
  {
    hide RecordOK, CallerOK;
    forall r: nat ensures Live(s.table, key, r) <==> key in s.table.index && s.table.index[key] == r {
      LiveIsCurrent(s, key, r);
    }
    if key in s.table.index {
      assert Live(s.table, key, s.table.index[key]);
    }
  }

  /** At some point the downstream call of this record came back with this outcome. */
  ghost predicate CameBack(steps: seq<Step>, r: nat, o: Outcome) {
    exists k, c | 0 <= k < |steps| ::
      steps[k] == Return(c, o) && c in Run(START, steps[..k]).callers
      && Run(START, steps[..k]).callers[c].phase == Calling(r)
  }

  lemma CameBackBefore(steps: seq<Step>, step: Step, r: nat, o: Outcome)
    requires CameBack(steps, r, o)
    ensures CameBack(steps + [step], r, o)
  {
    hide Run;
    var k, c :| 0 <= k < |steps| && steps[k] == Return(c, o) && c in Run(START, steps[..k]).callers
                && Run(START, steps[..k]).callers[c].phase == Calling(r);
    assert (steps + [step])[..k] == steps[..k] && (steps + [step])[k] == steps[k];
  }

  lemma CameBackNow(steps: seq<Step>, c: nat, r: nat, o: Outcome)
    requires c in Run(START, steps).callers && Run(START, steps).callers[c].phase == Calling(r)
    ensures CameBack(steps + [Return(c, o)], r, o)
  {
    hide Run;
    var k := |steps|;
    assert (steps + [Return(c, o)])[..k] == steps && (steps + [Return(c, o)])[k] == Return(c, o);
  }

  /** Every outcome held anywhere came back from the downstream call of its record. */
  ghost predicate Truthful(steps: seq<Step>, s: State) {
    && (forall c | c in s.callers && s.callers[c].phase.Called? ::
          CameBack(steps, s.callers[c].phase.record, s.callers[c].phase.outcome))
    && (forall c | c in s.callers && s.callers[c].phase.Answered? ::
          CameBack(steps, s.callers[c].phase.record, s.callers[c].phase.outcome))
    && (forall r | 0 <= r < |s.table.records| && s.table.records[r].closes > 0 ::
          CameBack(steps, r, AnswerOf(s.table.records[r])))
  }

  lemma FinishTells(s: State, c: nat)
    requires Inv(s) && c in s.callers && s.callers[c].phase.Called?
    ensures var p := s.callers[c].phase;
            var s' := Do(s, Finish(c));
            && p.record < |s'.table.records| == |s.table.records|
            && AnswerOf(s'.table.records[p.record]) == p.outcome
            && forall r | 0 <= r < |s.table.records| && r != p.record :: s'.table.records[r] == s.table.records[r]
  {
    assert CallerOK(s, c);
    assert RecordOK(s, s.callers[c].phase.record);
  }

  lemma StepKeepsTruthful(steps: seq<Step>, step: Step)
    requires var s := Run(START, steps); Inv(s) && Truthful(steps, s)
    ensures Truthful(steps + [step], Do(Run(START, steps), step))
  {
    var s := Run(START, steps);
    hide Run, CameBack, Inv;
    forall r, o | CameBack(steps, r, o) ensures CameBack(steps + [step], r, o) {
      CameBackBefore(steps, step, r, o);
    }
    if step.Return? && step.caller in s.callers && s.callers[step.caller].phase.Calling? {
      CameBackNow(steps, step.caller, s.callers[step.caller].phase.record, step.outcome);
    }
    if step.Finish? && step.caller in s.callers && s.callers[step.caller].phase.Called? {
      FinishTells(s, step.caller);
    }
  }

  lemma {:induction false} RunIsTruthful(steps: seq<Step>)
    ensures Truthful(steps, Run(START, steps))
    decreases |steps|
  {
    hide Do, Inv, CameBack;
    if steps != [] {
      var (before, last) := (steps[..|steps| - 1], steps[|steps| - 1]);
      assert before + [last] == steps;
      RunSplits(START, before, [last]);
      OneStep(Run(START, before), last);
      StartInv();
      RunKeepsInv(START, before);
      RunIsTruthful(before);
      hide Truthful, Run;
      StepKeepsTruthful(before, last);
    }
  }

  lemma OneStep(s: State, step: Step)
    ensures Run(s, [step]) == Do(s, step)
  {
    assert [step][1..] == [];
  }

  /** Whoever is answered, owner or waiter, gets what a downstream call for the same key and fingerprint came back with.
      */
  lemma AnswersCameBack(steps: seq<Step>, c: nat)
    requires var s := Run(START, steps); c in s.callers && s.callers[c].phase.Answered?
    ensures var k := Run(START, steps).callers[c];
            && CameBack(steps, k.phase.record, k.phase.outcome)
            && k.phase.record < |Run(START, steps).table.records|
            && Run(START, steps).table.records[k.phase.record].key == k.key
            && Run(START, steps).table.records[k.phase.record].fingerprint == k.fingerprint
  {
    hide Do, Run, CameBack;
    RunIsTruthful(steps);
    StartInv();
    RunKeepsInv(START, steps);
    assert CallerOK(Run(START, steps), c);
  }

  lemma FinishedIsFree(s: State, c: nat)
    requires Inv(s) && c in s.callers && s.callers[c].phase.Called?
    ensures var s' := Do(s, Finish(c));
            (forall r: nat :: !Live(s'.table, s.callers[c].key, r)) <==> s.callers[c].phase.outcome.Failure?
  {
    hide Live, RecordOK, CallerOK;
    var (s', key) := (Do(s, Finish(c)), s.callers[c].key);
    StepKeepsInv(s, Finish(c));
    OwnerIsCurrent(s, c);
    forall r: nat ensures Live(s'.table, key, r) <==> key in s'.table.index && s'.table.index[key] == r {
      LiveIsCurrent(s', key, r);
    }
    if key in s'.table.index {
      assert Live(s'.table, key, s'.table.index[key]);
    }
  }

  lemma OwnerIsCurrent(s: State, c: nat)
    requires Inv(s) && c in s.callers && s.callers[c].phase.Called?
    ensures var (key, r) := (s.callers[c].key, s.callers[c].phase.record);
            r < |s.table.records| && key in s.table.index && s.table.index[key] == r
  {
    assert CallerOK(s, c);
    assert RecordOK(s, s.callers[c].phase.record);
  }

  /** In every reachable state: a call that comes back is finished, and then the key is free again exactly on a failure;
      a waiter wakes exactly when its record is finished. */
  lemma FinishFrees(steps: seq<Step>, c: nat)
    requires c in Run(START, steps).callers
    ensures var s := Run(START, steps);
            var (p, key) := (s.callers[c].phase, s.callers[c].key);
            && (p.Calling? ==> forall o ::
                  c in Do(s, Return(c, o)).callers && Do(s, Return(c, o)).callers[c].phase == Called(p.record, o))
            && (p.Called? ==>
                  var s' := Do(s, Finish(c));
                  && c in s'.callers && s'.callers[c].phase == Answered(p.record, p.outcome)
                  && ((forall r: nat :: !Live(s'.table, key, r)) <==> p.outcome.Failure?))
            && (p.Waiting? ==>
                  var s' := Do(s, Wake(c));
                  && c in s'.callers && p.record < |s.table.records|
                  && (s'.callers[c].phase.Answered? <==> s.table.records[p.record].closes == 1))
  {
    StartInv();
    RunKeepsInv(START, steps);
    var s := Run(START, steps);
    assert CallerOK(s, c);
    if s.callers[c].phase.Called? {
      FinishedIsFree(s, c);
    }
    if s.callers[c].phase.Waiting? {
      assert RecordOK(s, s.callers[c].phase.record);
    }
  }

  // ----- fingerprints -----

  /** `cancelRequestFingerprint`. */
  function Fingerprint(orderID: string, reason: string): string {
    orderID + "\n" + reason
  }

  /** The line break was inside the other request's order id. */
  ghost predicate Shifted(o1: string, r1: string, o2: string, r2: string) {
    exists x: string :: o2 == o1 + "\n" + x && r1 == x + "\n" + r2
  }

  lemma FingerprintShift(o1: string, r1: string, o2: string, r2: string)
    requires |o1| < |o2| && Fingerprint(o1, r1) == Fingerprint(o2, r2)
    ensures Shifted(o1, r1, o2, r2)
  {
    var f := Fingerprint(o1, r1);
    var x := o2[|o1| + 1..];
    assert o1 == f[..|o1|] == o2[..|o1|];
    assert f[|o1|] == '\n' && o2[|o1|] == f[|o1|];
    assert o2 == o1 + "\n" + x;
    assert r1 == f[|o1| + 1..];
    assert f == o1 + "\n" + (x + "\n" + r2);
    assert r1 == x + "\n" + r2;
  }

  /** Two requests share a fingerprint only by cutting the same text at different line breaks. */
  lemma FingerprintsCollideIff(o1: string, r1: string, o2: string, r2: string)
    ensures Fingerprint(o1, r1) == Fingerprint(o2, r2) <==>
            (o1 == o2 && r1 == r2) || Shifted(o1, r1, o2, r2) || Shifted(o2, r2, o1, r1)
  {
    if Fingerprint(o1, r1) == Fingerprint(o2, r2) {
      if |o1| < |o2| {
        FingerprintShift(o1, r1, o2, r2);
      } else if |o2| < |o1| {
        FingerprintShift(o2, r2, o1, r1);
      } else {
        assert o1 == Fingerprint(o1, r1)[..|o1|] == o2;
        assert r1 == Fingerprint(o1, r1)[|o1| + 1..] == r2;
      }
    }
    if Shifted(o1, r1, o2, r2) {
      var x: string :| o2 == o1 + "\n" + x && r1 == x + "\n" + r2;
      assert o1 + "\n" + (x + "\n" + r2) == (o1 + "\n" + x) + "\n" + r2;
    }
    if Shifted(o2, r2, o1, r1) {
      var x: string :| o1 == o2 + "\n" + x && r2 == x + "\n" + r1;
      assert o2 + "\n" + (x + "\n" + r1) == (o2 + "\n" + x) + "\n" + r1;
    }
  }

  /** A request's fingerprint is its own exactly when neither its order id nor its reason contains a line break. */
  lemma FingerprintIsUniqueIff(orderID: string, reason: string)
    ensures (forall o, r :: Fingerprint(orderID, reason) == Fingerprint(o, r) ==> o == orderID && r == reason)
            <==> '\n' !in orderID && '\n' !in reason
  {
    hide Fingerprint;
    if '\n' !in orderID && '\n' !in reason {
      forall o, r | Fingerprint(orderID, reason) == Fingerprint(o, r) ensures o == orderID && r == reason {
        NoOtherCut(orderID, reason, o, r);
      }
    } else if i :| 0 <= i < |orderID| && orderID[i] == '\n' {
      CutEarlier(orderID, reason, i);
    } else {
      var i :| 0 <= i < |reason| && reason[i] == '\n';
      CutLater(orderID, reason, i);
    }
  }

  lemma ShiftCrossesBreak(o1: string, r1: string, o2: string, r2: string)
    ensures Shifted(o1, r1, o2, r2) ==> '\n' in o2 && '\n' in r1
  {
    if Shifted(o1, r1, o2, r2) {
      var x: string :| o2 == o1 + "\n" + x && r1 == x + "\n" + r2;
      assert o2[|o1|] == '\n' && r1[|x|] == '\n';
    }
  }

  lemma NoOtherCut(orderID: string, reason: string, o: string, r: string)
    requires '\n' !in orderID && '\n' !in reason && Fingerprint(orderID, reason) == Fingerprint(o, r)
    ensures o == orderID && r == reason
  {
    hide Fingerprint, Shifted;
    FingerprintsCollideIff(orderID, reason, o, r);
    ShiftCrossesBreak(orderID, reason, o, r);
    ShiftCrossesBreak(o, r, orderID, reason);
  }

  lemma CutEarlier(orderID: string, reason: string, i: nat)
    requires i < |orderID| && orderID[i] == '\n'
    ensures Fingerprint(orderID, reason) == Fingerprint(orderID[..i], orderID[i + 1..] + "\n" + reason)
    ensures orderID[..i] != orderID
  {
    assert orderID == orderID[..i] + "\n" + orderID[i + 1..];
  }

  lemma CutLater(orderID: string, reason: string, i: nat)
    requires i < |reason| && reason[i] == '\n'
    ensures Fingerprint(orderID, reason) == Fingerprint(orderID + "\n" + reason[..i], reason[i + 1..])
    ensures orderID + "\n" + reason[..i] != orderID
  {
    assert reason == reason[..i] + "\n" + reason[i + 1..];
    assert |orderID + "\n" + reason[..i]| > |orderID|;
  }
}
