/** What has to have happened for the fleet to be where it is: theorems that tie its reachable states to
    the actions of the run that led there, and its pollers to `pollReady`. */
module FleetHistory {
  import opened Config
  import opened Options
  import opened Runs
  import opened Polling
  import opened Fleet

  lemma MoreIn<T>(s: seq<T>, x: T)
    ensures forall y :: y in s + [x] <==> y in s || y == x
  {
  }

  // ---- What a poller leaves behind ----

  /** The status of a target whose poller is at `p`, by what the run holds. */
  ghost predicate Outcome(run: seq<Action>, i: nat, p: Poller, status: Status, done: bool) {
    var answered, late, stopped :=
      Poll(i, ProbeAnswers(true)) in run, Poll(i, ReadClock(true)) in run, Poll(i, SeeDone) in run;
    && (stopped ==> done)
    && match p
       case Absent => !answered && !late && !stopped
       case Probing => !answered && !late && !stopped && status == Booting
       case Checking => !answered && !late && !stopped && status == Booting
       case Waiting => !answered && !late && !stopped && status == Booting
       case Succeeding => answered && !late && !stopped && status == Booting
       case Failing => !answered && late && !stopped && status == Booting
       case Finishing => (status == Ready <==> answered) && (status == Error <==> late) && (status == Booting <==> stopped)
       case Exited => (status == Ready <==> answered) && (status == Error <==> late) && (status == Booting <==> stopped)
  }

  lemma {:induction false} OutcomeOf(ts: seq<TargetConfig>, ok: seq<bool>, traceEnabled: bool, run: seq<Action>, i: nat)
    requires |ts| == |ok| && i < |ts| && Follow(Next, Init(ts, ok, traceEnabled), run).Some?
    ensures var s := Follow(Next, Init(ts, ok, traceEnabled), run).value;
      && |s.cells| == |s.pollers| == |ts|
      && Outcome(run, i, s.pollers[i], s.cells[i].status, s.done)
  {
    hide Outcome, Next;
    if run == [] {
      NoOutcomeYet(ts, ok, traceEnabled, i);
    } else {
      var shorter, a := run[..|run| - 1], run[|run| - 1];
      assert run == shorter + [a];
      OutcomeOf(ts, ok, traceEnabled, shorter, i);
      hide Follow, Init;
      OutcomeKept(Follow(Next, Init(ts, ok, traceEnabled), shorter).value, shorter, a, i);
    }
  }

  lemma NoOutcomeYet(ts: seq<TargetConfig>, ok: seq<bool>, traceEnabled: bool, i: nat)
    requires |ts| == |ok| && i < |ts|
    ensures var s := Init(ts, ok, traceEnabled); Outcome([], i, s.pollers[i], s.cells[i].status, s.done)
  {
  }

  lemma OutcomeKept(s: State, run: seq<Action>, a: Action, i: nat)
    requires Next(s, a).Some? && i < |s.cells| == |s.pollers|
    requires Outcome(run, i, s.pollers[i], s.cells[i].status, s.done)
    ensures var s' := Next(s, a).value;
      |s'.cells| == |s.cells| && |s'.pollers| == |s.pollers|
      && Outcome(run + [a], i, s'.pollers[i], s'.cells[i].status, s'.done)
  {
    MoreIn(run, a);
    DoneStays(s, a);
    if a.Poll? && a.i == i {
      PollerOutcome(run, i, s.cells[i], s.pollers[i], s.done, a.p);
      hide Outcome, PollerNext, StatusAfter;
    } else {
      OthersStay(s, a, i);
      hide Next;
    }
  }

  lemma DoneStays(s: State, a: Action)
    requires Next(s, a).Some?
    ensures Next(s, a).value.done == (s.done || (a.Shut? && a.a == CloseDone))
  {
    hide Owned, AllPollersGone, PollerNext, StatusAfter, LookUpNext, DecideNext;
  }

  lemma PollerOutcome(run: seq<Action>, i: nat, c: Cell, p: Poller, done: bool, a: PollAction)
    requires Outcome(run, i, p, c.status, done) && PollerNext(p, done, a).Some?
    ensures Outcome(run + [Poll(i, a)], i, PollerNext(p, done, a).value, StatusAfter(c, p, a).status, done)
  {
    MoreIn(run, Poll(i, a));
  }

  /** Once a poller has exited, its target is ready if and only if a probe answered, in error if and only if
      the clock was read past the deadline, and otherwise still booting, which happens only when the poller
      was told of a shutdown that had begun. */
  lemma ExitedWithOutcome(ts: seq<TargetConfig>, ok: seq<bool>, traceEnabled: bool, run: seq<Action>, i: nat)
    requires |ts| == |ok| && i < |ts| && Follow(Next, Init(ts, ok, traceEnabled), run).Some?
    ensures var s := Follow(Next, Init(ts, ok, traceEnabled), run).value;
      && |s.cells| == |s.pollers| == |ts|
      && (s.pollers[i] == Exited ==>
            && (s.cells[i].status == Ready <==> Poll(i, ProbeAnswers(true)) in run)
            && (s.cells[i].status == Error <==> Poll(i, ReadClock(true)) in run)
            && (s.cells[i].status == Booting <==> Poll(i, SeeDone) in run)
            && (s.cells[i].status == Booting ==> s.done))
  {
    hide Follow, Next, Init;
    OutcomeOf(ts, ok, traceEnabled, run, i);
  }

  /** Shutdown has begun only if a call has begun it. */
  lemma {:induction false} DoneForCause(ts: seq<TargetConfig>, ok: seq<bool>, traceEnabled: bool, run: seq<Action>)
    requires |ts| == |ok| && Follow(Next, Init(ts, ok, traceEnabled), run).Some?
    ensures Follow(Next, Init(ts, ok, traceEnabled), run).value.done
       <==> exists c: nat :: Shut(c, CloseDone) in run
  {
    if run != [] {
      hide Next;
      var shorter, a := run[..|run| - 1], run[|run| - 1];
      assert run == shorter + [a];
      DoneForCause(ts, ok, traceEnabled, shorter);
      DoneStays(Follow(Next, Init(ts, ok, traceEnabled), shorter).value, a);
      MoreIn(shorter, a);
    }
  }

  // ---- A poller of the fleet does what pollReady does ----

  /** Everything poller `i` meets in the run is as in these surroundings. */
  ghost predicate Amid(run: seq<Action>, i: nat, w: Surroundings, timeout: int) {
    forall n :: 0 <= n < |run| && run[n].Poll? && run[n].i == i ==> Fits(run[n].p, w, timeout, Ticks(run[..n], i))
  }

  /** What happens around probe `k`. */
  predicate Fits(a: PollAction, w: Surroundings, timeout: int, k: nat) {
    match a
    case ProbeAnswers(ok) => ok == w.answers(k)
    case ReadClock(past) => past == (w.reading(k) > w.start + timeout)
    case Tick => !w.stopped(k)
    case SeeDone => w.stopped(k)
    case _ => true
  }

  ghost predicate Refines(p: Poller, status: Status, w: Surroundings, timeout: int, k: nat) {
    match p
    case Absent => true
    case Probing => Going(w, timeout, k)
    case Checking => Going(w, timeout, k) && !w.answers(k)
    case Waiting => Going(w, timeout, k) && !w.answers(k) && w.reading(k) <= w.start + timeout
    case Succeeding => Going(w, timeout, k) && w.answers(k)
    case Failing => Going(w, timeout, k) && !w.answers(k) && w.reading(k) > w.start + timeout
    case Finishing => EndsWith(w, timeout, if status == Booting then None else Some(status), k + 1)
    case Exited => EndsWith(w, timeout, if status == Booting then None else Some(status), k + 1)
  }

  /** Whatever else goes on, a poller that has exited leaves what `pollReady` sets in the same surroundings,
      after as many probes. */
  lemma PollerRefines(ts: seq<TargetConfig>, ok: seq<bool>, traceEnabled: bool, run: seq<Action>, i: nat,
                      w: Surroundings, timeout: int)
    requires |ts| == |ok| && i < |ts| && Follow(Next, Init(ts, ok, traceEnabled), run).Some?
    requires Amid(run, i, w, timeout)
    ensures var s := Follow(Next, Init(ts, ok, traceEnabled), run).value;
      && |s.cells| == |s.pollers| == |ts|
      && (s.pollers[i] == Exited ==>
            var status := s.cells[i].status;
            EndsWith(w, timeout, if status == Booting then None else Some(status), Ticks(run, i) + 1))
  {
    hide Follow, Next, Init, EndsWith;
    RefinesAlong(ts, ok, traceEnabled, run, i, w, timeout);
  }

  lemma {:induction false} RefinesAlong(ts: seq<TargetConfig>, ok: seq<bool>, traceEnabled: bool, run: seq<Action>, i: nat,
                                        w: Surroundings, timeout: int)
    requires |ts| == |ok| && i < |ts| && Follow(Next, Init(ts, ok, traceEnabled), run).Some?
    requires Amid(run, i, w, timeout)
    ensures var s := Follow(Next, Init(ts, ok, traceEnabled), run).value;
      && |s.cells| == |s.pollers| == |ts|
      && Refines(s.pollers[i], s.cells[i].status, w, timeout, Ticks(run, i))
  {
    hide Refines, Next, Inv;
    if run == [] {
      RefinesAtFirst(ts, ok, traceEnabled, i, w, timeout);
    } else {
      var shorter, a := run[..|run| - 1], run[|run| - 1];
      AmidBefore(run, i, w, timeout);
      RefinesAlong(ts, ok, traceEnabled, shorter, i, w, timeout);
      InitOk(ts, ok, traceEnabled);
      RunKeeps(Init(ts, ok, traceEnabled), ts, ok, shorter);
      hide Follow, Init;
      RefinesNext(Follow(Next, Init(ts, ok, traceEnabled), shorter).value, ts, ok, a, i, w, timeout, Ticks(shorter, i));
    }
  }

  lemma RefinesAtFirst(ts: seq<TargetConfig>, ok: seq<bool>, traceEnabled: bool, i: nat, w: Surroundings, timeout: int)
    requires |ts| == |ok| && i < |ts|
    ensures var s := Init(ts, ok, traceEnabled); Refines(s.pollers[i], s.cells[i].status, w, timeout, 0)
  {
  }

  lemma AmidBefore(run: seq<Action>, i: nat, w: Surroundings, timeout: int)
    requires run != [] && Amid(run, i, w, timeout)
    ensures Amid(run[..|run| - 1], i, w, timeout)
    ensures var a := run[|run| - 1]; a.Poll? && a.i == i ==> Fits(a.p, w, timeout, Ticks(run[..|run| - 1], i))
  {
    hide Fits, Ticks;
    var shorter := run[..|run| - 1];
    forall n | 0 <= n < |shorter| && shorter[n].Poll? && shorter[n].i == i
      ensures Fits(shorter[n].p, w, timeout, Ticks(shorter[..n], i))
    {
      assert shorter[..n] == run[..n] && shorter[n] == run[n];
    }
  }

  lemma RefinesNext(s: State, ts: seq<TargetConfig>, ok: seq<bool>, a: Action, i: nat, w: Surroundings, timeout: int, k: nat)
    requires Inv(s, ts, ok) && Next(s, a).Some? && i < |ts|
    requires |s.cells| == |s.pollers| == |ts| && Refines(s.pollers[i], s.cells[i].status, w, timeout, k)
    requires a.Poll? && a.i == i ==> Fits(a.p, w, timeout, k)
    ensures var s' := Next(s, a).value;
      && |s'.cells| == |s'.pollers| == |ts|
      && Refines(s'.pollers[i], s'.cells[i].status, w, timeout, k + (if IsTick(a, i) then 1 else 0))
  {
    hide Inv, Refines, Fits;
    if a.Poll? && a.i == i {
      CellOf(s, ts, ok, i);
      PollerRefinesNext(s.cells[i], s.pollers[i], ok[i], s.done, a.p, w, timeout, k);
      hide PollerNext, StatusAfter, PollerOk;
    } else {
      OthersStay(s, a, i);
      hide Next;
    }
  }

  lemma PollerRefinesNext(c: Cell, p: Poller, launched: bool, done: bool, a: PollAction, w: Surroundings, timeout: int, k: nat)
    requires PollerOk(c, p, launched) && PollerNext(p, done, a).Some?
    requires Refines(p, c.status, w, timeout, k) && Fits(a, w, timeout, k)
    ensures Refines(PollerNext(p, done, a).value, StatusAfter(c, p, a).status, w, timeout, k + (if a.Tick? then 1 else 0))
  {
  }

  // ---- What a request is answered with ----

  /** The last target of that id. */
  ghost predicate IsTarget(ts: seq<TargetConfig>, id: string, t: nat) {
    t < |ts| && ts[t].id == id && forall u :: t < u < |ts| ==> ts[u].id != id
  }

  /** A session or stream is opened if and only if, when the request looked, its id was that of a target
      that was ready, and tracing is enabled if it is for a trace; whatever happens between the request's
      two steps. */
  lemma RequestAnswered(ts: seq<TargetConfig>, ok: seq<bool>, traceEnabled: bool, run: seq<Action>, r: nat, rest: seq<Action>)
    requires |ts| == |ok| && Follow(Next, Init(ts, ok, traceEnabled), run).Some?
    requires var s := Follow(Next, Init(ts, ok, traceEnabled), run).value;
      && r < |s.requests| && s.requests[r].Asked? && Next(s, LookUp(r)).Some?
      && Follow(Next, Next(s, LookUp(r)).value, rest + [Decide(r)]).Some?
    requires Decide(r) !in rest
    ensures
      var s := Follow(Next, Init(ts, ok, traceEnabled), run).value;
      var t := Follow(Next, Next(s, LookUp(r)).value, rest + [Decide(r)]).value;
      var id, trace := s.requests[r].id, s.requests[r].trace;
      && |s.cells| == |ts| && r < |t.requests|
      && (t.requests[r].Opened? || t.requests[r].Refused?)
      && (t.requests[r].Opened? <==>
            (exists i: nat :: IsTarget(ts, id, i) && s.cells[i].status == Ready) && (trace ==> s.traceEnabled))
      && (forall i: nat :: t.requests[r] == Opened(id, trace, i) ==> IsTarget(ts, id, i))
  {
    hide Next, Init, Inv;
    InitOk(ts, ok, traceEnabled);
    RunKeeps(Init(ts, ok, traceEnabled), ts, ok, run);
    var s := Follow(Next, Init(ts, ok, traceEnabled), run).value;
    TableIs(s, ts, ok);
    LookUpSteps(s, r);
    var m := Next(s, LookUp(r)).value;
    assert (rest + [Decide(r)])[..|rest|] == rest;
    var n := Follow(Next, m, rest).value;
    LookedStays(m, rest, r);
    DecideSteps(n, r);
    hide Follow, LookUpNext, DecideNext;
    Answer(s.cells, ts, s.traceEnabled, s.requests[r]);
  }

  lemma TableIs(s: State, ts: seq<TargetConfig>, ok: seq<bool>)
    requires Inv(s, ts, ok)
    ensures |s.cells| == |ts| && Configs(s.cells) == ts
  {
    hide StopsOk, CallsOk, RequestsOk;
  }

  lemma LookUpSteps(s: State, r: nat)
    requires r < |s.requests| && s.requests[r].Asked?
    ensures Next(s, LookUp(r)) == Some(s.(requests := s.requests[r := LookUpNext(s.cells, s.requests[r])]))
    ensures LookUpNext(s.cells, s.requests[r]).Looked?
  {
  }

  lemma DecideSteps(s: State, r: nat)
    requires r < |s.requests| && s.requests[r].Looked?
    ensures Next(s, Decide(r)) == Some(s.(requests := s.requests[r := DecideNext(s.traceEnabled, s.requests[r])]))
  {
    hide DecideNext;
  }

  lemma {:induction false} LookedStays(s: State, rest: seq<Action>, r: nat)
    requires Follow(Next, s, rest).Some? && Decide(r) !in rest
    requires r < |s.requests| && s.requests[r].Looked?
    ensures var t := Follow(Next, s, rest).value;
      r < |t.requests| && t.requests[r] == s.requests[r] && t.traceEnabled == s.traceEnabled
  {
    if rest != [] {
      hide Next;
      var shorter, a := rest[..|rest| - 1], rest[|rest| - 1];
      assert rest == shorter + [a];
      LookedStays(s, shorter, r);
      LookedUntouched(Follow(Next, s, shorter).value, a, r);
    }
  }

  lemma LookedUntouched(s: State, a: Action, r: nat)
    requires Next(s, a).Some? && a != Decide(r) && r < |s.requests| && s.requests[r].Looked?
    ensures var t := Next(s, a).value;
      r < |t.requests| && t.requests[r] == s.requests[r] && t.traceEnabled == s.traceEnabled
  {
    hide Owned, AllPollersGone, PollerNext, StatusAfter, LookUpNext, DecideNext;
  }

  lemma Answer(cells: seq<Cell>, ts: seq<TargetConfig>, traceEnabled: bool, r: Request)
    requires r.Asked? && Configs(cells) == ts && LookUpNext(cells, r).Looked?
    ensures
      var answer := DecideNext(traceEnabled, LookUpNext(cells, r));
      && (answer.Opened? || answer.Refused?)
      && (answer.Opened? <==>
            (exists i: nat :: IsTarget(ts, r.id, i) && cells[i].status == Ready) && (r.trace ==> traceEnabled))
      && (forall i: nat :: answer == Opened(r.id, r.trace, i) ==> IsTarget(ts, r.id, i))
  {
    IndexFindsLast(ts);
    hide IndexById;
    var index := IndexById(ts);
    if r.id in index {
      forall u | index[r.id] < u < |ts| ensures ts[u].id != r.id {
        assert u <= index[ts[u].id];
      }
      assert IsTarget(ts, r.id, index[r.id]);
      forall i: nat | IsTarget(ts, r.id, i) ensures i == index[r.id] {
        assert ts[i].id in index;
      }
    }
  }

  // ---- What a Shutdown call reports ----

  /** What the stops of call `c` returned, in order. */
  function StopResults(run: seq<Action>, c: nat): seq<Option<nat>> {
    if run == [] then []
    else
      var a := run[|run| - 1];
      StopResults(run[..|run| - 1], c) + (if a.Shut? && a.c == c && a.a.Stop? then [a.a.err] else [])
  }

  function FirstSome(results: seq<Option<nat>>): Option<nat> {
    if results == [] then None else if results[0].Some? then results[0] else FirstSome(results[1..])
  }

  lemma {:induction false} FirstSomeNext(results: seq<Option<nat>>, err: Option<nat>)
    ensures FirstSome(results + [err]) == if FirstSome(results).Some? then FirstSome(results) else err
  {
    if results == [] {
      assert ([] + [err])[1..] == [];
    } else {
      assert (results + [err])[1..] == results[1..] + [err];
      FirstSomeNext(results[1..], err);
    }
  }

  ghost predicate Reported(run: seq<Action>, c: nat, call: Call) {
    var results := StopResults(run, c);
    match call
    case Stopping(procs, k, firstErr) => |results| == k <= |procs| && firstErr == FirstSome(results)
    case Returned(procs, firstErr) => |results| == |procs| && firstErr == FirstSome(results)
    case _ => results == []
  }

  ghost predicate AllReported(run: seq<Action>, calls: seq<Call>) {
    && (forall c :: 0 <= c < |calls| ==> Reported(run, c, calls[c]))
    && (forall c: nat :: |calls| <= c ==> StopResults(run, c) == [])
  }

  lemma {:induction false} ReportedAlong(ts: seq<TargetConfig>, ok: seq<bool>, traceEnabled: bool, run: seq<Action>)
    requires |ts| == |ok| && Follow(Next, Init(ts, ok, traceEnabled), run).Some?
    ensures AllReported(run, Follow(Next, Init(ts, ok, traceEnabled), run).value.calls)
  {
    if run != [] {
      hide Next, Init, AllReported;
      var shorter, a := run[..|run| - 1], run[|run| - 1];
      assert run == shorter + [a];
      ReportedAlong(ts, ok, traceEnabled, shorter);
      ReportedNext(Follow(Next, Init(ts, ok, traceEnabled), shorter).value, shorter, a);
    }
  }

  /** A call that has returned has made one stop for each process it took, and reports the first error those
      stops returned, whatever other calls did. */
  lemma ReportsWhatStopsReturned(ts: seq<TargetConfig>, ok: seq<bool>, traceEnabled: bool, run: seq<Action>, c: nat)
    requires |ts| == |ok| && Follow(Next, Init(ts, ok, traceEnabled), run).Some?
    requires var s := Follow(Next, Init(ts, ok, traceEnabled), run).value; c < |s.calls| && s.calls[c].Returned?
    ensures var call := Follow(Next, Init(ts, ok, traceEnabled), run).value.calls[c];
      && |StopResults(run, c)| == |call.procs|
      && call.firstErr == FirstSome(StopResults(run, c))
  {
    hide Follow, Next, Init, StopResults, FirstSome;
    ReportedAlong(ts, ok, traceEnabled, run);
    assert Reported(run, c, Follow(Next, Init(ts, ok, traceEnabled), run).value.calls[c]);
  }

  lemma ReportedNext(s: State, run: seq<Action>, a: Action)
    requires Next(s, a).Some? && AllReported(run, s.calls)
    ensures AllReported(run + [a], Next(s, a).value.calls)
  {
    hide Reported;
    var s' := Next(s, a).value;
    ResultsNext(run, a);
    CallsNext(s, a);
    hide Next, StopResults;
    forall c | 0 <= c < |s'.calls| ensures Reported(run + [a], c, s'.calls[c]) {
      if a.Shut? && a.c == c {
        CallReported(s, run, c, a.a);
      } else {
        SameReport(run, run + [a], c, s'.calls[c]);
      }
    }
  }

  lemma ResultsNext(run: seq<Action>, a: Action)
    ensures forall c: nat ::
      StopResults(run + [a], c) == StopResults(run, c) + (if a.Shut? && a.c == c && a.a.Stop? then [a.a.err] else [])
  {
    assert (run + [a])[..|run|] == run;
  }

  lemma CallsNext(s: State, a: Action)
    requires Next(s, a).Some?
    ensures var s' := Next(s, a).value;
      && |s'.calls| == |s.calls| + (if a.NewShutdown? then 1 else 0)
      && (a.NewShutdown? ==> s'.calls[|s.calls|] == Starting)
      && (a.Shut? ==> a.c < |s.calls| && CallNext(s, a.c, a.a) == Some(s'))
      && forall c :: 0 <= c < |s.calls| && !(a.Shut? && a.c == c) ==> s'.calls[c] == s.calls[c]
  {
    hide Owned, AllPollersGone, PollerNext, StatusAfter, LookUpNext, DecideNext;
  }

  lemma SameReport(run: seq<Action>, run': seq<Action>, c: nat, call: Call)
    requires StopResults(run', c) == StopResults(run, c)
    ensures Reported(run, c, call) ==> Reported(run', c, call)
    ensures call == Starting && StopResults(run, c) == [] ==> Reported(run', c, call)
  {
    hide StopResults;
  }

  lemma CallReported(s: State, run: seq<Action>, c: nat, b: CallAction)
    requires c < |s.calls| && CallNext(s, c, b).Some? && Reported(run, c, s.calls[c])
    ensures Reported(run + [Shut(c, b)], c, CallNext(s, c, b).value.calls[c])
  {
    hide Owned, AllPollersGone;
    ResultsNext(run, Shut(c, b));
    hide StopResults;
    if b.Stop? { FirstSomeNext(StopResults(run, c), b.err); }
    assert StopResults(run, c) + [] == StopResults(run, c) && FirstSome([]) == None;
  }
}
