/** The fleet after `EnsureStarted` as a transition system (internal/runtime/qemu.go): one poller per
    launched target, any number of concurrent `Shutdown`, `Attach` and `TraceStream` calls, and the
    mutex-guarded table of targets between them.  A critical section is one step. */
module Fleet {
  import opened Config
  import opened Options
  import opened Runs
  import opened Polling

  // ---- State ----

  /** A row of the table; `proc` says whether it still owns the process launched for it. */
  datatype Cell = Cell(cfg: TargetConfig, status: Status, proc: bool)

  datatype Poller =
    | Absent       // the target was not launched
    | Probing
    | Succeeding   // about to set ready
    | Checking     // about to read the clock
    | Failing      // about to set error
    | Waiting      // for the ticker or for shutdown
    | Finishing    // about to call wg.Done
    | Exited

  /** A Shutdown call; `procs` are the targets whose processes it took, `k` how many it has stopped. */
  datatype Call =
    | Starting
    | Awaiting
    | Collecting
    | Stopping(procs: seq<nat>, k: nat, firstErr: Option<nat>)
    | Returned(procs: seq<nat>, firstErr: Option<nat>)

  /** An Attach or TraceStream call. */
  datatype Request =
    | Asked(id: string, trace: bool)
    | Looked(id: string, trace: bool, found: Option<nat>, status: Status)
    | Opened(id: string, trace: bool, target: nat)
    | Refused(id: string, trace: bool)

  datatype State = State(
    cells: seq<Cell>,
    traceEnabled: bool,
    pollers: seq<Poller>,
    done: bool,
    doneCloses: nat,
    calls: seq<Call>,
    requests: seq<Request>,
    stops: seq<nat>,              // how often each target's process was stopped
    errors: seq<Option<nat>>)     // what stopping it returned

  /** The table as `EnsureStarted` leaves it, given which launches succeed. */
  function Launched(ts: seq<TargetConfig>, ok: seq<bool>): (cells: seq<Cell>)
    requires |ts| == |ok|
    ensures |cells| == |ts|
  {
    seq(|ts|, i requires 0 <= i < |ts| => Cell(ts[i], if ok[i] then Booting else Error, ok[i]))
  }

  function Init(ts: seq<TargetConfig>, ok: seq<bool>, traceEnabled: bool): State
    requires |ts| == |ok|
  {
    State(Launched(ts, ok), traceEnabled, seq(|ts|, i requires 0 <= i < |ts| => if ok[i] then Probing else Absent),
          false, 0, [], [], seq(|ts|, _ => 0), seq(|ts|, _ => None))
  }

  // ---- Steps ----

  datatype PollAction = ProbeAnswers(ok: bool) | ReadClock(past: bool) | SetStatus | Tick | SeeDone | WgDone

  datatype CallAction = CloseDone | PollersGone | Collect | Stop(err: Option<nat>) | Return

  datatype Action =
    | Poll(i: nat, p: PollAction)
    | NewShutdown
    | Shut(c: nat, a: CallAction)
    | NewRequest(id: string, trace: bool)
    | LookUp(r: nat)
    | Decide(r: nat)

  function PollerNext(p: Poller, done: bool, a: PollAction): Option<Poller> {
    match a
    case ProbeAnswers(ok) => if p == Probing then Some(if ok then Succeeding else Checking) else None
    case ReadClock(past) => if p == Checking then Some(if past then Failing else Waiting) else None
    case SetStatus => if p == Succeeding || p == Failing then Some(Finishing) else None
    case Tick => if p == Waiting then Some(Probing) else None
    case SeeDone => if p == Waiting && done then Some(Finishing) else None
    case WgDone => if p == Finishing then Some(Exited) else None
  }

  function StatusAfter(c: Cell, p: Poller, a: PollAction): Cell {
    if a == SetStatus && p == Succeeding then c.(status := Ready)
    else if a == SetStatus && p == Failing then c.(status := Error)
    else c
  }

  /** The wait group is at zero. */
  predicate AllPollersGone(pollers: seq<Poller>) {
    forall i :: 0 <= i < |pollers| ==> pollers[i] == Absent || pollers[i] == Exited
  }

  /** Targets whose process is still in the table, in configuration order. */
  function Owned(cells: seq<Cell>): (procs: seq<nat>)
    ensures forall j :: 0 <= j < |procs| ==> procs[j] < |cells| && cells[procs[j]].proc
    ensures forall j, k :: 0 <= j < k < |procs| ==> procs[j] < procs[k]
    ensures forall i :: 0 <= i < |cells| && cells[i].proc ==> i in procs
  {
    if cells == [] then []
    else Owned(cells[..|cells| - 1]) + (if cells[|cells| - 1].proc then [|cells| - 1] else [])
  }

  function Disowned(cells: seq<Cell>): (r: seq<Cell>)
    ensures |r| == |cells|
    ensures forall i :: 0 <= i < |cells| ==> r[i] == cells[i].(proc := false)
  {
    seq(|cells|, i requires 0 <= i < |cells| => cells[i].(proc := false))
  }

  function CallNext(s: State, c: nat, a: CallAction): Option<State>
    requires c < |s.calls|
  {
    var call := s.calls[c];
    match a
    case CloseDone =>
      if call != Starting then None
      else
        Some(s.(calls := s.calls[c := Awaiting], done := true, doneCloses := s.doneCloses + (if s.done then 0 else 1)))
    case PollersGone =>
      if call == Awaiting && AllPollersGone(s.pollers) then Some(s.(calls := s.calls[c := Collecting])) else None
    case Collect =>
      if call == Collecting then
        Some(s.(calls := s.calls[c := Stopping(Owned(s.cells), 0, None)], cells := Disowned(s.cells)))
      else None
    case Stop(err) =>
      if call.Stopping? && call.k < |call.procs| && call.procs[call.k] < |s.stops| && call.procs[call.k] < |s.errors| then
        var t := call.procs[call.k];
        Some(s.(calls := s.calls[c := Stopping(call.procs, call.k + 1, if call.firstErr.None? then err else call.firstErr)],
                stops := s.stops[t := s.stops[t] + 1], errors := s.errors[t := err]))
      else None
    case Return =>
      if call.Stopping? && call.k >= |call.procs| then
        Some(s.(calls := s.calls[c := Returned(call.procs, call.firstErr)]))
      else None
  }

  function Configs(cells: seq<Cell>): (ts: seq<TargetConfig>)
    ensures |ts| == |cells|
  {
    seq(|cells|, i requires 0 <= i < |cells| => cells[i].cfg)
  }

  /** One step under the lock: the entry for the id, and a copy of its status. */
  function LookUpNext(cells: seq<Cell>, r: Request): Request
    requires r.Asked?
  {
    var found := Lookup(IndexById(Configs(cells)), r.id);
    Looked(r.id, r.trace, found, if found.Some? && found.value < |cells| then cells[found.value].status else Error)
  }

  function DecideNext(traceEnabled: bool, r: Request): Request
    requires r.Looked?
  {
    if r.found.None? || (r.trace && !traceEnabled) || r.status != Ready then Refused(r.id, r.trace)
    else Opened(r.id, r.trace, r.found.value)
  }

  function Next(s: State, a: Action): Option<State> {
    match a
    case Poll(i, p) =>
      if i >= |s.pollers| || i >= |s.cells| then None
      else (
        match PollerNext(s.pollers[i], s.done, p)
        case None => None
        case Some(q) =>
          Some(s.(pollers := s.pollers[i := q], cells := s.cells[i := StatusAfter(s.cells[i], s.pollers[i], p)]))
      )
    case NewShutdown => Some(s.(calls := s.calls + [Starting]))
    case Shut(c, b) => if c < |s.calls| then CallNext(s, c, b) else None
    case NewRequest(id, trace) => Some(s.(requests := s.requests + [Asked(id, trace)]))
    case LookUp(r) =>
      if r < |s.requests| && s.requests[r].Asked? then
        Some(s.(requests := s.requests[r := LookUpNext(s.cells, s.requests[r])]))
      else None
    case Decide(r) =>
      if r < |s.requests| && s.requests[r].Looked? then
        Some(s.(requests := s.requests[r := DecideNext(s.traceEnabled, s.requests[r])]))
      else None
  }

  // ---- Invariants ----

  ghost predicate PollerOk(c: Cell, p: Poller, launched: bool) {
    match p
    case Absent => !launched && c.status == Error
    case Finishing => launched
    case Exited => launched
    case _ => launched && c.status == Booting
  }

  /** The table keeps its configuration, and each row agrees with its poller. */
  ghost predicate CellsOk(s: State, ts: seq<TargetConfig>, ok: seq<bool>) {
    && |s.cells| == |s.pollers| == |ts| == |ok|
    && (forall i :: 0 <= i < |ts| ==> s.cells[i].cfg == ts[i])
    && (forall i :: 0 <= i < |ts| ==> PollerOk(s.cells[i], s.pollers[i], ok[i]))
  }

  /** The processes launched, in configuration order. */
  function LaunchedList(ok: seq<bool>): (procs: seq<nat>)
    ensures forall j :: 0 <= j < |procs| ==> procs[j] < |ok| && ok[procs[j]]
    ensures forall j, k :: 0 <= j < k < |procs| ==> procs[j] < procs[k]
    ensures forall i :: 0 <= i < |ok| && ok[i] ==> i in procs
  {
    if ok == [] then []
    else LaunchedList(ok[..|ok| - 1]) + (if ok[|ok| - 1] then [|ok| - 1] else [])
  }

  predicate Past(call: Call) { call.Stopping? || call.Returned? }

  function StoppedSoFar(call: Call): (procs: seq<nat>)
    requires Past(call)
  {
    if call.Returned? || call.k > |call.procs| then call.procs else call.procs[..call.k]
  }

  /** The first error, in the order the processes were stopped. */
  function FirstError(procs: seq<nat>, errors: seq<Option<nat>>): Option<nat> {
    if procs == [] then None
    else
      var before := FirstError(procs[..|procs| - 1], errors);
      var t := procs[|procs| - 1];
      if before.Some? then before else if t < |errors| then errors[t] else None
  }

  /** No call has taken the processes yet. */
  ghost predicate NotCollected(s: State, ok: seq<bool>)
    requires |s.cells| == |s.stops| == |ok|
  {
    && (forall i :: 0 <= i < |ok| ==> s.cells[i].proc == ok[i] && s.stops[i] == 0)
    && (forall c :: 0 <= c < |s.calls| ==> !Past(s.calls[c]))
  }

  /** Call `w` took all of them; any other call past that point found none. */
  ghost predicate CollectedBy(s: State, ok: seq<bool>, w: nat)
    requires |s.cells| == |s.stops| == |ok|
  {
    && w < |s.calls| && Past(s.calls[w]) && s.calls[w].procs == LaunchedList(ok)
    && (forall i :: 0 <= i < |ok| ==> !s.cells[i].proc)
    && (forall i :: 0 <= i < |ok| ==> s.stops[i] == if i in StoppedSoFar(s.calls[w]) then 1 else 0)
    && (forall c :: 0 <= c < |s.calls| && c != w && Past(s.calls[c]) ==> s.calls[c].procs == [])
  }

  ghost predicate StopsOk(s: State, ok: seq<bool>) {
    && |s.cells| == |s.stops| == |s.errors| == |ok|
    && (NotCollected(s, ok) || exists w :: CollectedBy(s, ok, w))
  }

  ghost predicate CallOk(call: Call, done: bool, pollersGone: bool, errors: seq<Option<nat>>) {
    && (call != Starting ==> done)
    && (call == Collecting || Past(call) ==> pollersGone)
    && (call.Stopping? ==> call.k <= |call.procs|)
    && (Past(call) ==> call.firstErr == FirstError(StoppedSoFar(call), errors))
  }

  ghost predicate CallsOk(s: State) {
    && (forall c :: 0 <= c < |s.calls| ==> CallOk(s.calls[c], s.done, AllPollersGone(s.pollers), s.errors))
    && s.doneCloses == (if s.done then 1 else 0)
  }

  ghost predicate RequestOk(cells: seq<Cell>, traceEnabled: bool, r: Request) {
    match r
    case Looked(id, _, found, status) =>
      found.Some? ==> found.value < |cells| && cells[found.value].cfg.id == id
                      && (status == Ready ==> cells[found.value].status == Ready)
    case Opened(id, trace, t) =>
      t < |cells| && cells[t].cfg.id == id && cells[t].status == Ready && (trace ==> traceEnabled)
    case _ => true
  }

  ghost predicate RequestsOk(s: State) {
    forall r :: 0 <= r < |s.requests| ==> RequestOk(s.cells, s.traceEnabled, s.requests[r])
  }

  ghost predicate Inv(s: State, ts: seq<TargetConfig>, ok: seq<bool>) {
    CellsOk(s, ts, ok) && StopsOk(s, ok) && CallsOk(s) && RequestsOk(s)
  }

  // ---- What every step keeps ----

  /** A row that has settled never changes its status again. */
  lemma SettledStays(c: Cell, p: Poller, launched: bool, done: bool, a: PollAction)
    requires PollerOk(c, p, launched) && PollerNext(p, done, a).Some?
    ensures PollerOk(StatusAfter(c, p, a), PollerNext(p, done, a).value, launched)
    ensures c.status != Booting ==> StatusAfter(c, p, a) == c
    ensures StatusAfter(c, p, a).cfg == c.cfg && StatusAfter(c, p, a).proc == c.proc
  {
  }

  lemma NotCollectedYet(s: State, ok: seq<bool>)
    requires StopsOk(s, ok) && CallsOk(s) && !AllPollersGone(s.pollers)
    ensures NotCollected(s, ok)
  {
  }

  lemma PollKeeps(s: State, ts: seq<TargetConfig>, ok: seq<bool>, i: nat, p: PollAction)
    requires Inv(s, ts, ok) && Next(s, Poll(i, p)).Some?
    ensures Inv(Next(s, Poll(i, p)).value, ts, ok)
  {
    hide PollerOk, StatusAfter, FirstError, StoppedSoFar, LaunchedList;
    var s' := Next(s, Poll(i, p)).value;
    SettledStays(s.cells[i], s.pollers[i], ok[i], s.done, p);
    assert forall j :: 0 <= j < |ts| ==> s'.cells[j].proc == s.cells[j].proc && s'.cells[j].cfg == s.cells[j].cfg;
    assert forall j :: 0 <= j < |ts| && s.cells[j].status == Ready ==> s'.cells[j].status == Ready;
    assert !AllPollersGone(s.pollers);
    NotCollectedYet(s, ok);
    assert NotCollected(s', ok);
  }

  lemma RequestKeeps(s: State, ts: seq<TargetConfig>, ok: seq<bool>, a: Action)
    requires Inv(s, ts, ok) && (a.NewRequest? || a.LookUp? || a.Decide?) && Next(s, a).Some?
    ensures Inv(Next(s, a).value, ts, ok)
  {
    RequestTouches(s, a);
    hide Next, PollerOk, CallOk, RequestsOk, FirstError, StoppedSoFar, LaunchedList, AllPollersGone;
    var s' := Next(s, a).value;
    if NotCollected(s, ok) {
      assert NotCollected(s', ok);
    } else {
      var w: nat :| CollectedBy(s, ok, w);
      assert CollectedBy(s', ok, w);
    }
  }

  lemma RequestTouches(s: State, a: Action)
    requires RequestsOk(s) && (a.NewRequest? || a.LookUp? || a.Decide?) && Next(s, a).Some?
    ensures Next(s, a).value.(requests := s.requests) == s && RequestsOk(Next(s, a).value)
  {
    hide IndexById;
    IndexFindsLast(Configs(s.cells));
  }

  lemma OwnedIsLaunched(cells: seq<Cell>, ok: seq<bool>)
    requires |cells| == |ok| && forall i :: 0 <= i < |ok| ==> cells[i].proc == ok[i]
    ensures Owned(cells) == LaunchedList(ok)
  {
  }

  lemma OwnedNone(cells: seq<Cell>)
    requires forall i :: 0 <= i < |cells| ==> !cells[i].proc
    ensures Owned(cells) == []
  {
  }

  lemma {:induction false} FirstErrorFrame(procs: seq<nat>, errors: seq<Option<nat>>, t: nat, err: Option<nat>)
    requires t < |errors| && t !in procs
    ensures FirstError(procs, errors[t := err]) == FirstError(procs, errors)
  {
    if procs != [] {
      assert procs[|procs| - 1] in procs;
      FirstErrorFrame(procs[..|procs| - 1], errors, t, err);
    }
  }

  lemma FirstErrorNext(procs: seq<nat>, k: nat, errors: seq<Option<nat>>, err: Option<nat>)
    requires k < |procs| && procs[k] < |errors|
    requires forall j, l :: 0 <= j < l < |procs| ==> procs[j] < procs[l]
    ensures FirstError(procs[..k + 1], errors[procs[k] := err])
         == var before := FirstError(procs[..k], errors); if before.None? then err else before
  {
    assert procs[..k + 1][..k] == procs[..k];
    FirstErrorFrame(procs[..k], errors, procs[k], err);
  }

  /** The table's side of taking or stopping processes. */
  lemma StopsKept(s: State, ok: seq<bool>, c: nat, a: CallAction)
    requires StopsOk(s, ok) && CallsOk(s) && c < |s.calls| && CallNext(s, c, a).Some?
    ensures StopsOk(CallNext(s, c, a).value, ok)
  {
    hide FirstError, LaunchedList, Owned, AllPollersGone, CallsOk, NotCollected, CollectedBy;
    if NotCollected(s, ok) {
      FirstCollects(s, ok, c, a);
    } else {
      var w: nat :| CollectedBy(s, ok, w);
      CollectorHasCall(s, ok, w);
      StaysCollected(s, ok, w, c, a);
    }
  }

  lemma CollectorHasCall(s: State, ok: seq<bool>, w: nat)
    requires |s.cells| == |s.stops| == |ok| && CollectedBy(s, ok, w) && CallsOk(s)
    ensures CallOk(s.calls[w], s.done, AllPollersGone(s.pollers), s.errors) && w < |s.calls|
  {
  }

  lemma FirstCollects(s: State, ok: seq<bool>, c: nat, a: CallAction)
    requires |s.cells| == |s.stops| == |s.errors| == |ok| && NotCollected(s, ok)
    requires c < |s.calls| && CallNext(s, c, a).Some?
    ensures StopsOk(CallNext(s, c, a).value, ok)
  {
    var s' := CallNext(s, c, a).value;
    assert !Past(s.calls[c]);
    if a == Collect {
      OwnedIsLaunched(s.cells, ok);
      assert CollectedBy(s', ok, c);
    } else {
      assert NotCollected(s', ok);
    }
  }

  lemma StaysCollected(s: State, ok: seq<bool>, w: nat, c: nat, a: CallAction)
    requires |s.cells| == |s.stops| == |s.errors| == |ok| && CollectedBy(s, ok, w)
    requires s.calls[w].Stopping? ==> s.calls[w].k <= |s.calls[w].procs|
    requires c < |s.calls| && CallNext(s, c, a).Some?
    ensures CollectedBy(CallNext(s, c, a).value, ok, w)
  {
    hide LaunchedList, Owned, AllPollersGone;
    OwnedNone(s.cells);
    if a.Stop? && c == w { StoppedOneMore(s, ok, w, a.err); }
  }

  lemma StoppedOneMore(s: State, ok: seq<bool>, w: nat, err: Option<nat>)
    requires |s.cells| == |s.stops| == |s.errors| == |ok|
    requires CollectedBy(s, ok, w) && CallNext(s, w, Stop(err)).Some?
    ensures CollectedBy(CallNext(s, w, Stop(err)).value, ok, w)
  {
    var call, s' := s.calls[w], CallNext(s, w, Stop(err)).value;
    var before, now := StoppedSoFar(call), StoppedSoFar(s'.calls[w]);
    assert now == before + [call.procs[call.k]];
    assert call.procs[call.k] !in before;
    hide LaunchedList;
  }

  lemma CallsKept(s: State, ok: seq<bool>, c: nat, a: CallAction)
    requires StopsOk(s, ok) && CallsOk(s) && c < |s.calls| && CallNext(s, c, a).Some?
    ensures CallsOk(CallNext(s, c, a).value)
  {
    if a.Stop? {
      StopIsByCollector(s, ok, c);
      StopKeepsCalls(s, ok, c, a.err);
    } else {
      hide CallOk;
      var s' := CallNext(s, c, a).value;
      CallMoves(s, c, a);
      forall d | 0 <= d < |s.calls| ensures CallOk(s'.calls[d], s'.done, AllPollersGone(s'.pollers), s'.errors) {
        assert CallOk(s.calls[d], s.done, AllPollersGone(s.pollers), s.errors);
        CallStays(s.calls[d], s.done, AllPollersGone(s.pollers), s.errors);
      }
    }
  }

  /** Closing `done` disturbs no call. */
  lemma CallStays(call: Call, done: bool, gone: bool, errors: seq<Option<nat>>)
    requires CallOk(call, done, gone, errors)
    ensures CallOk(call, true, gone, errors)
  {
  }

  lemma CallMoves(s: State, c: nat, a: CallAction)
    requires c < |s.calls| && CallNext(s, c, a).Some? && !a.Stop?
    requires CallOk(s.calls[c], s.done, AllPollersGone(s.pollers), s.errors)
    ensures var s' := CallNext(s, c, a).value;
      && s'.errors == s.errors && s'.pollers == s.pollers && |s'.calls| == |s.calls|
      && s'.done == (s.done || a == CloseDone)
      && s'.doneCloses == s.doneCloses + (if a == CloseDone && !s.done then 1 else 0)
      && CallOk(s'.calls[c], s'.done, AllPollersGone(s'.pollers), s'.errors)
      && forall d :: 0 <= d < |s.calls| && d != c ==> s'.calls[d] == s.calls[d]
  {
    hide Owned, AllPollersGone;
    FirstErrorOfNone(s.errors);
    var call := s.calls[c];
    if call.Stopping? && a == Return { assert call.procs[..call.k] == call.procs; }
  }

  lemma StopIsByCollector(s: State, ok: seq<bool>, c: nat)
    requires StopsOk(s, ok) && c < |s.calls| && s.calls[c].Stopping? && s.calls[c].procs != []
    ensures CollectedBy(s, ok, c)
  {
    hide StoppedSoFar, LaunchedList;
    assert Past(s.calls[c]);
  }

  lemma StopKeepsCalls(s: State, ok: seq<bool>, c: nat, err: Option<nat>)
    requires |s.cells| == |s.stops| == |ok| && CollectedBy(s, ok, c) && CallsOk(s) && CallNext(s, c, Stop(err)).Some?
    ensures CallsOk(CallNext(s, c, Stop(err)).value)
  {
    hide AllPollersGone, LaunchedList, FirstError;
    var s', call := CallNext(s, c, Stop(err)).value, s.calls[c];
    forall d | 0 <= d < |s.calls| ensures CallOk(s'.calls[d], s'.done, AllPollersGone(s'.pollers), s'.errors) {
      assert CallOk(s.calls[d], s.done, AllPollersGone(s.pollers), s.errors) && CallOk(call, s.done, AllPollersGone(s.pollers), s.errors);
      if d == c {
        FirstErrorNext(call.procs, call.k, s.errors, err);
      } else {
        FirstErrorOfNone(s.errors);
        FirstErrorOfNone(s'.errors);
      }
    }
  }

  lemma FirstErrorOfNone(errors: seq<Option<nat>>)
    ensures FirstError([], errors) == None
  {
  }

  lemma StepKeeps(s: State, ts: seq<TargetConfig>, ok: seq<bool>, a: Action)
    requires Inv(s, ts, ok) && Next(s, a).Some?
    ensures Inv(Next(s, a).value, ts, ok)
  {
    match a
    case Poll(i, p) => PollKeeps(s, ts, ok, i, p);
    case NewShutdown => NewCallKeeps(s, ts, ok);
    case Shut(c, b) =>
      StopsKept(s, ok, c, b);
      CallsKept(s, ok, c, b);
      TableKept(s, ts, ok, c, b);
      hide CellsOk, StopsOk, CallsOk, RequestsOk, CallNext;
    case _ => RequestKeeps(s, ts, ok, a);
  }

  lemma NewCallKeeps(s: State, ts: seq<TargetConfig>, ok: seq<bool>)
    requires Inv(s, ts, ok)
    ensures Inv(Next(s, NewShutdown).value, ts, ok)
  {
    hide PollerOk, FirstError, StoppedSoFar, LaunchedList, AllPollersGone, RequestOk;
    var s' := Next(s, NewShutdown).value;
    if NotCollected(s, ok) {
      assert NotCollected(s', ok);
    } else {
      var w: nat :| CollectedBy(s, ok, w);
      assert CollectedBy(s', ok, w);
    }
  }

  lemma TableKept(s: State, ts: seq<TargetConfig>, ok: seq<bool>, c: nat, a: CallAction)
    requires CellsOk(s, ts, ok) && RequestsOk(s) && c < |s.calls| && CallNext(s, c, a).Some?
    ensures CellsOk(CallNext(s, c, a).value, ts, ok) && RequestsOk(CallNext(s, c, a).value)
  {
    hide Owned, AllPollersGone;
    var s' := CallNext(s, c, a).value;
    assert forall i :: 0 <= i < |s.cells| ==> s'.cells[i].cfg == s.cells[i].cfg && s'.cells[i].status == s.cells[i].status;
    assert s'.pollers == s.pollers && s'.requests == s.requests && s'.traceEnabled == s.traceEnabled;
    hide CallNext;
  }

  lemma InitOk(ts: seq<TargetConfig>, ok: seq<bool>, traceEnabled: bool)
    requires |ts| == |ok|
    ensures Inv(Init(ts, ok, traceEnabled), ts, ok)
  {
    hide LaunchedList, FirstError;
    assert NotCollected(Init(ts, ok, traceEnabled), ok);
  }

  lemma {:induction false} RunKeeps(s: State, ts: seq<TargetConfig>, ok: seq<bool>, run: seq<Action>)
    requires Inv(s, ts, ok) && Follow(Next, s, run).Some?
    ensures Inv(Follow(Next, s, run).value, ts, ok)
  {
    if run != [] {
      hide Inv, Next;
      RunKeeps(s, ts, ok, run[..|run| - 1]);
      StepKeeps(Follow(Next, s, run[..|run| - 1]).value, ts, ok, run[|run| - 1]);
    }
  }

  // ---- Theorems over every run ----

  /** Shutdown conserves processes: over any number of sequential or concurrent calls no process is
      stopped twice, none before every poller has exited, and none that was not launched; and when
      every call has returned, at least one having been made, each launched process was stopped. */
  lemma ShutdownConserves(ts: seq<TargetConfig>, ok: seq<bool>, traceEnabled: bool, run: seq<Action>)
    requires |ts| == |ok| && Follow(Next, Init(ts, ok, traceEnabled), run).Some?
    ensures var s := Follow(Next, Init(ts, ok, traceEnabled), run).value;
      && StoppedOnce(s, ok)
      && (s.calls != [] && AllReturned(s.calls) ==> forall i :: 0 <= i < |ok| ==> s.stops[i] == if ok[i] then 1 else 0)
      && s.doneCloses <= 1
  {
    InitOk(ts, ok, traceEnabled);
    RunKeeps(Init(ts, ok, traceEnabled), ts, ok, run);
    hide Follow, Init, StopsOk, CellsOk, RequestsOk, CallOk, StoppedOnce;
    StopsAreConserved(Follow(Next, Init(ts, ok, traceEnabled), run).value, ok);
  }

  predicate AllReturned(calls: seq<Call>) {
    forall c :: 0 <= c < |calls| ==> calls[c].Returned?
  }

  ghost predicate StoppedOnce(s: State, ok: seq<bool>) {
    && |s.stops| == |ok|
    && forall i :: 0 <= i < |ok| ==> s.stops[i] <= 1 && (s.stops[i] == 1 ==> ok[i] && AllPollersGone(s.pollers))
  }

  lemma StopsAreConserved(s: State, ok: seq<bool>)
    requires StopsOk(s, ok) && CallsOk(s)
    ensures StoppedOnce(s, ok)
    ensures s.calls != [] && AllReturned(s.calls) ==> forall i :: 0 <= i < |ok| ==> s.stops[i] == if ok[i] then 1 else 0
  {
    hide AllPollersGone, FirstError;
    if NotCollected(s, ok) {
      assert s.calls != [] ==> !Past(s.calls[0]);
    } else {
      var w: nat :| CollectedBy(s, ok, w);
      assert CallOk(s.calls[w], s.done, AllPollersGone(s.pollers), s.errors);
      InPrefix(s.calls[w]);
    }
  }

  lemma InPrefix(call: Call)
    requires Past(call)
    ensures forall t <- StoppedSoFar(call) :: t in call.procs
  {
  }

  /** Each call reports the first error, in configuration order, among the processes it stopped -- all
      of them, even after one failed. */
  lemma ShutdownReports(ts: seq<TargetConfig>, ok: seq<bool>, traceEnabled: bool, run: seq<Action>, c: nat)
    requires |ts| == |ok| && Follow(Next, Init(ts, ok, traceEnabled), run).Some?
    requires var s := Follow(Next, Init(ts, ok, traceEnabled), run).value; c < |s.calls| && s.calls[c].Returned?
    ensures var s := Follow(Next, Init(ts, ok, traceEnabled), run).value;
      var call := s.calls[c];
      && call.firstErr == FirstError(call.procs, s.errors)
      && (forall j, k :: 0 <= j < k < |call.procs| ==> call.procs[j] < call.procs[k])
      && (forall t <- call.procs :: t < |s.stops| && s.stops[t] == 1)
  {
    InitOk(ts, ok, traceEnabled);
    RunKeeps(Init(ts, ok, traceEnabled), ts, ok, run);
    var s := Follow(Next, Init(ts, ok, traceEnabled), run).value;
    hide Follow, Init, CellsOk, RequestsOk, AllPollersGone, FirstError;
    assert CallOk(s.calls[c], s.done, AllPollersGone(s.pollers), s.errors);
    assert Past(s.calls[c]);
    if s.calls[c].procs != [] {
      var w: nat :| CollectedBy(s, ok, w);
      assert c == w;
    }
  }

  /** What `FirstError` picks. */
  lemma {:induction false} FirstErrorIsFirst(procs: seq<nat>, errors: seq<Option<nat>>)
    requires forall k :: 0 <= k < |procs| ==> procs[k] < |errors|
    ensures
      match FirstError(procs, errors)
      case None => forall k :: 0 <= k < |procs| ==> errors[procs[k]] == None
      case Some(e) => exists k :: 0 <= k < |procs| && errors[procs[k]] == Some(e)
                                  && forall j :: 0 <= j < k ==> errors[procs[j]] == None
  {
    if procs != [] {
      var n := |procs| - 1;
      FirstErrorIsFirst(procs[..n], errors);
      assert forall k :: 0 <= k < n ==> procs[..n][k] == procs[k];
    }
  }

  /** Statuses settle: whatever follows, a target that is ready or in error stays so. */
  lemma {:induction false} StatusSettles(s: State, ts: seq<TargetConfig>, ok: seq<bool>, rest: seq<Action>, i: nat)
    requires Inv(s, ts, ok) && Follow(Next, s, rest).Some? && i < |ts|
    ensures |Follow(Next, s, rest).value.cells| == |s.cells| == |ts|
    ensures Follow(Next, s, rest).value.cells[i].cfg == s.cells[i].cfg
    ensures s.cells[i].status != Booting ==> Follow(Next, s, rest).value.cells[i].status == s.cells[i].status
  {
    if rest != [] {
      var shorter := rest[..|rest| - 1];
      RunKeeps(s, ts, ok, shorter);
      StatusSettles(s, ts, ok, shorter, i);
      hide Follow;
      StepSettles(Follow(Next, s, shorter).value, ts, ok, rest[|rest| - 1], i);
    }
  }

  lemma StepSettles(s: State, ts: seq<TargetConfig>, ok: seq<bool>, a: Action, i: nat)
    requires CellsOk(s, ts, ok) && Next(s, a).Some? && i < |ts|
    ensures |Next(s, a).value.cells| == |s.cells|
    ensures Next(s, a).value.cells[i].cfg == s.cells[i].cfg
    ensures s.cells[i].status != Booting ==> Next(s, a).value.cells[i].status == s.cells[i].status
  {
    hide Owned, AllPollersGone;
    if a.Poll? { SettledStays(s.cells[a.i], s.pollers[a.i], ok[a.i], s.done, a.p); }
  }

  /** A failed probe of target `i`, and later a clock reading past its deadline. */
  ghost predicate GaveUp(run: seq<Action>, i: nat) {
    exists j, k :: 0 <= j < k < |run| && run[j] == Poll(i, ProbeAnswers(false)) && run[k] == Poll(i, ReadClock(true))
  }

  /** What has to have happened for target `i`, now with this poller and status. */
  ghost predicate Caused(run: seq<Action>, i: nat, p: Poller, status: Status, launched: bool) {
    && (p == Succeeding || status == Ready ==> Poll(i, ProbeAnswers(true)) in run)
    && (p == Checking ==> Poll(i, ProbeAnswers(false)) in run)
    && (p == Failing || (status == Error && launched) ==> GaveUp(run, i))
  }

  /** No status without its cause: ready only after a probe that answered, and a launched target in error
      only after one that failed with the deadline past when the clock was read. */
  lemma {:induction false} StatusHasCause(ts: seq<TargetConfig>, ok: seq<bool>, traceEnabled: bool, run: seq<Action>,
                                          i: nat)
    requires |ts| == |ok| && i < |ts| && Follow(Next, Init(ts, ok, traceEnabled), run).Some?
    ensures var s := Follow(Next, Init(ts, ok, traceEnabled), run).value;
      && |s.cells| == |s.pollers| == |ts|
      && Caused(run, i, s.pollers[i], s.cells[i].status, ok[i])
  {
    hide Caused, Next, Inv;
    if run == [] {
      NothingYet(ts, ok, traceEnabled, i);
    } else {
      var shorter, a := run[..|run| - 1], run[|run| - 1];
      assert run == shorter + [a];
      InitOk(ts, ok, traceEnabled);
      RunKeeps(Init(ts, ok, traceEnabled), ts, ok, shorter);
      StatusHasCause(ts, ok, traceEnabled, shorter, i);
      hide Follow, Init;
      NextCause(Follow(Next, Init(ts, ok, traceEnabled), shorter).value, ts, ok, shorter, a, i);
    }
  }

  lemma NothingYet(ts: seq<TargetConfig>, ok: seq<bool>, traceEnabled: bool, i: nat)
    requires |ts| == |ok| && i < |ts|
    ensures var s := Init(ts, ok, traceEnabled); Caused([], i, s.pollers[i], s.cells[i].status, ok[i])
  {
  }

  lemma NextCause(s: State, ts: seq<TargetConfig>, ok: seq<bool>, run: seq<Action>, a: Action, i: nat)
    requires Inv(s, ts, ok) && Next(s, a).Some? && i < |ts|
    requires Caused(run, i, s.pollers[i], s.cells[i].status, ok[i])
    ensures var s' := Next(s, a).value;
      && |s'.cells| == |s'.pollers| == |ts|
      && Caused(run + [a], i, s'.pollers[i], s'.cells[i].status, ok[i])
  {
    StepKeeps(s, ts, ok, a);
    CauseStays(run, a, i, s.pollers[i], s.cells[i].status, ok[i]);
    hide Inv, Caused, CallNext, LookUpNext, DecideNext, StatusAfter, PollerNext;
    if a.Poll? && a.i == i {
      assert PollerOk(s.cells[i], s.pollers[i], ok[i]) by { CellOf(s, ts, ok, i); }
      PollerCause(run, i, s.cells[i], s.pollers[i], ok[i], s.done, a.p);
    } else {
      OthersStay(s, a, i);
    }
  }

  lemma CellOf(s: State, ts: seq<TargetConfig>, ok: seq<bool>, i: nat)
    requires Inv(s, ts, ok) && i < |ts|
    ensures |s.cells| == |s.pollers| == |ts| == |ok| && PollerOk(s.cells[i], s.pollers[i], ok[i])
  {
    hide StopsOk, CallsOk, RequestsOk;
  }

  lemma CauseStays(run: seq<Action>, a: Action, i: nat, p: Poller, status: Status, launched: bool)
    requires Caused(run, i, p, status, launched)
    ensures Caused(run + [a], i, p, status, launched)
  {
    if GaveUp(run, i) {
      var j, k :| 0 <= j < k < |run| && run[j] == Poll(i, ProbeAnswers(false)) && run[k] == Poll(i, ReadClock(true));
      assert (run + [a])[j] == run[j] && (run + [a])[k] == run[k];
    }
  }

  lemma PollerCause(run: seq<Action>, i: nat, c: Cell, p: Poller, launched: bool, done: bool, a: PollAction)
    requires PollerOk(c, p, launched) && PollerNext(p, done, a).Some?
    requires Caused(run, i, p, c.status, launched)
    ensures Caused(run + [Poll(i, a)], i, PollerNext(p, done, a).value, StatusAfter(c, p, a).status, launched)
  {
    CauseStays(run, Poll(i, a), i, p, c.status, launched);
    var now := run + [Poll(i, a)];
    assert now[|run|] == Poll(i, a);
    if p == Checking {
      var j :| 0 <= j < |run| && run[j] == Poll(i, ProbeAnswers(false));
      assert now[j] == run[j];
    }
  }

  lemma OthersStay(s: State, a: Action, i: nat)
    requires Next(s, a).Some? && i < |s.cells| && i < |s.pollers| && !(a.Poll? && a.i == i)
    ensures var s' := Next(s, a).value;
      && |s'.cells| == |s.cells| && |s'.pollers| == |s.pollers|
      && s'.pollers[i] == s.pollers[i] && s'.cells[i].status == s.cells[i].status
  {
    hide Owned, AllPollersGone;
  }

  /** Targets keep their configuration order, and a session or stream is only ever opened for the id
      that was asked for, while that target is ready -- and it stays ready. */
  lemma OpenedWhileReady(ts: seq<TargetConfig>, ok: seq<bool>, traceEnabled: bool, run: seq<Action>, r: nat)
    requires |ts| == |ok| && Follow(Next, Init(ts, ok, traceEnabled), run).Some?
    ensures Configs(Follow(Next, Init(ts, ok, traceEnabled), run).value.cells) == ts
    ensures var s := Follow(Next, Init(ts, ok, traceEnabled), run).value;
      r < |s.requests| && s.requests[r].Opened? ==>
        var t := s.requests[r].target;
        t < |ts| && ts[t].id == s.requests[r].id && s.cells[t].status == Ready && (s.requests[r].trace ==> s.traceEnabled)
  {
    InitOk(ts, ok, traceEnabled);
    RunKeeps(Init(ts, ok, traceEnabled), ts, ok, run);
    var s := Follow(Next, Init(ts, ok, traceEnabled), run).value;
    hide Follow, Init, StopsOk, CallsOk;
    if r < |s.requests| { assert RequestOk(s.cells, s.traceEnabled, s.requests[r]); }
  }

  /** An unfinished Shutdown call is never stuck: it can move itself, or some poller it waits for can.  A
      poller in its wait does not even need a tick. */
  lemma ShutdownNeverStuck(ts: seq<TargetConfig>, ok: seq<bool>, traceEnabled: bool, run: seq<Action>, c: nat)
    returns (a: Action)
    requires |ts| == |ok| && Follow(Next, Init(ts, ok, traceEnabled), run).Some?
    requires var s := Follow(Next, Init(ts, ok, traceEnabled), run).value; c < |s.calls| && !s.calls[c].Returned?
    ensures Next(Follow(Next, Init(ts, ok, traceEnabled), run).value, a).Some?
    ensures (a.Shut? && a.c == c) || (a.Poll? && !a.p.Tick?)
  {
    InitOk(ts, ok, traceEnabled);
    RunKeeps(Init(ts, ok, traceEnabled), ts, ok, run);
    var s := Follow(Next, Init(ts, ok, traceEnabled), run).value;
    hide Follow, Init, RequestsOk, FirstError, LaunchedList, Owned, NotCollected, CollectedBy;
    a := NextMove(s, ts, ok, c);
  }

  lemma NextMove(s: State, ts: seq<TargetConfig>, ok: seq<bool>, c: nat) returns (a: Action)
    requires CellsOk(s, ts, ok) && StopsOk(s, ok) && CallsOk(s) && c < |s.calls| && !s.calls[c].Returned?
    ensures Next(s, a).Some? && ((a.Shut? && a.c == c) || (a.Poll? && !a.p.Tick?))
  {
    hide FirstError, LaunchedList, Owned, NotCollected;
    assert CallOk(s.calls[c], s.done, AllPollersGone(s.pollers), s.errors);
    match s.calls[c]
    case Starting => a := Shut(c, CloseDone);
    case Awaiting =>
      if AllPollersGone(s.pollers) { return Shut(c, PollersGone); }
      var i :| 0 <= i < |s.pollers| && s.pollers[i] != Absent && s.pollers[i] != Exited;
      a := Poll(i, PollerMove(s.pollers[i]));
    case Collecting => a := Shut(c, Collect);
    case Stopping(procs, k, _) =>
      a := Shut(c, if k < |procs| then Stop(None) else Return);
      if k < |procs| { StopIsByCollector(s, ok, c); }
  }

  function PollerMove(p: Poller): PollAction {
    match p
    case Probing => ProbeAnswers(true)
    case Checking => ReadClock(false)
    case Waiting => SeeDone
    case Finishing => WgDone
    case _ => SetStatus
  }

  // ---- How long a run can be ----

  function Sum<T>(s: seq<T>, work: T -> nat): nat {
    if s == [] then 0 else Sum(s[..|s| - 1], work) + work(s[|s| - 1])
  }

  lemma {:induction false} SumOfUpdate<T>(s: seq<T>, work: T -> nat, i: nat, x: T)
    requires i < |s|
    ensures Sum(s[i := x], work) + work(s[i]) == Sum(s, work) + work(x)
  {
    var shorter := s[..|s| - 1];
    if i == |s| - 1 {
      assert s[i := x][..i] == shorter;
    } else {
      SumOfUpdate(shorter, work, i, x);
      assert s[i := x][..|s| - 1] == shorter[i := x];
    }
  }

  lemma SumOfAppend<T>(s: seq<T>, work: T -> nat, x: T)
    ensures Sum(s + [x], work) == Sum(s, work) + work(x)
  {
    assert (s + [x])[..|s|] == s;
  }

  lemma {:induction false} SumIsBounded<T>(s: seq<T>, work: T -> nat, bound: nat)
    requires forall x <- s :: work(x) <= bound
    ensures Sum(s, work) <= |s| * bound
  {
    if s != [] { SumIsBounded(s[..|s| - 1], work, bound); }
  }

  function PollerWork(p: Poller): nat {
    match p
    case Absent => 0
    case Probing => 5
    case Checking => 4
    case Succeeding => 3
    case Failing => 3
    case Waiting => 3
    case Finishing => 2
    case Exited => 0
  }

  /** Work of a call among `n` targets. */
  function CallWork(n: nat): Call -> nat {
    (call: Call) =>
      match call
      case Starting => n + 4
      case Awaiting => n + 3
      case Collecting => n + 2
      case Stopping(procs, k, _) => 1 + (if k <= |procs| then |procs| - k else 0)
      case Returned(_, _) => 0
  }

  function RequestWork(r: Request): nat {
    if r.Asked? then 2 else if r.Looked? then 1 else 0
  }

  function Work(s: State): nat {
    Sum(s.pollers, PollerWork) + Sum(s.calls, CallWork(|s.cells|)) + Sum(s.requests, RequestWork)
  }

  predicate IsTick(a: Action, i: nat) { a == Poll(i, Tick) }

  /** Ticks target `i`'s poller has received. */
  function Ticks(run: seq<Action>, i: nat): nat {
    if run == [] then 0 else Ticks(run[..|run| - 1], i) + (if IsTick(run[|run| - 1], i) then 1 else 0)
  }

  /** Ticks of the first `n` pollers together. */
  function AllTicks(run: seq<Action>, n: nat): nat {
    if n == 0 then 0 else AllTicks(run, n - 1) + Ticks(run, n - 1)
  }

  /** Calls made in a run. */
  function Arrivals(run: seq<Action>): nat {
    if run == [] then 0
    else Arrivals(run[..|run| - 1]) + (if run[|run| - 1].NewShutdown? || run[|run| - 1].NewRequest? then 1 else 0)
  }

  /** What one step may add to the work left. */
  function Fuel(a: Action, n: nat): nat {
    match a
    case Poll(_, Tick) => 3
    case NewShutdown => n + 5
    case NewRequest(_, _) => 3
    case _ => 0
  }

  lemma {:induction false} OwnedIsFew(cells: seq<Cell>)
    ensures |Owned(cells)| <= |cells|
  {
    if cells != [] { OwnedIsFew(cells[..|cells| - 1]); }
  }

  lemma CallWorks(s: State, c: nat, a: CallAction)
    requires c < |s.calls| && CallNext(s, c, a).Some?
    ensures var s' := CallNext(s, c, a).value;
      && s'.calls == s.calls[c := s'.calls[c]] && |s'.cells| == |s.cells|
      && s'.pollers == s.pollers && s'.requests == s.requests
      && CallWork(|s.cells|)(s'.calls[c]) < CallWork(|s.cells|)(s.calls[c])
  {
    OwnedIsFew(s.cells);
    hide Owned, AllPollersGone;
  }

  lemma PollWorks(s: State, i: nat, a: PollAction)
    requires Next(s, Poll(i, a)).Some?
    ensures var s' := Next(s, Poll(i, a)).value;
      && s'.pollers == s.pollers[i := s'.pollers[i]] && |s'.cells| == |s.cells|
      && s'.calls == s.calls && s'.requests == s.requests && i < |s.pollers|
      && PollerWork(s'.pollers[i]) + 1 <= PollerWork(s.pollers[i]) + (if a.Tick? then 3 else 0)
  {
    hide StatusAfter;
  }

  lemma StepWorks(s: State, a: Action)
    requires Next(s, a).Some?
    ensures |Next(s, a).value.cells| == |s.cells|
    ensures Work(Next(s, a).value) + 1 <= Work(s) + Fuel(a, |s.cells|)
  {
    hide CallNext, PollerWork, CallWork, Sum, StatusAfter, LookUpNext, DecideNext;
    var s' := Next(s, a).value;
    match a
    case Poll(i, p) =>
      PollWorks(s, i, p);
      SumOfUpdate(s.pollers, PollerWork, i, s'.pollers[i]);
    case NewShutdown =>
      SumOfAppend(s.calls, CallWork(|s.cells|), Starting);
      StartingWork(|s.cells|);
    case Shut(c, b) =>
      CallWorks(s, c, b);
      SumOfUpdate(s.calls, CallWork(|s.cells|), c, s'.calls[c]);
    case NewRequest(id, trace) => SumOfAppend(s.requests, RequestWork, Asked(id, trace));
    case LookUp(r) =>
      LookedNext(s.cells, s.requests[r]);
      SumOfUpdate(s.requests, RequestWork, r, s'.requests[r]);
    case Decide(r) =>
      DecidedNext(s.traceEnabled, s.requests[r]);
      SumOfUpdate(s.requests, RequestWork, r, s'.requests[r]);
  }

  lemma StartingWork(n: nat)
    ensures CallWork(n)(Starting) == n + 4
  {
  }

  lemma LookedNext(cells: seq<Cell>, r: Request)
    requires r.Asked?
    ensures LookUpNext(cells, r).Looked?
  {
  }

  lemma DecidedNext(traceEnabled: bool, r: Request)
    requires r.Looked?
    ensures var d := DecideNext(traceEnabled, r); d.Opened? || d.Refused?
  {
  }

  /** The probes of target `i` take place in these surroundings: a clock reading is past the deadline
      exactly when it is so after as many ticks. */
  ghost predicate Timed(run: seq<Action>, i: nat, w: Surroundings, timeout: int) {
    forall n :: 0 <= n < |run| && run[n].Poll? && run[n].i == i && run[n].p.ReadClock? ==>
      (run[n].p.past <==> w.reading(Ticks(run[..n], i)) > w.start + timeout)
  }

  lemma TimedBefore(run: seq<Action>, i: nat, w: Surroundings, timeout: int)
    requires run != [] && Timed(run, i, w, timeout)
    ensures Timed(run[..|run| - 1], i, w, timeout)
  {
    var shorter := run[..|run| - 1];
    forall n | 0 <= n < |shorter| && shorter[n].Poll? && shorter[n].i == i && shorter[n].p.ReadClock?
      ensures shorter[n].p.past <==> w.reading(Ticks(shorter[..n], i)) > w.start + timeout
    {
      assert shorter[..n] == run[..n] && shorter[n] == run[n];
    }
  }

  /** A poller receives at most `timeout / interval + 1` ticks, one less while it waits for the next. */
  lemma {:induction false} TicksAreBounded(s: State, run: seq<Action>, i: nat, w: Surroundings, interval: int, timeout: int)
    requires Follow(Next, s, run).Some? && i < |s.pollers| && s.pollers[i] != Waiting
    requires interval > 0 && timeout > 0 && Physical(w, interval) && Timed(run, i, w, timeout)
    ensures |Follow(Next, s, run).value.pollers| == |s.pollers|
    ensures var t := Follow(Next, s, run).value;
      Ticks(run, i) <= timeout / interval + (if t.pollers[i] == Waiting then 0 else 1)
  {
    hide Next, Physical;
    if run != [] {
      var shorter, a := run[..|run| - 1], run[|run| - 1];
      TimedBefore(run, i, w, timeout);
      TicksAreBounded(s, shorter, i, w, interval, timeout);
      hide Follow;
      TickStep(Follow(Next, s, shorter).value, a, i);
      var k := Ticks(shorter, i);
      if a == Poll(i, ReadClock(false)) { FailedProbesTakeTime(w, interval, timeout, k); }
    }
  }

  /** A poller waits only after a clock reading within the deadline, and a tick ends the wait. */
  lemma TickStep(s: State, a: Action, i: nat)
    requires Next(s, a).Some? && i < |s.pollers|
    ensures var s' := Next(s, a).value;
      && |s'.pollers| == |s.pollers|
      && (IsTick(a, i) ==> s.pollers[i] == Waiting && s'.pollers[i] != Waiting)
      && (s'.pollers[i] == Waiting ==> s.pollers[i] == Waiting || a == Poll(i, ReadClock(false)))
  {
    hide Owned, AllPollersGone, LookUpNext, DecideNext;
  }

  lemma {:induction false} TicksOfNext(run: seq<Action>, n: nat)
    requires run != []
    ensures
      var a := run[|run| - 1];
      AllTicks(run, n) == AllTicks(run[..|run| - 1], n) + (if a.Poll? && a.i < n && a.p.Tick? then 1 else 0)
  {
    if n > 0 { TicksOfNext(run, n - 1); }
  }

  lemma {:induction false} AllTicksAreBounded(run: seq<Action>, n: nat, bound: nat)
    requires forall i: nat :: i < n ==> Ticks(run, i) <= bound
    ensures AllTicks(run, n) <= n * bound
  {
    if n > 0 { AllTicksAreBounded(run, n - 1, bound); }
  }

  /** What a run may add to the work left. */
  function Allowance(run: seq<Action>, n: nat): nat {
    3 * AllTicks(run, n) + (n + 5) * Arrivals(run)
  }

  /** A run is as long as the work left at its start, the ticks received and the calls made allow. */
  lemma {:induction false} WorkBoundsRuns(s: State, run: seq<Action>)
    requires Follow(Next, s, run).Some? && |s.pollers| == |s.cells|
    ensures var t := Follow(Next, s, run).value;
      |t.cells| == |t.pollers| == |s.cells| && |run| + Work(t) <= Work(s) + Allowance(run, |s.cells|)
  {
    hide Next, Work, Allowance, Fuel;
    if run != [] {
      var shorter, a := run[..|run| - 1], run[|run| - 1];
      WorkBoundsRuns(s, shorter);
      StepWorks(Follow(Next, s, shorter).value, a);
      SameTargets(Follow(Next, s, shorter).value, a);
      AllowanceNext(run, |s.cells|);
    }
  }

  lemma AllowanceNext(run: seq<Action>, n: nat)
    requires run != [] && (run[|run| - 1].Poll? ==> run[|run| - 1].i < n)
    ensures Allowance(run, n) >= Allowance(run[..|run| - 1], n) + Fuel(run[|run| - 1], n)
  {
    TicksOfNext(run, n);
    hide AllTicks;
    var before, now := Arrivals(run[..|run| - 1]), Arrivals(run);
    assert now > before ==> (n + 5) * now == (n + 5) * before + (n + 5);
  }

  lemma SameTargets(s: State, a: Action)
    requires Next(s, a).Some?
    ensures |Next(s, a).value.pollers| == |s.pollers|
    ensures a.Poll? ==> a.i < |s.pollers|
  {
    hide Owned, AllPollersGone, LookUpNext, DecideNext, StatusAfter, PollerNext;
  }

  lemma InitialWork(ts: seq<TargetConfig>, ok: seq<bool>, traceEnabled: bool)
    requires |ts| == |ok|
    ensures var s := Init(ts, ok, traceEnabled);
      && Work(s) <= 5 * |ts| && |s.pollers| == |s.cells| == |ts|
      && forall i :: 0 <= i < |ts| ==> s.pollers[i] != Waiting
  {
    SumIsBounded(Init(ts, ok, traceEnabled).pollers, PollerWork, 5);
  }

  /** Nothing polls for ever: in real time -- with the ticker and clock of each poller as in module Polling
      -- every run after `EnsureStarted` is bounded by the number of targets, the timeout over the interval,
      and the calls made.  So every `Shutdown` comes to an end: it is never stuck, and no run outlasts it
      without new calls. */
  lemma RunsAreBounded(ts: seq<TargetConfig>, ok: seq<bool>, traceEnabled: bool, run: seq<Action>,
                       ws: seq<Surroundings>, interval: int, timeout: int)
    requires |ts| == |ok| == |ws| && interval > 0 && timeout > 0
    requires Follow(Next, Init(ts, ok, traceEnabled), run).Some?
    requires forall i :: 0 <= i < |ts| ==> Physical(ws[i], interval) && Timed(run, i, ws[i], timeout)
    ensures |run| <= 5 * |ts| + 3 * (|ts| * (timeout / interval + 1)) + (|ts| + 5) * Arrivals(run)
  {
    hide Follow, Next, Work, Physical, Timed, AllTicks, Ticks, Arrivals, Init;
    var s := Init(ts, ok, traceEnabled);
    InitialWork(ts, ok, traceEnabled);
    WorkBoundsRuns(s, run);
    forall i: nat | i < |ts| ensures Ticks(run, i) <= timeout / interval + 1 {
      TicksAreBounded(s, run, i, ws[i], interval, timeout);
    }
    AllTicksAreBounded(run, |ts|, timeout / interval + 1);
  }
}
