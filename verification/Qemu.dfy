/** The runtime's table of targets as objects (internal/runtime/qemu.go): an ordered list and an index
    by id that share the same mutable entries.  `Table` is the state the transition system of module
    Fleet works on. */
module Qemu {
  import opened Config
  import opened Options
  import opened Polling
  import opened Fleet

  /** The browser-facing view of a target. */
  datatype Target = Target(id: string, displayLabel: string, status: Status)

  datatype Answer =
    | Unknown
    | TraceDisabled
    | NotReady(status: Status)
    | Dial(cfg: TargetConfig)

  /** Which launches succeed. */
  function Outcomes(n: nat, launch: nat -> Option<nat>): (ok: seq<bool>)
    ensures |ok| == n
  {
    seq(n, i requires 0 <= i < n => launch(i).Some?)
  }

  function Errors(n: nat, stop: nat -> Option<nat>): (errors: seq<Option<nat>>)
    ensures |errors| == n
  {
    seq(n, i requires 0 <= i < n => stop(i))
  }

  lemma LaunchedListNone()
    ensures LaunchedList([]) == []
  {
  }

  lemma LaunchedListNext(ok: seq<bool>, i: nat)
    requires i < |ok|
    ensures LaunchedList(ok[..i + 1]) == LaunchedList(ok[..i]) + (if ok[i] then [i] else [])
  {
    assert ok[..i + 1][..i] == ok[..i];
  }

  lemma IndexNext(ts: seq<TargetConfig>, t: TargetConfig)
    ensures IndexById(ts + [t]) == IndexById(ts)[t.id := |ts|]
    ensures forall id <- IndexById(ts) :: IndexById(ts)[id] < |ts|
  {
    assert (ts + [t])[..|ts|] == ts;
    IndexFindsLast(ts);
  }

  class TargetState {
    const cfg: TargetConfig
    var status: Status
    var proc: Option<nat>

    constructor (cfg: TargetConfig)
      ensures this.cfg == cfg && status == Booting && proc == None
    {
      this.cfg := cfg;
      status, proc := Booting, None;
    }
  }

  class Runtime {
    const traceEnabled: bool
    var states: seq<TargetState>
    var byID: map<string, TargetState>

    ghost function Cfgs(): seq<TargetConfig> reads this {
      seq(|states|, i requires 0 <= i < |states| reads this => states[i].cfg)
    }

    ghost function Table(): (cells: seq<Cell>)
      reads this, states
      ensures |cells| == |states|
    {
      seq(|states|, i requires 0 <= i < |states| reads this, states => Cell(states[i].cfg, states[i].status, states[i].proc.Some?))
    }

    ghost predicate Valid() reads this {
      && (forall i, j :: 0 <= i < j < |states| ==> states[i] != states[j])
      && byID.Keys == IndexById(Cfgs()).Keys
      && (forall id <- byID :: IndexById(Cfgs())[id] < |states| && byID[id] == states[IndexById(Cfgs())[id]])
    }

    ghost predicate AllBooting() reads this, states {
      forall i :: 0 <= i < |states| ==> states[i].status == Booting && states[i].proc == None
    }

    /** NewQEMU. */
    constructor (cfg: Config)
      ensures Valid() && fresh(states) && traceEnabled == cfg.trace.enabled
      ensures Cfgs() == cfg.targets && AllBooting()
    {
      traceEnabled := cfg.trace.enabled;
      states, byID := [], map[];
      new;
      assert Valid() && Cfgs() == cfg.targets[..0];
      hide IndexById, Valid, AllBooting;
      var i := 0;
      while i < |cfg.targets|
        invariant 0 <= i <= |cfg.targets| && Valid() && fresh(states)
        invariant Cfgs() == cfg.targets[..i] && AllBooting()
      {
        Add(cfg.targets[i]);
        assert cfg.targets[..i + 1] == cfg.targets[..i] + [cfg.targets[i]];
        i := i + 1;
      }
      assert cfg.targets[..i] == cfg.targets;
    }

    method Add(tc: TargetConfig)
      requires Valid()
      modifies this`states, this`byID
      ensures Valid() && Cfgs() == old(Cfgs()) + [tc]
      ensures |states| == |old(states)| + 1 && states[..|old(states)|] == old(states)
      ensures fresh(states[|old(states)|]) && (old(AllBooting()) ==> AllBooting())
    {
      hide IndexById;
      ghost var was := Cfgs();
      IndexNext(was, tc);
      var st := new TargetState(tc);
      states := states + [st];
      byID := byID[tc.id := st];
      assert Cfgs() == was + [tc];
    }

    /** Every configured target, in configuration order, with its status. */
    method Targets() returns (out: seq<Target>)
      requires Valid()
      ensures |out| == |states|
      ensures forall i :: 0 <= i < |out| ==>
        out[i] == Target(Cfgs()[i].id, Cfgs()[i].displayLabel, states[i].status)
    {
      out := [];
      for i := 0 to |states|
        invariant |out| == i
        invariant forall k :: 0 <= k < i ==> out[k] == Target(Cfgs()[k].id, Cfgs()[k].displayLabel, states[k].status)
      {
        out := out + [Target(states[i].cfg.id, states[i].cfg.displayLabel, states[i].status)];
      }
    }

    /** Launches every target; one that fails is marked and does not stop the others.  `launch(i)` is the
        process started for target `i`; a poller is started for each of `polled`. */
    method EnsureStarted(launch: nat -> Option<nat>) returns (polled: seq<nat>)
      requires Valid()
      modifies states
      ensures Valid() && Cfgs() == old(Cfgs())
      ensures forall i :: 0 <= i < |states| ==>
        if launch(i).Some? then states[i].proc == launch(i) && states[i].status == old(states[i].status)
        else states[i].status == Error && states[i].proc == old(states[i].proc)
      ensures polled == LaunchedList(Outcomes(|states|, launch))
      ensures old(AllBooting()) ==>
        Table() == Launched(Cfgs(), Outcomes(|states|, launch))
    {
      hide IndexById, LaunchedList;
      LaunchedListNone();
      polled := [];
      var i := 0;
      while i < |states|
        invariant 0 <= i <= |states|
        invariant forall k :: 0 <= k < i ==>
          if launch(k).Some? then states[k].proc == launch(k) && states[k].status == old(states[k].status)
          else states[k].status == Error && states[k].proc == old(states[k].proc)
        invariant forall k :: i <= k < |states| ==>
          states[k].proc == old(states[k].proc) && states[k].status == old(states[k].status)
        invariant polled == LaunchedList(Outcomes(|states|, launch)[..i])
      {
        LaunchedListNext(Outcomes(|states|, launch), i);
        var st := states[i];
        var proc := launch(i);
        if proc.None? {
          st.status := Error;
        } else {
          st.proc := proc;
          polled := polled + [i];
        }
        i := i + 1;
      }
      assert Outcomes(|states|, launch)[..i] == Outcomes(|states|, launch);
    }

    method SetStatus(i: nat, st: TargetState, s: Status)
      requires Valid() && i < |states| && st == states[i]
      modifies st`status
      ensures Valid() && Table() == old(Table())[i := old(Table())[i].(status := s)]
    {
      st.status := s;
    }

    /** The last target of that id. */
    ghost predicate IsTarget(id: string, i: nat) reads this, states {
      i < |states| && states[i].cfg.id == id && forall j :: i < j < |states| ==> states[j].cfg.id != id
    }

    /** What Attach does with an id; the transition system's request opens exactly when this dials. */
    method Attach(id: string) returns (r: Answer)
      requires Valid()
      ensures r == Unknown <==> forall i :: 0 <= i < |states| ==> states[i].cfg.id != id
      ensures forall i: nat :: IsTarget(id, i) ==>
        r == if states[i].status == Ready then Dial(states[i].cfg) else NotReady(states[i].status)
      ensures r.Dial? ==> id in IndexById(Cfgs()) && r.cfg.id == id
      ensures DecideNext(traceEnabled, LookUpNext(Table(), Asked(id, false)))
           == if r.Dial? then Opened(id, false, IndexById(Cfgs())[id]) else Refused(id, false)
    {
      IndexFindsLast(Cfgs());
      hide IndexById;
      assert Configs(Table()) == Cfgs();
      Targeted(id);
      if id !in byID { return Unknown; }
      var st := byID[id];
      var status, cfg := st.status, st.cfg;
      if status != Ready { return NotReady(status); }
      return Dial(cfg);
    }

    /** TraceStream: the same, and only if tracing is enabled. */
    method TraceStream(id: string) returns (r: Answer)
      requires Valid()
      ensures r == Unknown <==> forall i :: 0 <= i < |states| ==> states[i].cfg.id != id
      ensures forall i: nat :: IsTarget(id, i) ==>
        r == if !traceEnabled then TraceDisabled
             else if states[i].status == Ready then Dial(states[i].cfg) else NotReady(states[i].status)
      ensures r.Dial? ==> id in IndexById(Cfgs()) && r.cfg.id == id
      ensures DecideNext(traceEnabled, LookUpNext(Table(), Asked(id, true)))
           == if r.Dial? then Opened(id, true, IndexById(Cfgs())[id]) else Refused(id, true)
    {
      IndexFindsLast(Cfgs());
      hide IndexById;
      assert Configs(Table()) == Cfgs();
      Targeted(id);
      if id !in byID { return Unknown; }
      var st := byID[id];
      var status, cfg := st.status, st.cfg;
      if !traceEnabled { return TraceDisabled; }
      if status != Ready { return NotReady(status); }
      return Dial(cfg);
    }

    /** The index leads to the last target of an id. */
    lemma Targeted(id: string)
      requires Valid()
      ensures id in byID <==> exists i :: 0 <= i < |states| && states[i].cfg.id == id
      ensures forall i: nat :: IsTarget(id, i) ==> id in byID && byID[id] == states[i] && IndexById(Cfgs())[id] == i
    {
      hide IndexById;
      IndexFindsLast(Cfgs());
      forall i: nat | i < |states| ensures Cfgs()[i] == states[i].cfg {
      }
    }

    /** Shutdown, once the pollers have exited: takes every process out of the table, then stops each in
        turn whatever the earlier ones returned.  `stop(i)` is what stopping target `i` returns. */
    method Shutdown(stop: nat -> Option<nat>) returns (stopped: seq<nat>, firstErr: Option<nat>)
      requires Valid()
      modifies states
      ensures Valid() && Table() == Disowned(old(Table()))
      ensures stopped == Owned(old(Table()))
      ensures firstErr == FirstError(stopped, Errors(|states|, stop))
    {
      var procs := Collect();
      stopped, firstErr := StopAll(procs, |states|, stop);
    }

    /** The critical section of Shutdown. */
    method Collect() returns (procs: seq<nat>)
      requires Valid()
      modifies states
      ensures Valid() && Table() == Disowned(old(Table()))
      ensures procs == Owned(old(Table()))
    {
      hide IndexById, Owned, Disowned;
      ghost var before, cfgs := Table(), Cfgs();
      NoneOwned(before);
      procs := [];
      var i := 0;
      while i < |states|
        invariant 0 <= i <= |states|
        invariant procs == Owned(before[..i])
        invariant forall k :: 0 <= k < i ==> states[k].status == before[k].status && states[k].proc == None
        invariant forall k :: i <= k < |states| ==>
          states[k].status == before[k].status && states[k].proc.Some? == before[k].proc
      {
        OwnedNext(before, i);
        var st := states[i];
        if st.proc.Some? {
          procs := procs + [i];
          st.proc := None;
        }
        i := i + 1;
      }
      assert before[..i] == before && Cfgs() == cfgs;
      DisownedTable(before, Table());
    }
  }

  lemma NoneOwned(cells: seq<Cell>)
    ensures Owned(cells[..0]) == []
  {
  }

  lemma DisownedTable(cells: seq<Cell>, after: seq<Cell>)
    requires |cells| == |after|
    requires forall k :: 0 <= k < |cells| ==> after[k] == cells[k].(proc := false)
    ensures after == Disowned(cells)
  {
  }

  lemma OwnedNext(cells: seq<Cell>, i: nat)
    requires i < |cells|
    ensures Owned(cells[..i + 1]) == Owned(cells[..i]) + (if cells[i].proc then [i] else [])
  {
    assert cells[..i + 1][..i] == cells[..i];
  }

  /** Stops each process in turn, whatever the earlier ones returned. */
  method StopAll(procs: seq<nat>, n: nat, stop: nat -> Option<nat>) returns (stopped: seq<nat>, firstErr: Option<nat>)
    requires forall k :: 0 <= k < |procs| ==> procs[k] < n
    ensures stopped == procs
    ensures firstErr == FirstError(procs, Errors(n, stop))
  {
    stopped, firstErr := [], None;
    var i := 0;
    while i < |procs|
      invariant 0 <= i <= |procs| && stopped == procs[..i]
      invariant firstErr == FirstError(procs[..i], Errors(n, stop))
    {
      assert procs[..i + 1][..i] == procs[..i];
      var err := stop(procs[i]);
      stopped := stopped + [procs[i]];
      if err.Some? && firstErr.None? { firstErr := err; }
      i := i + 1;
    }
    assert procs[..i] == procs;
  }
}
