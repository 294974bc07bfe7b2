/** Gateway configuration (internal/runtime/config.go), and the index of targets by id that NewQEMU
    builds from it (internal/runtime/qemu.go). */
module Config {
  import opened Options

  datatype TargetConfig = TargetConfig(id: string, displayLabel: string, host: string, port: int, user: string)

  datatype TraceConfig = TraceConfig(enabled: bool, logPath: string, watcherUser: string)

  datatype Config = Config(runtime: string, targets: seq<TargetConfig>, trace: TraceConfig)

  const DEFAULT_LOG_PATH := "/var/log/bloodhound.ndjson"

  function LogPathOrDefault(t: TraceConfig): (path: string)
    ensures path != ""
  {
    if t.logPath == "" then DEFAULT_LOG_PATH else t.logPath
  }

  // ---- Validation ----

  datatype Fault =
    | RuntimeMissing
    | NoTargets
    | IdMissing(index: nat)
    | DuplicateId(index: nat)
    | EndpointMissing(index: nat)
    | UserMissing(index: nat)
    | WatcherMissing
    | WatcherIsOperator(index: nat)

  ghost predicate UniqueIds(ts: seq<TargetConfig>) {
    forall j, k :: 0 <= j < k < |ts| ==> ts[j].id != ts[k].id
  }

  predicate Complete(t: TargetConfig) {
    t.id != "" && t.host != "" && t.port != 0 && t.user != ""
  }

  /** What the configuration promises the runtime. */
  ghost predicate WellFormed(c: Config) {
    && c.runtime != "" && c.targets != []
    && UniqueIds(c.targets)
    && (forall t <- c.targets :: Complete(t))
    && (c.trace.enabled ==> c.trace.watcherUser != "" && forall t <- c.targets :: t.user != c.trace.watcherUser)
  }

  /** What is wrong with target `k`, given the ones before it. */
  ghost function FaultAt(ts: seq<TargetConfig>, k: nat): Option<Fault>
    requires k < |ts|
  {
    if ts[k].id == "" then Some(IdMissing(k))
    else if exists j :: 0 <= j < k && ts[j].id == ts[k].id then Some(DuplicateId(k))
    else if ts[k].host == "" || ts[k].port == 0 then Some(EndpointMissing(k))
    else if ts[k].user == "" then Some(UserMissing(k))
    else None
  }

  ghost predicate SoundUpTo(ts: seq<TargetConfig>, n: nat)
    requires n <= |ts|
  {
    forall k :: 0 <= k < n ==> FaultAt(ts, k).None?
  }

  /** Accepts exactly the well-formed configurations; otherwise reports the first thing wrong. */
  method Validate(c: Config) returns (fault: Option<Fault>)
    ensures fault.None? <==> WellFormed(c)
    ensures fault == Some(RuntimeMissing) <==> c.runtime == ""
    ensures fault == Some(NoTargets) <==> c.runtime != "" && c.targets == []
    ensures fault.Some? && (fault.value.IdMissing? || fault.value.DuplicateId? || fault.value.EndpointMissing?
                            || fault.value.UserMissing?) ==>
      var k := fault.value.index; k < |c.targets| && SoundUpTo(c.targets, k) && fault == FaultAt(c.targets, k)
    ensures fault.Some? && (fault.value.WatcherMissing? || fault.value.WatcherIsOperator?) ==>
      && c.trace.enabled && SoundUpTo(c.targets, |c.targets|)
      && (fault.value.WatcherMissing? <==> c.trace.watcherUser == "")
    ensures fault.Some? && fault.value.WatcherIsOperator? ==>
      var k := fault.value.index;
      && k < |c.targets| && c.targets[k].user == c.trace.watcherUser
      && forall j :: 0 <= j < k ==> c.targets[j].user != c.trace.watcherUser
  {
    if c.runtime == "" { return Some(RuntimeMissing); }
    if |c.targets| == 0 { return Some(NoTargets); }
    var seen: set<string> := {};
    var i := 0;
    while i < |c.targets|
      invariant 0 <= i <= |c.targets| && SoundUpTo(c.targets, i)
      invariant forall id :: id in seen <==> exists j :: 0 <= j < i && c.targets[j].id == id
    {
      var t := c.targets[i];
      assert t in c.targets;
      SoundIsComplete(c.targets, i);
      if t.id == "" { return Some(IdMissing(i)); }
      if t.id in seen { return Some(DuplicateId(i)); }
      seen := seen + {t.id};
      if t.host == "" || t.port == 0 { return Some(EndpointMissing(i)); }
      if t.user == "" { return Some(UserMissing(i)); }
      i := i + 1;
    }
    SoundIsComplete(c.targets, i);
    if c.trace.enabled {
      if c.trace.watcherUser == "" { return Some(WatcherMissing); }
      i := 0;
      while i < |c.targets|
        invariant 0 <= i <= |c.targets|
        invariant forall j :: 0 <= j < i ==> c.targets[j].user != c.trace.watcherUser
      {
        if c.trace.watcherUser == c.targets[i].user { return Some(WatcherIsOperator(i)); }
        i := i + 1;
      }
    }
    return None;
  }

  /** No fault among the first `n` targets is the same as all of them being complete and distinct. */
  lemma SoundIsComplete(ts: seq<TargetConfig>, n: nat)
    requires n <= |ts|
    ensures SoundUpTo(ts, n) <==>
      (forall k :: 0 <= k < n ==> Complete(ts[k])) && forall j, k :: 0 <= j < k < n ==> ts[j].id != ts[k].id
  {
    if !SoundUpTo(ts, n) {
      var k :| 0 <= k < n && FaultAt(ts, k).Some?;
    } else {
      forall j, k | 0 <= j < k < n ensures ts[j].id != ts[k].id {
        assert FaultAt(ts, k).None?;
      }
      forall k | 0 <= k < n ensures Complete(ts[k]) {
        assert FaultAt(ts, k).None?;
      }
    }
  }

  // ---- The index by id ----

  /** The map NewQEMU fills, target by target. */
  function IndexById(ts: seq<TargetConfig>): map<string, nat> {
    if ts == [] then map[] else IndexById(ts[..|ts| - 1])[ts[|ts| - 1].id := |ts| - 1]
  }

  /** Linear search for the first target of that id. */
  function Find(ts: seq<TargetConfig>, id: string): (r: Option<nat>)
    ensures r.Some? ==> r.value < |ts| && ts[r.value].id == id
    ensures forall k :: 0 <= k < (if r.Some? then r.value else |ts|) ==> ts[k].id != id
  {
    if ts == [] then None
    else
      match Find(ts[..|ts| - 1], id)
      case Some(k) => Some(k)
      case None => if ts[|ts| - 1].id == id then Some(|ts| - 1) else None
  }

  function Lookup(index: map<string, nat>, id: string): Option<nat> {
    if id in index then Some(index[id]) else None
  }

  /** The index holds, for every id, the last target that has it. */
  lemma {:induction false} IndexFindsLast(ts: seq<TargetConfig>)
    ensures forall id <- IndexById(ts) :: IndexById(ts)[id] < |ts| && ts[IndexById(ts)[id]].id == id
    ensures forall k :: 0 <= k < |ts| ==> ts[k].id in IndexById(ts) && k <= IndexById(ts)[ts[k].id]
  {
    if ts != [] { IndexFindsLast(ts[..|ts| - 1]); }
  }

  /** Index and linear search agree on every id exactly when ids are unique. */
  lemma IndexAgreement(ts: seq<TargetConfig>)
    ensures (forall id :: Lookup(IndexById(ts), id) == Find(ts, id)) <==> UniqueIds(ts)
  {
    IndexFindsLast(ts);
    if UniqueIds(ts) {
      forall id ensures Lookup(IndexById(ts), id) == Find(ts, id) {
        var r := Find(ts, id);
        if id in IndexById(ts) { assert ts[IndexById(ts)[id]].id == id; }
      }
    } else {
      var j, k :| 0 <= j < k < |ts| && ts[j].id == ts[k].id;
      var r := Find(ts, ts[j].id);
      assert r.Some? && r.value <= j;
      assert Lookup(IndexById(ts), ts[k].id) != r;
    }
  }

  /** What validation buys the runtime. */
  lemma ValidatedIndexAgrees(c: Config, id: string)
    requires WellFormed(c)
    ensures Lookup(IndexById(c.targets), id) == Find(c.targets, id)
  {
    IndexAgreement(c.targets);
  }
}
