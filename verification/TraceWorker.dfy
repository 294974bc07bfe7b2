/** The browser's trace worker (web/trace-worker.js): durable capture, display feed and counters.

    The worker is checked against the plain list of everything it received: what the capture file and
    the write buffer hold, what has been posted for display, and what the counters show are functions
    of that list. */
module TraceWorker {
  import opened LineFraming
  import opened Options
  import opened Items

  const FLUSH_MS: int := 200
  const FLUSH_BYTES: nat := 64 * 1024
  const FORWARD_MS: int := 33
  const SIZE_CAP: nat := 512 * 1024 * 1024
  const FIRST_BACKOFF_MS: nat := 500
  const MAX_BACKOFF_MS: nat := 10000

  /** One text frame, with its JSON already taken apart; an absent string is empty. */
  datatype Message =
    | Unparsable(raw: Bytes, text: string)
    | Record(raw: Bytes, kind: string, dropped: int, etype: string, delta: Option<int>, dropTotal: Option<int>,
             name: string, comm: string, formatted: string)

  datatype Post =
    | Batch(items: seq<Item>)
    | Status(alive: bool, emitted: int, tracerDrops: int, relayDrops: int)
    | Capture(enabled: bool)
    | Conn(up: bool)
    | Rotated
    | ExportData(bytes: Option<Bytes>)

  // ---- What the list of received messages means ----

  predicate IsMeta(m: Message) { m.Record? && m.kind == "trace_meta" }

  predicate IsHeartbeat(m: Message) { m.Record? && m.kind != "trace_meta" && m.etype == "HEARTBEAT" }

  /** JavaScript's `n | 0`. */
  function ToInt32(n: int): int {
    (n + 0x8000_0000) % 0x1_0000_0000 - 0x8000_0000
  }

  function ItemOf(m: Message): Item {
    match m
    case Unparsable(raw, text) => Item(raw, "?", "", "", text)
    case Record(raw, _, _, etype, _, _, name, comm, formatted) =>
      Item(raw, if etype == "" then "?" else etype, name, comm, formatted)
  }

  function Shown(ms: seq<Message>): seq<Item> {
    if ms == [] then []
    else
      var m := ms[|ms| - 1];
      Shown(ms[..|ms| - 1]) + (if IsMeta(m) || IsHeartbeat(m) then [] else [ItemOf(m)])
  }

  function Emitted(ms: seq<Message>): int {
    if ms == [] then 0
    else
      var m := ms[|ms| - 1];
      Emitted(ms[..|ms| - 1]) + (if IsHeartbeat(m) && m.delta.Some? then m.delta.value else 0)
  }

  function TracerDrops(ms: seq<Message>): int {
    if ms == [] then 0
    else
      var m := ms[|ms| - 1];
      if IsHeartbeat(m) && m.dropTotal.Some? then m.dropTotal.value else TracerDrops(ms[..|ms| - 1])
  }

  /** The last count the gateway reported. */
  function Reported(ms: seq<Message>): int {
    if ms == [] then 0
    else if IsMeta(ms[|ms| - 1]) then ms[|ms| - 1].dropped
    else Reported(ms[..|ms| - 1])
  }

  /** The status row's counters. */
  datatype Counts = Counts(emitted: int, tracerDrops: int, relayDrops: int)

  function CountsOf(ms: seq<Message>): Counts {
    Counts(Emitted(ms), TracerDrops(ms), ToInt32(Reported(ms)))
  }

  function Counted(c: Counts, m: Message): Counts {
    if IsMeta(m) then c.(relayDrops := ToInt32(m.dropped))
    else if IsHeartbeat(m) then
      Counts(c.emitted + (if m.delta.Some? then m.delta.value else 0),
             if m.dropTotal.Some? then m.dropTotal.value else c.tracerDrops,
             c.relayDrops)
    else c
  }

  function Raws(ms: seq<Message>): seq<Bytes> {
    seq(|ms|, k requires 0 <= k < |ms| => ms[k].raw)
  }

  function Posted(posts: seq<Post>): seq<Item> {
    if posts == [] then []
    else
      var p := posts[|posts| - 1];
      Posted(posts[..|posts| - 1]) + (if p.Batch? then p.items else [])
  }

  /** How often the page was told of a rotation. */
  function Rotations(posts: seq<Post>): nat {
    if posts == [] then 0
    else Rotations(posts[..|posts| - 1]) + (if posts[|posts| - 1].Rotated? then 1 else 0)
  }

  function Total(sizes: seq<nat>): nat {
    if sizes == [] then 0 else Total(sizes[..|sizes| - 1]) + sizes[|sizes| - 1]
  }

  /** When `persist` flushes. */
  predicate FlushDue(bytes: nat, sinceLast: int) {
    bytes >= FLUSH_BYTES || sinceLast >= FLUSH_MS
  }

  function Terminate(lines: seq<Bytes>): seq<Bytes> {
    seq(|lines|, k requires 0 <= k < |lines| => lines[k] + [LF])
  }

  /** The delay before reconnecting after `failures` closes in a row. */
  function Backoff(failures: nat): nat {
    if failures == 0 then FIRST_BACKOFF_MS
    else if Backoff(failures - 1) * 2 < MAX_BACKOFF_MS then Backoff(failures - 1) * 2 else MAX_BACKOFF_MS
  }

  /** `handle.write(b, { at })`. */
  function WriteAt(file: Bytes, b: Bytes, at: nat): Bytes
    requires at <= |file|
  {
    file[..at] + b + (if at + |b| < |file| then file[at + |b|..] else [])
  }

  // ---- Lemmas about them ----

  /** The display counter is the gateway's count exactly while that fits in 32 signed bits; otherwise it
      is off by a multiple of 2^32. */
  lemma Int32Exact(n: int)
    ensures ToInt32(n) == n <==> -0x8000_0000 <= n < 0x8000_0000
    ensures -0x8000_0000 <= ToInt32(n) < 0x8000_0000 && (ToInt32(n) - n) % 0x1_0000_0000 == 0
    ensures ToInt32(0x8000_0000) < 0
  {
  }

  /** An item shows the event's own fields; a line that does not parse shows as its text. */
  lemma ItemCarries(m: Message)
    ensures ItemOf(m).raw == m.raw
    ensures m.Record? ==>
      var it := ItemOf(m);
      && it.name == m.name && it.comm == m.comm && it.formatted == m.formatted
      && (it.etype == m.etype || (m.etype == "" && it.etype == "?"))
    ensures m.Unparsable? ==>
      ItemOf(m).formatted == m.text && ItemOf(m).etype == "?" && ItemOf(m).name == "" && ItemOf(m).comm == ""
  {
  }

  /** Reports and heartbeats are not shown. */
  predicate IsSilent(m: Message) { m.Record? && (m.kind == "trace_meta" || m.etype == "HEARTBEAT") }

  /** Every other message is shown, as its item, in the order received, and nothing else is. */
  lemma {:induction false} ShownExactly(ms: seq<Message>, k: nat)
    requires k < |ms|
    ensures Shown(ms[..k]) <= Shown(ms)
    ensures if IsSilent(ms[k]) then Shown(ms[..k + 1]) == Shown(ms[..k])
            else |Shown(ms[..k])| < |Shown(ms)| && Shown(ms)[|Shown(ms[..k])|] == ItemOf(ms[k])
    ensures |Shown(ms[..k + 1])| == |Shown(ms[..k])| + (if IsSilent(ms[k]) then 0 else 1)
  {
    var n := |ms| - 1;
    assert ms[..k + 1] == ms[..k] + [ms[k]];
    ReceiveOne(ms[..k], ms[k]);
    if k < n {
      ShownExactly(ms[..n], k);
      assert ms[..n][..k] == ms[..k] && ms[..n][k] == ms[k];
    } else {
      assert ms[..k + 1] == ms;
    }
  }

  predicate IsReport(m: Message) { m.Record? && m.kind == "trace_meta" }

  predicate HasTotal(m: Message) {
    m.Record? && m.kind != "trace_meta" && m.etype == "HEARTBEAT" && m.dropTotal.Some?
  }

  /** The relay counter is that of the last report, wherever it stands. */
  lemma {:induction false} LastReportCounts(ms: seq<Message>, k: nat)
    requires k < |ms| && forall j :: k < j < |ms| ==> !IsReport(ms[j])
    ensures IsReport(ms[k]) ==> Reported(ms) == ms[k].dropped
    ensures !IsReport(ms[k]) ==> Reported(ms) == Reported(ms[..k])
  {
    var n := |ms| - 1;
    if k < n {
      LastReportCounts(ms[..n], k);
      assert ms[..n][..k] == ms[..k] && ms[..n][k] == ms[k];
    }
  }

  /** The tracer's counter is that of the last heartbeat that carries one. */
  lemma {:induction false} LastTotalCounts(ms: seq<Message>, k: nat)
    requires k < |ms| && forall j :: k < j < |ms| ==> !HasTotal(ms[j])
    ensures HasTotal(ms[k]) ==> TracerDrops(ms) == ms[k].dropTotal.value
    ensures !HasTotal(ms[k]) ==> TracerDrops(ms) == TracerDrops(ms[..k])
  {
    var n := |ms| - 1;
    if k < n {
      LastTotalCounts(ms[..n], k);
      assert ms[..n][..k] == ms[..k] && ms[..n][k] == ms[k];
    }
  }

  /** The emitted counter adds up over any split ... */
  lemma {:induction false} EmittedAdds(a: seq<Message>, b: seq<Message>)
    ensures Emitted(a + b) == Emitted(a) + Emitted(b)
  {
    if b == [] {
      assert a + b == a;
    } else {
      assert (a + b)[..|a + b| - 1] == a + b[..|b| - 1];
      EmittedAdds(a, b[..|b| - 1]);
    }
  }

  /** ... and each heartbeat counts its own delta. */
  lemma EmittedOfOne(m: Message)
    ensures var counts := m.Record? && m.kind != "trace_meta" && m.etype == "HEARTBEAT" && m.delta.Some?;
      Emitted([m]) == if counts then m.delta.value else 0
  {
    assert [m][..0] == [];
  }

  lemma {:induction false} FlattenOfAppend(a: seq<Bytes>, b: Bytes)
    ensures Flatten(a + [b]) == Flatten(a) + b
  {
    if a == [] {
      assert [] + [b] == [b] && Flatten([b]) == b + Flatten([]);
    } else {
      FlattenOfAppend(a[1..], b);
      assert (a + [b])[1..] == a[1..] + [b];
    }
  }

  lemma {:induction false} FlattenOfTerminate(lines: seq<Bytes>)
    ensures Flatten(Terminate(lines)) == JoinLines(lines)
  {
    if lines != [] {
      FlattenOfTerminate(lines[1..]);
      assert Terminate(lines)[1..] == Terminate(lines[1..]);
    }
  }

  lemma {:induction false} JoinOfConcat(a: seq<Bytes>, b: seq<Bytes>)
    ensures JoinLines(a + b) == JoinLines(a) + JoinLines(b)
  {
    if a == [] {
      assert a + b == b;
    } else {
      JoinOfConcat(a[1..], b);
      var s := a + b;
      assert s[0] == a[0] && s[1..] == a[1..] + b;
      AppendAssociates(a[0] + [LF], JoinLines(a[1..]), JoinLines(b));
    }
  }

  /** The capture file followed by the write buffer is the log from `base` on, line by line. */
  ghost predicate HoldsLog(log: seq<Bytes>, base: nat, pending: seq<Bytes>, file: Bytes) {
    && base + |pending| <= |log|
    && pending == Terminate(log[|log| - |pending|..])
    && file == JoinLines(log[base..|log| - |pending|])
  }

  /** Everything the capture has lost was in files given up, whose sizes these are. */
  ghost predicate LossOk(log: seq<Bytes>, base: nat, sizes: seq<nat>) {
    base <= |log| && |JoinLines(log[..base])| == Total(sizes)
  }

  lemma NoLoss(sizes: seq<nat>)
    ensures LossOk([], 0, sizes[|sizes|..])
  {
  }

  lemma LossStays(log: seq<Bytes>, base: nat, sizes: seq<nat>, line: Bytes)
    requires LossOk(log, base, sizes)
    ensures LossOk(log + [line], base, sizes)
  {
    assert (log + [line])[..base] == log[..base];
  }

  lemma LossGrows(log: seq<Bytes>, base: nat, pending: seq<Bytes>, file: Bytes, sizes: seq<nat>, from: nat)
    requires HoldsLog(log, base, pending, file) && from <= |sizes| && LossOk(log, base, sizes[from..])
    ensures |pending| <= |log| && LossOk(log, |log| - |pending|, (sizes + [|file|])[from..])
  {
    var now := |log| - |pending|;
    JoinOfConcat(log[..base], log[base..now]);
    assert log[..base] + log[base..now] == log[..now];
    hide JoinLines;
    var given := sizes[from..];
    assert (sizes + [|file|])[from..] == given + [|file|];
    assert (given + [|file|])[..|given|] == given;
  }

  /** No file was given up before it and the fullest buffer together passed the ceiling. */
  ghost predicate WereDue(peak: nat, discarded: seq<nat>) {
    forall k :: 0 <= k < |discarded| ==> discarded[k] + peak > SIZE_CAP
  }

  /** Every message obeys the gateway's cap. */
  ghost predicate AllFit(ms: seq<Message>) {
    forall k :: 0 <= k < |ms| ==> Fits(ms[k].raw)
  }

  lemma AllFitNext(ms: seq<Message>, m: Message)
    ensures AllFit(ms + [m]) <==> AllFit(ms) && Fits(m.raw)
  {
    assert (ms + [m])[|ms|] == m;
    assert forall k :: 0 <= k < |ms| ==> (ms + [m])[k] == ms[k];
  }

  /** The bounds the worker keeps as long as the gateway keeps its cap: on the write buffer, on the
      file, and on what a rotation throws away. */
  ghost predicate WithinBounds(peak: nat, size: nat, discarded: seq<nat>) {
    && peak <= FLUSH_BYTES + MAX_TRACE_LINE_BYTES
    && size <= SIZE_CAP
    && forall k :: 0 <= k < |discarded| ==> discarded[k] + FLUSH_BYTES + MAX_TRACE_LINE_BYTES > SIZE_CAP
  }

  lemma RotationWithinBounds(peak: nat, size: nat, discarded: seq<nat>, pendingBytes: nat)
    requires WithinBounds(peak, size, discarded) && pendingBytes <= peak && size + pendingBytes > SIZE_CAP
    ensures WithinBounds(peak, 0, discarded + [size])
  {
  }

  lemma HoldsLogIsConcat(log: seq<Bytes>, base: nat, pending: seq<Bytes>, file: Bytes)
    requires HoldsLog(log, base, pending, file)
    ensures base <= |log| && file + Flatten(pending) == JoinLines(log[base..])
  {
    var n := |pending|;
    FlattenOfTerminate(log[|log| - n..]);
    JoinOfConcat(log[base..|log| - n], log[|log| - n..]);
    assert log[base..|log| - n] + log[|log| - n..] == log[base..];
  }

  lemma HoldsLogFlushed(log: seq<Bytes>, base: nat, pending: seq<Bytes>, file: Bytes)
    requires HoldsLog(log, base, pending, file)
    ensures base <= |log| && Flatten([]) == []
    ensures HoldsLog(log, base, [], file + Flatten(pending))
    ensures file + Flatten(pending) == JoinLines(log[base..])
  {
    HoldsLogIsConcat(log, base, pending, file);
    assert log[base..|log|] == log[base..];
  }

  lemma AppendNothing(file: Bytes)
    ensures file + Flatten([]) == file
  {
  }

  lemma HoldsLogRotated(log: seq<Bytes>, base: nat, pending: seq<Bytes>, file: Bytes)
    requires HoldsLog(log, base, pending, file)
    ensures |pending| <= |log|
    ensures HoldsLog(log, |log| - |pending|, pending, [])
  {
    var n := |log| - |pending|;
    assert log[n..n] == [];
  }

  lemma HoldsLogAppended(log: seq<Bytes>, base: nat, pending: seq<Bytes>, file: Bytes, line: Bytes)
    requires HoldsLog(log, base, pending, file)
    ensures HoldsLog(log + [line], base, pending + [line + [LF]], file)
  {
    var log' := log + [line];
    assert log'[|log'| - (|pending| + 1)..] == log[|log| - |pending|..] + [line];
    assert log'[base..|log'| - (|pending| + 1)] == log[base..|log| - |pending|];
  }

  lemma ReceiveOne(ms: seq<Message>, m: Message)
    ensures Shown(ms + [m]) == Shown(ms) + (if IsMeta(m) || IsHeartbeat(m) then [] else [ItemOf(m)])
    ensures Emitted(ms + [m]) == Emitted(ms) + (if IsHeartbeat(m) && m.delta.Some? then m.delta.value else 0)
    ensures TracerDrops(ms + [m]) == (if IsHeartbeat(m) && m.dropTotal.Some? then m.dropTotal.value else TracerDrops(ms))
    ensures Reported(ms + [m]) == (if IsMeta(m) then m.dropped else Reported(ms))
    ensures Raws(ms + [m]) == Raws(ms) + [m.raw]
  {
    assert (ms + [m])[..|ms|] == ms;
  }

  lemma PostOne(posts: seq<Post>, p: Post)
    ensures Rotations(posts + [p]) == Rotations(posts) + (if p.Rotated? then 1 else 0)
    ensures Posted(posts + [p]) == Posted(posts) + (if p.Batch? then p.items else [])
  {
    assert (posts + [p])[..|posts|] == posts;
  }

  function Power2(n: nat): nat { if n == 0 then 1 else 2 * Power2(n - 1) }

  /** Closed form of the reconnect delay. */
  lemma {:induction false} BackoffDoubles(failures: nat)
    ensures Backoff(failures) == if FIRST_BACKOFF_MS * Power2(failures) < MAX_BACKOFF_MS
                                 then FIRST_BACKOFF_MS * Power2(failures) else MAX_BACKOFF_MS
  {
    if failures > 0 { BackoffDoubles(failures - 1); }
  }

  lemma DueRotated(peak: nat, discarded: seq<nat>, size: nat, pendingBytes: nat)
    requires WereDue(peak, discarded) && pendingBytes <= peak && size + pendingBytes > SIZE_CAP
    ensures WereDue(peak, discarded + [size])
  {
  }

  lemma DueStays(peak: nat, higher: nat, discarded: seq<nat>)
    requires WereDue(peak, discarded) && peak <= higher
    ensures WereDue(higher, discarded)
  {
  }

  lemma ShownNext(ms: seq<Message>, m: Message)
    ensures Shown(ms + [m]) == Shown(ms) + (if IsMeta(m) || IsHeartbeat(m) then [] else [ItemOf(m)])
  {
    ReceiveOne(ms, m);
  }

  /** One more message since the open: what the counters and the capture's log become. */
  lemma SinceOpenNext(ms: seq<Message>, n: nat, m: Message)
    requires n <= |ms|
    ensures CountsOf((ms + [m])[n..]) == Counted(CountsOf(ms[n..]), m)
    ensures Raws((ms + [m])[n..]) == Raws(ms[n..]) + [m.raw]
  {
    assert (ms + [m])[n..] == ms[n..] + [m];
    ReceiveOne(ms[n..], m);
  }

  lemma AppendNone<T>(s: seq<T>)
    ensures s + [] == s
  {
  }

  lemma NothingReceived(ms: seq<Message>)
    ensures ms[|ms|..] == [] && Raws([]) == [] && CountsOf([]) == Counts(0, 0, 0)
    ensures HoldsLog([], 0, [], []) && Flatten([]) == []
  {
  }

  lemma SmallerFile(peak: nat, size: nat, discarded: seq<nat>)
    ensures WithinBounds(peak, size, discarded) ==> WithinBounds(peak, 0, discarded)
  {
  }

  // ---- The worker ----

  class Worker {
    var hasHandle: bool
    var file: Bytes          // what the handle holds
    var writeOffset: nat
    var pending: seq<Bytes>
    var pendingBytes: nat
    var lastFlush: int

    var displayBatch: seq<Item>
    var lastForward: int

    var alive: bool
    var emitted: int
    var tracerDrops: int
    var relayDrops: int

    var closedByMain: bool
    var backoff: nat

    var posts: seq<Post>

    ghost var received: seq<Message>  // every frame since the worker started
    ghost var openedAt: nat           // how many of them came before the last open
    ghost var log: seq<Bytes>         // lines given to the capture since it was opened
    ghost var base: nat               // how many of them rotation has discarded
    ghost var peak: nat               // the most `pendingBytes` has ever been
    ghost var discarded: seq<nat>     // sizes of the files rotated away
    ghost var rotatedBefore: nat      // how many of them before the capture was opened
    ghost var failures: nat           // closes since the last successful open

    constructor ()
      ensures Valid()
      ensures received == [] && posts == [] && discarded == []
    {
      hasHandle, file, writeOffset, pending, pendingBytes, lastFlush := false, [], 0, [], 0, 0;
      displayBatch, lastForward := [], 0;
      alive, emitted, tracerDrops, relayDrops := false, 0, 0, 0;
      closedByMain, backoff, posts := false, FIRST_BACKOFF_MS, [];
      received, openedAt, log, base, peak, discarded, rotatedBefore, failures := [], 0, [], 0, 0, [], 0, 0;
      new;
      NothingReceived([]);
      NoLoss([]);
      hide JoinLines, WithinBounds, AllFit;
    }

    // ---- Invariants ----

    ghost predicate Capped() reads this`received {
      AllFit(received)
    }

    /** The file, then the write buffer, hold the log from `base` on; what came before was in files given
        up. */
    ghost predicate CaptureOk()
      reads this`log, this`hasHandle, this`base, this`pending, this`pendingBytes, this`file, this`writeOffset,
            this`discarded, this`rotatedBefore
    {
      && pendingBytes == |Flatten(pending)|
      && writeOffset == |file|
      && (if hasHandle then HoldsLog(log, base, pending, file) else pending == [])
      && rotatedBefore <= |discarded| && LossOk(log, base, discarded[rotatedBefore..])
    }

    ghost predicate SizesOk()
      reads this`received, this`peak, this`file, this`discarded, this`pendingBytes
    {
      && pendingBytes <= peak && WereDue(peak, discarded)
      && (Capped() ==> WithinBounds(peak, |file|, discarded))
    }

    ghost predicate DisplayOk() reads this`posts, this`displayBatch, this`received {
      Fed() == Shown(received)
    }

    ghost function Row(): Counts reads this`emitted, this`tracerDrops, this`relayDrops {
      Counts(emitted, tracerDrops, relayDrops)
    }

    ghost predicate CountersOk()
      reads this`received, this`openedAt, this`hasHandle, this`log, this`emitted, this`tracerDrops, this`relayDrops
    {
      && openedAt <= |received|
      && Row() == CountsOf(received[openedAt..])
      && (hasHandle ==> log == Raws(received[openedAt..]))
    }

    ghost predicate Valid() reads this {
      && CaptureOk() && SizesOk() && DisplayOk() && CountersOk()
      && Untold() == 0
      && pendingBytes < FLUSH_BYTES
      && backoff == Backoff(failures)
    }

    /** What the display has been or is about to be given. */
    ghost function Fed(): seq<Item> reads this`posts, this`displayBatch {
      Posted(posts) + displayBatch
    }

    /** Rotations the page has not been told of. */
    ghost function Untold(): int reads this`posts, this`discarded {
      |discarded| - Rotations(posts)
    }

    /** `post`, for everything that is neither a display batch nor a rotation. */
    method PostMessage(p: Post)
      requires !p.Batch? && !p.Rotated?
      modifies this`posts
      ensures posts == old(posts) + [p] && Fed() == old(Fed()) && Untold() == old(Untold())
    {
      PostOne(posts, p);
      posts := posts + [p];
    }

    method PostStatus()
      modifies this`posts
      ensures posts == old(posts) + [Status(alive, emitted, tracerDrops, relayDrops)]
      ensures Fed() == old(Fed()) && Untold() == old(Untold())
    {
      PostMessage(Status(alive, emitted, tracerDrops, relayDrops));
    }

    // ---- Durable capture ----

    /** What a flush loses: nothing, unless it is `due` to rotate; then all but the last `lines` lines. */
    ghost predicate Loses(due: bool, discarded0: seq<nat>, base0: nat, size: nat, lines: nat)
      reads this`discarded, this`base, this`log
    {
      if due then lines <= |log| && base == |log| - lines && discarded == discarded0 + [size]
      else base == base0 && discarded == discarded0
    }

    /** The ceiling would be passed by writing what is buffered. */
    predicate AboutToRotate() reads this`hasHandle, this`pending, this`writeOffset, this`pendingBytes {
      hasHandle && pending != [] && writeOffset + pendingBytes > SIZE_CAP
    }

    /** Drops everything in the file: the capture now starts with the first line still buffered. */
    method Rotate()
      requires CaptureOk() && SizesOk() && hasHandle && writeOffset + pendingBytes > SIZE_CAP
      modifies this`file, this`writeOffset, this`posts, this`base, this`discarded
      ensures CaptureOk() && SizesOk()
      ensures file == [] && Loses(true, old(discarded), old(base), |old(file)|, |pending|)
      ensures posts == old(posts) + [Rotated]
      ensures Fed() == old(Fed()) && Untold() == old(Untold())
    {
      hide JoinLines, Flatten, HoldsLog, Capped, WithinBounds, Posted, Rotations, LossOk, WereDue;
      ghost var size := |file|;
      HoldsLogRotated(log, base, pending, file);
      LossGrows(log, base, pending, file, discarded, rotatedBefore);
      DueRotated(peak, discarded, size, pendingBytes);
      if Capped() { RotationWithinBounds(peak, size, discarded, pendingBytes); }
      file, writeOffset := [], 0;
      discarded, base := discarded + [size], |log| - |pending|;
      PostOne(posts, Rotated);
      posts := posts + [Rotated];
    }

    method WritePending()
      requires writeOffset == |file|
      modifies this`file, this`writeOffset
      ensures file == old(file) + Flatten(pending) && writeOffset == |file|
    {
      var k := 0;
      while k < |pending|
        invariant k <= |pending|
        invariant file == old(file) + Flatten(pending[..k]) && writeOffset == |file|
      {
        var b := pending[k];
        FlattenOfAppend(pending[..k], b);
        AppendAssociates(old(file), Flatten(pending[..k]), b);
        assert pending[..k + 1] == pending[..k] + [b];
        file := WriteAt(file, b, writeOffset);
        writeOffset := writeOffset + |b|;
        k := k + 1;
      }
      assert pending[..k] == pending;
    }

    /** Appends the write buffer to the file. */
    method WriteOut(now: int)
      requires CaptureOk() && SizesOk() && hasHandle
      requires Capped() ==> |file| + pendingBytes <= SIZE_CAP
      modifies this`file, this`writeOffset, this`pending, this`pendingBytes, this`lastFlush
      ensures CaptureOk() && SizesOk() && lastFlush == now
      ensures pending == [] && pendingBytes == 0 && base <= |log| && file == JoinLines(log[base..])
    {
      hide JoinLines, Flatten, HoldsLog, Capped, WereDue;
      HoldsLogFlushed(log, base, pending, file);
      WritePending();
      pending := [];
      pendingBytes := 0;
      lastFlush := now;
    }

    /** Moves the write buffer to the file, first emptying the file if both together would exceed the
        ceiling. */
    method Flush(now: int)
      requires CaptureOk() && SizesOk()
      modifies this`file, this`writeOffset, this`pending, this`pendingBytes, this`lastFlush, this`posts,
               this`base, this`discarded
      ensures CaptureOk() && SizesOk()
      ensures pending == [] && pendingBytes == 0
      ensures if hasHandle then base <= |log| && file == JoinLines(log[base..]) else file == old(file)
      ensures lastFlush == if hasHandle && old(pending) != [] then now else old(lastFlush)
      ensures Loses(old(AboutToRotate()), old(discarded), old(base), |old(file)|, |old(pending)|)
      ensures posts == old(posts) + (if old(AboutToRotate()) then [Rotated] else [])
      ensures Fed() == old(Fed()) && Untold() == old(Untold())
    {
      assert Flatten([]) == [];
      hide JoinLines, Flatten, Capped, HoldsLog, Posted, Rotations, LossOk, WereDue;
      LossInLog();
      if !hasHandle || |pending| == 0 {
        if hasHandle { HoldsLogIsConcat(log, base, pending, file); AppendNothing(file); }
        return;
      }
      if writeOffset + pendingBytes > SIZE_CAP { Rotate(); }
      WriteOut(now);
    }

    lemma LossInLog()
      requires CaptureOk()
      ensures base <= |log|
    {
      hide JoinLines, Flatten, HoldsLog;
    }

    /** Whether `persist` of a line, `sinceLast` after the last flush, is due to rotate. */
    predicate RotatesOn(text: Bytes, sinceLast: int) reads this`hasHandle, this`writeOffset, this`pendingBytes {
      var bytes := pendingBytes + |text| + 1;
      hasHandle && FlushDue(bytes, sinceLast) && writeOffset + bytes > SIZE_CAP
    }

    /** Buffers one line, and flushes when there is enough or it has been long enough.  Right before
        that flush the buffer is at its fullest. */
    method Persist(text: Bytes, now: int, later: int)
      requires CaptureOk() && SizesOk() && pendingBytes < FLUSH_BYTES
      requires Capped() ==> Fits(text)
      modifies this`file, this`writeOffset, this`pending, this`pendingBytes, this`lastFlush, this`posts,
               this`base, this`discarded, this`log, this`peak
      ensures CaptureOk() && SizesOk() && pendingBytes < FLUSH_BYTES
      ensures log == (if hasHandle then old(log) + [text] else old(log))
      ensures hasHandle ==>
        if FlushDue(old(pendingBytes) + |text| + 1, now - old(lastFlush)) then
          pending == [] && base <= |log| && file == JoinLines(log[base..]) && lastFlush == later
        else
          pending == old(pending) + [text + [LF]] && file == old(file) && lastFlush == old(lastFlush)
      ensures Loses(old(RotatesOn(text, now - lastFlush)), old(discarded), old(base), |old(file)|, |old(pending)| + 1)
      ensures posts == old(posts) + (if old(RotatesOn(text, now - lastFlush)) then [Rotated] else [])
      ensures Fed() == old(Fed()) && Untold() == old(Untold())
    {
      hide JoinLines, Flatten, Capped, HoldsLog, Posted, Rotations, LossOk, WereDue;
      LossInLog();
      if !hasHandle { return; }
      var bytes := text + [LF];
      HoldsLogAppended(log, base, pending, file, text);
      LossStays(log, base, discarded[rotatedBefore..], text);
      FlattenOfAppend(pending, bytes);
      pending := pending + [bytes];
      pendingBytes := pendingBytes + |bytes|;
      log := log + [text];
      DueStays(peak, if pendingBytes > peak then pendingBytes else peak, discarded);
      peak := if pendingBytes > peak then pendingBytes else peak;
      if pendingBytes >= FLUSH_BYTES || now - lastFlush >= FLUSH_MS { Flush(later); }
    }

    // ---- Display feed ----

    method ForwardBatch(now: int)
      modifies this`posts, this`displayBatch, this`lastForward
      ensures Fed() == old(Fed()) && Untold() == old(Untold()) && displayBatch == []
      ensures posts == old(posts) + (if old(displayBatch) == [] then [] else [Batch(old(displayBatch))])
      ensures lastForward == if old(displayBatch) == [] then old(lastForward) else now
    {
      if |displayBatch| == 0 { return; }
      PostOne(posts, Batch(displayBatch));
      posts := posts + [Batch(displayBatch)];
      displayBatch := [];
      lastForward := now;
    }

    /** The item waits in the batch until it has been long enough since the last one was posted. */
    method QueueDisplay(item: Item, now: int, later: int)
      modifies this`posts, this`displayBatch, this`lastForward
      ensures Fed() == old(Fed()) + [item] && Untold() == old(Untold())
      ensures
        if now - old(lastForward) >= FORWARD_MS then
          displayBatch == [] && posts == old(posts) + [Batch(old(displayBatch) + [item])] && lastForward == later
        else
          displayBatch == old(displayBatch) + [item] && posts == old(posts) && lastForward == old(lastForward)
    {
      AppendAssociates(Posted(posts), displayBatch, [item]);
      displayBatch := displayBatch + [item];
      if now - lastForward >= FORWARD_MS { ForwardBatch(later); }
    }

    // ---- Events ----

    /** The branches of `handleLine` after the capture. */
    method Dispatch(m: Message, now: int, later: int)
      modifies this`posts, this`displayBatch, this`lastForward, this`alive, this`emitted, this`tracerDrops,
               this`relayDrops
      ensures Fed() == old(Fed()) + (if IsMeta(m) || IsHeartbeat(m) then [] else [ItemOf(m)])
      ensures Untold() == old(Untold())
      ensures Row() == Counted(old(Row()), m)
      ensures alive == (IsHeartbeat(m) || old(alive))
      ensures IsMeta(m) || IsHeartbeat(m) ==> posts == old(posts) + [Status(alive, emitted, tracerDrops, relayDrops)]
    {
      hide Posted, Rotations;
      if m.Unparsable? {
        QueueDisplay(Item(m.raw, "?", "", "", m.text), now, later);
        return;
      }
      if m.kind == "trace_meta" {
        relayDrops := ToInt32(m.dropped);
        PostStatus();
        return;
      }
      if m.etype == "HEARTBEAT" {
        alive := true;
        if m.delta.Some? { emitted := emitted + m.delta.value; }
        if m.dropTotal.Some? { tracerDrops := m.dropTotal.value; }
        PostStatus();
        return;
      }
      QueueDisplay(Item(m.raw, if m.etype == "" then "?" else m.etype, m.name, m.comm, m.formatted), now, later);
    }

    /** A text frame: captured first, whatever it is; then counted or shown. */
    method HandleLine(m: Message, t0: int, t1: int, t2: int, t3: int)
      requires Valid()
      modifies this`received, this`file, this`writeOffset, this`pending, this`pendingBytes, this`lastFlush,
               this`posts, this`base, this`discarded, this`log, this`peak, this`displayBatch, this`lastForward,
               this`alive, this`emitted, this`tracerDrops, this`relayDrops
      ensures Valid()
      ensures received == old(received) + [m]
      ensures alive == (IsHeartbeat(m) || old(alive))
      ensures IsMeta(m) || IsHeartbeat(m) ==>
        posts != [] && posts[|posts| - 1] == Status(alive, emitted, tracerDrops, relayDrops)
      ensures log == (if hasHandle then old(log) + [m.raw] else old(log))
      ensures Loses(old(RotatesOn(m.raw, t0 - lastFlush)), old(discarded), old(base), |old(file)|, |old(pending)| + 1)
    {
      hide CountsOf, Counted, Raws, Shown, CaptureOk, SizesOk, Backoff, ItemOf, Fed, Untold, Row, IsMeta, IsHeartbeat,
           Emitted, TracerDrops, Reported, Loses, RotatesOn, Capped, FlushDue, JoinLines;
      ShownNext(received, m);
      SinceOpenNext(received, openedAt, m);
      Receive(m, t0, t1);
      Dispatch(m, t2, t3);
    }

    /** The frame joins the list of frames received, and the capture. */
    method Receive(m: Message, now: int, later: int)
      requires CaptureOk() && SizesOk() && pendingBytes < FLUSH_BYTES
      modifies this`received, this`file, this`writeOffset, this`pending, this`pendingBytes, this`lastFlush,
               this`posts, this`base, this`discarded, this`log, this`peak
      ensures CaptureOk() && SizesOk() && pendingBytes < FLUSH_BYTES
      ensures received == old(received) + [m] && Fed() == old(Fed()) && Untold() == old(Untold())
      ensures log == (if hasHandle then old(log) + [m.raw] else old(log))
      ensures Loses(old(RotatesOn(m.raw, now - lastFlush)), old(discarded), old(base), |old(file)|, |old(pending)| + 1)
    {
      hide CaptureOk, WithinBounds, AllFit, Fed, Untold, Fits, Loses, RotatesOn, FlushDue, JoinLines, WereDue;
      AllFitNext(received, m);
      received := received + [m];
      Persist(m.raw, now, later);
    }

    /** The timer that empties both buffers when the stream goes quiet. */
    method Tick(t0: int, t1: int)
      requires Valid()
      modifies this`posts, this`displayBatch, this`lastForward, this`file, this`writeOffset, this`pending,
               this`pendingBytes, this`lastFlush, this`base, this`discarded
      ensures Valid() && displayBatch == [] && pending == []
      ensures Posted(posts) == Shown(received)
      ensures if hasHandle then base <= |log| && file == JoinLines(log[base..]) else file == old(file)
      ensures Loses(old(AboutToRotate()), old(discarded), old(base), |old(file)|, |old(pending)|)
      ensures posts == old(posts) + (if old(displayBatch) == [] then [] else [Batch(old(displayBatch))])
                                  + (if old(AboutToRotate()) then [Rotated] else [])
    {
      hide Shown, CaptureOk, SizesOk, CountersOk, Backoff, Untold, JoinLines, Posted;
      LossInLog();
      ForwardBatch(t0);
      AppendNone(Posted(posts));
      Flush(t1);
      LossInLog();
      AppendNone(Posted(posts));
    }

    /** Export posts exactly the lines the capture stands for. */
    method Export(now: int)
      requires Valid()
      modifies this`posts, this`file, this`writeOffset, this`pending, this`pendingBytes, this`lastFlush, this`base,
               this`discarded
      ensures Valid()
      ensures posts == old(posts) + (if old(AboutToRotate()) then [Rotated] else [])
                                  + [ExportData(if hasHandle then Some(file) else None)]
      ensures if hasHandle then log == Raws(received[openedAt..]) && base <= |log| && file == JoinLines(log[base..]) else file == old(file)
      ensures Loses(old(AboutToRotate()), old(discarded), old(base), |old(file)|, |old(pending)|)
    {
      hide Fed, Untold, Shown, SizesOk, CaptureOk, CountsOf, Raws, Backoff, JoinLines;
      LossInLog();
      if !hasHandle {
        PostMessage(ExportData(None));
        AppendNone(old(posts));
        NothingHeld();
        return;
      }
      Flush(now);
      LossInLog();
      PostMessage(ExportData(Some(file)));
    }

    lemma NothingHeld()
      requires CaptureOk() && !hasHandle
      ensures pending == []
    {
      hide JoinLines, Flatten, HoldsLog, LossOk;
    }

    /** Flushes, then gives the handle up; the file keeps what the capture stands for. */
    method CloseStream(now: int)
      requires Valid()
      modifies this`closedByMain, this`hasHandle, this`posts, this`file, this`writeOffset, this`pending,
               this`pendingBytes, this`lastFlush, this`base, this`discarded
      ensures Valid() && closedByMain && !hasHandle && pending == []
      ensures if old(hasHandle) then base <= |log| && file == JoinLines(log[base..]) else file == old(file)
      ensures Loses(old(AboutToRotate()), old(discarded), old(base), |old(file)|, |old(pending)|)
      ensures posts == old(posts) + (if old(AboutToRotate()) then [Rotated] else [])
    {
      hide Fed, Untold, Shown, WithinBounds, JoinLines, HoldsLog, CountsOf, Raws, Backoff, Flatten, SizesOk, LossOk;
      LossInLog();
      closedByMain := true;
      Flush(now);
      LossInLog();
      hasHandle := false;
    }

    /** A new subscription starts from zero.  This is `openStream` up to the point where it waits for the
        file; until `OpenHandle` goes on, anything may happen that brings in no frames. */
    method OpenStream(now: int)
      requires Valid()
      modifies this`closedByMain, this`hasHandle, this`posts, this`file, this`writeOffset, this`pending,
               this`pendingBytes, this`lastFlush, this`base, this`discarded, this`alive, this`emitted,
               this`tracerDrops, this`relayDrops, this`openedAt
      ensures Valid() && openedAt == |received|
      ensures !hasHandle && !closedByMain && !alive && Row() == Counts(0, 0, 0)
      ensures if old(hasHandle) then base <= |log| && file == JoinLines(log[base..]) else file == old(file)
      ensures Loses(old(AboutToRotate()), old(discarded), old(base), |old(file)|, |old(pending)|)
      ensures posts == old(posts) + (if old(AboutToRotate()) then [Rotated] else []) + [Status(false, 0, 0, 0)]
    {
      hide Row, Fed, Untold, Shown, CaptureOk, SizesOk, CountsOf, Raws, Backoff, JoinLines;
      NothingReceived(received);
      LossInLog();
      CloseStream(now);
      LossInLog();
      closedByMain := false;
      ResetStatus();
    }

    method ResetStatus()
      modifies this`alive, this`emitted, this`tracerDrops, this`relayDrops, this`openedAt, this`posts
      ensures Row() == Counts(0, 0, 0) && !alive && openedAt == |received|
      ensures posts == old(posts) + [Status(false, 0, 0, 0)] && Fed() == old(Fed()) && Untold() == old(Untold())
    {
      hide Fed, Untold;
      alive := false;
      emitted, tracerDrops, relayDrops := 0, 0, 0;
      openedAt := |received|;
      PostStatus();
    }

    /** A fresh, empty file, or no capture at all. */
    method OpenHandle(granted: bool)
      requires Valid() && !hasHandle && openedAt == |received|
      modifies this`hasHandle, this`file, this`writeOffset, this`log, this`base, this`rotatedBefore, this`posts
      ensures Valid() && hasHandle == granted && log == [] && base == 0
      ensures granted ==> file == []
      ensures posts == old(posts) + [Capture(granted)]
    {
      hide CaptureOk, SizesOk, CountersOk, Untold, Fed, Shown, Backoff;
      NothingHeld();
      PostMessage(Capture(granted));
      SetUp(granted);
    }

    method SetUp(granted: bool)
      requires CaptureOk() && SizesOk() && CountersOk() && !hasHandle && pending == [] && openedAt == |received|
      modifies this`hasHandle, this`file, this`writeOffset, this`log, this`base, this`rotatedBefore
      ensures CaptureOk() && SizesOk() && CountersOk() && hasHandle == granted && log == [] && base == 0
      ensures granted ==> file == []
    {
      hide Row, HoldsLog, WithinBounds, AllFit, JoinLines, Flatten, CountsOf, Raws, LossOk, WereDue;
      NothingReceived(received);
      NoLoss(discarded);
      SmallerFile(peak, |file|, discarded);
      log, base, rotatedBefore := [], 0, |discarded|;
      if granted {
        hasHandle, file, writeOffset := true, [], 0;
      }
    }

    // ---- Connection ----

    method OnOpen()
      requires Valid()
      modifies this`backoff, this`failures, this`posts
      ensures Valid() && failures == 0 && posts == old(posts) + [Conn(true)]
    {
      hide Fed, Untold, Shown, SizesOk, CaptureOk, CountersOk;
      backoff, failures := FIRST_BACKOFF_MS, 0;
      PostMessage(Conn(true));
    }

    /** The socket closed; unless the page asked for it, try again after a delay that doubles with
        every failure in a row. */
    method OnClose() returns (reconnectAfter: Option<nat>)
      requires Valid()
      modifies this`alive, this`backoff, this`failures, this`posts
      ensures Valid() && !alive
      ensures posts == old(posts) + [Conn(false), Status(false, emitted, tracerDrops, relayDrops)]
      ensures reconnectAfter == if closedByMain then None else Some(Backoff(old(failures)))
      ensures failures == old(failures) + (if closedByMain then 0 else 1)
    {
      hide Fed, Untold, Shown, SizesOk, CaptureOk, CountersOk;
      PostMessage(Conn(false));
      alive := false;
      PostStatus();
      if closedByMain { return None; }
      reconnectAfter := Some(backoff);
      backoff := if backoff * 2 < MAX_BACKOFF_MS then backoff * 2 else MAX_BACKOFF_MS;
      failures := failures + 1;
    }
  }
}
