/** The trace bridge of the gateway (internal/gw/tracebridge.go) as a transition system.

    Three goroutines -- the stream reader that fills the queue, the queue's writer, and the pump that
    watches for the browser's close -- share a bounded channel, an atomic counter and a `sync.Once`.
    Every operation one of them can be interrupted after is a step of its own.  Lines carry the
    position they had among the non-empty lines of the stream. */
module TraceBridge {
  import opened LineFraming
  import opened Options
  import opened Runs
  import opened Shutdown

  const TRACE_QUEUE_SIZE: nat := 1024

  // ---- State ----

  datatype Line = Line(no: nat, bytes: Bytes)

  /** What the counter stood for when the writer loaded it: the lines counted, and any line already
      shed whose `dropped.Add(1)` was still to come -- an evicted one, or an over-long one. */
  datatype Load = Load(counted: seq<nat>, pending: seq<nat>, evicting: bool)

  datatype Frame = Meta(dropped: nat) | Event(line: Line, load: Load)

  /** `err` is what `ReadBytes` returned along with the line in hand. */
  datatype Producer =
    | Reading
    | Trying(line: Line, err: bool, pass: nat)
    | Evicting(line: Line, err: bool, pass: nat)
    | Counting(line: Line, err: bool, pass: nat)
    | Skipping(err: bool)
    | ClosingQueue
    | ProducerLeaving
    | ProducerGone

  datatype Writer =
    | Receiving
    | Loading(line: Line)
    | Announcing(line: Line, load: Load)
    | Forwarding(line: Line, load: Load)
    | WriterLeaving(lost: seq<Line>)
    | WriterGone(lost: seq<Line>)

  datatype Watcher = Watching | WatcherLeaving | WatcherGone

  datatype Goroutine = TheProducer | TheWriter | TheWatcher

  /** The stream is closed first, then the WebSocket. */
  datatype Closing = Closing(once: Once<Goroutine>, streamOpen: bool, socketOpen: bool, streamCloses: nat, socketCloses: nat)

  datatype State = State(
    inbox: Bytes,           // bytes received and not yet framed
    consumed: Bytes,        // bytes framed
    history: seq<Bytes>,    // non-empty lines read, over-long ones included
    queue: seq<Line>,
    queueClosed: bool,
    dropped: nat,           // the atomic counter
    shed: seq<nat>,         // lines really dropped, in order
    lastReported: nat,
    sent: seq<Frame>,       // frames written
    producer: Producer,
    writer: Writer,
    watcher: Watcher,
    closing: Closing)

  function Init(): State {
    State([], [], [], [], false, 0, [], 0, [], Reading, Receiving, Watching,
          Closing(Fresh, true, true, 0, 0))
  }

  // ---- Steps ----

  datatype ProducerAction =
    | ReadLine
    | ReadError              // end of stream, failure, or the stream was closed
    | Send
    | QueueFull
    | Evict
    | NothingToEvict
    | Count
    | CloseQueue

  datatype WriterAction =
    | Receive
    | QueueEnded
    | LoadDropped
    | WriteMeta(ok: bool)
    | WriteLine(ok: bool)

  datatype ShutdownAction =
    | Begin(who: Goroutine)
    | CloseStream
    | CloseSocket
    | Leave(who: Goroutine)

  datatype Action =
    | Deliver(bytes: Bytes)       // the guest's output arrives
    | Produce(p: ProducerAction)
    | Write(w: WriterAction)
    | BrowserMessage
    | BrowserError                // the browser closed, or the WebSocket was closed
    | Close(d: ShutdownAction)

  function AfterLine(err: bool): Producer {
    if err then ClosingQueue else Reading
  }

  /** Trim the line and decide: nothing left, over-long, or to be queued. */
  function Accept(s: State, line: Bytes, err: bool): State {
    var t := TrimRight(line);
    var s' := s.(consumed := s.consumed + line);
    if t == [] then s'.(producer := AfterLine(err))
    else if |t| > MAX_TRACE_LINE_BYTES then
      s'.(history := s.history + [t], shed := s.shed + [|s.history|], producer := Skipping(err))
    else
      s'.(history := s.history + [t], producer := Trying(Line(|s.history|, t), err, 1))
  }

  predicate IsLeaving(s: State, g: Goroutine) {
    match g
    case TheProducer => s.producer.ProducerLeaving?
    case TheWriter => s.writer.WriterLeaving?
    case TheWatcher => s.watcher.WatcherLeaving?
  }

  function Depart(s: State, g: Goroutine): State
    requires IsLeaving(s, g)
  {
    match g
    case TheProducer => s.(producer := ProducerGone)
    case TheWriter => s.(writer := WriterGone(s.writer.lost))
    case TheWatcher => s.(watcher := WatcherGone)
  }

  function Seen(shed: seq<nat>, dropped: nat, evicting: bool): Load {
    var n := if dropped <= |shed| then dropped else |shed|;
    Load(shed[..n], shed[n..], evicting)
  }

  function ProducerNext(s: State, a: ProducerAction): Option<State> {
    match a
    case ReadLine =>
      if s.producer.Reading? && HasLine(s.inbox) then
        var k := LineLength(s.inbox);
        Some(Accept(s.(inbox := s.inbox[k..]), s.inbox[..k], false))
      else None
    case ReadError =>
      if s.producer.Reading? && !HasLine(s.inbox) then Some(Accept(s.(inbox := []), s.inbox, true)) else None
    case Send =>
      if s.producer.Trying? && |s.queue| < TRACE_QUEUE_SIZE then
        Some(s.(queue := s.queue + [s.producer.line], producer := AfterLine(s.producer.err)))
      else None
    case QueueFull =>
      if s.producer.Trying? && |s.queue| >= TRACE_QUEUE_SIZE then
        Some(s.(producer := Evicting(s.producer.line, s.producer.err, s.producer.pass)))
      else None
    case Evict =>
      if s.producer.Evicting? && s.queue != [] then
        Some(s.(queue := s.queue[1..], shed := s.shed + [s.queue[0].no],
                producer := Counting(s.producer.line, s.producer.err, s.producer.pass)))
      else None
    case NothingToEvict =>
      if s.producer.Evicting? && s.queue == [] then
        Some(s.(producer := Trying(s.producer.line, s.producer.err, s.producer.pass + 1)))
      else None
    case Count =>
      if s.producer.Counting? then
        Some(s.(dropped := s.dropped + 1,
                producer := Trying(s.producer.line, s.producer.err, s.producer.pass + 1)))
      else if s.producer.Skipping? then
        Some(s.(dropped := s.dropped + 1, producer := AfterLine(s.producer.err)))
      else None
    case CloseQueue =>
      if s.producer.ClosingQueue? then Some(s.(queueClosed := true, producer := ProducerLeaving)) else None
  }

  function WriterNext(s: State, a: WriterAction): Option<State> {
    match a
    case Receive =>
      if s.writer.Receiving? && s.queue != [] then
        Some(s.(queue := s.queue[1..], writer := Loading(s.queue[0])))
      else None
    case QueueEnded =>
      if s.writer.Receiving? && s.queue == [] && s.queueClosed then Some(s.(writer := WriterLeaving([]))) else None
    case LoadDropped =>
      if !s.writer.Loading? then None
      else
        var load := Seen(s.shed, s.dropped, s.producer.Counting?);
        if s.dropped != s.lastReported then
          Some(s.(lastReported := s.dropped, writer := Announcing(s.writer.line, load)))
        else
          Some(s.(writer := Forwarding(s.writer.line, load)))
    case WriteMeta(ok) =>
      if !s.writer.Announcing? || (ok && !s.closing.socketOpen) then None
      else if ok then
        Some(s.(sent := s.sent + [Meta(s.lastReported)], writer := Forwarding(s.writer.line, s.writer.load)))
      else Some(s.(writer := WriterLeaving([s.writer.line])))
    case WriteLine(ok) =>
      if !s.writer.Forwarding? || (ok && !s.closing.socketOpen) then None
      else if ok then
        Some(s.(sent := s.sent + [Event(s.writer.line, s.writer.load)], writer := Receiving))
      else Some(s.(writer := WriterLeaving([s.writer.line])))
  }

  function ShutdownNext(s: State, a: ShutdownAction): Option<State> {
    match a
    case Begin(g) =>
      if IsLeaving(s, g) && s.closing.once.Fresh? then Some(s.(closing := s.closing.(once := ClosingFirst(g)))) else None
    case CloseStream =>
      if s.closing.once.ClosingFirst? then
        Some(s.(closing := s.closing.(streamOpen := false, streamCloses := s.closing.streamCloses + 1,
                                      once := ClosingSecond(s.closing.once.owner))))
      else None
    case CloseSocket =>
      if s.closing.once.ClosingSecond? then
        Some(s.(closing := s.closing.(socketOpen := false, socketCloses := s.closing.socketCloses + 1,
                                      once := Completed)))
      else None
    case Leave(g) =>
      if IsLeaving(s, g) && s.closing.once.Completed? then Some(Depart(s, g)) else None
  }

  /** The state after one action, if the action can happen. */
  function Next(s: State, a: Action): Option<State> {
    match a
    case Deliver(bytes) => if s.closing.streamOpen then Some(s.(inbox := s.inbox + bytes)) else None
    case Produce(p) => ProducerNext(s, p)
    case Write(w) => WriterNext(s, w)
    case BrowserMessage => if s.watcher.Watching? && s.closing.socketOpen then Some(s) else None
    case BrowserError => if s.watcher.Watching? then Some(s.(watcher := WatcherLeaving)) else None
    case Close(d) => ShutdownNext(s, d)
  }

  // ---- Where every line is ----

  function Events(frames: seq<Frame>): seq<Line> {
    if frames == [] then []
    else
      var f := frames[|frames| - 1];
      Events(frames[..|frames| - 1]) + (if f.Event? then [f.line] else [])
  }

  function LastMeta(frames: seq<Frame>): nat {
    if frames == [] then 0
    else
      var f := frames[|frames| - 1];
      if f.Meta? then f.dropped else LastMeta(frames[..|frames| - 1])
  }

  function HeldByWriter(w: Writer): seq<Line> {
    match w
    case Receiving => []
    case Loading(line) => [line]
    case Announcing(line, _) => [line]
    case Forwarding(line, _) => [line]
    case WriterLeaving(lost) => lost
    case WriterGone(lost) => lost
  }

  function HeldByProducer(p: Producer): seq<Line> {
    if p.Trying? || p.Evicting? || p.Counting? then [p.line] else []
  }

  /** Lines shed whose count is still to come: at most one. */
  function Uncounted(p: Producer): (n: nat)
    ensures n <= 1
  {
    if p.Counting? || p.Skipping? then 1 else 0
  }

  /** Every line read that was not shed, in the order of its travel. */
  function Pipeline(s: State): seq<Line> {
    Events(s.sent) + HeldByWriter(s.writer) + s.queue + HeldByProducer(s.producer)
  }

  function CountBelow(ns: seq<nat>, bound: nat): (c: nat)
    ensures c <= |ns|
  {
    if ns == [] then 0
    else CountBelow(ns[..|ns| - 1], bound) + (if ns[|ns| - 1] < bound then 1 else 0)
  }

  ghost predicate Distinct<T>(s: seq<T>) {
    forall j, k :: 0 <= j < k < |s| ==> s[j] != s[k]
  }

  // ---- Invariants ----

  /** The lines on their way and the lines shed share out the lines read; each line on its way is
      preceded by exactly the earlier ones that were not shed. */
  ghost predicate SharedOut(p: seq<Line>, shed: seq<nat>, history: seq<Bytes>) {
    && |p| + |shed| == |history|
    && (forall k :: 0 <= k < |p| ==>
          p[k].no < |history| && p[k].bytes == history[p[k].no] && Fits(p[k].bytes))
    && (forall k :: 0 <= k < |p| ==> p[k].no == k + CountBelow(shed, p[k].no))
    && (forall j, k :: 0 <= j < k < |p| ==> p[j].no < p[k].no)
    && (forall k :: 0 <= k < |p| ==> p[k].no !in shed)
    && (forall k :: 0 <= k < |shed| ==> shed[k] < |history|)
    && Distinct(shed)
  }

  predicate Ended(p: Producer) {
    match p
    case Reading => false
    case Trying(_, err, _) => err
    case Evicting(_, err, _) => err
    case Counting(_, err, _) => err
    case Skipping(err) => err
    case ClosingQueue => true
    case ProducerLeaving => true
    case ProducerGone => true
  }

  ghost predicate FramingOk(s: State) {
    && s.history == Records(s.consumed)
    && (!Ended(s.producer) ==> Terminated(s.consumed))
  }

  ghost predicate QueueOk(s: State) {
    && |s.queue| <= TRACE_QUEUE_SIZE
    && (s.producer.Trying? ==> s.producer.pass in {1, 2} && (s.producer.pass == 2 ==> |s.queue| < TRACE_QUEUE_SIZE))
    && (s.producer.Evicting? ==> s.producer.pass == 1)
    && (s.producer.Counting? ==> s.producer.pass == 1 && |s.queue| < TRACE_QUEUE_SIZE)
    && (s.queueClosed <==> s.producer.ProducerLeaving? || s.producer.ProducerGone?)
  }

  ghost predicate PipelineOk(s: State) {
    && SharedOut(Pipeline(s), s.shed, s.history)
    && |s.shed| == s.dropped + Uncounted(s.producer)
    && (s.producer.Skipping? ==> s.shed != [] && s.shed[|s.shed| - 1] == |s.history| - 1)
  }

  /** The earlier lines of `line` are the events before it and the shed lines that the load saw; one that
      is still to be counted is among them only if it was evicted. */
  ghost predicate Accounted(before: seq<Frame>, line: Line, load: Load, shed: seq<nat>) {
    && load.counted + load.pending <= shed
    && |load.pending| <= 1
    && (!load.evicting ==> CountBelow(load.pending, line.no) == 0)
    && line.no == |Events(before)| + CountBelow(load.counted, line.no) + CountBelow(load.pending, line.no)
  }

  ghost predicate FrameOk(before: seq<Frame>, f: Frame, shed: seq<nat>) {
    match f
    case Meta(n) => LastMeta(before) < n <= |shed|
    case Event(line, load) => LastMeta(before) == |load.counted| && Accounted(before, line, load, shed)
  }

  ghost predicate SentOk(sent: seq<Frame>, shed: seq<nat>) {
    forall k :: 0 <= k < |sent| ==> FrameOk(sent[..k], sent[k], shed)
  }

  ghost predicate WriterOk(s: State) {
    && s.lastReported <= s.dropped
    && match s.writer
       case Receiving => LastMeta(s.sent) == s.lastReported
       case Loading(_) => LastMeta(s.sent) == s.lastReported
       case Announcing(line, load) =>
         LastMeta(s.sent) < s.lastReported == |load.counted| && Accounted(s.sent, line, load, s.shed)
       case Forwarding(line, load) =>
         LastMeta(s.sent) == s.lastReported == |load.counted| && Accounted(s.sent, line, load, s.shed)
       case WriterLeaving(lost) => LastMeta(s.sent) <= s.lastReported && |lost| <= 1
       case WriterGone(lost) => LastMeta(s.sent) <= s.lastReported && |lost| <= 1
  }

  ghost predicate TeardownOk(s: State) {
    && (s.closing.streamOpen <==> s.closing.once.Fresh? || s.closing.once.ClosingFirst?)
    && (s.closing.socketOpen <==> !s.closing.once.Completed?)
    && s.closing.streamCloses == (if s.closing.streamOpen then 0 else 1)
    && s.closing.socketCloses == (if s.closing.socketOpen then 0 else 1)
    && (s.closing.once.ClosingFirst? || s.closing.once.ClosingSecond? ==> IsLeaving(s, s.closing.once.owner))
    && (s.producer.ProducerGone? || s.writer.WriterGone? || s.watcher.WatcherGone? ==> s.closing.once.Completed?)
  }

  ghost predicate Inv(s: State) {
    FramingOk(s) && QueueOk(s) && PipelineOk(s) && SentOk(s.sent, s.shed) && WriterOk(s) && TeardownOk(s)
  }

  // ---- Counting ----

  lemma CountBelowOfAppend(ns: seq<nat>, n: nat, bound: nat)
    ensures CountBelow(ns + [n], bound) == CountBelow(ns, bound) + (if n < bound then 1 else 0)
  {
    assert (ns + [n])[..|ns|] == ns;
  }

  lemma {:induction false} CountBelowOfConcat(a: seq<nat>, b: seq<nat>, bound: nat)
    ensures CountBelow(a + b, bound) == CountBelow(a, bound) + CountBelow(b, bound)
  {
    if b == [] {
      assert a + b == a;
    } else {
      var last := b[|b| - 1];
      assert a + b == (a + b[..|b| - 1]) + [last];
      CountBelowOfAppend(a + b[..|b| - 1], last, bound);
      CountBelowOfConcat(a, b[..|b| - 1], bound);
    }
  }

  lemma {:induction false} CountBelowAll(ns: seq<nat>, bound: nat)
    requires forall k :: 0 <= k < |ns| ==> ns[k] < bound
    ensures CountBelow(ns, bound) == |ns|
  {
    if ns != [] { CountBelowAll(ns[..|ns| - 1], bound); }
  }

  lemma EventsOfAppend(frames: seq<Frame>, f: Frame)
    ensures Events(frames + [f]) == Events(frames) + (if f.Event? then [f.line] else [])
    ensures LastMeta(frames + [f]) == (if f.Meta? then f.dropped else LastMeta(frames))
  {
    assert (frames + [f])[..|frames|] == frames;
  }

  // ---- What a step does to the lines in transit ----

  /** A line short enough is read. */
  lemma SharedOutRead(p: seq<Line>, shed: seq<nat>, history: seq<Bytes>, t: Bytes)
    requires SharedOut(p, shed, history) && Fits(t)
    ensures SharedOut(p + [Line(|history|, t)], shed, history + [t])
  {
    CountBelowAll(shed, |history|);
  }

  /** An over-long line is read. */
  lemma SharedOutSkip(p: seq<Line>, shed: seq<nat>, history: seq<Bytes>, t: Bytes)
    requires SharedOut(p, shed, history)
    ensures SharedOut(p, shed + [|history|], history + [t])
  {
    forall k | 0 <= k < |p|
      ensures CountBelow(shed + [|history|], p[k].no) == CountBelow(shed, p[k].no)
    {
      CountBelowOfAppend(shed, |history|, p[k].no);
    }
  }

  /** A line on its way is evicted: those behind it move up one place and have one more shed before
      them. */
  lemma SharedOutEvict(p: seq<Line>, shed: seq<nat>, history: seq<Bytes>, i: nat)
    requires SharedOut(p, shed, history) && i < |p|
    ensures SharedOut(p[..i] + p[i + 1..], shed + [p[i].no], history)
  {
    var p', shed' := p[..i] + p[i + 1..], shed + [p[i].no];
    forall k | 0 <= k < |p'|
      ensures p'[k] == p[if k < i then k else k + 1] && p'[k].no == k + CountBelow(shed', p'[k].no)
    {
      CountBelowOfAppend(shed, p[i].no, p'[k].no);
    }
    hide CountBelow;
  }

  // ---- What every step keeps ----

  lemma FirstLine(inbox: Bytes)
    requires HasLine(inbox)
    ensures IsLine(inbox[..LineLength(inbox)])
    ensures forall c: Bytes :: Terminated(c + inbox[..LineLength(inbox)])
  {
  }

  lemma AcceptFrames(s: State, line: Bytes, err: bool)
    ensures var s' := Accept(s, line, err);
      && s'.history == s.history + Keep(line)
      && s'.consumed == s.consumed + line
      && Ended(s'.producer) == err
  {
  }

  lemma FramingKept(s: State, a: ProducerAction)
    requires FramingOk(s) && ProducerNext(s, a).Some?
    ensures FramingOk(ProducerNext(s, a).value)
  {
    hide Records, HasLine, IsLine, Terminated, Keep, Accept;
    match a
    case ReadLine =>
      var k := LineLength(s.inbox);
      FirstLine(s.inbox);
      RecordsOfNext(s.consumed, s.inbox[..k]);
      AcceptFrames(s.(inbox := s.inbox[k..]), s.inbox[..k], false);
    case ReadError =>
      RecordsOfNext(s.consumed, s.inbox);
      AcceptFrames(s.(inbox := []), s.inbox, true);
    case _ =>
  }

  lemma AcceptKeepsPipeline(s: State, inbox: Bytes, line: Bytes, err: bool)
    requires PipelineOk(s) && s.producer.Reading?
    ensures PipelineOk(Accept(s.(inbox := inbox), line, err))
  {
    hide SharedOut;
    var t, s' := TrimRight(line), Accept(s.(inbox := inbox), line, err);
    if |t| > MAX_TRACE_LINE_BYTES {
      SharedOutSkip(Pipeline(s), s.shed, s.history, t);
    } else if t != [] {
      SharedOutRead(Pipeline(s), s.shed, s.history, t);
      assert Pipeline(s') == Pipeline(s) + [Line(|s.history|, t)];
    }
  }

  lemma Remove<T>(done: seq<T>, q: seq<T>, rest: seq<T>)
    requires q != []
    ensures var p := done + q + rest;
      p[|done|] == q[0] && done + q[1..] + rest == p[..|done|] + p[|done| + 1..]
  {
  }

  lemma PipelineKeptByProducer(s: State, a: ProducerAction)
    requires PipelineOk(s) && ProducerNext(s, a).Some?
    ensures PipelineOk(ProducerNext(s, a).value)
  {
    hide SharedOut, HasLine, Accept;
    var s' := ProducerNext(s, a).value;
    match a
    case ReadLine =>
      AcceptKeepsPipeline(s, s.inbox[LineLength(s.inbox)..], s.inbox[..LineLength(s.inbox)], false);
    case ReadError => AcceptKeepsPipeline(s, [], s.inbox, true);
    case Send => assert Pipeline(s') == Pipeline(s);
    case Evict =>
      var i := |Events(s.sent) + HeldByWriter(s.writer)|;
      Remove(Events(s.sent) + HeldByWriter(s.writer), s.queue, HeldByProducer(s.producer));
      SharedOutEvict(Pipeline(s), s.shed, s.history, i);
    case _ =>
  }

  lemma HandOver<T>(done: seq<T>, q: seq<T>, rest: seq<T>)
    requires q != []
    ensures done + [] + q + rest == done + [q[0]] + q[1..] + rest
  {
  }

  lemma PipelineKeptByWriter(s: State, a: WriterAction)
    requires PipelineOk(s) && WriterNext(s, a).Some?
    ensures PipelineOk(WriterNext(s, a).value)
  {
    WriterOnlyHandsOver(s, a);
    WriterTouches(s, a);
    hide WriterNext, SharedOut, Pipeline;
  }

  lemma WriterOnlyHandsOver(s: State, a: WriterAction)
    requires WriterNext(s, a).Some?
    ensures Pipeline(WriterNext(s, a).value) == Pipeline(s)
  {
    hide Events, Seen;
    match a
    case Receive => HandOver(Events(s.sent), s.queue, HeldByProducer(s.producer));
    case WriteMeta(ok) =>
      EventsOfAppend(s.sent, Meta(s.lastReported));
      assert Events(s.sent) + [] == Events(s.sent);
    case WriteLine(ok) =>
      EventsOfAppend(s.sent, Event(s.writer.line, s.writer.load));
      assert Events(s.sent) + [s.writer.line] + [] == Events(s.sent) + [s.writer.line];
    case _ =>
  }

  /** What the writer relies on survives the producer: lines are only ever added to `shed`. */
  lemma SentKeptByShedding(s: State, shed: seq<nat>)
    requires SentOk(s.sent, s.shed) && s.shed <= shed
    ensures SentOk(s.sent, shed)
  {
  }

  lemma ProducerTouches(s: State, a: ProducerAction)
    requires ProducerNext(s, a).Some?
    ensures var s' := ProducerNext(s, a).value;
      && s'.sent == s.sent && s'.writer == s.writer && s'.watcher == s.watcher && s'.closing == s.closing
      && s'.lastReported == s.lastReported && s'.dropped >= s.dropped && s.shed <= s'.shed
      && !s.producer.ProducerLeaving? && !s.producer.ProducerGone? && !s'.producer.ProducerGone?
  {
    hide HasLine, LineLength, TrimRight;
    match a case ReadLine => case ReadError => case _ =>
  }

  lemma WriterOkKeptByProducer(s: State, a: ProducerAction)
    requires WriterOk(s) && SentOk(s.sent, s.shed) && ProducerNext(s, a).Some?
    ensures WriterOk(ProducerNext(s, a).value)
    ensures SentOk(s.sent, ProducerNext(s, a).value.shed)
  {
    ProducerTouches(s, a);
    hide ProducerNext, Events, LastMeta, CountBelow;
    SentKeptByShedding(s, ProducerNext(s, a).value.shed);
  }

  lemma QueueKeptByProducer(s: State, a: ProducerAction)
    requires QueueOk(s) && ProducerNext(s, a).Some?
    ensures QueueOk(ProducerNext(s, a).value)
  {
    hide HasLine, LineLength, TrimRight;
  }

  lemma ProducerKeeps(s: State, a: ProducerAction)
    requires Inv(s) && ProducerNext(s, a).Some?
    ensures Inv(ProducerNext(s, a).value)
  {
    FramingKept(s, a);
    PipelineKeptByProducer(s, a);
    QueueKeptByProducer(s, a);
    WriterOkKeptByProducer(s, a);
    ProducerTouches(s, a);
    hide ProducerNext, FramingOk, QueueOk, PipelineOk, SentOk, WriterOk;
  }

  lemma LoadAccounts(s: State)
    requires PipelineOk(s) && s.writer.Loading?
    ensures var load := Seen(s.shed, s.dropped, s.producer.Counting?);
      Accounted(s.sent, s.writer.line, load, s.shed) && |load.counted| == s.dropped
  {
    var load, n := Seen(s.shed, s.dropped, s.producer.Counting?), s.writer.line.no;
    assert Pipeline(s)[|Events(s.sent)|] == s.writer.line;
    assert load.counted + load.pending == s.shed;
    CountBelowOfConcat(load.counted, load.pending, n);
    if !load.evicting { NothingEarlierPending(s); }
  }

  /** Without an eviction under way, a line still to be counted is the last one read. */
  lemma NothingEarlierPending(s: State)
    requires PipelineOk(s) && !s.producer.Counting?
    ensures forall line <- Pipeline(s) :: CountBelow(s.shed[s.dropped..], line.no) == 0
  {
    hide Pipeline;
    if s.producer.Skipping? {
      assert s.shed[s.dropped..] == [|s.history| - 1];
      assert s.shed[s.dropped..][..0] == [];
    }
  }

  lemma SentGrows(sent: seq<Frame>, f: Frame, shed: seq<nat>)
    requires SentOk(sent, shed) && FrameOk(sent, f, shed)
    ensures SentOk(sent + [f], shed)
  {
    hide FrameOk;
    forall k | 0 <= k < |sent + [f]| ensures FrameOk((sent + [f])[..k], (sent + [f])[k], shed) {
      assert (sent + [f])[..k] == sent[..k];
      assert sent[..|sent|] == sent;
    }
  }

  lemma WriterOkKept(s: State, a: WriterAction)
    requires PipelineOk(s) && SentOk(s.sent, s.shed) && WriterOk(s) && WriterNext(s, a).Some?
    ensures var s' := WriterNext(s, a).value; WriterOk(s') && SentOk(s'.sent, s'.shed)
  {
    hide SentOk, Events, LastMeta, CountBelow, Seen, SharedOut;
    match a
    case LoadDropped => LoadAccounts(s);
    case WriteMeta(ok) => WriterOkKeptByFrame(s, Meta(s.lastReported), a);
    case WriteLine(ok) => WriterOkKeptByFrame(s, Event(s.writer.line, s.writer.load), a);
    case _ =>
  }

  lemma WriterOkKeptByFrame(s: State, f: Frame, a: WriterAction)
    requires PipelineOk(s) && SentOk(s.sent, s.shed) && WriterOk(s) && WriterNext(s, a).Some?
    requires a.WriteMeta? || a.WriteLine?
    requires f == if a.WriteMeta? then Meta(s.lastReported) else Event(s.writer.line, s.writer.load)
    ensures var s' := WriterNext(s, a).value; WriterOk(s') && SentOk(s'.sent, s'.shed)
  {
    EventsOfAppend(s.sent, f);
    hide SentOk, Events, LastMeta, CountBelow, SharedOut, Seen;
    if a.ok { SentGrows(s.sent, f, s.shed); }
  }

  lemma WriterTouches(s: State, a: WriterAction)
    requires WriterNext(s, a).Some?
    ensures var s' := WriterNext(s, a).value;
      && s'.(queue := s.queue, lastReported := s.lastReported, sent := s.sent, writer := s.writer) == s
      && |s'.queue| <= |s.queue|
      && !s.writer.WriterLeaving? && !s.writer.WriterGone? && !s'.writer.WriterGone?
  {
    hide Seen;
  }

  lemma WriterKeeps(s: State, a: WriterAction)
    requires Inv(s) && WriterNext(s, a).Some?
    ensures Inv(WriterNext(s, a).value)
  {
    PipelineKeptByWriter(s, a);
    WriterOkKept(s, a);
    WriterTouches(s, a);
    hide WriterNext, PipelineOk, SentOk, WriterOk, Records;
  }

  lemma ShutdownTouches(s: State, a: ShutdownAction)
    requires ShutdownNext(s, a).Some?
    ensures var s' := ShutdownNext(s, a).value;
      && s'.(producer := s.producer, writer := s.writer, watcher := s.watcher, closing := s.closing) == s
      && (s'.producer == s.producer || (s.producer.ProducerLeaving? && s'.producer.ProducerGone?))
      && (s'.writer == s.writer || (s.writer.WriterLeaving? && s'.writer == WriterGone(s.writer.lost)))
  {
  }

  lemma TeardownKeptByShutdown(s: State, a: ShutdownAction)
    requires TeardownOk(s) && ShutdownNext(s, a).Some?
    ensures TeardownOk(ShutdownNext(s, a).value)
  {
  }

  lemma ShutdownKeeps(s: State, a: ShutdownAction)
    requires Inv(s) && ShutdownNext(s, a).Some?
    ensures Inv(ShutdownNext(s, a).value)
  {
    ShutdownTouches(s, a);
    TeardownKeptByShutdown(s, a);
    hide ShutdownNext, TeardownOk, SharedOut, SentOk, Accounted, Records, Events, LastMeta;
    assert Pipeline(ShutdownNext(s, a).value) == Pipeline(s);
  }

  lemma StepKeeps(s: State, a: Action)
    requires Inv(s) && Next(s, a).Some?
    ensures Inv(Next(s, a).value)
  {
    hide SharedOut, SentOk, Records, ProducerNext, WriterNext, ShutdownNext;
    match a
    case Produce(p) => ProducerKeeps(s, p);
    case Write(w) => WriterKeeps(s, w);
    case Close(d) => ShutdownKeeps(s, d);
    case Deliver(bytes) => assert Pipeline(Next(s, a).value) == Pipeline(s);
    case BrowserMessage =>
    case BrowserError => assert Pipeline(Next(s, a).value) == Pipeline(s);
  }

  lemma InitOk()
    ensures Inv(Init())
  {
    assert Records([]) == [] && Pipeline(Init()) == [];
    hide Records, Pipeline, Events, CountBelow;
  }

  lemma {:induction false} Reachable(run: seq<Action>)
    requires Follow(Next, Init(), run).Some?
    ensures Inv(Follow(Next, Init(), run).value)
  {
    if run == [] {
      InitOk();
    } else {
      hide Inv, Next, Init;
      var shorter := run[..|run| - 1];
      Reachable(shorter);
      StepKeeps(Follow(Next, Init(), shorter).value, run[|run| - 1]);
    }
  }

  // ---- Theorems over every run ----

  /** Conservation and order: each line read is written, held, queued or dropped, and what is on its
      way is in stream order, unaltered. */
  lemma Conservation(run: seq<Action>)
    requires Follow(Next, Init(), run).Some?
    ensures var s := Follow(Next, Init(), run).value;
      && s.history == Records(s.consumed)
      && |s.history| == |Events(s.sent)| + |HeldByWriter(s.writer)| + |s.queue| + |HeldByProducer(s.producer)|
                        + s.dropped + Uncounted(s.producer)
      && |HeldByWriter(s.writer)| <= 1 && |s.queue| <= TRACE_QUEUE_SIZE
      && (forall line <- Pipeline(s) :: line.no < |s.history| && line.bytes == Records(s.consumed)[line.no]
                                        && Fits(line.bytes) && line.no !in s.shed)
      && (forall j, k :: 0 <= j < k < |Pipeline(s)| ==> Pipeline(s)[j].no < Pipeline(s)[k].no)
  {
    Reachable(run);
    hide Follow, Records, Events, CountBelow;
  }

  /** What a reader of the frames can conclude when event `k`, line `i` of the stream, arrives: the
      events before it and the last reported count explain all earlier lines, except that one line
      already evicted may not have been counted yet when the writer loaded the counter.  The reported
      count is never too high. */
  lemma GapAccounting(run: seq<Action>, k: nat)
    requires Follow(Next, Init(), run).Some?
    requires k < |Follow(Next, Init(), run).value.sent| && Follow(Next, Init(), run).value.sent[k].Event?
    ensures
      var s := Follow(Next, Init(), run).value;
      var i, load := s.sent[k].line.no, s.sent[k].load;
      var before, reported := |Events(s.sent[..k])|, LastMeta(s.sent[..k]);
      && before + reported + 1 >= i
      && (!load.evicting ==> before + reported >= i)
      && (before + reported >= i <==> CountBelow(load.pending, i) == 0 || CountBelow(load.counted, i) < |load.counted|)
      && reported == |load.counted| && load.counted <= s.shed && Distinct(s.shed)
      && (forall line <- Events(s.sent) :: line.no !in s.shed)
  {
    Reachable(run);
    var s := Follow(Next, Init(), run).value;
    assert FrameOk(s.sent[..k], s.sent[k], s.shed);
    assert forall j :: 0 <= j < |Events(s.sent)| ==> Pipeline(s)[j] == Events(s.sent)[j];
    hide Follow, Records, Events, LastMeta, CountBelow, Pipeline;
  }

  lemma {:induction false} MetaAtMostLast(sent: seq<Frame>, shed: seq<nat>, k: nat)
    requires SentOk(sent, shed) && k < |sent| && sent[k].Meta?
    ensures sent[k].dropped <= LastMeta(sent)
  {
    var shorter := sent[..|sent| - 1];
    if k < |shorter| {
      assert FrameOk(sent[..|shorter|], sent[|shorter|], shed);
      forall j | 0 <= j < |shorter| ensures FrameOk(shorter[..j], shorter[j], shed) {
        assert shorter[..j] == sent[..j];
        assert FrameOk(sent[..j], sent[j], shed);
      }
      MetaAtMostLast(shorter, shed, k);
    }
  }

  /** Reports only ever grow, and never pass the counter. */
  lemma ReportsIncrease(run: seq<Action>, j: nat, k: nat)
    requires Follow(Next, Init(), run).Some?
    requires j < k < |Follow(Next, Init(), run).value.sent|
    requires Follow(Next, Init(), run).value.sent[j].Meta? && Follow(Next, Init(), run).value.sent[k].Meta?
    ensures var s := Follow(Next, Init(), run).value; 0 < s.sent[j].dropped < s.sent[k].dropped <= s.dropped
  {
    Reachable(run);
    var s := Follow(Next, Init(), run).value;
    hide Follow, Records, Events, CountBelow, PipelineOk;
    assert FrameOk(s.sent[..j], s.sent[j], s.shed) && FrameOk(s.sent[..k], s.sent[k], s.shed);
    forall i | 0 <= i < k ensures FrameOk(s.sent[..k][..i], s.sent[..k][i], s.shed) {
      assert s.sent[..k][..i] == s.sent[..i];
      assert FrameOk(s.sent[..i], s.sent[i], s.shed);
    }
    MetaAtMostLast(s.sent[..k], s.shed, j);
    MetaAtMostLast(s.sent, s.shed, k);
  }

  /** Whatever the writer does meanwhile, `enqueueDropOldest` needs no third pass and evicts at most
      once; and nothing is ever sent on the closed queue. */
  lemma EnqueueIsBounded(run: seq<Action>)
    requires Follow(Next, Init(), run).Some?
    ensures var s := Follow(Next, Init(), run).value;
      && (s.producer.Trying? ==> 1 <= s.producer.pass <= 2)
      && (s.producer.Trying? && s.producer.pass == 2 ==> Next(s, Produce(QueueFull)).None? && Next(s, Produce(Send)).Some?)
      && (Next(s, Produce(Evict)).Some? ==> s.producer.Evicting? && s.producer.pass == 1)
      && (Next(s, Produce(Send)).Some? || Next(s, Produce(CloseQueue)).Some? ==> !s.queueClosed)
  {
    hide Follow, Next, QueueOk;
    Reachable(run);
    PassesOf(Follow(Next, Init(), run).value);
  }

  lemma PassesOf(s: State)
    requires QueueOk(s)
    ensures s.producer.Trying? ==> 1 <= s.producer.pass <= 2
    ensures s.producer.Trying? && s.producer.pass == 2 ==> Next(s, Produce(QueueFull)).None? && Next(s, Produce(Send)).Some?
    ensures Next(s, Produce(Evict)).Some? ==> s.producer.Evicting? && s.producer.pass == 1
    ensures Next(s, Produce(Send)).Some? || Next(s, Produce(CloseQueue)).Some? ==> !s.queueClosed
  {
    hide Accept;
  }

  predicate HasLineInHand(p: Producer) { p.Trying? || p.Evicting? || p.Counting? || p.Skipping? }

  /** Channel and counter operations until the producer is done with its line, when left alone. */
  function Remaining(p: Producer): nat
    requires HasLineInHand(p)
  {
    match p
    case Trying(_, _, pass) => if pass == 1 then 4 else 1
    case Evicting(_, _, _) => 3
    case Counting(_, _, _) => 2
    case Skipping(_) => 1
  }

  /** The guest is never held up by the browser: in every reachable state, with the writer standing still,
      the producer is done with the line in hand after at most four operations of its own. */
  lemma ProducerNeverWaits(run: seq<Action>) returns (steps: seq<Action>)
    requires Follow(Next, Init(), run).Some? && HasLineInHand(Follow(Next, Init(), run).value.producer)
    ensures var s := Follow(Next, Init(), run).value;
      && |steps| <= 4 && (forall a <- steps :: a.Produce?)
      && Follow(Next, s, steps).Some?
      && var t := Follow(Next, s, steps).value;
         t.producer == AfterLine(Ended(s.producer)) && t.writer == s.writer && t.sent == s.sent
  {
    hide Follow, Next, QueueOk;
    Reachable(run);
    steps := FinishLine(Follow(Next, Init(), run).value);
  }

  lemma {:induction false} FinishLine(s: State) returns (steps: seq<Action>)
    requires QueueOk(s) && HasLineInHand(s.producer)
    ensures |steps| <= Remaining(s.producer) && (forall a <- steps :: a.Produce?)
    ensures Follow(Next, s, steps).Some?
    ensures var t := Follow(Next, s, steps).value;
      t.producer == AfterLine(Ended(s.producer)) && t.writer == s.writer && t.sent == s.sent
    decreases Remaining(s.producer)
  {
    var a := ProducerMove(s);
    OneOperation(s);
    hide Next, QueueOk;
    var m := Next(s, a).value;
    assert Follow(Next, s, []) == Some(s) && Follow(Next, m, []) == Some(m) && [] + [a] == [a];
    FollowOne(Next, s, [], a);
    hide Follow;
    steps := [];
    if HasLineInHand(m.producer) { steps := FinishLine(m); }
    FollowBoth(Next, s, [a], steps);
    steps := [a] + steps;
  }

  lemma OneOperation(s: State)
    requires QueueOk(s) && HasLineInHand(s.producer)
    ensures ProducerMove(s).Produce? && Next(s, ProducerMove(s)).Some?
    ensures var m := Next(s, ProducerMove(s)).value;
      && QueueOk(m) && m.writer == s.writer && m.sent == s.sent
      && if HasLineInHand(m.producer) then
           Remaining(m.producer) < Remaining(s.producer) && Ended(m.producer) == Ended(s.producer)
         else m.producer == AfterLine(Ended(s.producer))
  {
    hide Accept;
  }

  // ---- Teardown ----

  predicate AllGone(s: State) {
    s.producer.ProducerGone? && s.writer.WriterGone? && s.watcher.WatcherGone?
  }

  /** Waiting for the guest and the browser, and nobody has begun to leave: no complete line has arrived,
      the browser is silent, and the writer has nothing to send or is in a write the browser holds up. */
  predicate Waits(s: State) {
    && s.producer.Reading? && !HasLine(s.inbox) && s.watcher.Watching?
    && (Sending(s.writer) || (s.writer.Receiving? && s.queue == []))
    && s.closing == Closing(Fresh, true, true, 0, 0)
  }

  predicate Sending(w: Writer) { w.Announcing? || w.Forwarding? }

  /** Steps that wait for nobody: a write to an open WebSocket may block for as long as the browser likes,
      and an error is forced only by the close that causes it. */
  predicate Forced(s: State, a: Action) {
    match a
    case Deliver(_) => false
    case Produce(p) => p == ReadError ==> !s.closing.streamOpen
    case Write(WriteMeta(ok)) => !ok && !s.closing.socketOpen
    case Write(WriteLine(ok)) => !ok && !s.closing.socketOpen
    case Write(_) => true
    case BrowserMessage => false
    case BrowserError => !s.closing.socketOpen
    case Close(_) => true
  }

  /** No deadlock: some goroutine can move without help from guest or browser, unless all are done or all
      that is left is to wait for those two. */
  lemma NeverStuck(run: seq<Action>) returns (a: Action)
    requires Follow(Next, Init(), run).Some?
    ensures var s := Follow(Next, Init(), run).value;
      Waits(s) || AllGone(s) || (Next(s, a).Some? && Forced(s, a))
  {
    hide Follow, Next, Forced, Waits, QueueOk, TeardownOk;
    Reachable(run);
    a := SomeMove(Follow(Next, Init(), run).value);
  }

  lemma SomeMove(s: State) returns (a: Action)
    requires QueueOk(s) && TeardownOk(s)
    ensures Waits(s) || AllGone(s) || (Next(s, a).Some? && Forced(s, a))
  {
    hide ProducerNext, WriterNext;
    match s.closing.once {
      case ClosingFirst(_) => return Close(CloseStream);
      case ClosingSecond(_) => return Close(CloseSocket);
      case _ =>
    }
    ProducerCanMove(s);
    a := ProducerMove(s);
    if Next(s, a).Some? && Forced(s, a) { return; }
    WriterCanMove(s);
    a := WriterMove(s);
    if Next(s, a).Some? && Forced(s, a) { return; }
    a := if s.watcher.WatcherLeaving? then ShutdownMove(s, TheWatcher) else BrowserError;
  }

  lemma ProducerCanMove(s: State)
    requires !s.closing.once.ClosingFirst? && !s.closing.once.ClosingSecond?
    ensures (Next(s, ProducerMove(s)).Some? && Forced(s, ProducerMove(s)))
         || s.producer.ProducerGone? || (s.producer.Reading? && !HasLine(s.inbox) && s.closing.streamOpen)
  {
    hide HasLine, LineLength, Accept, Depart;
  }

  lemma WriterCanMove(s: State)
    requires !s.closing.once.ClosingFirst? && !s.closing.once.ClosingSecond?
    ensures (Next(s, WriterMove(s)).Some? && Forced(s, WriterMove(s)))
         || s.writer.WriterGone? || (s.writer.Receiving? && s.queue == [] && !s.queueClosed)
         || (Sending(s.writer) && s.closing.socketOpen)
  {
    hide Seen, Depart;
  }

  function ShutdownMove(s: State, g: Goroutine): Action {
    Close(if s.closing.once.Fresh? then Begin(g) else Leave(g))
  }

  function ProducerMove(s: State): Action {
    match s.producer
    case Reading => Produce(if HasLine(s.inbox) then ReadLine else ReadError)
    case Trying(_, _, _) => Produce(if |s.queue| < TRACE_QUEUE_SIZE then Send else QueueFull)
    case Evicting(_, _, _) => Produce(if s.queue == [] then NothingToEvict else Evict)
    case Counting(_, _, _) => Produce(Count)
    case Skipping(_) => Produce(Count)
    case ClosingQueue => Produce(CloseQueue)
    case ProducerLeaving => ShutdownMove(s, TheProducer)
    case ProducerGone => BrowserMessage
  }

  function WriterMove(s: State): Action {
    match s.writer
    case Receiving => Write(if s.queue != [] then Receive else QueueEnded)
    case Loading(_) => Write(LoadDropped)
    case Announcing(_, _) => Write(WriteMeta(false))
    case Forwarding(_, _) => Write(WriteLine(false))
    case WriterLeaving(_) => ShutdownMove(s, TheWriter)
    case WriterGone(_) => BrowserMessage
  }

  function ProducerWork(p: Producer): nat {
    match p
    case Reading => 4
    case Trying(_, err, pass) => (if err then 3 else 4) + (if pass == 1 then 6 else 3)
    case Evicting(_, err, _) => (if err then 3 else 4) + 5
    case Counting(_, err, _) => (if err then 3 else 4) + 4
    case Skipping(err) => (if err then 3 else 4) + 1
    case ClosingQueue => 3
    case ProducerLeaving => 2
    case ProducerGone => 0
  }

  function WriterWork(w: Writer): nat {
    match w
    case Receiving => 5
    case Loading(_) => 4
    case Announcing(_, _) => 3
    case Forwarding(_, _) => 2
    case WriterLeaving(_) => 1
    case WriterGone(_) => 0
  }

  function WatcherWork(w: Watcher): nat {
    match w case Watching => 2 case WatcherLeaving => 1 case WatcherGone => 0
  }

  /** Work left once stream and WebSocket are closed. */
  function Work(s: State): nat {
    8 * |s.inbox| + ProducerWork(s.producer) + WriterWork(s.writer) + WatcherWork(s.watcher)
  }

  lemma AcceptCosts(s: State, line: Bytes, err: bool)
    ensures var s' := Accept(s, line, err);
      && s'.inbox == s.inbox && s'.writer == s.writer && s'.watcher == s.watcher && s'.closing == s.closing
      && ProducerWork(s'.producer) <= (if err then 3 else 4) + (if line == [] then 0 else 6)
  {
  }

  lemma ProducerWorks(s: State, a: ProducerAction)
    requires QueueOk(s) && ProducerNext(s, a).Some?
    ensures Work(ProducerNext(s, a).value) < Work(s)
  {
    hide Accept, TrimRight;
    match a
    case ReadLine =>
      var k := LineLength(s.inbox);
      AcceptCosts(s.(inbox := s.inbox[k..]), s.inbox[..k], false);
    case ReadError => AcceptCosts(s.(inbox := []), s.inbox, true);
    case _ =>
  }

  lemma StepWorks(s: State, a: Action)
    requires Inv(s) && s.closing.once.Completed? && Next(s, a).Some?
    ensures Next(s, a).value.closing == s.closing && Work(Next(s, a).value) < Work(s)
  {
    hide FramingOk, PipelineOk, SentOk, WriterOk, Seen;
    if a.Produce? {
      ProducerWorks(s, a.p);
      ProducerTouches(s, a.p);
      hide ProducerNext;
    }
  }

  lemma {:induction false} WorkBoundsRuns(s: State, rest: seq<Action>)
    requires Inv(s) && s.closing.once.Completed? && Follow(Next, s, rest).Some?
    ensures var t := Follow(Next, s, rest).value; Inv(t) && t.closing == s.closing && |rest| + Work(t) <= Work(s)
  {
    hide Inv, Next, Work;
    if rest != [] {
      var m := Follow(Next, s, rest[..|rest| - 1]).value;
      WorkBoundsRuns(s, rest[..|rest| - 1]);
      StepKeeps(m, rest[|rest| - 1]);
      StepWorks(m, rest[|rest| - 1]);
    }
  }

  /** Once any goroutine has exited, every continuation is finite, with a bound known then; if nobody
      can move any more, all have exited; and stream and WebSocket were closed exactly once. */
  lemma TeardownTerminates(run: seq<Action>, rest: seq<Action>)
    requires Follow(Next, Init(), run).Some?
    requires var s := Follow(Next, Init(), run).value;
      (s.producer.ProducerGone? || s.writer.WriterGone? || s.watcher.WatcherGone?) && Follow(Next, s, rest).Some?
    ensures
      var s := Follow(Next, Init(), run).value;
      var t := Follow(Next, s, rest).value;
      && |rest| <= Work(s)
      && ((forall a :: Forced(t, a) ==> Next(t, a).None?) ==> AllGone(t))
      && t.closing == Closing(Completed, false, false, 1, 1)
  {
    Reachable(run);
    var s := Follow(Next, Init(), run).value;
    WorkBoundsRuns(s, rest);
    var t := Follow(Next, s, rest).value;
    FollowBoth(Next, Init(), run, rest);
    var a := NeverStuck(run + rest);
    hide Follow, FramingOk, QueueOk, PipelineOk, SentOk, WriterOk, Next;
  }

  /** Before that, each of the two is closed at most once. */
  lemma ClosedAtMostOnce(run: seq<Action>)
    requires Follow(Next, Init(), run).Some?
    ensures var c := Follow(Next, Init(), run).value.closing;
      && c.streamCloses <= 1 && c.socketCloses <= c.streamCloses
      && (c.streamCloses == 0 <==> c.streamOpen) && (c.socketCloses == 0 <==> c.socketOpen)
  {
    Reachable(run);
  }

  // ---- The lag is real ----

  const X_LINE: Bytes := [120, LF]

  function Repeat<T>(x: T, n: nat): (r: seq<T>)
    ensures |r| == n
  {
    if n == 0 then [] else Repeat(x, n - 1) + [x]
  }

  function Numbered(n: nat): (q: seq<Line>)
    ensures |q| == n && forall k :: 0 <= k < n ==> q[k] == Line(k, [120])
  {
    if n == 0 then [] else Numbered(n - 1) + [Line(n - 1, [120])]
  }

  function Lines(n: nat): Bytes {
    if n == 0 then [] else Lines(n - 1) + X_LINE
  }

  /** `n` one-byte lines read and queued, and the writer has not run. */
  function Filled(n: nat): State {
    Init().(consumed := Lines(n), history := Repeat([120], n), queue := Numbered(n))
  }

  lemma ReadXLine(s: State, run: seq<Action>) returns (longer: seq<Action>)
    requires Follow(Next, s, run).Some?
    requires var m := Follow(Next, s, run).value; m.inbox == [] && m.producer.Reading? && m.closing.streamOpen
    ensures var m := Follow(Next, s, run).value;
      Follow(Next, s, longer) == Some(m.(consumed := m.consumed + X_LINE, history := m.history + [[120]],
                                 producer := Trying(Line(|m.history|, [120]), false, 1)))
  {
    var m := Follow(Next, s, run).value;
    FollowOne(Next, s, run, Deliver(X_LINE));
    longer := run + [Deliver(X_LINE)];
    assert m.inbox + X_LINE == X_LINE;
    FollowOne(Next, s, longer, Produce(ReadLine));
    longer := longer + [Produce(ReadLine)];
    assert X_LINE[1] == LF && !LineFree(X_LINE, 2) && LineLength(X_LINE) == 2;
    assert X_LINE[..2] == X_LINE && X_LINE[2..] == [] && X_LINE[..1] == [120];
    assert TrimRight(X_LINE) == TrimRight([120]) == [120];
    hide Follow, LineLength, TrimRight, HasLine;
  }

  lemma {:induction false} FillQueue(n: nat) returns (run: seq<Action>)
    requires n <= TRACE_QUEUE_SIZE
    ensures Follow(Next, Init(), run) == Some(Filled(n))
  {
    run := [];
    if n > 0 {
      hide Follow, Next;
      run := FillQueue(n - 1);
      run := ReadXLine(Init(), run);
      run := SendOne(Init(), run);
    }
  }

  lemma SendOne(s: State, run: seq<Action>) returns (longer: seq<Action>)
    requires Follow(Next, s, run).Some?
    requires Follow(Next, s, run).value.producer.Trying? && |Follow(Next, s, run).value.queue| < TRACE_QUEUE_SIZE
    ensures var m := Follow(Next, s, run).value;
      Follow(Next, s, longer) == Some(m.(queue := m.queue + [m.producer.line], producer := AfterLine(m.producer.err)))
  {
    hide Follow;
    FollowOne(Next, s, run, Produce(Send));
    longer := run + [Produce(Send)];
  }

  lemma EvictOne(s: State, run: seq<Action>) returns (longer: seq<Action>)
    requires Follow(Next, s, run).Some?
    requires Follow(Next, s, run).value.producer.Trying? && |Follow(Next, s, run).value.queue| == TRACE_QUEUE_SIZE
    ensures Follow(Next, s, longer).Some?
    ensures var m, m' := Follow(Next, s, run).value, Follow(Next, s, longer).value;
         && m'.queue == m.queue[1..] && m'.shed == m.shed + [m.queue[0].no] && m'.dropped == m.dropped
         && m'.writer == m.writer && m'.sent == m.sent && m'.lastReported == m.lastReported
         && m'.closing == m.closing && m'.producer.Counting?
  {
    hide Follow;
    FollowOne(Next, s, run, Produce(QueueFull));
    longer := run + [Produce(QueueFull)];
    FollowOne(Next, s, longer, Produce(Evict));
    longer := longer + [Produce(Evict)];
  }

  lemma ForwardOne(s: State, run: seq<Action>) returns (longer: seq<Action>)
    requires Follow(Next, s, run).Some?
    requires var m := Follow(Next, s, run).value;
      m.writer.Receiving? && m.closing.socketOpen && m.dropped == m.lastReported && m.queue != []
    ensures var m := Follow(Next, s, run).value;
      Follow(Next, s, longer).Some? && Follow(Next, s, longer).value.sent == m.sent + [Event(m.queue[0], Seen(m.shed, m.dropped, m.producer.Counting?))]
  {
    hide Follow, Seen;
    FollowOne(Next, s, run, Write(Receive));
    longer := run + [Write(Receive)];
    FollowOne(Next, s, longer, Write(LoadDropped));
    longer := longer + [Write(LoadDropped)];
    FollowOne(Next, s, longer, Write(WriteLine(true)));
    longer := longer + [Write(WriteLine(true))];
  }

  /** The promise one would expect -- events before plus reported drops cover every earlier line --
      fails for this run: line 0 is evicted from the full queue, and line 1 is forwarded before the
      eviction is counted. */
  lemma TheCountCanLag() returns (run: seq<Action>)
    ensures Follow(Next, Init(), run).Some?
    ensures var s := Follow(Next, Init(), run).value;
      && s.sent == [Event(Line(1, [120]), Load([], [0], true))]
      && |Events(s.sent[..0])| + LastMeta(s.sent[..0]) == 0 < s.sent[0].line.no
  {
    hide Follow;
    run := FillQueue(TRACE_QUEUE_SIZE);
    run := ReadXLine(Init(), run);
    run := EvictOne(Init(), run);
    run := ForwardOne(Init(), run);
  }
}
