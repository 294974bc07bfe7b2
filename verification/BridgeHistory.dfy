/** What has to have happened for the trace bridge to be where it is: every theorem here ties a reachable
    state to the actions of the run that led there. */
module BridgeHistory {
  import opened LineFraming
  import opened Options
  import opened Runs
  import opened TraceBridge

  /** The state before action `i`. */
  function Before(run: seq<Action>, i: nat): Option<State>
    requires i <= |run|
  {
    Follow(Next, Init(), run[..i])
  }

  // ---- Nothing of the stream is skipped ----

  /** The guest's output. */
  function Arrived(run: seq<Action>): Bytes {
    if run == [] then []
    else
      var a := run[|run| - 1];
      Arrived(run[..|run| - 1]) + (if a.Deliver? then a.bytes else [])
  }

  lemma {:induction false} EveryByteIsFramed(run: seq<Action>)
    requires Follow(Next, Init(), run).Some?
    ensures var s := Follow(Next, Init(), run).value; s.consumed + s.inbox == Arrived(run)
  {
    if run == [] {
      hide Next;
    } else {
      hide Next;
      EveryByteIsFramed(run[..|run| - 1]);
      BytesKept(Follow(Next, Init(), run[..|run| - 1]).value, run[|run| - 1]);
    }
  }

  lemma BytesKept(s: State, a: Action)
    requires Next(s, a).Some?
    ensures var s' := Next(s, a).value;
      s'.consumed + s'.inbox == s.consumed + s.inbox + (if a.Deliver? then a.bytes else [])
  {
    hide HasLine, LineLength, TrimRight, Seen;
    AppendNone(s.consumed + s.inbox);
    match a
    case Produce(ReadLine) =>
      var k := LineLength(s.inbox);
      CutInTwo(s.inbox, k);
      AppendAssociates(s.consumed, s.inbox[..k], s.inbox[k..]);
    case Deliver(bytes) => AppendAssociates(s.consumed, s.inbox, bytes);
    case _ =>
  }

  lemma AppendNone<T>(a: seq<T>)
    ensures a + [] == a
  {
  }

  lemma CutInTwo<T>(a: seq<T>, k: nat)
    requires k <= |a|
    ensures a == a[..k] + a[k..]
  {
  }

  // ---- Every line that fits is queued ----

  function Texts(lines: seq<Line>): (texts: seq<Bytes>)
    ensures |texts| == |lines|
  {
    seq(|lines|, k requires 0 <= k < |lines| => lines[k].bytes)
  }

  /** What an action puts on the queue. */
  function HandedOver(s: State, a: Action): seq<Line> {
    if a == Produce(Send) && s.producer.Trying? then [s.producer.line] else []
  }

  /** The lines put on the queue, in order. */
  function Enqueued(run: seq<Action>): seq<Line>
    requires Follow(Next, Init(), run).Some?
  {
    if run == [] then []
    else
      var m := Follow(Next, Init(), run[..|run| - 1]).value;
      Enqueued(run[..|run| - 1]) + HandedOver(m, run[|run| - 1])
  }

  /** In every reachable state the lines put on the queue, and the one about to be, are exactly the stream's
      lines within the cap, in order: no other line is kept off the queue. */
  lemma AllThatFitIsQueued(run: seq<Action>)
    requires Follow(Next, Init(), run).Some?
    ensures var s := Follow(Next, Init(), run).value;
      Texts(Enqueued(run) + HeldByProducer(s.producer)) == Fitting(Records(s.consumed))
  {
    hide Next, Init, Records, Inv;
    Reachable(run);
    FramesOf(Follow(Next, Init(), run).value);
    QueuedOfHistory(run);
  }

  lemma FramesOf(s: State)
    requires Inv(s)
    ensures s.history == Records(s.consumed)
  {
    hide QueueOk, PipelineOk, SentOk, WriterOk, TraceBridge.TeardownOk, Records;
  }

  lemma {:induction false} QueuedOfHistory(run: seq<Action>)
    requires Follow(Next, Init(), run).Some?
    ensures var s := Follow(Next, Init(), run).value;
      Texts(Enqueued(run) + HeldByProducer(s.producer)) == Fitting(s.history)
  {
    if run == [] {
      hide Next;
      assert Follow(Next, Init(), run).value == Init();
    } else {
      hide Next, HandedOver, Fitting, Init;
      var shorter, a := run[..|run| - 1], run[|run| - 1];
      var m := Follow(Next, Init(), shorter).value;
      QueuedOfHistory(shorter);
      var fresh' := QueueStep(m, a);
      TextsMove(Enqueued(shorter), HeldByProducer(m.producer), fresh', HandedOver(m, a),
                HeldByProducer(Next(m, a).value.producer));
    }
  }

  lemma TextsMove(before: seq<Line>, held: seq<Line>, more: seq<Line>, handed: seq<Line>, held': seq<Line>)
    requires held + more == handed + held'
    ensures Texts((before + handed) + held') == Texts(before + held) + Texts(more)
  {
    AppendAssociates(before, handed, held');
    AppendAssociates(before, held, more);
    assert (before + handed) + held' == (before + held) + more;
  }

  /** The lines a step reads and keeps: what was held and they are handed over or held afterwards. */
  lemma QueueStep(s: State, a: Action) returns (more: seq<Line>)
    requires Next(s, a).Some?
    ensures var s' := Next(s, a).value;
      && HeldByProducer(s.producer) + more == HandedOver(s, a) + HeldByProducer(s'.producer)
      && Fitting(s'.history) == Fitting(s.history) + Texts(more)
  {
    more := [];
    if a.Produce? {
      match a.p
      case ReadLine =>
        more := AcceptStep(s, s.inbox[LineLength(s.inbox)..], s.inbox[..LineLength(s.inbox)], false);
      case ReadError => more := AcceptStep(s, [], s.inbox, true);
      case _ =>
        assert Fitting(s.history) + Texts([]) == Fitting(s.history);
    } else {
      OthersLeaveProducer(s, a);
      assert Fitting(s.history) + Texts([]) == Fitting(s.history);
    }
  }

  lemma AcceptStep(s: State, inbox: Bytes, line: Bytes, err: bool) returns (more: seq<Line>)
    requires s.producer.Reading?
    ensures var s' := Accept(s.(inbox := inbox), line, err);
      more == HeldByProducer(s'.producer) && Fitting(s'.history) == Fitting(s.history) + Texts(more)
  {
    hide TrimRight;
    var t := TrimRight(line);
    more := HeldByProducer(Accept(s.(inbox := inbox), line, err).producer);
    assert (s.history + [t])[..|s.history|] == s.history;
    assert Fitting(s.history) + [] == Fitting(s.history);
  }

  lemma OthersLeaveProducer(s: State, a: Action)
    requires Next(s, a).Some? && !a.Produce?
    ensures var s' := Next(s, a).value;
      s'.history == s.history && s'.shed == s.shed && HeldByProducer(s'.producer) == HeldByProducer(s.producer)
      && (s'.producer == s.producer || (s.producer.ProducerLeaving? && s'.producer.ProducerGone?))
  {
    hide ProducerNext, Seen;
  }

  // ---- No line is dropped without cause ----

  /** At step `i` the producer found the queue full. */
  ghost predicate FoundFull(run: seq<Action>, i: nat) {
    i < |run| && run[i] == Produce(QueueFull) && Before(run, i).Some? && |Before(run, i).value.queue| == 1024
  }

  /** At step `j` the producer took line `n`, the oldest, off the queue. */
  ghost predicate TookOldest(run: seq<Action>, j: nat, n: nat) {
    && j < |run| && run[j] == Produce(Evict) && Before(run, j).Some?
    && Before(run, j).value.queue != [] && Before(run, j).value.queue[0].no == n
  }

  /** The producer did nothing between steps `i` and `j`. */
  ghost predicate Nothing(run: seq<Action>, i: nat, j: nat) {
    j <= |run| && forall k :: i < k < j ==> !run[k].Produce?
  }

  /** Line `n` was the oldest when the producer, right after finding the queue full, evicted it. */
  ghost predicate EvictedFromFull(run: seq<Action>, n: nat) {
    exists i: nat, j: nat :: FoundFull(run, i) && TookOldest(run, j, n) && i < j && Nothing(run, i, j)
  }

  ghost predicate FullJustNow(run: seq<Action>) {
    exists i: nat :: FoundFull(run, i) && Nothing(run, i, |run|)
  }

  ghost predicate Accountable(run: seq<Action>, history: seq<Bytes>, n: nat) {
    n < |history| && (|history[n]| > MAX_TRACE_LINE_BYTES || EvictedFromFull(run, n))
  }

  /** In every reachable state, each line dropped was over-long, or was evicted as the oldest line right
      after the queue had been found to hold 1024. */
  lemma {:induction false} DroppedForCause(run: seq<Action>)
    requires Follow(Next, Init(), run).Some?
    ensures var s := Follow(Next, Init(), run).value;
      && (forall n <- s.shed :: Accountable(run, s.history, n))
      && (s.producer.Evicting? ==> FullJustNow(run))
  {
    if run == [] {
      hide Next;
      assert Follow(Next, Init(), run).value == Init();
    } else {
      hide Next, Init, Accountable, FullJustNow;
      var shorter, a := run[..|run| - 1], run[|run| - 1];
      assert run == shorter + [a];
      var m := Follow(Next, Init(), shorter).value;
      DroppedForCause(shorter);
      Reachable(shorter);
      assert Before(run, |shorter|) == Some(m);
      var s := Next(m, a).value;
      hide Follow;
      if a.Produce? {
        ProducerCauses(shorter, a, m);
      } else {
        OthersLeaveProducer(m, a);
        if s.producer.Evicting? { FullStays(shorter, a); }
        forall n <- s.shed ensures Accountable(run, s.history, n) { AccountableStays(shorter, a, m.history, s.history, n); }
      }
    }
  }

  lemma ProducerCauses(run: seq<Action>, a: Action, s: State)
    requires a.Produce? && Next(s, a).Some? && Before(run + [a], |run|) == Some(s)
    requires Inv(s)
    requires forall n <- s.shed :: Accountable(run, s.history, n)
    requires s.producer.Evicting? ==> FullJustNow(run)
    ensures var s' := Next(s, a).value;
      && (forall n <- s'.shed :: Accountable(run + [a], s'.history, n))
      && (s'.producer.Evicting? ==> FullJustNow(run + [a]))
  {
    ShedStep(s, a.p);
    hide Next, Inv, Accountable, FullJustNow, EvictedFromFull, Before;
    var s' := Next(s, a).value;
    if s'.producer.Evicting? { JustFoundFull(run, a, s); }
    forall n <- s'.shed ensures Accountable(run + [a], s'.history, n) {
      if n in s.shed {
        AccountableStays(run, a, s.history, s'.history, n);
      } else if a.p.Evict? {
        JustEvicted(run, a, s);
        NowAccountable(run + [a], s'.history, n);
      } else {
        NowAccountable(run + [a], s'.history, n);
      }
    }
  }

  lemma NowAccountable(run: seq<Action>, history: seq<Bytes>, n: nat)
    requires n < |history| && (|history[n]| > MAX_TRACE_LINE_BYTES || EvictedFromFull(run, n))
    ensures Accountable(run, history, n)
  {
  }

  /** What the producer's steps add to the lines shed. */
  lemma ShedStep(s: State, p: ProducerAction)
    requires Next(s, Produce(p)).Some? && Inv(s)
    ensures var s' := Next(s, Produce(p)).value;
      && s.history <= s'.history
      && (s'.producer.Evicting? ==> p.QueueFull? && |s.queue| == 1024)
      && (forall n <- s'.shed :: n < |s'.history|)
      && (forall n <- s'.shed :: n in s.shed
            || (p.Evict? && s.queue != [] && n == s.queue[0].no && s.producer.Evicting?)
            || (!p.Evict? && |s'.history[n]| > MAX_TRACE_LINE_BYTES))
  {
    ProducerKeeps(s, p);
    ShedBounded(ProducerNext(s, p).value);
    QueueBounded(s);
    hide Inv, HasLine, Accept;
    match p
    case ReadLine =>
      AcceptSheds(s.(inbox := s.inbox[LineLength(s.inbox)..]), s.inbox[..LineLength(s.inbox)], false);
    case ReadError => AcceptSheds(s.(inbox := []), s.inbox, true);
    case _ =>
  }

  lemma AcceptSheds(s: State, line: Bytes, err: bool)
    ensures var s' := Accept(s, line, err);
      && s.history <= s'.history && !s'.producer.Evicting?
      && forall n <- s'.shed :: n in s.shed || (n < |s'.history| && |s'.history[n]| > MAX_TRACE_LINE_BYTES)
  {
    hide TrimRight;
  }

  lemma ShedBounded(s: State)
    requires Inv(s)
    ensures forall n <- s.shed :: n < |s.history|
  {
    hide QueueOk, SentOk, WriterOk, TraceBridge.TeardownOk, FramingOk, Pipeline;
  }

  lemma QueueBounded(s: State)
    requires Inv(s)
    ensures |s.queue| <= 1024
  {
    hide PipelineOk, SentOk, WriterOk, TraceBridge.TeardownOk, FramingOk;
  }

  lemma JustFoundFull(run: seq<Action>, a: Action, s: State)
    requires a == Produce(QueueFull) && |s.queue| == 1024 && Before(run + [a], |run|) == Some(s)
    ensures FullJustNow(run + [a])
  {
    hide Before;
    assert FoundFull(run + [a], |run|) && Nothing(run + [a], |run|, |run + [a]|);
  }

  lemma JustEvicted(run: seq<Action>, a: Action, s: State)
    requires a == Produce(Evict) && s.queue != [] && Before(run + [a], |run|) == Some(s) && FullJustNow(run)
    ensures EvictedFromFull(run + [a], s.queue[0].no)
  {
    var i: nat :| FoundFull(run, i) && Nothing(run, i, |run|);
    EarlierStep(run, a, i);
    hide Before;
    assert TookOldest(run + [a], |run|, s.queue[0].no);
    assert FoundFull(run + [a], i) && Nothing(run + [a], i, |run|);
  }

  lemma EarlierStep(run: seq<Action>, a: Action, i: nat)
    requires i < |run|
    ensures Before(run + [a], i) == Before(run, i) && (run + [a])[i] == run[i]
  {
    assert (run + [a])[..i] == run[..i];
  }

  lemma FullStays(run: seq<Action>, a: Action)
    requires FullJustNow(run) && !a.Produce?
    ensures FullJustNow(run + [a])
  {
    var i: nat :| FoundFull(run, i) && Nothing(run, i, |run|);
    EarlierStep(run, a, i);
    hide Before;
    assert FoundFull(run + [a], i) && Nothing(run + [a], i, |run + [a]|);
  }

  lemma AccountableStays(run: seq<Action>, a: Action, history: seq<Bytes>, history': seq<Bytes>, n: nat)
    requires Accountable(run, history, n) && history <= history'
    ensures Accountable(run + [a], history', n)
  {
    if EvictedFromFull(run, n) {
      var i: nat, j: nat :| FoundFull(run, i) && TookOldest(run, j, n) && i < j && Nothing(run, i, j);
      EarlierStep(run, a, i);
      EarlierStep(run, a, j);
      hide Before;
      assert FoundFull(run + [a], i) && TookOldest(run + [a], j, n) && Nothing(run + [a], i, j);
    }
  }

  // ---- Nothing closes without cause ----

  predicate ProducerLeft(s: State) { s.producer.ProducerLeaving? || s.producer.ProducerGone? }
  predicate WriterLeft(s: State) { s.writer.WriterLeaving? || s.writer.WriterGone? }
  predicate WatcherLeft(s: State) { s.watcher.WatcherLeaving? || s.watcher.WatcherGone? }

  predicate StreamEnded(run: seq<Action>) { Produce(ReadError) in run }

  predicate WriteFailed(run: seq<Action>) { Write(WriteMeta(false)) in run || Write(WriteLine(false)) in run }

  predicate BrowserLeft(run: seq<Action>) { BrowserError in run }

  ghost predicate Caused(run: seq<Action>, s: State) {
    && (StreamEnded(run) <==> Ended(s.producer))
    && (WatcherLeft(s) <==> BrowserLeft(run))
    && (WriterLeft(s) <==> WriteFailed(run) || Write(QueueEnded) in run)
    && (Write(QueueEnded) in run ==> StreamEnded(run))
    && (s.queueClosed ==> ProducerLeft(s))
    && (!s.closing.once.Fresh? ==> ProducerLeft(s) || WriterLeft(s) || WatcherLeft(s))
  }

  /** In every reachable state: the producer stops exactly when a read has failed or the stream ended, the
      watcher exactly when the browser's side has, the writer exactly when a write has failed or the queue
      ended; and if anything is closed, one of the first three has happened.  Messages from the browser
      and a full queue close nothing. */
  lemma {:induction false} ClosedForCause(run: seq<Action>)
    requires Follow(Next, Init(), run).Some?
    ensures var s := Follow(Next, Init(), run).value;
      && Caused(run, s)
      && (!s.closing.once.Fresh? ==> StreamEnded(run) || WriteFailed(run) || BrowserLeft(run))
  {
    if run == [] {
      hide Next;
      assert Follow(Next, Init(), run).value == Init();
    } else {
      hide Next, Init, Caused;
      var shorter, a := run[..|run| - 1], run[|run| - 1];
      assert run == shorter + [a];
      ClosedForCause(shorter);
      CauseKept(shorter, Follow(Next, Init(), shorter).value, a);
      SomeCause(run, Follow(Next, Init(), run).value);
    }
  }

  lemma SomeCause(run: seq<Action>, s: State)
    requires Caused(run, s)
    ensures !s.closing.once.Fresh? ==> StreamEnded(run) || WriteFailed(run) || BrowserLeft(run)
  {
  }

  lemma CauseKept(run: seq<Action>, s: State, a: Action)
    requires Caused(run, s) && Next(s, a).Some?
    ensures Caused(run + [a], Next(s, a).value)
  {
    hide Next;
    MoreIn(run, a);
    match a
    case Produce(p) => ProducerCause(s, p);
    case Write(w) => WriterCause(s, w);
    case _ => OtherCause(s, a);
  }

  lemma MoreIn<T>(s: seq<T>, x: T)
    ensures forall y :: y in s + [x] <==> y in s || y == x
  {
  }

  lemma ProducerCause(s: State, p: ProducerAction)
    requires Next(s, Produce(p)).Some?
    ensures var s' := Next(s, Produce(p)).value;
      && s'.writer == s.writer && s'.watcher == s.watcher && s'.closing == s.closing
      && (Ended(s'.producer) <==> Ended(s.producer) || p.ReadError?)
      && (ProducerLeft(s) ==> ProducerLeft(s')) && (s'.queueClosed ==> s.queueClosed || ProducerLeft(s'))
  {
    hide Next, Accept, HasLine;
    NextOfProducer(s, p);
    ProducerTouches(s, p);
    match p
    case ReadLine => AcceptFrames(s.(inbox := s.inbox[LineLength(s.inbox)..]), s.inbox[..LineLength(s.inbox)], false);
      AcceptLeaves(s.(inbox := s.inbox[LineLength(s.inbox)..]), s.inbox[..LineLength(s.inbox)], false);
    case ReadError => AcceptFrames(s.(inbox := []), s.inbox, true);
      AcceptLeaves(s.(inbox := []), s.inbox, true);
    case _ =>
  }

  lemma NextOfProducer(s: State, p: ProducerAction)
    ensures Next(s, Produce(p)) == ProducerNext(s, p)
  {
    hide ProducerNext;
  }

  lemma AcceptLeaves(s: State, line: Bytes, err: bool)
    ensures var s' := Accept(s, line, err); s'.queueClosed == s.queueClosed
  {
    hide TrimRight;
  }

  lemma WriterCause(s: State, w: WriterAction)
    requires Next(s, Write(w)).Some?
    ensures var s' := Next(s, Write(w)).value;
      && s'.producer == s.producer && s'.watcher == s.watcher && s'.closing == s.closing
      && s'.queueClosed == s.queueClosed
      && (WriterLeft(s') <==> WriterLeft(s) || w == WriteMeta(false) || w == WriteLine(false) || w == QueueEnded)
      && (w.QueueEnded? ==> s.queueClosed)
  {
    hide Seen;
  }

  lemma OtherCause(s: State, a: Action)
    requires Next(s, a).Some? && !a.Produce? && !a.Write?
    ensures var s' := Next(s, a).value;
      && Ended(s'.producer) == Ended(s.producer) && ProducerLeft(s') == ProducerLeft(s)
      && WriterLeft(s') == WriterLeft(s) && s'.queueClosed == s.queueClosed
      && (WatcherLeft(s') <==> WatcherLeft(s) || a.BrowserError?)
      && (!s'.closing.once.Fresh? ==>
            !s.closing.once.Fresh? || ProducerLeft(s) || WriterLeft(s) || WatcherLeft(s))
  {
    hide ProducerNext, WriterNext;
  }
}
