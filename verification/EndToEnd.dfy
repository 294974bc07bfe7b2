/** From the guest's byte stream to what the browser keeps and shows: the gateway's trace bridge, the
    browser's trace worker and the page's trace pane put together.  What the worker assumes about its input
    is what the bridge guarantees about its output. */
module EndToEnd {
  import opened LineFraming
  import opened Runs
  import opened TraceBridge
  import opened TraceWorker
  import opened TracePane
  import opened Items

  /** What the browser's decoder makes of a frame: a report is a short one-line object that reads back as
      itself; an event line keeps its text, and is not itself a report. */
  ghost predicate Decodes(f: Frame, m: Message) {
    match f
    case Meta(n) => IsMeta(m) && m.dropped == n && Framable(m.raw) && Fits(m.raw)
    case Event(line, _) => !IsMeta(m) && m.raw == line.bytes
  }

  /** `ms` is what the browser has received of the frames written. */
  ghost predicate Delivered(frames: seq<Frame>, ms: seq<Message>) {
    |ms| <= |frames| && forall k :: 0 <= k < |ms| ==> Decodes(frames[k], ms[k])
  }

  ghost predicate IsFrameOf(run: seq<Action>, k: nat, m: Message) {
    && Follow(Next, Init(), run).Some?
    && k < |Follow(Next, Init(), run).value.sent|
    && Decodes(Follow(Next, Init(), run).value.sent[k], m)
  }

  /** Some bridge sent `m` in some run; different messages may be from different connections. */
  ghost predicate SentByBridge(m: Message) {
    exists run, k :: IsFrameOf(run, k, m)
  }

  function NonMeta(ms: seq<Message>): nat {
    if ms == [] then 0 else NonMeta(ms[..|ms| - 1]) + (if IsMeta(ms[|ms| - 1]) then 0 else 1)
  }

  /** The lines behind the items shown. */
  function LinesShown(frames: seq<Frame>, ms: seq<Message>): seq<Line>
    requires |ms| <= |frames|
  {
    if ms == [] then []
    else
      var k := |ms| - 1;
      LinesShown(frames, ms[..k])
      + (if frames[k].Event? && !IsMeta(ms[k]) && !IsHeartbeat(ms[k]) then [frames[k].line] else [])
  }

  // ---- Reading the counters off the frames ----

  lemma {:induction false} CountersOfFrames(frames: seq<Frame>, ms: seq<Message>)
    requires Delivered(frames, ms)
    ensures Reported(ms) == LastMeta(frames[..|ms|])
    ensures NonMeta(ms) == |Events(frames[..|ms|])|
  {
    if ms != [] {
      hide Framable, Fits;
      var k := |ms| - 1;
      assert Decodes(frames[k], ms[k]);
      CountersOfFrames(frames, ms[..k]);
      assert frames[..|ms|] == frames[..k] + [frames[k]];
      EventsOfAppend(frames[..k], frames[k]);
    }
  }

  lemma {:induction false} EventIsInEvents(frames: seq<Frame>, k: nat)
    requires k < |frames| && frames[k].Event?
    ensures frames[k].line in Events(frames)
  {
    var shorter := frames[..|frames| - 1];
    if k < |shorter| { EventIsInEvents(shorter, k); }
  }

  lemma {:induction false} EventsOfPrefix(frames: seq<Frame>, k: nat)
    requires k <= |frames|
    ensures Events(frames[..k]) <= Events(frames)
  {
    if k == |frames| {
      assert frames[..k] == frames;
    } else {
      var shorter := frames[..|frames| - 1];
      assert shorter[..k] == frames[..k];
      EventsOfPrefix(shorter, k);
    }
  }

  // ---- What the bridge guarantees the worker ----

  /** An event frame is one line of the stream, unaltered. */
  lemma EventIsARecord(run: seq<Action>, k: nat)
    requires Follow(Next, Init(), run).Some?
    requires k < |Follow(Next, Init(), run).value.sent| && Follow(Next, Init(), run).value.sent[k].Event?
    ensures
      var s := Follow(Next, Init(), run).value;
      var line := s.sent[k].line;
      line.no < |Records(s.consumed)| && line.bytes == Records(s.consumed)[line.no] && Fits(line.bytes)
      && Framable(line.bytes)
  {
    hide Follow, Init, Records, Events, Fits, Framable;
    Conservation(run);
    var s := Follow(Next, Init(), run).value;
    EventIsInEvents(s.sent, k);
    assert s.sent[k].line in Pipeline(s);
    RecordsAreFramable(s.consumed);
  }

  lemma SentIsCapped(m: Message)
    requires SentByBridge(m)
    ensures Fits(m.raw) && Framable(m.raw)
  {
    hide Follow, Init, Next, Records, Fits, Framable;
    var run: seq<Action>, k: nat :| IsFrameOf(run, k, m);
    if Follow(Next, Init(), run).value.sent[k].Event? { EventIsARecord(run, k); }
  }

  /** The worker's assumption on sizes holds of everything bridges send, over any number of connections,
      and every line survives being joined and framed again. */
  lemma ReceivedIsCapped(ms: seq<Message>)
    requires forall k :: 0 <= k < |ms| ==> SentByBridge(ms[k])
    ensures AllFit(ms)
    ensures forall raw <- Raws(ms) :: Framable(raw)
  {
    hide SentByBridge, Fits, Framable;
    forall k | 0 <= k < |ms| ensures Fits(ms[k].raw) && Framable(ms[k].raw) {
      SentIsCapped(ms[k]);
    }
  }

  /** The status row explains every gap: when an event that is line `i` of the guest's stream arrives, the
      events before it and the relay-drop counter account for all earlier lines but at most one. */
  lemma GapsAreExplained(run: seq<Action>, ms: seq<Message>, k: nat)
    requires Follow(Next, Init(), run).Some? && Delivered(Follow(Next, Init(), run).value.sent, ms)
    requires k < |ms| && !IsMeta(ms[k]) && Reported(ms[..k]) < 0x8000_0000
    ensures
      var s := Follow(Next, Init(), run).value;
      var i := s.sent[k].line.no;
      && s.sent[k].Event? && i < |Records(s.consumed)| && ms[k].raw == Records(s.consumed)[i]
      && NonMeta(ms[..k]) + CountsOf(ms[..k]).relayDrops + 1 >= i
      && (!s.sent[k].load.evicting ==> NonMeta(ms[..k]) + CountsOf(ms[..k]).relayDrops >= i)
      && 0 <= CountsOf(ms[..k]).relayDrops <= |s.shed|
  {
    hide Follow, Init, Records, Fits, Framable, Events, LastMeta, Reported, NonMeta, CountBelow;
    var s := Follow(Next, Init(), run).value;
    assert Decodes(s.sent[k], ms[k]);
    EventIsARecord(run, k);
    GapAccounting(run, k);
    assert Delivered(s.sent, ms[..k]) by { assert forall j :: 0 <= j < k ==> Decodes(s.sent[j], ms[j]); }
    CountersOfFrames(s.sent, ms[..k]);
    Int32Exact(Reported(ms[..k]));
  }

  // ---- What the browser keeps ----

  /** Fed by bridges, over any number of connections, the write buffer and the file have never passed
      their bounds, and nothing was given up but files that were nearly full, each announced; they held all that
      the capture has lost; and framing what it holds gives back exactly the lines received since. */
  lemma CaptureReframes(w: Worker)
    requires w.Valid() && forall k :: 0 <= k < |w.received| ==> SentByBridge(w.received[k])
    ensures w.pendingBytes <= w.peak && WithinBounds(w.peak, |w.file|, w.discarded)
    ensures w.hasHandle ==>
      var log := Raws(w.received[w.openedAt..]);
      && w.base <= |log| && Records(w.file + Flatten(w.pending)) == log[w.base..]
      && w.rotatedBefore <= |w.discarded| && |JoinLines(log[..w.base])| == Total(w.discarded[w.rotatedBefore..])
    ensures |w.discarded| == Rotations(w.posts)
  {
    hide SentByBridge, Records, HoldsLog, Flatten, JoinLines, Raws, CountsOf, Framable, WithinBounds, Rotations, Total;
    ReceivedIsCapped(w.received);
    if w.hasHandle {
      HoldsLogIsConcat(w.log, w.base, w.pending, w.file);
      RawsOfSuffix(w.received, w.openedAt);
      var kept := w.log[w.base..];
      assert forall r <- kept :: r in w.log;
      FramingInvertsJoining(kept);
    }
  }

  lemma RawsOfSuffix(ms: seq<Message>, n: nat)
    requires n <= |ms|
    ensures forall raw <- Raws(ms[n..]) :: raw in Raws(ms)
  {
    assert forall k :: 0 <= k < |ms[n..]| ==> Raws(ms[n..])[k] == Raws(ms)[n + k];
  }

  // ---- What the browser shows ----

  /** Everything given to the display, in order, is the text of distinct lines of the guest's stream in
      stream order. */
  lemma DisplayFollowsTheStream(run: seq<Action>, ms: seq<Message>)
    requires Follow(Next, Init(), run).Some? && Delivered(Follow(Next, Init(), run).value.sent, ms)
    ensures
      var s := Follow(Next, Init(), run).value;
      var lines := LinesShown(s.sent, ms);
      && |lines| == |Shown(ms)|
      && (forall j :: 0 <= j < |lines| ==>
            lines[j].no < |Records(s.consumed)| && Shown(ms)[j].raw == Records(s.consumed)[lines[j].no])
      && (forall i, j :: 0 <= i < j < |lines| ==> lines[i].no < lines[j].no)
  {
    hide Follow, Init, Records, Events, LinesShown, Shown, Delivered, Fits;
    Conservation(run);
    var s := Follow(Next, Init(), run).value;
    EventsTravelInOrder(s);
    ShownInOrder(s.sent, ms);
  }

  ghost predicate InOrder(lines: seq<Line>) {
    forall i, j :: 0 <= i < j < |lines| ==> lines[i].no < lines[j].no
  }

  lemma EventsTravelInOrder(s: State)
    requires InOrder(Pipeline(s))
    ensures InOrder(Events(s.sent)) && forall line <- Events(s.sent) :: line in Pipeline(s)
  {
    hide Events;
    assert forall j :: 0 <= j < |Events(s.sent)| ==> Pipeline(s)[j] == Events(s.sent)[j];
  }

  lemma {:induction false} ShownInOrder(frames: seq<Frame>, ms: seq<Message>)
    requires Delivered(frames, ms) && InOrder(Events(frames))
    ensures var lines := LinesShown(frames, ms);
      && InOrder(lines) && |lines| == |Shown(ms)|
      && (forall j :: 0 <= j < |lines| ==> Shown(ms)[j].raw == lines[j].bytes)
      && (forall line <- lines :: line in Events(frames[..|ms|]))
      && (forall line <- lines :: line in Events(frames))
  {
    if ms != [] {
      hide Framable, Fits;
      var k := |ms| - 1;
      var f, m := frames[k], ms[k];
      assert Decodes(f, m);
      ShownInOrder(frames, ms[..k]);
      var before, next := frames[..k], frames[..k + 1];
      assert next == before + [f];
      EventsOfAppend(before, f);
      EventsOfPrefix(frames, k + 1);
      hide Events;
      if f.Event? { LastIsGreatest(Events(frames), Events(before), f.line); }
    }
  }

  lemma LastIsGreatest(all: seq<Line>, before: seq<Line>, line: Line)
    requires InOrder(all) && before + [line] <= all
    ensures forall l <- before :: l.no < line.no
    ensures forall l <- before + [line] :: l in all
  {
    var n := |before|;
    assert all[n] == (before + [line])[n] == line;
    assert forall j :: 0 <= j < n ==> all[j] == (before + [line])[j] == before[j];
  }

  // ---- What the page shows ----

  ghost predicate Increasing(ns: seq<nat>) {
    forall i, j :: 0 <= i < j < |ns| ==> ns[i] < ns[j]
  }

  /** The places among `items` of those that match. */
  function Places(f: Filters, items: seq<Item>): (places: seq<nat>)
    ensures forall j :: 0 <= j < |places| ==> places[j] < |items|
    ensures Increasing(places)
  {
    if items == [] then []
    else
      var k := |items| - 1;
      Places(f, items[..k]) + (if Matches(f, items[k]) then [k] else [])
  }

  ghost predicate AreAt(some: seq<Item>, places: seq<nat>, items: seq<Item>) {
    |some| == |places| && forall j :: 0 <= j < |places| ==> places[j] < |items| && some[j] == items[places[j]]
  }

  lemma {:induction false} MatchingIsAtPlaces(f: Filters, items: seq<Item>)
    ensures AreAt(Matching(f, items), Places(f, items), items)
    ensures forall k :: 0 <= k < |items| ==> (Matches(f, items[k]) <==> k in Places(f, items))
  {
    if items != [] {
      hide Matches;
      MatchingIsAtPlaces(f, items[..|items| - 1]);
    }
  }

  lemma TailIsAt(some: seq<Item>, places: seq<nat>, items: seq<Item>, n: nat)
    requires AreAt(some, places, items)
    ensures AreAt(Tail(some, n), Tail(places, n), items)
  {
  }

  lemma TailIsLatest(places: seq<nat>, n: nat)
    requires Increasing(places) && n > 0
    ensures Increasing(Tail(places, n)) && forall q <- Tail(places, n) :: q in places
    ensures forall q <- places :: q in Tail(places, n) || (|Tail(places, n)| == n && q < Tail(places, n)[0])
  {
    forall q <- places ensures q in Tail(places, n) || (|Tail(places, n)| == n && q < Tail(places, n)[0]) {
      var k :| 0 <= k < |places| && places[k] == q;
      if |places| > n && k >= |places| - n { assert Tail(places, n)[k - (|places| - n)] == q; }
    }
  }

  /** The display's items stand at increasing places of `shown`, each passes the filter, and only matches
      older than a full display are missing. */
  lemma DisplayPlaces(f: Filters, shown: seq<Item>) returns (places: seq<nat>)
    ensures AreAt(Tail(Matching(f, shown), MAX_TRACE_LINES), places, shown) && Increasing(places)
    ensures forall it <- Tail(Matching(f, shown), MAX_TRACE_LINES) :: Matches(f, it)
    ensures forall q :: 0 <= q < |shown| && Matches(f, shown[q]) ==>
      q in places || (|places| == MAX_TRACE_LINES && q < places[0])
  {
    hide Matching, Matches, Places, Tail, AreAt, Increasing;
    places := Tail(Places(f, shown), MAX_TRACE_LINES);
    MatchingIsAtPlaces(f, shown);
    TailIsAt(Matching(f, shown), Places(f, shown), shown, MAX_TRACE_LINES);
    TailIsLatest(Places(f, shown), MAX_TRACE_LINES);
    ShownMatch(f, shown, places);
  }

  lemma ShownMatch(f: Filters, shown: seq<Item>, places: seq<nat>)
    requires AreAt(Tail(Matching(f, shown), MAX_TRACE_LINES), places, shown)
    requires forall q <- places :: q in Places(f, shown)
    ensures forall it <- Tail(Matching(f, shown), MAX_TRACE_LINES) :: Matches(f, it)
  {
    hide Matching, Matches, Places, Tail;
    MatchingIsAtPlaces(f, shown);
    forall j | 0 <= j < |places| ensures Matches(f, shown[places[j]]) {
      assert places[j] in places;
    }
  }

  /** Where in the feed the pane's `shown` begins. */
  ghost function ShownFrom(p: Pane, feed: seq<Item>): nat
    requires p.Valid() && IsSuffix(p.all, feed)
    reads p
  {
    |feed| - |p.all| + p.upTo - |p.shown|
  }

  lemma ShownIsSegment(p: Pane, feed: seq<Item>)
    requires p.Valid() && IsSuffix(p.all, feed)
    ensures var from := ShownFrom(p, feed); from + |p.shown| <= |feed| && p.shown == feed[from..from + |p.shown|]
  {
    hide Matching, Render;
    var skip, n := |feed| - |p.all|, |p.shown|;
    assert feed[skip..][..p.upTo][p.upTo - n..] == feed[skip + p.upTo - n..skip + p.upTo];
  }

  /** Each of these items is the text of its line, and the lines are in stream order. */
  ghost predicate Follows(items: seq<Item>, nos: seq<nat>, records: seq<Bytes>) {
    && |items| == |nos| && Increasing(nos)
    && forall j :: 0 <= j < |nos| ==> nos[j] < |records| && items[j].raw == records[nos[j]]
  }

  function Nos(lines: seq<Line>): (nos: seq<nat>)
    ensures |nos| == |lines|
  {
    seq(|lines|, j requires 0 <= j < |lines| => lines[j].no)
  }

  lemma PickedFollow(items: seq<Item>, nos: seq<nat>, records: seq<Bytes>, some: seq<Item>, places: seq<nat>)
    returns (picked: seq<nat>)
    requires Follows(items, nos, records) && AreAt(some, places, items) && Increasing(places)
    ensures Follows(some, picked, records)
    ensures forall j :: 0 <= j < |places| ==> picked[j] == nos[places[j]]
  {
    picked := seq(|places|, j requires 0 <= j < |places| => nos[places[j]]);
  }

  lemma SegmentFollows(items: seq<Item>, nos: seq<nat>, records: seq<Bytes>, from: nat, upTo: nat)
    requires from <= upTo <= |items| <= |nos| && Follows(items, nos[..|items|], records)
    ensures Follows(items[from..upTo], nos[from..upTo], records)
  {
    assert nos[from..upTo] == nos[..|items|][from..upTo];
    forall j | 0 <= j < upTo - from
      ensures items[from..upTo][j] == items[from + j] && nos[from..upTo][j] == nos[..|items|][from + j]
    {
    }
  }

  /** From guest to screen: for a pane fed with what the worker has posted, whether or not it was cleared,
      paused or rebuilt meanwhile, the rows are distinct lines of the guest's stream in stream order, at
      most 2000, each passing the filter; and every matching line the pane was asked to show since its last
      rebuild is among them, unless it is older than all 2000. */
  lemma RowsFollowTheStream(run: seq<Action>, w: Worker, p: Pane) returns (items: seq<Item>, nos: seq<nat>)
    requires Follow(Next, Init(), run).Some? && Delivered(Follow(Next, Init(), run).value.sent, w.received)
    requires w.Valid() && p.Valid() && IsSuffix(p.all, Posted(w.posts))
    ensures |p.rows| == |items| <= MAX_TRACE_LINES
    ensures forall j :: 0 <= j < |items| ==> p.rows[j].item == items[j] && p.rows[j].raw == p.showRaw
    ensures Follows(items, nos, Records(Follow(Next, Init(), run).value.consumed))
    ensures forall it <- items :: Matches(p.Current(), it)
    ensures
      var lines, from := LinesShown(Follow(Next, Init(), run).value.sent, w.received), ShownFrom(p, Posted(w.posts));
      && from + |p.shown| <= |lines|
      && forall q :: 0 <= q < |p.shown| && Matches(p.Current(), p.shown[q]) ==>
           lines[from + q].no in nos || (|nos| == MAX_TRACE_LINES && lines[from + q].no < nos[0])
  {
    hide Follow, Init, Next, Records, LinesShown, Shown, Decodes, Matches, Matching, Posted, Follows, IsSuffix, Tail;
    var s, posted := Follow(Next, Init(), run).value, Posted(w.posts);
    var from, lines := ShownFrom(p, posted), LinesShown(s.sent, w.received);
    FeedFollows(run, w);
    ShownIsSegment(p, posted);
    items := Tail(Matching(p.Current(), p.shown), MAX_TRACE_LINES);
    nos := DisplayFollows(p.Current(), p.shown, posted, Nos(lines), Records(s.consumed), from);
  }

  lemma DisplayFollows(f: Filters, shown: seq<Item>, posted: seq<Item>, all: seq<nat>, records: seq<Bytes>, from: nat)
    returns (nos: seq<nat>)
    requires |posted| <= |all| && Follows(posted, all[..|posted|], records)
    requires from + |shown| <= |posted| && shown == posted[from..from + |shown|]
    ensures var items := Tail(Matching(f, shown), MAX_TRACE_LINES);
      Follows(items, nos, records) && forall it <- items :: Matches(f, it)
    ensures forall q :: 0 <= q < |shown| && Matches(f, shown[q]) ==>
      all[from + q] in nos || (|nos| == MAX_TRACE_LINES && all[from + q] < nos[0])
  {
    hide Matches, Matching, Tail;
    var mine := all[from..from + |shown|];
    var places := DisplayPlaces(f, shown);
    SegmentFollows(posted, all, records, from, from + |shown|);
    nos := PickedFollow(shown, mine, records, Tail(Matching(f, shown), MAX_TRACE_LINES), places);
    hide AreAt;
    forall q | 0 <= q < |shown| && Matches(f, shown[q])
      ensures all[from + q] in nos || (|nos| == MAX_TRACE_LINES && all[from + q] < nos[0])
    {
      assert mine[q] == all[from + q];
      PickedOrOlder(mine, places, nos, q);
    }
  }

  lemma PickedOrOlder(nos: seq<nat>, places: seq<nat>, picked: seq<nat>, q: nat)
    requires Increasing(nos) && q < |nos| && |picked| == |places|
    requires forall j :: 0 <= j < |places| ==> places[j] < |nos| && picked[j] == nos[places[j]]
    ensures q in places ==> nos[q] in picked
    ensures places != [] && q < places[0] ==> nos[q] < picked[0]
  {
    if q in places {
      var j :| 0 <= j < |places| && places[j] == q;
      assert picked[j] == nos[q];
    }
  }

  /** What the worker has posted is text of distinct lines in stream order. */
  lemma FeedFollows(run: seq<Action>, w: Worker)
    requires Follow(Next, Init(), run).Some? && Delivered(Follow(Next, Init(), run).value.sent, w.received)
    requires w.Valid()
    ensures
      var s := Follow(Next, Init(), run).value;
      var nos, posted := Nos(LinesShown(s.sent, w.received)), Posted(w.posts);
      |posted| <= |nos| && Follows(posted, nos[..|posted|], Records(s.consumed))
  {
    hide Follow, Init, Next, Records, LinesShown, Shown, Decodes, Posted;
    DisplayFollowsTheStream(run, w.received);
    assert Posted(w.posts) <= Shown(w.received);
  }
}
