/** The interactive terminal across both hops, as a transition system: the gateway's bridge between an
    SSH session and a WebSocket (internal/gw/bridge.go), and the BFF's relay between that WebSocket and
    the browser's (internal/bff/relay.go).  Two goroutines each; the frames under way are between them. */
module Terminal {
  import opened LineFraming
  import opened Options
  import opened Runs
  import opened Shutdown

  const READ_BUF_SIZE: nat := 32 * 1024

  // ---- Frames and what they mean ----

  datatype Control = Control(isResize: bool, cols: nat, rows: nat)

  /** A text frame carries a control message, or bytes that do not decode to one. */
  datatype Frame = Binary(data: Bytes) | Text(ctrl: Option<Control>)

  datatype SessionOp = Input(data: Bytes) | Resize(cols: nat, rows: nat)

  /** The bytes of the binary frames. */
  function Payload(frames: seq<Frame>): Bytes {
    if frames == [] then []
    else
      var f := frames[|frames| - 1];
      Payload(frames[..|frames| - 1]) + (if f.Binary? then f.data else [])
  }

  function OpsOf(f: Frame): seq<SessionOp> {
    match f
    case Binary(data) => [Input(data)]
    case Text(Some(c)) => if c.isResize then [Resize(c.cols, c.rows)] else []
    case Text(None) => []
  }

  /** What the session should see of the browser's frames. */
  function Ops(frames: seq<Frame>): seq<SessionOp> {
    if frames == [] then [] else Ops(frames[..|frames| - 1]) + OpsOf(frames[|frames| - 1])
  }

  /** The bytes the session was given. */
  function Written(ops: seq<SessionOp>): Bytes {
    if ops == [] then []
    else
      var o := ops[|ops| - 1];
      Written(ops[..|ops| - 1]) + (if o.Input? then o.data else [])
  }

  /** A resize, and the bytes before it. */
  datatype Sized = Sized(cols: nat, rows: nat, before: Bytes)

  /** The resizes the session saw. */
  function Resizes(ops: seq<SessionOp>): seq<Sized> {
    if ops == [] then []
    else
      var before, o := ops[..|ops| - 1], ops[|ops| - 1];
      Resizes(before) + (if o.Resize? then [Sized(o.cols, o.rows, Written(before))] else [])
  }

  /** The resizes the browser asked for. */
  function Requested(frames: seq<Frame>): seq<Sized> {
    if frames == [] then []
    else
      var before, f := frames[..|frames| - 1], frames[|frames| - 1];
      Requested(before)
      + (if f.Text? && f.ctrl.Some? && f.ctrl.value.isResize
         then [Sized(f.ctrl.value.cols, f.ctrl.value.rows, Payload(before))] else [])
  }

  // ---- State ----

  datatype Goroutine =
    | SessionOutput   // bridge: session to WebSocket
    | SessionInput    // bridge: WebSocket to session
    | RelayDown       // relay: gateway to browser
    | RelayUp         // relay: browser to gateway

  /** A copying loop; `last` is set when the read that gave the frame also reported an error. */
  datatype Pump =
    | Reading
    | Holding(frame: Frame, last: bool)
    | Leaving(lost: seq<Frame>)
    | Gone(lost: seq<Frame>)

  /** One side's shutdown: what it closes first, what second. */
  datatype Closing = Closing(once: Once<Goroutine>, firstOpen: bool, secondOpen: bool, firstCloses: nat,
                             secondCloses: nat)

  datatype State = State(
    output: Pump, input: Pump, down: Pump, up: Pump,
    bridge: Closing,             // the session, then the gateway's end of the middle WebSocket
    relay: Closing,              // the browser's WebSocket, then the BFF's end of the middle one
    browserOpen: bool,
    produced: Bytes,             // what reading the session has returned
    toBff: seq<Frame>,           // under way from gateway to BFF
    toBrowser: seq<Frame>,       // handed to the browser's WebSocket
    typed: seq<Frame>,           // everything the browser sent
    fromBrowser: seq<Frame>,     // of that, under way to the BFF
    toGateway: seq<Frame>,       // under way from BFF to gateway
    handled: seq<Frame>,         // frames the bridge has dealt with
    ops: seq<SessionOp>)         // what the session saw

  function Init(): State {
    var open := Closing(Fresh, true, true, 0, 0);
    State(Reading, Reading, Reading, Reading, open, open, true, [], [], [], [], [], [], [], [])
  }

  // ---- Steps ----

  datatype DownAction =
    | ReadSession(bytes: Bytes, err: bool)
    | WriteOutput(ok: bool)
    | ReadGateway
    | ReadGatewayError
    | WriteBrowser(ok: bool)

  datatype UpAction =
    | ReadBrowser
    | ReadBrowserError
    | WriteGateway(ok: bool)
    | ReadBff
    | ReadBffError
    | Apply
    | ApplyFails(accepted: nat)  // the session took only so many bytes

  datatype CloseAction = Begin(who: Goroutine) | CloseFirst(relay: bool) | CloseSecond(relay: bool) | Leave(who: Goroutine)

  datatype Action =
    | Down(d: DownAction)
    | Up(u: UpAction)
    | Close(c: CloseAction)
    | BrowserSends(f: Frame)
    | BrowserCloses

  /** After a write: the loop ends if the write failed or the read before it had. */
  function AfterWrite(p: Pump, ok: bool): Pump
    requires p.Holding?
  {
    if !ok then Leaving([p.frame]) else if p.last then Leaving([]) else Reading
  }

  function DownNext(s: State, a: DownAction): Option<State> {
    match a
    case ReadSession(bytes, err) =>
      if !s.output.Reading? || |bytes| > READ_BUF_SIZE || (bytes != [] && !s.bridge.firstOpen)
         || (!err && !s.bridge.firstOpen) then None
      else if bytes == [] then Some(s.(output := if err then Leaving([]) else Reading))
      else Some(s.(produced := s.produced + bytes, output := Holding(Binary(bytes), err)))
    case WriteOutput(ok) =>
      if !s.output.Holding? || (ok && !s.bridge.secondOpen) then None
      else
        Some(s.(output := AfterWrite(s.output, ok), toBff := s.toBff + (if ok then [s.output.frame] else [])))
    case ReadGateway =>
      if s.down.Reading? && s.relay.secondOpen && s.toBff != [] then
        Some(s.(down := Holding(s.toBff[0], false), toBff := s.toBff[1..]))
      else None
    case ReadGatewayError => if s.down.Reading? then Some(s.(down := Leaving([]))) else None
    case WriteBrowser(ok) =>
      if !s.down.Holding? || (ok && !s.relay.firstOpen) then None
      else
        Some(s.(down := AfterWrite(s.down, ok), toBrowser := s.toBrowser + (if ok then [s.down.frame] else [])))
  }

  function UpNext(s: State, a: UpAction): Option<State> {
    match a
    case ReadBrowser =>
      if s.up.Reading? && s.relay.firstOpen && s.fromBrowser != [] then
        Some(s.(up := Holding(s.fromBrowser[0], false), fromBrowser := s.fromBrowser[1..]))
      else None
    case ReadBrowserError => if s.up.Reading? then Some(s.(up := Leaving([]))) else None
    case WriteGateway(ok) =>
      if !s.up.Holding? || (ok && !s.relay.secondOpen) then None
      else
        Some(s.(up := AfterWrite(s.up, ok), toGateway := s.toGateway + (if ok then [s.up.frame] else [])))
    case ReadBff =>
      if s.input.Reading? && s.bridge.secondOpen && s.toGateway != [] then
        Some(s.(input := Holding(s.toGateway[0], false), toGateway := s.toGateway[1..]))
      else None
    case ReadBffError => if s.input.Reading? then Some(s.(input := Leaving([]))) else None
    case Apply =>
      if !s.input.Holding? || (s.input.frame.Binary? && !s.bridge.firstOpen) then None
      else
        Some(s.(input := Reading, handled := s.handled + [s.input.frame], ops := s.ops + OpsOf(s.input.frame)))
    case ApplyFails(n) =>
      if !s.input.Holding? || !s.input.frame.Binary? || n > |s.input.frame.data|
         || (n > 0 && !s.bridge.firstOpen) then None
      else
        Some(s.(input := Leaving([s.input.frame]), ops := s.ops + [Input(s.input.frame.data[..n])]))
  }

  function PumpOf(s: State, g: Goroutine): Pump {
    match g
    case SessionOutput => s.output
    case SessionInput => s.input
    case RelayDown => s.down
    case RelayUp => s.up
  }

  predicate OfRelay(g: Goroutine) { g == RelayDown || g == RelayUp }

  function ClosingOf(s: State, relay: bool): Closing { if relay then s.relay else s.bridge }

  function WithClosing(s: State, relay: bool, c: Closing): State {
    if relay then s.(relay := c) else s.(bridge := c)
  }

  function WithGone(s: State, g: Goroutine): State
    requires PumpOf(s, g).Leaving?
  {
    match g
    case SessionOutput => s.(output := Gone(s.output.lost))
    case SessionInput => s.(input := Gone(s.input.lost))
    case RelayDown => s.(down := Gone(s.down.lost))
    case RelayUp => s.(up := Gone(s.up.lost))
  }

  function CloseNext(s: State, a: CloseAction): Option<State> {
    match a
    case Begin(g) =>
      var c := ClosingOf(s, OfRelay(g));
      if PumpOf(s, g).Leaving? && c.once.Fresh? then
        Some(WithClosing(s, OfRelay(g), c.(once := ClosingFirst(g))))
      else None
    case CloseFirst(r) =>
      var c := ClosingOf(s, r);
      if c.once.ClosingFirst? then
        Some(WithClosing(s, r, c.(once := ClosingSecond(c.once.owner), firstOpen := false, firstCloses := c.firstCloses + 1)))
      else None
    case CloseSecond(r) =>
      var c := ClosingOf(s, r);
      if c.once.ClosingSecond? then
        Some(WithClosing(s, r, c.(once := Completed, secondOpen := false, secondCloses := c.secondCloses + 1)))
      else None
    case Leave(g) =>
      if PumpOf(s, g).Leaving? && ClosingOf(s, OfRelay(g)).once.Completed? then Some(WithGone(s, g)) else None
  }

  function Next(s: State, a: Action): Option<State> {
    match a
    case Down(d) => DownNext(s, d)
    case Up(u) => UpNext(s, u)
    case Close(c) => CloseNext(s, c)
    case BrowserSends(f) =>
      if s.browserOpen then Some(s.(typed := s.typed + [f], fromBrowser := s.fromBrowser + [f])) else None
    case BrowserCloses => if s.browserOpen then Some(s.(browserOpen := false)) else None
  }

  // ---- Invariants ----

  function Held(p: Pump): seq<Frame> {
    match p
    case Reading => []
    case Holding(f, _) => [f]
    case Leaving(lost) => lost
    case Gone(lost) => lost
  }

  /** Everything read from the session, in the frames it is now in. */
  function Downstream(s: State): seq<Frame> {
    s.toBrowser + Held(s.down) + s.toBff + Held(s.output)
  }

  /** Everything the browser sent, wherever it is now. */
  function Upstream(s: State): seq<Frame> {
    s.handled + Held(s.input) + s.toGateway + Held(s.up) + s.fromBrowser
  }

  predicate OutputFrame(f: Frame) { f.Binary? && 0 < |f.data| <= READ_BUF_SIZE }

  /** Binary frames, none larger than the read buffer, that together carry `bytes`. */
  ghost predicate Carry(frames: seq<Frame>, bytes: Bytes) {
    Payload(frames) == bytes && forall k :: 0 <= k < |frames| ==> OutputFrame(frames[k])
  }

  ghost predicate DownOk(s: State) {
    Carry(Downstream(s), s.produced)
  }

  /** `ops` is what `frames` ask for, or that and the start of one more binary frame. */
  ghost predicate Obeys(ops: seq<SessionOp>, frames: seq<Frame>, cut: seq<Frame>) {
    if cut == [] then ops == Ops(frames)
    else
      && |cut| == 1 && cut[0].Binary?
      && exists n :: 0 <= n <= |cut[0].data| && ops == Ops(frames) + [Input(cut[0].data[..n])]
  }

  /** The frame the session took only the start of. */
  function CutShort(p: Pump): seq<Frame> {
    if p.Leaving? || p.Gone? then p.lost else []
  }

  ghost predicate UpOk(s: State) {
    s.typed == Upstream(s) && Obeys(s.ops, s.handled, CutShort(s.input))
  }

  ghost predicate ClosingOk(c: Closing, a: Pump, b: Pump, ga: Goroutine, gb: Goroutine) {
    && (c.firstOpen <==> c.once.Fresh? || c.once.ClosingFirst?)
    && (c.secondOpen <==> !c.once.Completed?)
    && c.firstCloses == (if c.firstOpen then 0 else 1)
    && c.secondCloses == (if c.secondOpen then 0 else 1)
    && (c.once.ClosingFirst? || c.once.ClosingSecond? ==>
          (c.once.owner == ga && a.Leaving?) || (c.once.owner == gb && b.Leaving?))
    && (a.Gone? || b.Gone? ==> c.once.Completed?)
  }

  ghost predicate TeardownOk(s: State) {
    && ClosingOk(s.bridge, s.output, s.input, SessionOutput, SessionInput)
    && ClosingOk(s.relay, s.down, s.up, RelayDown, RelayUp)
  }

  ghost predicate Inv(s: State) { DownOk(s) && UpOk(s) && TeardownOk(s) }

  // ---- What every step keeps ----

  lemma PayloadOfAppend(frames: seq<Frame>, f: Frame)
    ensures Payload(frames + [f]) == Payload(frames) + (if f.Binary? then f.data else [])
    ensures Ops(frames + [f]) == Ops(frames) + OpsOf(f)
  {
    assert (frames + [f])[..|frames|] == frames;
  }

  lemma {:induction false} PayloadOfConcat(a: seq<Frame>, b: seq<Frame>)
    ensures Payload(a + b) == Payload(a) + Payload(b)
  {
    if b == [] {
      assert a + b == a;
    } else {
      var b', f := b[..|b| - 1], b[|b| - 1];
      assert a + b == (a + b') + [f];
      PayloadOfConcat(a, b');
      PayloadOfAppend(a + b', f);
    }
  }

  lemma CarryMore(frames: seq<Frame>, sofar: Bytes, bytes: Bytes)
    requires Carry(frames, sofar) && OutputFrame(Binary(bytes))
    ensures Carry(frames + [Binary(bytes)], sofar + bytes)
  {
    PayloadOfAppend(frames, Binary(bytes));
  }

  /** Frames move one place along: taken off a link, or put on the next. */
  lemma Take<T>(a: seq<T>, q: seq<T>, rest: seq<T>)
    requires q != []
    ensures a + [] + q + rest == a + [q[0]] + q[1..] + rest
    ensures a + [] + q == a + [q[0]] + q[1..]
  {
  }

  lemma Put<T>(a: seq<T>, q: seq<T>, x: T, rest: seq<T>)
    ensures a + q + [x] + rest == a + (q + [x]) + [] + rest
    ensures a + q + [x] == a + (q + [x]) + []
    ensures q + [x] + a + rest == (q + [x]) + [] + a + rest
  {
  }

  lemma DownKept(s: State, a: DownAction)
    requires DownOk(s) && DownNext(s, a).Some?
    ensures DownOk(DownNext(s, a).value)
  {
    hide Carry;
    var s' := DownNext(s, a).value;
    match a
    case ReadSession(bytes, err) =>
      if bytes != [] {
        CarryMore(Downstream(s), s.produced, bytes);
        assert Downstream(s') == Downstream(s) + [Binary(bytes)];
      }
    case WriteOutput(ok) =>
      if ok { Put(s.toBrowser + Held(s.down), s.toBff, s.output.frame, []); } else { assert s.toBff + [] == s.toBff; }
    case ReadGateway => Take(s.toBrowser, s.toBff, Held(s.output));
    case WriteBrowser(ok) =>
      if ok { Put(s.toBff, s.toBrowser, s.down.frame, Held(s.output)); } else { assert s.toBrowser + [] == s.toBrowser; }
    case ReadGatewayError =>
  }

  lemma UpKept(s: State, a: UpAction)
    requires UpOk(s) && UpNext(s, a).Some?
    ensures UpOk(UpNext(s, a).value)
  {
    hide Ops, OpsOf, Obeys;
    var s' := UpNext(s, a).value;
    match a
    case ReadBrowser => Take(s.handled + Held(s.input) + s.toGateway, s.fromBrowser, []);
    case WriteGateway(ok) =>
      if ok { Put(s.handled + Held(s.input), s.toGateway, s.up.frame, s.fromBrowser); }
    case ReadBff => TakeMiddle(s.handled, s.toGateway, Held(s.up), s.fromBrowser);
    case Apply =>
      PutMiddle(s.toGateway, s.handled, s.input.frame, Held(s.up), s.fromBrowser);
      ObeyNext(s.ops, s.handled, s.input.frame);
    case ApplyFails(n) => ObeyStart(s.ops, s.handled, s.input.frame, n);
    case _ =>
  }

  lemma TakeMiddle<T>(a: seq<T>, q: seq<T>, b: seq<T>, rest: seq<T>)
    requires q != []
    ensures a + [] + q + b + rest == a + [q[0]] + q[1..] + b + rest
  {
    Take(a, q, b);
  }

  lemma PutMiddle<T>(a: seq<T>, q: seq<T>, x: T, b: seq<T>, rest: seq<T>)
    ensures q + [x] + a + b + rest == (q + [x]) + [] + a + b + rest
  {
    Put(a, q, x, b);
  }

  lemma ObeyNext(ops: seq<SessionOp>, handled: seq<Frame>, f: Frame)
    requires Obeys(ops, handled, [])
    ensures Obeys(ops + OpsOf(f), handled + [f], [])
  {
    PayloadOfAppend(handled, f);
  }

  lemma ObeyStart(ops: seq<SessionOp>, handled: seq<Frame>, f: Frame, n: nat)
    requires Obeys(ops, handled, []) && f.Binary? && n <= |f.data|
    ensures Obeys(ops + [Input(f.data[..n])], handled, [f])
  {
  }

  lemma DownTouches(s: State, a: DownAction)
    requires DownNext(s, a).Some?
    ensures var s' := DownNext(s, a).value;
      && s'.(output := s.output, down := s.down, produced := s.produced, toBff := s.toBff, toBrowser := s.toBrowser) == s
      && !s'.output.Gone? == !s.output.Gone? && !s'.down.Gone? == !s.down.Gone?
      && (s.output.Leaving? ==> s'.output.Leaving?) && (s.down.Leaving? ==> s'.down.Leaving?)
  {
  }

  lemma UpTouches(s: State, a: UpAction)
    requires UpNext(s, a).Some?
    ensures var s' := UpNext(s, a).value;
      && s'.(input := s.input, up := s.up, fromBrowser := s.fromBrowser, toGateway := s.toGateway,
             handled := s.handled, ops := s.ops) == s
      && !s'.input.Gone? == !s.input.Gone? && !s'.up.Gone? == !s.up.Gone?
      && (s.input.Leaving? ==> s'.input.Leaving?) && (s.up.Leaving? ==> s'.up.Leaving?)
  {
    hide Ops, OpsOf;
  }

  lemma CloseKept(s: State, a: CloseAction)
    requires Inv(s) && CloseNext(s, a).Some?
    ensures Inv(CloseNext(s, a).value)
  {
    CloseTouches(s, a);
    ClosingKept(s, a);
    hide CloseNext, TeardownOk, Carry, Obeys;
  }

  lemma CloseTouches(s: State, a: CloseAction)
    requires CloseNext(s, a).Some?
    ensures var s' := CloseNext(s, a).value;
      && s'.(output := s.output, input := s.input, down := s.down, up := s.up, bridge := s.bridge, relay := s.relay) == s
      && Held(s'.output) == Held(s.output) && Held(s'.input) == Held(s.input)
      && Held(s'.down) == Held(s.down) && Held(s'.up) == Held(s.up)
      && CutShort(s'.input) == CutShort(s.input)
  {
  }

  lemma ClosingKept(s: State, a: CloseAction)
    requires TeardownOk(s) && CloseNext(s, a).Some?
    ensures TeardownOk(CloseNext(s, a).value)
  {
  }

  lemma StepKeeps(s: State, a: Action)
    requires Inv(s) && Next(s, a).Some?
    ensures Inv(Next(s, a).value)
  {
    match a
    case Down(d) =>
      DownKept(s, d);
      DownTouches(s, d);
      hide DownNext, DownOk, Obeys;
    case Up(u) =>
      UpKept(s, u);
      UpTouches(s, u);
      hide UpNext, UpOk, Carry;
    case Close(c) =>
      CloseKept(s, c);
      hide CloseNext, Inv;
    case _ => BrowserKeeps(s, a);
  }

  lemma BrowserKeeps(s: State, a: Action)
    requires Inv(s) && (a.BrowserSends? || a.BrowserCloses?) && Next(s, a).Some?
    ensures Inv(Next(s, a).value)
  {
    hide Carry, Obeys, ClosingOk;
    if a.BrowserSends? {
      assert Upstream(Next(s, a).value) == Upstream(s) + [a.f];
    }
  }

  lemma InitOk()
    ensures Inv(Init())
  {
  }

  lemma {:induction false} Reachable(run: seq<Action>)
    requires Follow(Next, Init(), run).Some?
    ensures Inv(Follow(Next, Init(), run).value)
  {
    if run == [] {
      InitOk();
    } else {
      hide Inv, Next, Init;
      Reachable(run[..|run| - 1]);
      StepKeeps(Follow(Next, Init(), run[..|run| - 1]).value, run[|run| - 1]);
    }
  }

  // ---- Theorems over every run ----

  /** What the browser is handed is binary frames that together are a prefix of the session's output,
      however that was cut into reads. */
  lemma OutputIsTransparent(run: seq<Action>)
    requires Follow(Next, Init(), run).Some?
    ensures var s := Follow(Next, Init(), run).value;
      && Payload(s.toBrowser) <= s.produced
      && forall k :: 0 <= k < |s.toBrowser| ==> OutputFrame(s.toBrowser[k])
  {
    hide Follow, Payload, Downstream, UpOk, TeardownOk;
    Reachable(run);
    OutputOf(Follow(Next, Init(), run).value);
  }

  lemma OutputOf(s: State)
    requires DownOk(s)
    ensures Payload(s.toBrowser) <= s.produced
    ensures forall k :: 0 <= k < |s.toBrowser| ==> OutputFrame(s.toBrowser[k])
  {
    hide Payload;
    var rest := Held(s.down) + s.toBff + Held(s.output);
    assert Downstream(s) == s.toBrowser + rest;
    PayloadOfConcat(s.toBrowser, rest);
    assert forall k :: 0 <= k < |s.toBrowser| ==> s.toBrowser[k] == Downstream(s)[k];
  }

  lemma {:induction false} WrittenOfOps(frames: seq<Frame>)
    ensures Written(Ops(frames)) == Payload(frames)
  {
    if frames != [] {
      var before, f := frames[..|frames| - 1], frames[|frames| - 1];
      WrittenOfOps(before);
      match f
      case Binary(data) => WrittenOfAppend(Ops(before), Input(data));
      case Text(Some(c)) =>
        if c.isResize { WrittenOfAppend(Ops(before), Resize(c.cols, c.rows)); }
        else { assert Ops(before) + [] == Ops(before); }
      case Text(None) => assert Ops(before) + [] == Ops(before);
    }
  }

  /** The session is resized as often as the browser asks, to the columns and rows it asks for, each time
      after exactly the bytes that came before the request. */
  lemma {:induction false} ResizesOfOps(frames: seq<Frame>)
    ensures Resizes(Ops(frames)) == Requested(frames)
  {
    if frames == [] {
      assert Ops(frames) == [];
    } else {
      var before, f := frames[..|frames| - 1], frames[|frames| - 1];
      ResizesOfOps(before);
      WrittenOfOps(before);
      hide Written, Payload, Ops, Resizes, Requested;
      assert frames == before + [f];
      PayloadOfAppend(before, f);
      RequestedOfAppend(before, f);
      ResizesOfNext(Ops(before), Requested(before), f, Payload(before));
    }
  }

  lemma ResizesOfNext(ops: seq<SessionOp>, requested: seq<Sized>, f: Frame, sofar: Bytes)
    requires Resizes(ops) == requested && Written(ops) == sofar
    ensures Resizes(ops + OpsOf(f))
         == requested + (if f.Text? && f.ctrl.Some? && f.ctrl.value.isResize
                         then [Sized(f.ctrl.value.cols, f.ctrl.value.rows, sofar)] else [])
  {
    hide Written, Resizes;
    NoResizes(ops);
    match f
    case Binary(data) => ResizesOfAppend(ops, Input(data));
    case Text(Some(c)) =>
      if c.isResize { ResizesOfAppend(ops, Resize(c.cols, c.rows)); }
    case Text(None) =>
  }

  lemma NoResizes(ops: seq<SessionOp>)
    ensures ops + [] == ops && Resizes(ops) + [] == Resizes(ops)
  {
  }

  lemma RequestedOfAppend(frames: seq<Frame>, f: Frame)
    ensures Requested(frames + [f])
         == Requested(frames) + (if f.Text? && f.ctrl.Some? && f.ctrl.value.isResize
                                 then [Sized(f.ctrl.value.cols, f.ctrl.value.rows, Payload(frames))] else [])
  {
    assert (frames + [f])[..|frames|] == frames;
  }

  lemma ResizesOfAppend(ops: seq<SessionOp>, o: SessionOp)
    ensures Resizes(ops + [o]) == Resizes(ops) + (if o.Resize? then [Sized(o.cols, o.rows, Written(ops))] else [])
  {
    assert (ops + [o])[..|ops|] == ops;
  }

  lemma WrittenOfAppend(ops: seq<SessionOp>, o: SessionOp)
    ensures Written(ops + [o]) == Written(ops) + (if o.Input? then o.data else [])
  {
    assert (ops + [o])[..|ops|] == ops;
  }

  /** The session sees the browser's frames in order, resizes in place among the writes: exactly those of
      the first frames, with the columns, rows and preceding bytes of each resize, and at most the start of
      one more write. */
  ghost predicate SeenInOrder(s: State) {
    && s.handled <= s.typed
    && (s.ops == Ops(s.handled) || (|s.handled| < |s.typed| && Obeys(s.ops, s.handled, [s.typed[|s.handled|]])))
    && Written(s.ops) <= Payload(s.typed)
    && Resizes(s.ops) == Requested(s.handled)
  }

  lemma InputIsTransparent(run: seq<Action>)
    requires Follow(Next, Init(), run).Some?
    ensures SeenInOrder(Follow(Next, Init(), run).value)
  {
    hide Follow, DownOk, UpOk, TeardownOk, SeenInOrder;
    Reachable(run);
    InputOf(Follow(Next, Init(), run).value);
  }

  lemma InputOf(s: State)
    requires UpOk(s)
    ensures SeenInOrder(s)
  {
    hide Obeys, Payload, Ops, Written, Resizes, Requested;
    var cut, rest := CutShort(s.input), s.toGateway + Held(s.up) + s.fromBrowser;
    Regroup(s.handled, Held(s.input), s.toGateway, Held(s.up), s.fromBrowser);
    if cut == [] {
      ObeyWhole(s.ops, s.handled, Held(s.input) + rest);
    } else {
      ObeyCut(s.ops, s.handled, cut, rest);
    }
  }

  lemma Regroup<T>(a: seq<T>, b: seq<T>, c: seq<T>, d: seq<T>, e: seq<T>)
    ensures a + b + c + d + e == a + (b + (c + d + e))
    ensures a <= a + (b + (c + d + e))
  {
  }

  lemma ObeyWhole(ops: seq<SessionOp>, handled: seq<Frame>, rest: seq<Frame>)
    requires Obeys(ops, handled, [])
    ensures ops == Ops(handled) && Written(ops) <= Payload(handled + rest)
    ensures Resizes(ops) == Requested(handled)
  {
    WrittenOfOps(handled);
    ResizesOfOps(handled);
    PayloadOfConcat(handled, rest);
    hide Payload, Ops, Written, Resizes, Requested;
  }

  lemma ObeyCut(ops: seq<SessionOp>, handled: seq<Frame>, cut: seq<Frame>, rest: seq<Frame>)
    requires cut != [] && Obeys(ops, handled, cut)
    ensures Obeys(ops, handled, [(handled + (cut + rest))[|handled|]])
    ensures Written(ops) <= Payload(handled + (cut + rest))
    ensures Resizes(ops) == Requested(handled)
  {
    hide Payload, Ops, Written, Resizes, Requested;
    NoResizes(Ops(handled));
    ResizesOfOps(handled);
    var n :| 0 <= n <= |cut[0].data| && ops == Ops(handled) + [Input(cut[0].data[..n])];
    WrittenOfOps(handled);
    WrittenOfAppend(Ops(handled), Input(cut[0].data[..n]));
    ResizesOfAppend(Ops(handled), Input(cut[0].data[..n]));
    PayloadOfConcat(handled, cut + rest);
    PayloadOfConcat(cut, rest);
    PayloadOfOne(cut[0]);
    assert cut == [cut[0]];
  }

  lemma PayloadOfOne(f: Frame)
    ensures Payload([f]) == if f.Binary? then f.data else []
  {
    PayloadOfAppend([], f);
    assert [] + [f] == [f];
  }

  // ---- Teardown ----

  predicate AllGone(s: State) { s.output.Gone? && s.input.Gone? && s.down.Gone? && s.up.Gone? }

  predicate AllOpen(s: State) {
    && s.browserOpen
    && s.bridge == Closing(Fresh, true, true, 0, 0) && s.relay == Closing(Fresh, true, true, 0, 0)
  }

  /** Neither end of the WebSocket between gateway and BFF has been closed. */
  predicate MiddleOpen(s: State) { s.bridge.secondOpen && s.relay.secondOpen }

  /** Steps that wait for nobody outside.  A read fails only when its own end was closed, or the other end
      was and nothing is left under way.  A write to the session or to the browser may block for as long as
      that end is open; one between gateway and BFF, until the other side reads. */
  predicate Forced(s: State, a: Action) {
    match a
    case Down(ReadSession(bytes, err)) => bytes == [] && err && !s.bridge.firstOpen
    case Down(WriteOutput(ok)) => if ok then MiddleOpen(s) && s.down.Reading? else !MiddleOpen(s)
    case Down(ReadGatewayError) => !s.relay.secondOpen || (!s.bridge.secondOpen && s.toBff == [])
    case Down(WriteBrowser(ok)) => !ok && !(s.relay.firstOpen && s.browserOpen)
    case Up(ReadBrowserError) => !s.relay.firstOpen || (!s.browserOpen && s.fromBrowser == [])
    case Up(WriteGateway(ok)) => if ok then MiddleOpen(s) && s.input.Reading? else !MiddleOpen(s)
    case Up(ReadBffError) => !s.bridge.secondOpen || (!s.relay.secondOpen && s.toGateway == [])
    case Up(Apply) => s.input.Holding? && s.input.frame.Text?
    case Up(ApplyFails(n)) => n == 0 && !s.bridge.firstOpen
    case BrowserSends(_) => false
    case BrowserCloses => false
    case _ => true
  }

  /** The bridge is in a write that an open session has not taken. */
  predicate SessionBlocks(s: State) { s.input.Holding? && s.input.frame.Binary? && s.bridge.firstOpen }

  /** The relay is in a write that an open browser has not taken. */
  predicate BrowserBlocks(s: State) { s.down.Holding? && s.relay.firstOpen && s.browserOpen }

  /** Nothing has been closed, nothing is under way, and all four wait for input. */
  predicate Waits(s: State) {
    && AllOpen(s)
    && s.output.Reading? && s.input.Reading? && s.down.Reading? && s.up.Reading?
    && s.toBff == s.fromBrowser == s.toGateway == []
  }

  predicate Moves(s: State, a: Action) { Next(s, a).Some? && Forced(s, a) }

  function LeavingMove(s: State, g: Goroutine): Action {
    Close(if ClosingOf(s, OfRelay(g)).once.Fresh? then Begin(g) else Leave(g))
  }

  function OutputMove(s: State): Action {
    if s.output.Reading? then Down(ReadSession([], true))
    else if s.output.Holding? then Down(WriteOutput(MiddleOpen(s)))
    else LeavingMove(s, SessionOutput)
  }

  function InputMove(s: State): Action {
    if s.input.Reading? then Up(if s.bridge.secondOpen && s.toGateway != [] then ReadBff else ReadBffError)
    else if s.input.Holding? then Up(if s.input.frame.Binary? && !s.bridge.firstOpen then ApplyFails(0) else Apply)
    else LeavingMove(s, SessionInput)
  }

  function DownMove(s: State): Action {
    if s.down.Reading? then Down(if s.relay.secondOpen && s.toBff != [] then ReadGateway else ReadGatewayError)
    else if s.down.Holding? then Down(WriteBrowser(false))
    else LeavingMove(s, RelayDown)
  }

  function UpMove(s: State): Action {
    if s.up.Reading? then Up(if s.relay.firstOpen && s.fromBrowser != [] then ReadBrowser else ReadBrowserError)
    else if s.up.Holding? then Up(WriteGateway(MiddleOpen(s)))
    else LeavingMove(s, RelayUp)
  }

  predicate Settled(c: Closing) { c.once.Fresh? || c.once.Completed? }

  lemma BridgeMoves(s: State)
    requires TeardownOk(s) && Settled(s.bridge)
    ensures Moves(s, OutputMove(s)) || s.output.Gone? || (s.output.Reading? && s.bridge.firstOpen)
         || (s.output.Holding? && MiddleOpen(s) && !s.down.Reading?)
    ensures Moves(s, InputMove(s)) || s.input.Gone? || SessionBlocks(s)
         || (s.input.Reading? && MiddleOpen(s) && s.toGateway == [])
  {
    hide OpsOf, WithGone;
  }

  lemma RelayMoves(s: State)
    requires TeardownOk(s) && Settled(s.relay)
    ensures Moves(s, DownMove(s)) || s.down.Gone? || BrowserBlocks(s)
         || (s.down.Reading? && MiddleOpen(s) && s.toBff == [])
    ensures Moves(s, UpMove(s)) || s.up.Gone? || (s.up.Reading? && s.relay.firstOpen && s.browserOpen && s.fromBrowser == [])
         || (s.up.Holding? && MiddleOpen(s) && !s.input.Reading?)
  {
    hide OpsOf, WithGone;
  }

  /** A close anywhere closes everything, unless a write blocks: if no goroutine can move, then a write to
      the open session or to the open browser is blocked, or nothing has been closed and all four are
      waiting for input, or all four have exited. */
  lemma TeardownPropagates(run: seq<Action>) returns (a: Action)
    requires Follow(Next, Init(), run).Some?
    ensures var s := Follow(Next, Init(), run).value;
      Moves(s, a) || AllGone(s) || Waits(s) || SessionBlocks(s) || BrowserBlocks(s)
  {
    hide Follow, Next, DownOk, UpOk, TeardownOk, Moves;
    Reachable(run);
    a := SomeMove(Follow(Next, Init(), run).value);
  }

  lemma SomeMove(s: State) returns (a: Action)
    requires TeardownOk(s)
    ensures Moves(s, a) || AllGone(s) || Waits(s) || SessionBlocks(s) || BrowserBlocks(s)
  {
    hide DownNext, UpNext;
    if s.bridge.once.ClosingFirst? { return Close(CloseFirst(false)); }
    if s.bridge.once.ClosingSecond? { return Close(CloseSecond(false)); }
    if s.relay.once.ClosingFirst? { return Close(CloseFirst(true)); }
    if s.relay.once.ClosingSecond? { return Close(CloseSecond(true)); }
    BridgeMoves(s);
    RelayMoves(s);
    hide Moves, Forced, CloseNext;
    a := OutputMove(s);
    if Moves(s, a) { return; }
    a := InputMove(s);
    if Moves(s, a) { return; }
    a := DownMove(s);
    if Moves(s, a) { return; }
    a := UpMove(s);
  }

  /** Session and WebSockets are each closed at most once, in the order each side has, and all of them exactly once by the time all
      goroutines have exited. */
  lemma ClosedOnce(run: seq<Action>)
    requires Follow(Next, Init(), run).Some?
    ensures var s := Follow(Next, Init(), run).value;
      && s.bridge.secondCloses <= s.bridge.firstCloses <= 1
      && s.relay.secondCloses <= s.relay.firstCloses <= 1
      && (s.output.Gone? || s.input.Gone? ==> s.bridge == Closing(Completed, false, false, 1, 1))
      && (s.down.Gone? || s.up.Gone? ==> s.relay == Closing(Completed, false, false, 1, 1))
  {
    Reachable(run);
    hide Follow, DownOk, UpOk;
  }

  function PumpWork(p: Pump, held: nat): nat {
    match p case Reading => 3 case Holding(_, _) => 3 + held case Leaving(_) => 2 case Gone(_) => 0
  }

  function OnceWork(o: Once<Goroutine>): nat {
    match o case Fresh => 3 case ClosingFirst(_) => 2 case ClosingSecond(_) => 1 case Completed => 0
  }

  /** Work left if nothing more comes in. */
  function Work(s: State): nat {
    PumpWork(s.output, 3) + 2 * |s.toBff| + PumpWork(s.down, 1)
    + 4 * |s.fromBrowser| + PumpWork(s.up, 3) + 2 * |s.toGateway| + PumpWork(s.input, 1)
    + OnceWork(s.bridge.once) + OnceWork(s.relay.once) + (if s.browserOpen then 1 else 0)
  }

  /** A read of the open session. */
  predicate IsRead(a: Action) { a.Down? && a.d.ReadSession? && (a.d.bytes != [] || !a.d.err) }

  /** What comes in during a run: frames the browser sends, and reads of the open session. */
  function Arrivals(run: seq<Action>): nat {
    if run == [] then 0
    else
      var a := run[|run| - 1];
      Arrivals(run[..|run| - 1]) + (if a.BrowserSends? || IsRead(a) then 1 else 0)
  }

  lemma DownWorks(s: State, a: DownAction)
    requires DownNext(s, a).Some?
    ensures Work(DownNext(s, a).value) < Work(s) + (if IsRead(Down(a)) then 4 else 0)
  {
  }

  lemma UpWorks(s: State, a: UpAction)
    requires UpNext(s, a).Some?
    ensures Work(UpNext(s, a).value) < Work(s)
  {
    hide OpsOf;
  }

  lemma CloseWorks(s: State, a: CloseAction)
    requires CloseNext(s, a).Some?
    ensures Work(CloseNext(s, a).value) < Work(s)
  {
  }

  lemma StepWorks(s: State, a: Action)
    requires Next(s, a).Some?
    ensures Work(Next(s, a).value) + 1 <= Work(s) + (if a.BrowserSends? || IsRead(a) then 5 else 0)
  {
    match a
    case Down(d) => hide DownNext, Work; DownWorks(s, d);
    case Up(u) => hide UpNext, Work; UpWorks(s, u);
    case Close(c) => hide CloseNext, Work; CloseWorks(s, c);
    case _ =>
  }

  /** The length of any run is bounded by the work left at its start and what comes in meanwhile. */
  lemma {:induction false} WorkBoundsRuns(s: State, rest: seq<Action>)
    requires Follow(Next, s, rest).Some?
    ensures |rest| + Work(Follow(Next, s, rest).value) <= Work(s) + 5 * Arrivals(rest)
  {
    hide Next, Work, IsRead;
    if rest != [] {
      WorkBoundsRuns(s, rest[..|rest| - 1]);
      StepWorks(Follow(Next, s, rest[..|rest| - 1]).value, rest[|rest| - 1]);
    }
  }

  /** What had closed in `s` is closed in `t`. */
  predicate StillClosed(s: State, t: State) {
    && (!s.bridge.once.Fresh? ==> !t.bridge.once.Fresh?)
    && (!s.relay.once.Fresh? ==> !t.relay.once.Fresh?)
    && (!s.bridge.firstOpen ==> !t.bridge.firstOpen)
    && (!s.browserOpen ==> !t.browserOpen)
  }

  lemma StaysClosed(s: State, a: Action)
    requires Next(s, a).Some?
    ensures StillClosed(s, Next(s, a).value)
  {
    match a
    case Down(d) => DownTouches(s, d); hide DownNext;
    case Up(u) => UpTouches(s, u); hide UpNext;
    case _ =>
  }

  /** Nothing comes in any more once session and browser are closed. */
  lemma {:induction false} NothingArrives(s: State, rest: seq<Action>)
    requires Follow(Next, s, rest).Some?
    ensures StillClosed(s, Follow(Next, s, rest).value)
    ensures !s.bridge.firstOpen && !s.browserOpen ==> Arrivals(rest) == 0
  {
    hide Next, IsRead;
    if rest != [] {
      var m, a := Follow(Next, s, rest[..|rest| - 1]).value, rest[|rest| - 1];
      NothingArrives(s, rest[..|rest| - 1]);
      StaysClosed(m, a);
      if !m.bridge.firstOpen && !m.browserOpen { ClosedTakeNothing(m, a); }
    }
  }

  lemma ClosedTakeNothing(s: State, a: Action)
    requires Next(s, a).Some? && !s.bridge.firstOpen && !s.browserOpen
    ensures !a.BrowserSends? && !IsRead(a)
  {
    hide UpNext, CloseNext;
  }

  /** Once any of the four goroutines has begun to close -- at the session's side or at the browser's --
      the rest of the run is as long as the work left and what still comes in allow, nothing coming in
      after session and browser are closed; and when nobody can move any more, all four have exited if
      and only if neither the session nor the browser blocks a write. */
  lemma TeardownTerminates(run: seq<Action>, rest: seq<Action>)
    requires Follow(Next, Init(), run).Some?
    requires var s := Follow(Next, Init(), run).value;
      (!s.bridge.once.Fresh? || !s.relay.once.Fresh?) && Follow(Next, s, rest).Some?
    ensures
      var s := Follow(Next, Init(), run).value;
      var t := Follow(Next, s, rest).value;
      && |rest| <= Work(s) + 5 * Arrivals(rest)
      && (!s.bridge.firstOpen && !s.browserOpen ==> |rest| <= Work(s))
      && ((forall a :: !Moves(t, a)) ==> (AllGone(t) <==> !SessionBlocks(t) && !BrowserBlocks(t)))
  {
    hide Follow, Next, Work, Moves, Arrivals;
    var s := Follow(Next, Init(), run).value;
    WorkBoundsRuns(s, rest);
    NothingArrives(s, rest);
    FollowBoth(Next, Init(), run, rest);
    var a := TeardownPropagates(run + rest);
  }

  // ---- Teardown can be held up ----

  /** From here, the browser's close reaches all of the relay. */
  lemma RelayCloses(s: State, run: seq<Action>) returns (longer: seq<Action>)
    requires Follow(Next, s, run).Some?
    requires var m := Follow(Next, s, run).value;
      && m.up.Reading? && m.down.Reading? && m.fromBrowser == [] && m.browserOpen
      && m.relay == Closing(Fresh, true, true, 0, 0)
    ensures var m := Follow(Next, s, run).value;
      Follow(Next, s, longer) == Some(m.(browserOpen := false, up := Gone([]), down := Gone([]),
                                         relay := Closing(Completed, false, false, 1, 1)))
  {
    hide Follow;
    longer := run;
    longer := Then(s, longer, BrowserCloses);
    longer := Then(s, longer, Up(ReadBrowserError));
    longer := Then(s, longer, Close(Begin(RelayUp)));
    longer := Then(s, longer, Close(CloseFirst(true)));
    longer := Then(s, longer, Close(CloseSecond(true)));
    longer := Then(s, longer, Close(Leave(RelayUp)));
    longer := Then(s, longer, Down(ReadGatewayError));
    longer := Then(s, longer, Close(Leave(RelayDown)));
  }

  /** From here, the session's end reaches all of the bridge. */
  lemma BridgeCloses(s: State, run: seq<Action>) returns (longer: seq<Action>)
    requires Follow(Next, s, run).Some?
    requires var m := Follow(Next, s, run).value;
      m.output.Reading? && m.input.Reading? && m.bridge == Closing(Fresh, true, true, 0, 0)
    ensures var m := Follow(Next, s, run).value;
      Follow(Next, s, longer) == Some(m.(output := Gone([]), input := Gone([]),
                                         bridge := Closing(Completed, false, false, 1, 1)))
  {
    hide Follow;
    longer := run;
    longer := Then(s, longer, Down(ReadSession([], true)));
    longer := Then(s, longer, Close(Begin(SessionOutput)));
    longer := Then(s, longer, Close(CloseFirst(false)));
    longer := Then(s, longer, Close(CloseSecond(false)));
    longer := Then(s, longer, Close(Leave(SessionOutput)));
    longer := Then(s, longer, Up(ReadBffError));
    longer := Then(s, longer, Close(Leave(SessionInput)));
  }

  lemma Then(s: State, run: seq<Action>, a: Action) returns (longer: seq<Action>)
    requires Follow(Next, s, run).Some? && Next(Follow(Next, s, run).value, a).Some?
    ensures Follow(Next, s, longer) == Next(Follow(Next, s, run).value, a)
  {
    FollowOne(Next, s, run, a);
    longer := run + [a];
  }

  const INPUT: Frame := Binary([120])

  /** The browser sends input, the session does not take it, and the browser closes: the whole relay
      exits, and the bridge stays in its write. */
  lemma SessionCanHoldUpTeardown() returns (run: seq<Action>)
    ensures Follow(Next, Init(), run).Some?
    ensures var s := Follow(Next, Init(), run).value;
      && s.up.Gone? && s.down.Gone? && SessionBlocks(s) && s.output.Reading? && s.bridge.once.Fresh?
      && forall a :: !Moves(s, a)
  {
    assert Follow(Next, Init(), []) == Some(Init());
    hide Follow;
    run := Then(Init(), [], BrowserSends(INPUT));
    run := Then(Init(), run, Up(ReadBrowser));
    run := Then(Init(), run, Up(WriteGateway(true)));
    run := Then(Init(), run, Up(ReadBff));
    hide Next, Moves;
    run := RelayCloses(Init(), run);
    OnlyTheSessionIsLeft(Follow(Next, Init(), run).value);
  }

  lemma OnlyTheSessionIsLeft(s: State)
    requires s.up.Gone? && s.down.Gone? && SessionBlocks(s) && s.output.Reading? && s.bridge.once.Fresh?
    requires s.relay.once.Completed?
    ensures forall a :: !Moves(s, a)
  {
  }

  /** The session prints and ends while the browser takes nothing: the whole bridge exits, and the relay
      stays in its write, with the browser's WebSocket open. */
  lemma BrowserCanHoldUpTeardown() returns (run: seq<Action>)
    ensures Follow(Next, Init(), run).Some?
    ensures var s := Follow(Next, Init(), run).value;
      && s.output.Gone? && s.input.Gone? && BrowserBlocks(s) && s.up.Reading? && s.relay.once.Fresh?
      && forall a :: !Moves(s, a)
  {
    assert Follow(Next, Init(), []) == Some(Init());
    hide Follow;
    run := Then(Init(), [], Down(ReadSession(INPUT.data, false)));
    run := Then(Init(), run, Down(WriteOutput(true)));
    run := Then(Init(), run, Down(ReadGateway));
    hide Next, Moves;
    run := BridgeCloses(Init(), run);
    OnlyTheBrowserIsLeft(Follow(Next, Init(), run).value);
  }

  lemma OnlyTheBrowserIsLeft(s: State)
    requires s.output.Gone? && s.input.Gone? && BrowserBlocks(s) && s.up.Reading? && s.relay.once.Fresh?
    requires s.bridge.once.Completed? && s.fromBrowser == []
    ensures forall a :: !Moves(s, a)
  {
  }

  // ---- The bridge's loops ----

  /** Session output to frames: one buffer, reused for every read; each write copies what it is given.
      Write number `accepts` is the first to fail. */
  method PumpOutput(session: ByteStream, accepts: nat) returns (frames: seq<Frame>, lost: Bytes)
    requires session.Valid()
    modifies session
    ensures |frames| <= accepts
    ensures forall k :: 0 <= k < |frames| ==> OutputFrame(frames[k])
    ensures old(session.Remaining()) == Payload(frames) + lost + session.Remaining()
    ensures |frames| < accepts ==> Payload(frames) == old(session.Remaining())
  {
    var buf := new byte[READ_BUF_SIZE];
    frames, lost := [], [];
    while true
      invariant session.Valid() && fresh(buf) && |frames| <= accepts
      invariant forall k :: 0 <= k < |frames| ==> OutputFrame(frames[k])
      invariant old(session.Remaining()) == Payload(frames) + session.Remaining()
      decreases |session.Remaining()|
    {
      var n, err := session.Read(buf);
      if n > 0 {
        var chunk := buf[..n];
        AppendAssociates(Payload(frames), chunk, session.Remaining());
        if |frames| == accepts {
          lost := chunk;
          return;
        }
        PayloadOfAppend(frames, Binary(chunk));
        frames := frames + [Binary(chunk)];
      }
      if err {
        assert Payload(frames) + [] + session.Remaining() == Payload(frames) + session.Remaining() == Payload(frames);
        return;
      }
    }
  }

  function Writes(ops: seq<SessionOp>): nat {
    if ops == [] then 0 else Writes(ops[..|ops| - 1]) + (if ops[|ops| - 1].Input? then 1 else 0)
  }

  lemma WritesOfAppend(ops: seq<SessionOp>, o: SessionOp)
    ensures Writes(ops + [o]) == Writes(ops) + (if o.Input? then 1 else 0)
  {
    assert (ops + [o])[..|ops|] == ops;
  }

  lemma {:induction false} WritesGrow(frames: seq<Frame>, k: nat)
    requires k <= |frames|
    ensures Writes(Ops(frames[..k])) <= Writes(Ops(frames))
  {
    hide Ops, Writes;
    if k == |frames| {
      assert frames[..k] == frames;
    } else {
      var before, f := frames[..|frames| - 1], frames[|frames| - 1];
      assert before[..k] == frames[..k];
      WritesGrow(before, k);
      OneMore(before, f);
      assert before + [f] == frames;
    }
  }

  lemma OneMore(frames: seq<Frame>, f: Frame)
    ensures Ops(frames + [f]) == Ops(frames) + OpsOf(f)
    ensures Writes(Ops(frames + [f])) == Writes(Ops(frames)) + (if f.Binary? then 1 else 0)
  {
    PayloadOfAppend(frames, f);
    hide Ops, Writes;
    if OpsOf(f) == [] {
      assert Ops(frames) + [] == Ops(frames);
    } else {
      WritesOfAppend(Ops(frames), OpsOf(f)[0]);
    }
  }

  /** Browser frames to session operations; write number `accepts` is the first to fail, after the session
      took at most `taken` of its bytes. */
  method PumpInput(frames: seq<Frame>, accepts: nat, taken: nat) returns (ops: seq<SessionOp>, handled: nat)
    ensures handled <= |frames|
    ensures Obeys(ops, frames[..handled], if handled < |frames| then [frames[handled]] else [])
    ensures Resizes(ops) == Requested(frames[..handled])
    ensures handled < |frames| <==> Writes(Ops(frames)) > accepts
    ensures handled < |frames| ==> Writes(Ops(frames[..handled])) == accepts
  {
    hide Ops, Writes, Resizes, Requested;
    NoneYet(frames);
    ops, handled := [], 0;
    var writes := 0;
    while handled < |frames|
      invariant handled <= |frames| && ops == Ops(frames[..handled]) && Writes(ops) == writes <= accepts
    {
      var f := frames[handled];
      OneHandled(frames, handled);
      if f.Binary? {
        if writes == accepts {
          ops := ops + [Input(f.data[..if taken < |f.data| then taken else |f.data|])];
          assert [f][0] == f && Obeys(ops, frames[..handled], [f]);
          ObeyCut(ops, frames[..handled], [f], []);
          return;
        }
        writes := writes + 1;
        ops := ops + [Input(f.data)];
      } else if f.ctrl.Some? && f.ctrl.value.isResize {
        ops := ops + [Resize(f.ctrl.value.cols, f.ctrl.value.rows)];
      }
      handled := handled + 1;
    }
    assert frames[..handled] == frames;
    ResizesOfOps(frames);
  }

  lemma NoneYet(frames: seq<Frame>)
    ensures Ops(frames[..0]) == [] && Writes([]) == 0
  {
  }

  lemma OneHandled(frames: seq<Frame>, k: nat)
    requires k < |frames|
    ensures Ops(frames[..k + 1]) == Ops(frames[..k]) + OpsOf(frames[k])
    ensures OpsOf(frames[k]) == [] ==> Ops(frames[..k + 1]) == Ops(frames[..k])
    ensures var w := Writes(Ops(frames[..k])) + (if frames[k].Binary? then 1 else 0);
      Writes(Ops(frames[..k + 1])) == w <= Writes(Ops(frames))
  {
    hide Ops, Writes;
    assert frames[..k + 1] == frames[..k] + [frames[k]];
    PayloadOfAppend(frames[..k], frames[k]);
    OneMore(frames[..k], frames[k]);
    WritesGrow(frames, k + 1);
  }
}
