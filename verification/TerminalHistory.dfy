/** What has to have happened for the terminal's two hops to be where they are: theorems that tie their
    reachable states to the actions of the run that led there. */
module TerminalHistory {
  import opened LineFraming
  import opened Options
  import opened Runs
  import opened Terminal

  // ---- What went in ----

  /** What reading the session returned. */
  function Printed(run: seq<Action>): Bytes {
    if run == [] then []
    else
      var a := run[|run| - 1];
      Printed(run[..|run| - 1]) + (if a.Down? && a.d.ReadSession? then a.d.bytes else [])
  }

  /** What the browser sent. */
  function Sent(run: seq<Action>): seq<Frame> {
    if run == [] then []
    else
      var a := run[|run| - 1];
      Sent(run[..|run| - 1]) + (if a.BrowserSends? then [a.f] else [])
  }

  lemma {:induction false} WhatWentIn(run: seq<Action>)
    requires Follow(Next, Init(), run).Some?
    ensures var s := Follow(Next, Init(), run).value; s.produced == Printed(run) && s.typed == Sent(run)
  {
    if run != [] {
      hide Next;
      WhatWentIn(run[..|run| - 1]);
      GoesIn(Follow(Next, Init(), run[..|run| - 1]).value, run[|run| - 1]);
    }
  }

  lemma GoesIn(s: State, a: Action)
    requires Next(s, a).Some?
    ensures var s' := Next(s, a).value;
      && s'.produced == s.produced + (if a.Down? && a.d.ReadSession? then a.d.bytes else [])
      && s'.typed == s.typed + (if a.BrowserSends? then [a.f] else [])
  {
    hide OpsOf, WithGone;
    match a
    case Up(u) => UpTouches(s, u); hide UpNext;
    case Close(c) => CloseTouches(s, c); hide CloseNext;
    case _ =>
  }

  /** Both directions, in terms of the run alone: the browser has been handed a prefix of what the session
      printed; the session has been given a prefix of the bytes the browser sent, and the resizes among the
      frames dealt with, each after the bytes before it. */
  lemma EndsAgree(run: seq<Action>)
    requires Follow(Next, Init(), run).Some?
    ensures var s := Follow(Next, Init(), run).value;
      && Payload(s.toBrowser) <= Printed(run)
      && Written(s.ops) <= Payload(Sent(run))
      && s.handled <= Sent(run) && Resizes(s.ops) == Requested(s.handled)
  {
    hide Follow, Next, Init, Payload, Written, Resizes, Requested, Printed, Sent, Obeys, Ops;
    WhatWentIn(run);
    OutputIsTransparent(run);
    InputIsTransparent(run);
  }

  // ---- Nothing closes without cause ----

  /** An action after which a loop must end. */
  predicate Fails(g: Goroutine, a: Action) {
    match g
    case SessionOutput => a == Down(WriteOutput(false)) || (a.Down? && a.d.ReadSession? && a.d.err)
    case SessionInput => a == Up(ReadBffError) || (a.Up? && a.u.ApplyFails?)
    case RelayDown => a == Down(ReadGatewayError) || a == Down(WriteBrowser(false))
    case RelayUp => a == Up(ReadBrowserError) || a == Up(WriteGateway(false))
  }

  predicate Failed(run: seq<Action>, g: Goroutine) {
    run != [] && (Failed(run[..|run| - 1], g) || Fails(g, run[|run| - 1]))
  }

  /** The loop has ended, or does after the write in hand. */
  predicate Ending(p: Pump) { p.Leaving? || p.Gone? || (p.Holding? && p.last) }

  ghost predicate Caused(run: seq<Action>, s: State) {
    && (forall g :: Ending(PumpOf(s, g)) <==> Failed(run, g))
    && (s.input.Holding? ==> !s.input.last)
    && (!s.bridge.once.Fresh? ==> Ending(s.output) || Ending(s.input))
    && (!s.relay.once.Fresh? ==> Ending(s.down) || Ending(s.up))
  }

  /** In every reachable state: each of the four loops has ended, or is in its last write, if and only if one
      of its reads or writes failed; and a side has begun to close only after that happened to one of its
      loops.  Malformed frames, resizes and empty reads close nothing. */
  lemma {:induction false} ClosedForCause(run: seq<Action>)
    requires Follow(Next, Init(), run).Some?
    ensures Caused(run, Follow(Next, Init(), run).value)
  {
    if run == [] {
      hide Next;
      assert Follow(Next, Init(), run).value == Init();
    } else {
      hide Next, Init, Caused;
      var shorter, a := run[..|run| - 1], run[|run| - 1];
      assert run == shorter + [a];
      ClosedForCause(shorter);
      CauseKept(shorter, Follow(Next, Init(), shorter).value, a);
    }
  }

  lemma CauseKept(run: seq<Action>, s: State, a: Action)
    requires Caused(run, s) && Next(s, a).Some?
    ensures Caused(run + [a], Next(s, a).value)
  {
    assert (run + [a])[..|run|] == run;
    forall g ensures Failed(run + [a], g) <==> Failed(run, g) || Fails(g, a) {
    }
    EndsNext(s, a);
    BeginsNext(s, a);
    hide Next, Fails, Failed, Ending;
    var s' := Next(s, a).value;
    assert forall g :: Ending(PumpOf(s, g)) <==> Failed(run, g);
    assert PumpOf(s', SessionOutput) == s'.output && PumpOf(s', SessionInput) == s'.input;
    assert PumpOf(s', RelayDown) == s'.down && PumpOf(s', RelayUp) == s'.up;
    assert PumpOf(s, SessionOutput) == s.output && PumpOf(s, SessionInput) == s.input;
    assert PumpOf(s, RelayDown) == s.down && PumpOf(s, RelayUp) == s.up;
  }

  lemma EndsNext(s: State, a: Action)
    requires Next(s, a).Some? && (s.input.Holding? ==> !s.input.last)
    ensures var p := Next(s, a).value.input; p.Holding? ==> !p.last
    ensures forall g :: Ending(PumpOf(Next(s, a).value, g)) <==> Ending(PumpOf(s, g)) || Fails(g, a)
  {
    match a
    case Down(d) => DownTouches(s, d); DownEnds(s, d); hide DownNext, Ending;
    case Up(u) => UpTouches(s, u); UpEnds(s, u); hide UpNext, Ending;
    case Close(c) => CloseEnds(s, c); hide CloseNext, Ending;
    case _ =>
  }

  lemma DownEnds(s: State, a: DownAction)
    requires DownNext(s, a).Some?
    ensures var s' := DownNext(s, a).value;
      && (Ending(s'.output) <==> Ending(s.output) || Fails(SessionOutput, Down(a)))
      && (Ending(s'.down) <==> Ending(s.down) || Fails(RelayDown, Down(a)))
  {
  }

  lemma UpEnds(s: State, a: UpAction)
    requires UpNext(s, a).Some? && (s.input.Holding? ==> !s.input.last)
    ensures var s' := UpNext(s, a).value;
      && (s'.input.Holding? ==> !s'.input.last)
      && (Ending(s'.input) <==> Ending(s.input) || Fails(SessionInput, Up(a)))
      && (Ending(s'.up) <==> Ending(s.up) || Fails(RelayUp, Up(a)))
  {
    hide OpsOf;
  }

  lemma CloseEnds(s: State, a: CloseAction)
    requires CloseNext(s, a).Some?
    ensures var s' := CloseNext(s, a).value;
      && Ending(s'.output) == Ending(s.output) && Ending(s'.input) == Ending(s.input)
      && Ending(s'.down) == Ending(s.down) && Ending(s'.up) == Ending(s.up)
      && (s'.input.Holding? ==> s'.input == s.input)
  {
  }

  lemma BeginsNext(s: State, a: Action)
    requires Next(s, a).Some?
    ensures var s' := Next(s, a).value;
      && (!s'.bridge.once.Fresh? ==> !s.bridge.once.Fresh? || Ending(s.output) || Ending(s.input))
      && (!s'.relay.once.Fresh? ==> !s.relay.once.Fresh? || Ending(s.down) || Ending(s.up))
  {
    match a
    case Down(d) => DownTouches(s, d); hide DownNext;
    case Up(u) => UpTouches(s, u); hide UpNext;
    case _ => hide OpsOf;
  }
}
