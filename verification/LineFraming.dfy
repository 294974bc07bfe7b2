/** Line framing of the guest's trace stream (internal/gw/tracebridge.go).

    `Records` says what the lines of a byte stream are, for the stream as a whole.  `LineReader`
    finds them incrementally, in a fixed array that the stream refills with reads of any size. */
module LineFraming {
  newtype byte = x: int | 0 <= x < 0x100
  type Bytes = seq<byte>

  const LF: byte := 10
  const CR: byte := 13
  const MAX_TRACE_LINE_BYTES: nat := 256 * 1024
  const TRACE_READ_BUF_SIZE: nat := 64 * 1024

  // ---- The lines of a whole stream ----

  predicate LineFree(s: Bytes, n: nat)
    requires n <= |s|
  {
    forall j :: 0 <= j < n ==> s[j] != LF
  }

  predicate HasLine(s: Bytes) { !LineFree(s, |s|) }

  /** One line, with its terminator. */
  predicate IsLine(line: Bytes) {
    line != [] && line[|line| - 1] == LF && LineFree(line, |line| - 1)
  }

  /** Number of bytes up to and including the first line feed. */
  function LineLength(s: Bytes): (k: nat)
    requires HasLine(s)
    ensures 0 < k <= |s| && s[k - 1] == LF && LineFree(s, k - 1)
  {
    if s[0] == LF then 1 else 1 + LineLength(s[1..])
  }

  /** `bytes.TrimRight(line, "\r\n")`. */
  function TrimRight(line: Bytes): (t: Bytes)
    ensures |t| <= |line| && t == line[..|t|]
    ensures t != [] ==> t[|t| - 1] != CR && t[|t| - 1] != LF
  {
    if line == [] || (line[|line| - 1] != CR && line[|line| - 1] != LF) then line
    else TrimRight(line[..|line| - 1])
  }

  /** What one line contributes: nothing when only terminators remain. */
  function Keep(line: Bytes): seq<Bytes> {
    var t := TrimRight(line);
    if t == [] then [] else [t]
  }

  /** The non-empty lines of a stream, trimmed, in order; the last need not be terminated. */
  function Records(s: Bytes): seq<Bytes> {
    if HasLine(s) then Keep(s[..LineLength(s) - 1]) + Records(s[LineLength(s)..]) else Keep(s)
  }

  predicate Fits(line: Bytes) { |line| <= MAX_TRACE_LINE_BYTES }

  function Fitting(lines: seq<Bytes>): seq<Bytes> {
    if lines == [] then []
    else Fitting(lines[..|lines| - 1]) + (if Fits(lines[|lines| - 1]) then [lines[|lines| - 1]] else [])
  }

  /** Everything so far ended with a line feed. */
  predicate Terminated(s: Bytes) {
    s == [] || s[|s| - 1] == LF
  }

  /** A record that survives framing unchanged. */
  predicate Framable(r: Bytes) {
    r != [] && !HasLine(r) && r[|r| - 1] != CR
  }

  function JoinLines(rs: seq<Bytes>): (s: Bytes)
    ensures Terminated(s)
  {
    if rs == [] then [] else rs[0] + [LF] + JoinLines(rs[1..])
  }

  // ---- Laws of framing ----

  /** Trimming removes CR and LF from the end, all of them, and nothing else. */
  lemma {:induction false} TrimCutsTerminators(line: Bytes)
    ensures var t := TrimRight(line);
      forall k :: |t| <= k < |line| ==> line[k] == CR || line[k] == LF
    ensures TrimRight(line) == [] <==> forall k :: 0 <= k < |line| ==> line[k] == CR || line[k] == LF
  {
    if line != [] && (line[|line| - 1] == CR || line[|line| - 1] == LF) {
      var shorter := line[..|line| - 1];
      TrimCutsTerminators(shorter);
      assert forall k :: 0 <= k < |shorter| ==> shorter[k] == line[k];
    }
  }

  /** Which lines pass the cap. */
  lemma {:induction false} FittingIsExact(lines: seq<Bytes>, line: Bytes)
    ensures line in Fitting(lines) <==> line in lines && |line| <= 262144
  {
    if lines != [] {
      FittingIsExact(lines[..|lines| - 1], line);
      assert lines == lines[..|lines| - 1] + [lines[|lines| - 1]];
    }
  }

  /** Peeling the first line off. */
  lemma RecordsOfLine(s: Bytes, k: nat)
    requires 0 < k <= |s| && s[k - 1] == LF && LineFree(s, k - 1)
    ensures HasLine(s) && LineLength(s) == k
    ensures Records(s) == Keep(s[..k - 1]) + Records(s[k..])
  {
    assert LineLength(s) == k;
  }

  /** The reader trims the terminator together with what precedes it. */
  lemma RecordsOfOneLine(line: Bytes)
    requires IsLine(line)
    ensures Records(line) == Keep(line)
  {
    RecordsOfLine(line, |line|);
    assert line[|line|..] == [] && Records([]) == [];
  }

  /** A line feed ends a line for good: what follows is framed on its own. */
  lemma {:induction false} RecordsOfAppend(a: Bytes, b: Bytes)
    requires Terminated(a)
    ensures Records(a + b) == Records(a) + Records(b)
    decreases |a|
  {
    if a == [] {
      assert a + b == b;
    } else {
      assert a[|a| - 1] == LF;
      var k, s := LineLength(a), a + b;
      RecordsOfAppend(a[k..], b);
      PrefixOfAppend(a, b, k);
      RecordsOfLine(s, k);
      RecordsOfLine(a, k);
      AppendAssociates(Keep(a[..k - 1]), Records(a[k..]), Records(b));
    }
  }

  lemma PrefixOfAppend(a: Bytes, b: Bytes, k: nat)
    requires 0 < k <= |a| && a[k - 1] == LF && LineFree(a, k - 1)
    ensures (a + b)[k - 1] == LF && LineFree(a + b, k - 1)
    ensures (a + b)[..k - 1] == a[..k - 1] && (a + b)[k..] == a[k..] + b
  {
  }

  lemma AppendAssociates<T>(a: seq<T>, b: seq<T>, c: seq<T>)
    ensures a + (b + c) == (a + b) + c
  {
  }

  lemma KeptIsFramable(line: Bytes)
    requires !HasLine(line)
    ensures forall r <- Keep(line) :: Framable(r)
  {
    var t := TrimRight(line);
    assert forall j :: 0 <= j < |t| ==> t[j] == line[j];
  }

  lemma {:induction false} RecordsAreFramable(s: Bytes)
    ensures forall r <- Records(s) :: Framable(r)
    decreases |s|
  {
    if HasLine(s) {
      KeptIsFramable(s[..LineLength(s) - 1]);
      RecordsAreFramable(s[LineLength(s)..]);
    } else {
      KeptIsFramable(s);
    }
  }

  lemma RecordsOfFramable(r: Bytes)
    requires Framable(r)
    ensures Records(r + [LF]) == [r]
  {
    var line := r + [LF];
    assert LineFree(line, |r|) by { assert forall j :: 0 <= j < |r| ==> line[j] == r[j]; }
    RecordsOfOneLine(line);
    assert line[..|r|] == r;
    assert TrimRight(line) == TrimRight(r) == r;
  }

  lemma {:induction false} FramableSurvive(rs: seq<Bytes>)
    requires forall r <- rs :: Framable(r)
    ensures Records(JoinLines(rs)) == rs
  {
    if rs == [] {
      assert Records([]) == Keep([]);
    } else {
      var line := rs[0] + [LF];
      FramableSurvive(rs[1..]);
      RecordsOfAppend(line, JoinLines(rs[1..]));
      RecordsOfFramable(rs[0]);
      assert rs == [rs[0]] + rs[1..];
    }
  }

  /** Framing inverts joining exactly for non-empty, newline-free records that do not end in CR. */
  lemma FramingInvertsJoining(rs: seq<Bytes>)
    ensures Records(JoinLines(rs)) == rs <==> forall r <- rs :: Framable(r)
  {
    RecordsAreFramable(JoinLines(rs));
    if forall r <- rs :: Framable(r) { FramableSurvive(rs); }
  }

  // ---- Incremental reading ----

  function Flatten(chunks: seq<Bytes>): Bytes {
    if chunks == [] then [] else chunks[0] + Flatten(chunks[1..])
  }

  /** The remote tail, as the reads it will return before it ends or fails; a read that returns no bytes
      is not a read.  The end is reported with the last bytes when `eager`, or by a read of its own. */
  class ByteStream {
    var chunks: seq<Bytes>
    const eager: bool

    constructor (chunks: seq<Bytes>, eager: bool)
      requires [] !in chunks
      ensures Valid() && Remaining() == Flatten(chunks)
    {
      this.chunks, this.eager := chunks, eager;
    }

    ghost predicate Valid() reads this { [] !in chunks }

    ghost function Remaining(): Bytes reads this { Flatten(chunks) }

    method Read(p: array<byte>) returns (n: nat, err: bool)
      requires Valid() && p.Length > 0
      modifies this, p
      ensures Valid() && n <= p.Length
      ensures old(Remaining()) == p[..n] + Remaining()
      ensures n == 0 <==> old(Remaining()) == []
      ensures err <==> Remaining() == [] && (eager || n == 0)
    {
      if chunks == [] { return 0, true; }
      var chunk := chunks[0];
      assert chunk in chunks;
      n := if |chunk| < p.Length then |chunk| else p.Length;
      forall k | 0 <= k < n { p[k] := chunk[k]; }
      chunks := (if n < |chunk| then [chunk[n..]] else []) + chunks[1..];
      err := eager && chunks == [];
      assert p[..n] == chunk[..n];
      assert old(chunks)[1..] == chunks[if n < |chunk| then 1 else 0..];
      assert chunk == chunk[..n] + chunk[n..];
    }
  }

  /** Buffered reader: `buf[r..w]` has arrived and has not been handed out; `failed` once a read has
      reported an error. */
  class LineReader {
    const stream: ByteStream
    const buf: array<byte>
    var r: nat
    var w: nat
    var failed: bool

    constructor (stream: ByteStream)
      requires stream.Valid()
      ensures Valid() && fresh(buf) && this.stream == stream && Unread() == stream.Remaining()
    {
      this.stream := stream;
      buf := new byte[TRACE_READ_BUF_SIZE];
      r, w, failed := 0, 0, false;
    }

    ghost predicate Valid() reads this, stream, buf {
      r <= w <= buf.Length && buf.Length > 0 && stream.Valid() && (failed ==> stream.Remaining() == [])
    }

    ghost function Unread(): Bytes
      requires Valid()
      reads this, stream, buf
    {
      buf[r..w] + stream.Remaining()
    }

    /** The next line with its terminator, or at the end of the stream whatever is left. */
    method ReadBytes() returns (line: Bytes, err: bool)
      requires Valid()
      modifies this, stream, buf
      ensures Valid()
      ensures old(Unread()) == line + Unread()
      ensures if err then !HasLine(line) && Unread() == []
              else IsLine(line)
    {
      assert !HasLine([]);
      hide IsLine, HasLine, LineFree, Flatten;
      line, err := [], false;
      ghost var all := Unread();
      while true
        invariant Valid()
        invariant !HasLine(line) && all == line + Unread()
        decreases |Unread()|, !failed, w == r
      {
        var i := FindNewline();
        GrowLine(line, buf[r..w], i - r);
        if i < w {
          var rest := Take(i + 1 - r);
          AppendAssociates(line, rest, Unread());
          line := line + rest;
          return;
        }
        var rest := Take(w - r);
        AppendAssociates(line, rest, Unread());
        line := line + rest;
        if failed { return line, true; }
        Fill();
      }
    }

    /** Hands out `n` of the bytes that have arrived. */
    method Take(n: nat) returns (out: Bytes)
      requires Valid() && n <= w - r
      modifies this
      ensures Valid() && r == old(r) + n && w == old(w) && failed == old(failed)
      ensures out == buf[old(r)..w][..n] && old(Unread()) == out + Unread()
    {
      out := buf[r..r + n];
      assert buf[r..w] == out + buf[r + n..w];
      r := r + n;
    }

    /** Refills the empty buffer with one read. */
    method Fill()
      requires Valid() && r == w && !failed
      modifies this, stream, buf
      ensures Valid() && Unread() == old(Unread())
      ensures r == w ==> failed
    {
      r, w := 0, 0;
      w, failed := stream.Read(buf);
    }

    /** Index of the first line feed that has arrived, or `w`. */
    method FindNewline() returns (i: nat)
      requires Valid()
      ensures r <= i <= w && (i < w ==> buf[i] == LF)
      ensures LineFree(buf[r..w], i - r)
    {
      i := r;
      while i < w && buf[i] != LF
        invariant r <= i <= w
        invariant forall j :: r <= j < i ==> buf[j] != LF
      {
        i := i + 1;
      }
    }
  }

  /** An unterminated start either stays one or is completed by the first line feed that follows. */
  lemma GrowLine(line: Bytes, b: Bytes, i: nat)
    requires !HasLine(line) && i <= |b| && LineFree(b, i)
    requires i < |b| ==> b[i] == LF
    ensures if i < |b| then IsLine(line + b[..i + 1]) else !HasLine(line + b)
  {
  }

  /** Consuming one line the reader returned, terminated or final, extends the records by it. */
  lemma RecordsOfNext(consumed: Bytes, line: Bytes)
    requires Terminated(consumed)
    requires !HasLine(line) || IsLine(line)
    ensures Records(consumed + line) == Records(consumed) + Keep(line)
  {
    RecordsOfAppend(consumed, line);
    if HasLine(line) { RecordsOfOneLine(line); }
  }

  lemma {:induction false} FittingOfAppend(a: seq<Bytes>, b: seq<Bytes>)
    ensures Fitting(a + b) == Fitting(a) + Fitting(b)
  {
    if b == [] {
      assert a + b == a;
    } else {
      var b', last := b[..|b| - 1], b[|b| - 1];
      FittingOfAppend(a, b');
      assert (a + b)[..|a + b| - 1] == a + b' && (a + b)[|a + b| - 1] == last;
    }
  }

  lemma FittingOfNext(consumed: Bytes, line: Bytes)
    requires Terminated(consumed)
    requires !HasLine(line) || IsLine(line)
    ensures |Records(consumed + line)| == |Records(consumed)| + |Keep(line)|
    ensures Fitting(Records(consumed + line)) == Fitting(Records(consumed)) + Fitting(Keep(line))
    ensures IsLine(line) ==> Terminated(consumed + line)
  {
    hide Records, Fitting, Keep, HasLine, LineFree;
    RecordsOfNext(consumed, line);
    FittingOfAppend(Records(consumed), Keep(line));
  }

  lemma FittingOfOne(line: Bytes)
    ensures var t := TrimRight(line);
      && |Keep(line)| == (if t == [] then 0 else 1)
      && Fitting(Keep(line)) == if t != [] && Fits(t) then [t] else []
  {
    if TrimRight(line) != [] { assert Keep(line)[..0] == []; }
  }

  /** The producer's loop with nothing downstream: whatever the reads were, the lines are those of
      the whole stream, and over-long ones are counted instead. */
  method Reassemble(stream: ByteStream) returns (lines: seq<Bytes>, oversized: nat)
    requires stream.Valid()
    modifies stream
    ensures lines == Fitting(Records(old(stream.Remaining())))
    ensures oversized == |Records(old(stream.Remaining()))| - |lines|
  {
    assert Records([]) == [];
    hide Flatten, Records, IsLine, HasLine, LineFree, Terminated, Fitting, Keep;
    lines, oversized := [], 0;
    var br := new LineReader(stream);
    ghost var all, consumed := stream.Remaining(), [];
    var err := false;
    while !err
      invariant br.Valid() && br.stream == stream && fresh(br) && fresh(br.buf)
      invariant all == consumed + br.Unread()
      invariant if err then br.Unread() == [] else Terminated(consumed)
      invariant lines == Fitting(Records(consumed))
      invariant oversized == |Records(consumed)| - |lines|
      decreases !err, |br.Unread()|
    {
      var line;
      line, err := br.ReadBytes();
      FittingOfNext(consumed, line);
      FittingOfOne(line);
      AppendAssociates(consumed, line, br.Unread());
      consumed := consumed + line;
      if |line| > 0 {
        var trimmed := TrimRight(line);
        if |trimmed| > 0 {
          if |trimmed| > MAX_TRACE_LINE_BYTES {
            oversized := oversized + 1;
          } else {
            lines := lines + [trimmed];
          }
        }
      }
    }
    assert consumed + [] == consumed;
  }
}
