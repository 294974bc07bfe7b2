/** The queue between the trace stream and the WebSocket writer (internal/gw/tracebridge.go): a
    bounded channel kept in a fixed ring of slots, and the drop-oldest send on top of it. */
module DropQueue {
  /** The slot `k` places after slot `start` in a ring of `size`. */
  function Slot(start: nat, k: nat, size: nat): nat {
    if start + k < size then start + k else start + k - size
  }

  lemma Regroup<T>(first: seq<T>, evicted: seq<T>, taken: seq<T>, rest: seq<T>, line: seq<T>)
    ensures first + evicted + (taken + rest) + line == first + evicted + taken + (rest + line)
    ensures taken + [] + [] + (rest + line) == taken + rest + line
  {
  }

  class DropOldestQueue<T(0)> {
    const slots: array<T>
    var start: nat
    var len: nat
    var dropped: nat
    /** Everything ever sent on the queue. */
    ghost var enqueued: seq<T>

    constructor (size: nat)
      requires size > 0
      ensures Valid() && fresh(slots) && slots.Length == size
      ensures enqueued == [] && dropped == 0
    {
      slots := new T[size];
      start, len, dropped, enqueued := 0, 0, 0, [];
    }

    ghost predicate Valid() reads this, slots {
      && start < slots.Length
      && len <= slots.Length
      && len <= |enqueued|
      && forall k :: 0 <= k < len ==> slots[Slot(start, k, slots.Length)] == enqueued[|enqueued| - len + k]
    }

    /** Always the most recent `len` lines sent, oldest first. */
    ghost function Contents(): (q: seq<T>)
      requires Valid()
      reads this, slots
      ensures |q| == len
    {
      enqueued[|enqueued| - len..]
    }

    /** `select { case q <- x: default: }` */
    method TrySend(x: T) returns (ok: bool)
      requires Valid()
      modifies this`len, this`enqueued, slots
      ensures Valid()
      ensures ok <==> old(len) < slots.Length
      ensures Contents() == old(Contents()) + (if ok then [x] else [])
      ensures enqueued == old(enqueued) + (if ok then [x] else [])
    {
      ok := len < slots.Length;
      if ok {
        slots[Slot(start, len, slots.Length)] := x;
        len, enqueued := len + 1, enqueued + [x];
      }
    }

    /** `select { case x := <-q: default: }`; the result has one element or none. */
    method TryReceive() returns (xs: seq<T>)
      requires Valid()
      modifies this`start, this`len
      ensures Valid()
      ensures |xs| == if old(len) == 0 then 0 else 1
      ensures old(Contents()) == xs + Contents()
    {
      if len == 0 { return []; }
      xs := [slots[Slot(start, 0, slots.Length)]];
      ghost var was := start;
      start, len := Slot(start, 1, slots.Length), len - 1;
      assert forall k :: 0 <= k < len ==> Slot(start, k, slots.Length) == Slot(was, k + 1, slots.Length);
    }

    /** The writer takes lines off the queue, up to `n` of them, before the sender's next operation. */
    method WriterTakes(n: nat) returns (taken: seq<T>)
      requires Valid()
      modifies this`start, this`len
      ensures Valid()
      ensures |taken| == if n <= old(len) then n else old(len)
      ensures old(Contents()) == taken + Contents()
    {
      taken := [];
      while |taken| < n && len > 0
        invariant Valid() && old(Contents()) == taken + Contents()
        invariant |taken| <= n
      {
        var xs := TryReceive();
        ghost var was := taken;
        taken := taken + xs;
        assert was + (xs + Contents()) == taken + Contents();
      }
    }

    /** The inner select, after the queue was found full. */
    method MakeRoom(n: nat) returns (taken: seq<T>, evicted: seq<T>)
      requires Valid()
      modifies this`start, this`len, this`dropped
      ensures Valid()
      ensures old(Contents()) == taken + evicted + Contents()
      ensures dropped == old(dropped) + |evicted|
      ensures |evicted| == if n < old(len) then 1 else 0
      ensures len < slots.Length
    {
      taken := WriterTakes(n);
      ghost var c := Contents();
      evicted := TryReceive();
      dropped := dropped + |evicted|;
      assert taken + c == taken + evicted + Contents();
    }

    /** Sends `line`, evicting the oldest line when the queue is full.  Before its `i`-th channel
        operation the writer takes `pace(i)` lines, whatever `pace` is. */
    method EnqueueDropOldest(line: T, pace: nat -> nat)
      returns (passes: nat, first: seq<T>, evicted: seq<T>, later: seq<T>)
      requires Valid()
      modifies this, slots
      ensures Valid()
      ensures enqueued == old(enqueued) + [line]
      ensures old(Contents()) + [line] == first + evicted + later + Contents()
      ensures |evicted| <= 1 && dropped == old(dropped) + |evicted|
      ensures evicted != [] <==> old(len) == slots.Length && pace(0) == 0 && pace(1) < slots.Length
      ensures passes == if old(len) == slots.Length && pace(0) == 0 then 2 else 1
    {
      hide Slot, Contents;
      passes, first, evicted, later := 0, [], [], [];
      while true
        invariant Valid() && enqueued == old(enqueued) && dropped == old(dropped) + |evicted|
        invariant old(Contents()) == first + evicted + Contents()
        invariant later == []
        invariant if passes == 0 then first == evicted == []
                  else
                    && passes == 1 && old(len) == slots.Length && pace(0) == 0 && len < slots.Length
                    && |evicted| == (if pace(1) < slots.Length then 1 else 0)
        decreases 1 - passes
      {
        var taken := WriterTakes(pace(2 * passes));
        Regroup(first, evicted, taken, Contents(), [line]);
        if passes == 0 { first := taken; } else { later := taken; }
        passes := passes + 1;
        var sent := TrySend(line);
        if sent { return; }
        first, evicted := MakeRoom(pace(1));
      }
    }
  }
}
