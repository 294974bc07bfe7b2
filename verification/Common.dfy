module Options {
  datatype Option<+T> = None | Some(value: T)
}

/** Runs of a transition system, given by the state after one action, if the action can happen. */
module Runs {
  import opened Options

  /** The state a run leads to, if every action of it can happen. */
  function Follow<S, A>(next: (S, A) -> Option<S>, s: S, run: seq<A>): Option<S> {
    if run == [] then Some(s)
    else
      match Follow(next, s, run[..|run| - 1])
      case None => None
      case Some(m) => next(m, run[|run| - 1])
  }

  lemma FollowOne<S, A>(next: (S, A) -> Option<S>, s: S, run: seq<A>, a: A)
    requires Follow(next, s, run).Some?
    ensures Follow(next, s, run + [a]) == next(Follow(next, s, run).value, a)
  {
    assert (run + [a])[..|run|] == run;
  }

  lemma {:induction false} FollowBoth<S, A>(next: (S, A) -> Option<S>, s: S, run: seq<A>, rest: seq<A>)
    requires Follow(next, s, run).Some?
    ensures Follow(next, s, run + rest) == Follow(next, Follow(next, s, run).value, rest)
  {
    if rest == [] {
      assert run + rest == run;
    } else {
      FollowBoth(next, s, run, rest[..|rest| - 1]);
      assert (run + rest)[..|run + rest| - 1] == run + rest[..|rest| - 1];
    }
  }
}

/** A `sync.Once` around closing two things in turn: callers that come second wait until the first has
    closed both. */
module Shutdown {
  datatype Once<+G> = Fresh | ClosingFirst(owner: G) | ClosingSecond(owner: G) | Completed
}

/** What the trace worker hands to the trace pane for one event; an absent string is empty. */
module Items {
  import opened LineFraming

  datatype Item = Item(raw: Bytes, etype: string, name: string, comm: string, formatted: string)
}
