/** The trace pane of the page (web/index.html): an in-memory window of recent items and a filtered
    display that is kept up to date item by item, or rebuilt from the window.

    `shown` is what the incremental path has been asked to show since the last rebuild or clear; the
    display is always the tail of its matches. */
module TracePane {
  import opened Items

  const MAX_TRACE_LINES: nat := 2000
  const RECENT_MAX: nat := 5000

  const SHELL_COMMS: set<string> := {"bash", "sh", "zsh", "fish", "dash", "ksh", "tcsh", "csh", "sshd"}
  const KEEP_FROM_SHELL: set<string> := {"execve", "execveat"}

  datatype Filters = Filters(hidden: set<string>, hideShell: bool, text: string)

  /** A row of the log element: which item, and whether it was rendered raw. */
  datatype Row = Row(item: Item, raw: bool)

  // ---- Definitions ----

  predicate Includes(s: string, sub: string) {
    sub <= s || (s != "" && Includes(s[1..], sub))
  }

  /** `toLowerCase` on the ASCII letters. */
  function LowerCase(s: string): (r: string)
    ensures |r| == |s|
  {
    seq(|s|, k requires 0 <= k < |s| => if 'A' <= s[k] <= 'Z' then s[k] + ('a' - 'A') else s[k])
  }

  predicate IsSpace(c: char) { c in " \t\n\r" }

  /** `trim` on ASCII white space. */
  function Trim(s: string): (r: string)
    ensures r != "" ==> !IsSpace(r[0]) && !IsSpace(r[|r| - 1])
  {
    if s == "" then s
    else if IsSpace(s[0]) then Trim(s[1..])
    else if IsSpace(s[|s| - 1]) then Trim(s[..|s| - 1])
    else s
  }

  predicate Matches(f: Filters, it: Item) {
    && it.etype !in f.hidden
    && !(f.hideShell && it.comm in SHELL_COMMS && it.name !in KEEP_FROM_SHELL)
    && (f.text != "" ==> Includes(LowerCase(it.formatted), f.text))
  }

  function Matching(f: Filters, items: seq<Item>): seq<Item> {
    if items == [] then []
    else
      var last := items[|items| - 1];
      Matching(f, items[..|items| - 1]) + (if Matches(f, last) then [last] else [])
  }

  /** The last `n` elements, or all of them. */
  function Tail<T>(s: seq<T>, n: nat): (t: seq<T>)
    ensures |t| == if |s| <= n then |s| else n
  {
    if |s| <= n then s else s[|s| - n..]
  }

  function Render(items: seq<Item>, raw: bool): (rows: seq<Row>)
    ensures |rows| == |items|
  {
    seq(|items|, k requires 0 <= k < |items| => Row(items[k], raw))
  }

  /** What `rerender` shows: the last matches of the window. */
  function Rebuilt(f: Filters, recent: seq<Item>): seq<Item> {
    Tail(Matching(f, recent), MAX_TRACE_LINES)
  }

  predicate IsSuffix<T(==)>(t: seq<T>, s: seq<T>) {
    |t| <= |s| && s[|s| - |t|..] == t
  }

  // ---- What the filters decide ----

  /** Commands typed in a shell are always kept: for `execve` and `execveat` the shell switch changes
      nothing.  It hides everything else a shell does, and nothing any other process does. */
  lemma ShellSwitch(f: Filters, it: Item)
    ensures it.name == "execve" || it.name == "execveat" ==> Matches(f, it) == Matches(f.(hideShell := false), it)
    ensures var ofShell := it.comm in {"bash", "sh", "zsh", "fish", "dash", "ksh", "tcsh", "csh", "sshd"};
      && (ofShell && it.name != "execve" && it.name != "execveat" && f.hideShell ==> !Matches(f, it))
      && (!ofShell ==> Matches(f, it) == Matches(f.(hideShell := false), it))
  {
    hide LowerCase, Includes;
  }

  /** A type is hidden exactly when it is switched off, and the switches of other types do not matter. */
  lemma TypeSwitch(f: Filters, it: Item)
    ensures it.etype in f.hidden ==> !Matches(f, it)
    ensures it.etype !in f.hidden ==> Matches(f, it) == Matches(f.(hidden := {}), it)
  {
    hide LowerCase, Includes;
  }

  /** The same letter, but for ASCII case. */
  predicate SameLetter(c: char, d: char) {
    || c == d
    || ('A' <= c <= 'Z' && d as int == c as int + 32)
    || ('A' <= d <= 'Z' && c as int == d as int + 32)
  }

  /** `typed` stands in `text` at this position, but for ASCII case. */
  ghost predicate FoundAt(text: string, typed: string, at: nat) {
    at + |typed| <= |text| && forall k :: 0 <= k < |typed| ==> SameLetter(text[at..at + |typed|][k], typed[k])
  }

  lemma LowerAgrees(s: string, t: string)
    requires |s| == |t|
    ensures LowerCase(s) == LowerCase(t) <==> forall k :: 0 <= k < |s| ==> SameLetter(s[k], t[k])
  {
    if forall k :: 0 <= k < |s| ==> SameLetter(s[k], t[k]) {
      assert forall k :: 0 <= k < |s| ==> LowerCase(s)[k] == LowerCase(t)[k];
    } else {
      var k :| 0 <= k < |s| && !SameLetter(s[k], t[k]);
      assert LowerCase(s)[k] != LowerCase(t)[k];
    }
  }

  ghost predicate StandsAt(s: string, sub: string, at: nat) {
    at + |sub| <= |s| && s[at..at + |sub|] == sub
  }

  lemma {:induction false} IncludesSomewhere(s: string, sub: string)
    ensures Includes(s, sub) <==> exists at: nat :: StandsAt(s, sub, at)
  {
    PrefixStands(s, sub);
    if s != "" && !(sub <= s) {
      IncludesSomewhere(s[1..], sub);
      if at: nat :| StandsAt(s[1..], sub, at) { StandsLater(s, sub, at); }
      if at: nat :| StandsAt(s, sub, at) && at > 0 { StandsLater(s, sub, at - 1); }
    }
  }

  lemma PrefixStands(s: string, sub: string)
    ensures sub <= s <==> StandsAt(s, sub, 0)
  {
  }

  lemma StandsLater(s: string, sub: string, at: nat)
    requires s != ""
    ensures StandsAt(s[1..], sub, at) <==> StandsAt(s, sub, at + 1)
  {
    if at + 1 + |sub| <= |s| { assert s[1..][at..at + |sub|] == s[at + 1..at + 1 + |sub|]; }
  }

  /** The text filter passes exactly the items in whose line the typed text stands somewhere, letter by
      letter, ASCII case aside. */
  lemma TextSwitch(f: Filters, it: Item, typed: string)
    requires f.text == LowerCase(typed)
    ensures Matches(f, it) <==> Matches(f.(text := ""), it) && exists at: nat :: FoundAt(it.formatted, typed, at)
  {
    IncludesSomewhere(LowerCase(it.formatted), LowerCase(typed));
    forall at: nat ensures StandsAt(LowerCase(it.formatted), LowerCase(typed), at) <==> FoundAt(it.formatted, typed, at) {
      PlaceAgrees(it.formatted, typed, at);
    }
    hide Includes, LowerCase, FoundAt, StandsAt;
    if typed == "" { NothingIsFound(it.formatted); }
    if f.text == "" { assert typed == ""; }
  }

  lemma PlaceAgrees(text: string, typed: string, at: nat)
    ensures StandsAt(LowerCase(text), LowerCase(typed), at) <==> FoundAt(text, typed, at)
  {
    if at + |typed| <= |text| {
      var part := text[at..at + |typed|];
      assert LowerCase(text)[at..at + |typed|] == LowerCase(part);
      LowerAgrees(part, typed);
    }
  }

  lemma NothingIsFound(text: string)
    ensures FoundAt(text, "", 0)
  {
  }

  // ---- Lemmas ----

  lemma {:induction false} MatchingOfConcat(f: Filters, a: seq<Item>, b: seq<Item>)
    ensures Matching(f, a + b) == Matching(f, a) + Matching(f, b)
  {
    if b == [] {
      assert a + b == a;
    } else {
      MatchingOfConcat(f, a, b[..|b| - 1]);
      assert (a + b)[..|a + b| - 1] == a + b[..|b| - 1];
    }
  }

  lemma TailOfAppend<T>(s: seq<T>, more: seq<T>, n: nat)
    ensures Tail(Tail(s, n) + more, n) == Tail(s + more, n)
  {
  }

  lemma TailIsSuffix<T>(s: seq<T>, n: nat)
    ensures IsSuffix(Tail(s, n), s)
  {
  }

  lemma MatchingOfSuffix(f: Filters, t: seq<Item>, s: seq<Item>)
    requires IsSuffix(t, s)
    ensures IsSuffix(Matching(f, t), Matching(f, s))
    ensures Matching(f, s) == Matching(f, s[..|s| - |t|]) + Matching(f, t)
  {
    assert s == s[..|s| - |t|] + t;
    MatchingOfConcat(f, s[..|s| - |t|], t);
  }

  lemma TailsOfSuffix<T>(t: seq<T>, s: seq<T>, n: nat)
    requires IsSuffix(t, s)
    ensures IsSuffix(Tail(t, n), Tail(s, n))
    ensures Tail(t, n) == Tail(s, n) <==> |t| == |s| || |t| >= n
  {
  }

  /** The incremental display against the rebuilt one, when the window holds the end of what was
      shown: the rebuilt display is always the end of the incremental one, and they agree exactly
      when no match has left the window or the window still holds a full display of matches. */
  lemma IncrementalAgainstRebuilt(f: Filters, shown: seq<Item>)
    ensures
      var recent := Tail(shown, RECENT_MAX);
      var gone := shown[..|shown| - |recent|];
      var display := Tail(Matching(f, shown), MAX_TRACE_LINES);
      && IsSuffix(Rebuilt(f, recent), display)
      && (display == Rebuilt(f, recent) <==>
            Matching(f, gone) == [] || |Matching(f, recent)| >= MAX_TRACE_LINES)
  {
    var recent := Tail(shown, RECENT_MAX);
    TailIsSuffix(shown, RECENT_MAX);
    MatchingOfSuffix(f, recent, shown);
    TailsOfSuffix(Matching(f, recent), Matching(f, shown), MAX_TRACE_LINES);
  }

  function Repeated(it: Item, n: nat): (r: seq<Item>)
    ensures |r| == n && forall k :: 0 <= k < n ==> r[k] == it
  {
    if n == 0 then [] else Repeated(it, n - 1) + [it]
  }

  lemma {:induction false} NoMatches(f: Filters, it: Item, n: nat)
    requires !Matches(f, it)
    ensures Matching(f, Repeated(it, n)) == []
  {
    if n > 0 {
      NoMatches(f, it, n - 1);
      assert Repeated(it, n)[..n - 1] == Repeated(it, n - 1);
    }
  }

  /** The two do differ: one match, then a window's worth of hidden items. */
  lemma RebuildCanForget() returns (f: Filters, shown: seq<Item>)
    ensures var recent := Tail(shown, RECENT_MAX);
      |Tail(Matching(f, shown), MAX_TRACE_LINES)| == 1 && Rebuilt(f, recent) == []
  {
    f := Filters({"TTY"}, false, "");
    var seen, unseen := Item([], "LSM", "", "", ""), Item([], "TTY", "", "", "");
    shown := [seen] + Repeated(unseen, RECENT_MAX);
    NoMatches(f, unseen, RECENT_MAX);
    MatchingOfConcat(f, [seen], Repeated(unseen, RECENT_MAX));
    assert [seen][..0] == [] && Matching(f, [seen]) == Matching(f, []) + [seen];
    assert Tail(shown, RECENT_MAX) == Repeated(unseen, RECENT_MAX);
  }

  predicate AllSpace(s: string) {
    forall k :: 0 <= k < |s| ==> IsSpace(s[k])
  }

  /** Trimming takes white space off the ends and nothing else. */
  lemma {:induction false} TrimKeeps(s: string) returns (before: string, after: string)
    ensures s == before + Trim(s) + after && AllSpace(before) && AllSpace(after)
  {
    hide IsSpace, AllSpace;
    NoSpace();
    before, after := "", "";
    if s != "" && IsSpace(s[0]) {
      before, after := TrimKeeps(s[1..]);
      Longer(s, Trim(s), before, after);
      before := [s[0]] + before;
    } else if s != "" && IsSpace(s[|s| - 1]) {
      before, after := TrimKeeps(s[..|s| - 1]);
      Longer(s, Trim(s), before, after);
      after := after + [s[|s| - 1]];
    }
  }

  lemma NoSpace()
    ensures AllSpace("")
  {
  }

  lemma Longer(s: string, r: string, before: string, after: string)
    requires s != ""
    ensures s[1..] == before + r + after ==> s == ([s[0]] + before) + r + after
    ensures s[..|s| - 1] == before + r + after ==> s == before + r + (after + [s[|s| - 1]])
    ensures AllSpace(before) && IsSpace(s[0]) ==> AllSpace([s[0]] + before)
    ensures AllSpace(after) && IsSpace(s[|s| - 1]) ==> AllSpace(after + [s[|s| - 1]])
  {
    hide IsSpace;
    assert s == [s[0]] + s[1..] && s == s[..|s| - 1] + [s[|s| - 1]];
  }

  // ---- The pane's loops ----

  function Reverse<T>(s: seq<T>): (r: seq<T>)
    ensures |r| == |s|
  {
    if s == [] then [] else [s[|s| - 1]] + Reverse(s[..|s| - 1])
  }

  lemma ReverseOfAppend<T>(s: seq<T>, x: T)
    ensures Reverse(s + [x]) == [x] + Reverse(s)
  {
    assert (s + [x])[..|s|] == s;
  }

  lemma MatchingNext(f: Filters, items: seq<Item>, k: nat)
    requires k < |items|
    ensures Matching(f, items[..k + 1]) == Matching(f, items[..k]) + (if Matches(f, items[k]) then [items[k]] else [])
  {
    assert items[..k + 1][..k] == items[..k];
  }

  lemma MatchingBefore(f: Filters, items: seq<Item>, k: nat)
    requires k < |items|
    ensures Matching(f, items[k..]) == (if Matches(f, items[k]) then [items[k]] else []) + Matching(f, items[k + 1..])
  {
    assert items[k..] == [items[k]] + items[k + 1..];
    MatchingOfConcat(f, [items[k]], items[k + 1..]);
    assert [items[k]][..0] == [] && Matching(f, [items[k]]) == Matching(f, []) + (if Matches(f, items[k]) then [items[k]] else []);
  }

  /** The walk back may stop early: enough matches found, or no more items. */
  lemma TailFound(f: Filters, recent: seq<Item>, i: nat, found: seq<Item>)
    requires i <= |recent| && found == Matching(f, recent[i..])
    requires |found| <= MAX_TRACE_LINES && (i == 0 || |found| == MAX_TRACE_LINES)
    ensures found == Rebuilt(f, recent)
  {
    assert recent == recent[..i] + recent[i..] && recent[0..] == recent;
    MatchingOfConcat(f, recent[..i], recent[i..]);
  }

  lemma NoneFound(f: Filters, recent: seq<Item>)
    ensures Reverse([]) == Matching(f, recent[|recent|..])
  {
  }

  /** The window is a suffix of the history, and the whole of what a rebuild shows. */
  lemma WindowAfterRebuild(f: Filters, all: seq<Item>)
    ensures var recent := Tail(all, RECENT_MAX);
      && IsSuffix(recent, all[..|all|]) && Tail(recent, RECENT_MAX) == recent
      && Rebuilt(f, recent) == Tail(Matching(f, recent), MAX_TRACE_LINES)
  {
    assert all[..|all|] == all;
  }

  lemma RenderOfConcat(a: seq<Item>, b: seq<Item>, raw: bool)
    ensures Render(a + b, raw) == Render(a, raw) + Render(b, raw)
  {
  }

  lemma RenderOfSuffix(t: seq<Item>, s: seq<Item>, raw: bool)
    requires IsSuffix(t, s)
    ensures IsSuffix(Render(t, raw), Render(s, raw))
    ensures Render(t, raw) == Render(s, raw) <==> t == s
  {
    if Render(t, raw) == Render(s, raw) { assert |t| == |s|; }
  }

  lemma TailOfRender(items: seq<Item>, raw: bool, n: nat)
    ensures Tail(Render(items, raw), n) == Render(Tail(items, n), raw)
  {
  }

  /** Appending the new matches to the display and cutting it to size is what showing the longer list
      would give. */
  lemma DisplayOfAppend(f: Filters, shown: seq<Item>, lines: seq<Item>, raw: bool)
    ensures
      Tail(Render(Tail(Matching(f, shown), MAX_TRACE_LINES), raw) + Render(Matching(f, lines), raw), MAX_TRACE_LINES)
      == Render(Tail(Matching(f, shown + lines), MAX_TRACE_LINES), raw)
  {
    var n, before, more := MAX_TRACE_LINES, Matching(f, shown), Matching(f, lines);
    MatchingOfConcat(f, shown, lines);
    RenderOfConcat(Tail(before, n), more, raw);
    TailOfRender(Tail(before, n) + more, raw, n);
    TailOfAppend(before, more, n);
  }

  // ---- The pane ----

  class Pane {
    var hidden: set<string>
    var filterText: string
    var hideShell: bool
    var paused: bool
    var showRaw: bool
    var recent: seq<Item>
    var rows: seq<Row>          // the children of the log element

    ghost var all: seq<Item>    // everything received since the log was last cleared
    ghost var shown: seq<Item>  // the window at the last rebuild or clear, and what was appended since
    ghost var upTo: nat         // how much of `all` had been received when the display last took it in

    constructor ()
      ensures Valid()
      ensures recent == [] && rows == [] && !paused
      ensures Current() == Filters({"TTY"}, true, "")
    {
      hidden, filterText, hideShell, paused, showRaw := {"TTY"}, "", true, false, false;
      recent, rows, all, shown, upTo := [], [], [], [], 0;
    }

    function Current(): Filters reads this {
      Filters(hidden, hideShell, filterText)
    }

    ghost predicate Valid() reads this {
      && recent == Tail(all, RECENT_MAX)
      && upTo <= |all| && (!paused ==> upTo == |all|)
      && IsSuffix(shown, all[..upTo])
      && (!paused ==> recent == Tail(shown, RECENT_MAX))
      && rows == Render(Tail(Matching(Current(), shown), MAX_TRACE_LINES), showRaw)
    }

    /** While not paused, rebuilding would leave the display's end in place; it would drop rows from the
        front exactly when matches have left the window and the window lacks a full display of them. */
    lemma DisplayAgainstRebuilt()
      requires Valid() && !paused
      ensures
        var rebuilt := Render(Rebuilt(Current(), recent), showRaw);
        var gone := shown[..|shown| - |recent|];
        && shown == gone + recent
        && IsSuffix(rebuilt, rows)
        && (rows == rebuilt <==> Matching(Current(), gone) == [] || |Matching(Current(), recent)| >= MAX_TRACE_LINES)
    {
      var f, display := Current(), Tail(Matching(Current(), shown), MAX_TRACE_LINES);
      IncrementalAgainstRebuilt(f, shown);
      RenderOfSuffix(Rebuilt(f, recent), display, showRaw);
      hide Matching, Rebuilt, Render;
    }

    /** A batch arrives: it always enters the window, and the display unless that is frozen. */
    method AppendTraceLines(lines: seq<Item>)
      requires Valid()
      modifies this`recent, this`rows, this`all, this`shown, this`upTo
      ensures Valid()
      ensures all == old(all) + lines
      ensures shown == if paused then old(shown) else old(shown) + lines
      ensures paused ==> rows == old(rows)
    {
      hide Matching, Tail, Render;
      Remember(lines);
      if paused { return; }
      DisplayOfAppend(Current(), shown, lines, showRaw);
      AppendRows(lines);
      TrimRows();
      shown, upTo := shown + lines, |all|;
    }

    method Remember(lines: seq<Item>)
      requires recent == Tail(all, RECENT_MAX)
      modifies this`recent, this`all
      ensures all == old(all) + lines && recent == Tail(all, RECENT_MAX)
      ensures forall s: seq<Item> :: old(recent) == Tail(s, RECENT_MAX) ==> recent == Tail(s + lines, RECENT_MAX)
    {
      forall s: seq<Item> ensures Tail(Tail(s, RECENT_MAX) + lines, RECENT_MAX) == Tail(s + lines, RECENT_MAX) {
        TailOfAppend(s, lines, RECENT_MAX);
      }
      recent := recent + lines;
      if |recent| > RECENT_MAX { recent := recent[|recent| - RECENT_MAX..]; }
      all := all + lines;
    }

    method AppendRows(lines: seq<Item>)
      modifies this`rows
      ensures rows == old(rows) + Render(Matching(Current(), lines), showRaw)
    {
      var k := 0;
      while k < |lines|
        invariant k <= |lines|
        invariant rows == old(rows) + Render(Matching(Current(), lines[..k]), showRaw)
      {
        MatchingNext(Current(), lines, k);
        if Matches(Current(), lines[k]) { rows := rows + [Row(lines[k], showRaw)]; }
        k := k + 1;
      }
      assert lines[..k] == lines;
    }

    method TrimRows()
      modifies this`rows
      ensures rows == Tail(old(rows), MAX_TRACE_LINES)
    {
      while |rows| > MAX_TRACE_LINES
        invariant |rows| >= MAX_TRACE_LINES || rows == old(rows)
        invariant IsSuffix(rows, old(rows))
      {
        rows := rows[1..];
      }
    }

    /** Rebuilds the display from the window, walking back from the newest item. */
    method Rerender()
      requires recent == Tail(all, RECENT_MAX)
      modifies this`rows, this`shown, this`upTo
      ensures Valid() && shown == recent
      ensures rows == Render(Rebuilt(Current(), recent), showRaw)
    {
      hide Matching, Tail, Render, Rebuilt, Reverse;
      NoneFound(Current(), recent);
      var matched: seq<Item> := [];
      var i := |recent|;
      while i > 0 && |matched| < MAX_TRACE_LINES
        invariant 0 <= i <= |recent| && |matched| <= MAX_TRACE_LINES
        invariant Reverse(matched) == Matching(Current(), recent[i..])
      {
        i := i - 1;
        MatchingBefore(Current(), recent, i);
        ReverseOfAppend(matched, recent[i]);
        if Matches(Current(), recent[i]) { matched := matched + [recent[i]]; }
      }
      TailFound(Current(), recent, i, Reverse(matched));
      rows := Render(Reverse(matched), showRaw);
      shown, upTo := recent, |all|;
      WindowAfterRebuild(Current(), all);
    }

    // ---- Controls ----

    method ClearTraceLog()
      modifies this`recent, this`rows, this`all, this`shown, this`upTo
      ensures Valid() && recent == [] && rows == [] && all == [] && shown == []
    {
      recent, rows, all, shown, upTo := [], [], [], [], 0;
    }

    /** Resuming catches up with what arrived meanwhile. */
    method TogglePause()
      requires Valid()
      modifies this`paused, this`rows, this`shown, this`upTo
      ensures Valid() && paused == !old(paused)
      ensures if paused then rows == old(rows) && shown == old(shown)
              else shown == recent && rows == Render(Rebuilt(Current(), recent), showRaw)
    {
      paused := !paused;
      if !paused { Rerender(); }
    }

    method ToggleRaw()
      requires Valid()
      modifies this`showRaw, this`rows, this`shown, this`upTo
      ensures Valid() && showRaw == !old(showRaw) && shown == recent
      ensures rows == Render(Rebuilt(Current(), recent), showRaw)
    {
      showRaw := !showRaw;
      Rerender();
    }

    method ToggleShell()
      requires Valid()
      modifies this`hideShell, this`rows, this`shown, this`upTo
      ensures Valid() && shown == recent
      ensures Current() == old(Current()).(hideShell := !old(hideShell))
      ensures rows == Render(Rebuilt(Current(), recent), showRaw)
    {
      hideShell := !hideShell;
      Rerender();
    }

    method SetFilter(typed: string)
      requires Valid()
      modifies this`filterText, this`rows, this`shown, this`upTo
      ensures Valid() && shown == recent
      ensures Current() == old(Current()).(text := LowerCase(Trim(typed)))
      ensures rows == Render(Rebuilt(Current(), recent), showRaw)
    {
      filterText := LowerCase(Trim(typed));
      Rerender();
    }

    method SetType(etype: string, checked: bool)
      requires Valid()
      modifies this`hidden, this`rows, this`shown, this`upTo
      ensures Valid() && shown == recent
      ensures Current() == old(Current()).(hidden := if checked then old(hidden) - {etype} else old(hidden) + {etype})
      ensures rows == Render(Rebuilt(Current(), recent), showRaw)
    {
      hidden := if checked then hidden - {etype} else hidden + {etype};
      Rerender();
    }
  }
}
