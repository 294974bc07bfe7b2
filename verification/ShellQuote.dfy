/** Quoting for the remote command line (internal/runtime/trace.go), against a reader that follows
    sections 2.2.1 (backslash) and 2.2.2 (single quotes) of the POSIX.1-2017 Shell Command Language. */
module ShellQuote {
  import opened Options
  import opened Config

  // ---- The printer ----

  /** `strings.ReplaceAll(s, "'", "'\''")`. */
  function ReplaceQuotes(s: string): string {
    if s == "" then "" else (if s[0] == '\'' then "'\\''" else [s[0]]) + ReplaceQuotes(s[1..])
  }

  function ShellQuote(s: string): string {
    "'" + ReplaceQuotes(s) + "'"
  }

  /** The command the trace stream starts. */
  function TailCommand(trace: TraceConfig): string {
    "exec tail -F -n0 " + ShellQuote(LogPathOrDefault(trace))
  }

  // ---- The reader ----

  /** Characters with a further meaning when unquoted (section 2.2); commands with one are outside the
      fragment read here. */
  predicate IsSpecial(c: char) {
    c in "|&;<>()$`\"*?[#~=%\n"
  }

  predicate IsBlank(c: char) { c == ' ' || c == '\t' }

  /** Length of `s` up to the next single quote. */
  function QuotedLength(s: string): (n: nat)
    ensures n <= |s|
    ensures n < |s| ==> s[n] == '\''
  {
    if s == "" || s[0] == '\'' then 0 else 1 + QuotedLength(s[1..])
  }

  /** Adds to the word being read, or begins one. */
  function Extend(word: Option<string>, more: string): Option<string> {
    Some((if word.Some? then word.value else "") + more)
  }

  function Finish(words: seq<string>, word: Option<string>): seq<string> {
    if word.Some? then words + [word.value] else words
  }

  /** The words of `s`, after `words` and the word in progress; None if `s` ends inside a quotation or
      is outside the fragment. */
  function ReadFrom(s: string, word: Option<string>, words: seq<string>): Option<seq<string>>
    decreases |s|
  {
    if s == "" then Some(Finish(words, word))
    else if s[0] == '\'' then
      var n := QuotedLength(s[1..]);
      if n == |s[1..]| then None else ReadFrom(s[n + 2..], Extend(word, s[1..n + 1]), words)
    else if s[0] == '\\' then
      if |s| == 1 then None
      else if s[1] == '\n' then ReadFrom(s[2..], word, words)
      else ReadFrom(s[2..], Extend(word, [s[1]]), words)
    else if IsBlank(s[0]) then ReadFrom(s[1..], None, Finish(words, word))
    else if IsSpecial(s[0]) then None
    else ReadFrom(s[1..], Extend(word, [s[0]]), words)
  }

  function Read(s: string): Option<seq<string>> { ReadFrom(s, None, []) }

  // ---- Round trip ----

  /** A stretch without quotes, up to and including the quote that ends it. */
  lemma {:induction false} QuotedLengthOf(a: string, rest: string)
    requires '\'' !in a
    ensures QuotedLength(a + "'" + rest) == |a|
  {
    var s := a + "'" + rest;
    if a == "" {
      assert s[0] == '\'';
    } else {
      assert s[0] == a[0] && s[1..] == a[1..] + "'" + rest;
      QuotedLengthOf(a[1..], rest);
    }
  }

  lemma ReadQuotedStretch(a: string, rest: string, word: Option<string>, words: seq<string>)
    requires '\'' !in a
    ensures ReadFrom("'" + a + "'" + rest, word, words) == ReadFrom(rest, Extend(word, a), words)
  {
    var s := "'" + a + "'" + rest;
    assert s[1..] == a + "'" + rest;
    QuotedLengthOf(a, rest);
    assert s[1..|a| + 1] == a && s[|a| + 2..] == rest;
  }

  lemma ReadEscapedQuote(rest: string, word: Option<string>, words: seq<string>)
    ensures ReadFrom("\\'" + rest, word, words) == ReadFrom(rest, Extend(word, "'"), words)
  {
    var s := "\\'" + rest;
    assert s[0] == '\\' && s[1] == '\'' && s[2..] == rest;
  }

  lemma {:induction false} ReplaceOfStretch(a: string, b: string)
    requires '\'' !in a
    ensures ReplaceQuotes(a + b) == a + ReplaceQuotes(b)
  {
    if a == "" {
      assert a + b == b;
    } else {
      assert (a + b)[1..] == a[1..] + b;
      ReplaceOfStretch(a[1..], b);
      assert a == [a[0]] + a[1..];
    }
  }

  lemma {:induction false} NoQuoteBefore(s: string)
    ensures '\'' !in s[..QuotedLength(s)]
  {
    if s != "" && s[0] != '\'' {
      NoQuoteBefore(s[1..]);
      assert s[..QuotedLength(s)] == [s[0]] + s[1..][..QuotedLength(s[1..])];
    }
  }

  /** Wherever it stands, a quoted string adds exactly itself to the word being read. */
  lemma {:induction false} ReadQuoted(s: string, rest: string, word: Option<string>, words: seq<string>)
    ensures ReadFrom(ShellQuote(s) + rest, word, words) == ReadFrom(rest, Extend(word, s), words)
    decreases |s|
  {
    hide ReadFrom, QuotedLength, Extend;
    var n := QuotedLength(s);
    var a := s[..n];
    NoQuoteBefore(s);
    if n == |s| {
      assert a == s;
      QuoteStretch(a, rest);
      ReadQuotedStretch(a, rest, word, words);
    } else {
      var b := s[n + 1..];
      assert s == a + "'" + b;
      var after := ShellQuote(b) + rest;
      QuoteThrough(a, b, rest);
      hide ShellQuote;
      ReadQuotedStretch(a, "\\'" + after, word, words);
      ReadEscapedQuote(after, Extend(word, a), words);
      ReadQuoted(b, rest, Extend(Extend(word, a), "'"), words);
      ExtendTwice(word, a, b, s);
    }
  }

  lemma QuoteStretch(a: string, rest: string)
    requires '\'' !in a
    ensures ShellQuote(a) + rest == "'" + a + "'" + rest
  {
    ReplaceOfStretch(a, "");
    assert a + "" == a;
  }

  /** A quote in the middle: close, escape it, and open again. */
  lemma QuoteThrough(a: string, b: string, rest: string)
    requires '\'' !in a
    ensures ShellQuote(a + "'" + b) + rest == "'" + a + "'" + ("\\'" + (ShellQuote(b) + rest))
  {
    ReplaceOfStretch(a, "'" + b);
    assert a + "'" + b == a + ("'" + b) && ("'" + b)[1..] == b;
    assert ReplaceQuotes("'" + b) == "'\\''" + ReplaceQuotes(b);
  }

  lemma ExtendTwice(word: Option<string>, a: string, b: string, s: string)
    requires s == a + "'" + b
    ensures Extend(Extend(Extend(word, a), "'"), b) == Extend(word, s)
  {
    var w := if word.Some? then word.value else "";
    assert ((w + a) + "'") + b == w + s;
  }

  /** The shell reads back exactly one word, the original string, whatever it contains. */
  lemma QuoteRoundTrip(s: string)
    ensures Read(ShellQuote(s)) == Some([s])
  {
    ReadQuoted(s, "", None, []);
    hide ShellQuote;
    assert ShellQuote(s) + "" == ShellQuote(s) && "" + s == s;
    ReadNothing([], s);
    assert [] + [s] == [s];
  }

  predicate IsPlain(w: string) {
    w != "" && forall k :: 0 <= k < |w| ==> w[k] != '\'' && w[k] != '\\' && !IsBlank(w[k]) && !IsSpecial(w[k])
  }

  lemma {:induction false} ReadPlain(w: string, rest: string, word: Option<string>, words: seq<string>)
    requires w == "" || IsPlain(w)
    ensures w != "" || word.Some? ==> ReadFrom(w + rest, word, words) == ReadFrom(rest, Extend(word, w), words)
    decreases |w|
  {
    if w == "" {
      assert w + rest == rest;
      assert word.Some? ==> word.value + "" == word.value;
    } else {
      assert (w + rest)[0] == w[0] && (w + rest)[1..] == w[1..] + rest;
      ReadPlain(w[1..], rest, Extend(word, [w[0]]), words);
      ExtendOnce(word, w);
    }
  }

  lemma ExtendOnce(word: Option<string>, w: string)
    requires w != ""
    ensures Extend(Extend(word, [w[0]]), w[1..]) == Extend(word, w)
  {
    var v := if word.Some? then word.value else "";
    assert (v + [w[0]]) + w[1..] == v + w;
  }

  /** A plain word and the blank after it. */
  lemma ReadWord(w: string, rest: string, words: seq<string>)
    requires IsPlain(w)
    ensures ReadFrom(w + " " + rest, None, words) == ReadFrom(rest, None, words + [w])
  {
    assert w + " " + rest == w + (" " + rest);
    ReadPlain(w, " " + rest, None, words);
    assert (" " + rest)[0] == ' ' && (" " + rest)[1..] == rest && "" + w == w;
  }

  /** The trace command is read as five words whatever path is configured. */
  lemma CommandWords(trace: TraceConfig)
    ensures Read(TailCommand(trace)) == Some(["exec", "tail", "-F", "-n0", LogPathOrDefault(trace)])
    ensures LogPathOrDefault(trace) == if trace.logPath == "" then DEFAULT_LOG_PATH else trace.logPath
  {
    hide ReadFrom, ShellQuote, IsPlain;
    var path := LogPathOrDefault(trace);
    FiveWords(ShellQuote(path));
    ReadQuoted(path, "", None, ["exec", "tail", "-F", "-n0"]);
    assert ShellQuote(path) + "" == ShellQuote(path) && "" + path == path;
    ReadNothing(["exec", "tail", "-F", "-n0"], path);
    assert ["exec", "tail", "-F", "-n0"] + [path] == ["exec", "tail", "-F", "-n0", path];
    assert Extend(None, path) == Some(path);
  }

  lemma ReadNothing(words: seq<string>, w: string)
    ensures ReadFrom("", Some(w), words) == Some(words + [w])
  {
  }

  lemma PlainWords()
    ensures IsPlain("exec") && IsPlain("tail") && IsPlain("-F") && IsPlain("-n0")
  {
  }

  lemma CommandText(q: string)
    ensures "exec tail -F -n0 " + q == "exec" + " " + ("tail" + " " + ("-F" + " " + ("-n0" + " " + q)))
  {
    assert "exec tail -F -n0 " == "exec" + " " + "tail" + " " + "-F" + " " + "-n0" + " ";
  }

  lemma FiveWords(q: string)
    ensures Read("exec tail -F -n0 " + q) == ReadFrom(q, None, ["exec", "tail", "-F", "-n0"])
  {
    hide ReadFrom, IsPlain;
    PlainWords();
    var r4 := "-n0" + " " + q;
    var r3 := "-F" + " " + r4;
    var r2 := "tail" + " " + r3;
    CommandText(q);
    ReadWord("exec", r2, []);
    var w1 := [] + ["exec"];
    ReadWord("tail", r3, w1);
    var w2 := w1 + ["tail"];
    ReadWord("-F", r4, w2);
    var w3 := w2 + ["-F"];
    ReadWord("-n0", q, w3);
    assert w3 + ["-n0"] == ["exec", "tail", "-F", "-n0"];
  }
}
