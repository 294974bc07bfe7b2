/** The size hint for Base64 payloads (web/trace-worker.js, b64len), against the encoding of section 4 of
    RFC 4648. */
module Base64Size {
  import opened LineFraming

  function Digit(v: nat): (c: char)
    requires v < 64
    ensures c != '='
  {
    if v < 26 then 'A' + v as char
    else if v < 52 then 'a' + (v - 26) as char
    else if v < 62 then '0' + (v - 52) as char
    else if v == 62 then '+'
    else '/'
  }

  /** Up to three octets to four characters, padded when there are fewer. */
  function Group(b: Bytes): (g: string)
    requires 0 < |b| <= 3
    ensures |g| == 4
  {
    var x := b[0] as nat;
    var y := if |b| > 1 then b[1] as nat else 0;
    var z := if |b| > 2 then b[2] as nat else 0;
    [Digit(x / 4),
     Digit(x % 4 * 16 + y / 16),
     if |b| > 1 then Digit(y % 16 * 4 + z / 64) else '=',
     if |b| > 2 then Digit(z % 64) else '=']
  }

  function Encode(b: Bytes): string {
    if |b| == 0 then "" else if |b| <= 3 then Group(b) else Group(b[..3]) + Encode(b[3..])
  }

  predicate EndsWith(s: string, end: string) {
    |end| <= |s| && s[|s| - |end|..] == end
  }

  /** The value of a character of the alphabet; padding counts as nothing. */
  function Value(c: char): (v: nat)
    ensures v < 64
  {
    if 'A' <= c <= 'Z' then (c - 'A') as nat
    else if 'a' <= c <= 'z' then (c - 'a') as nat + 26
    else if '0' <= c <= '9' then (c - '0') as nat + 52
    else if c == '+' then 62
    else if c == '/' then 63
    else 0
  }

  function Ungroup(g: string): (b: Bytes)
    requires |g| == 4
    ensures |b| == if g[2] == '=' then 1 else if g[3] == '=' then 2 else 3
  {
    var x := (Value(g[0]) * 4 + Value(g[1]) / 16) as byte;
    var y := (Value(g[1]) % 16 * 16 + Value(g[2]) / 4) as byte;
    var z := (Value(g[2]) % 4 * 64 + Value(g[3])) as byte;
    if g[2] == '=' then [x] else if g[3] == '=' then [x, y] else [x, y, z]
  }

  function Decode(s: string): Bytes
    requires |s| % 4 == 0
  {
    if |s| == 0 then [] else Ungroup(s[..4]) + Decode(s[4..])
  }

  lemma ValueOfDigit(v: nat)
    requires v < 64
    ensures Value(Digit(v)) == v
  {
  }

  lemma UngroupGroup(b: Bytes)
    requires 0 < |b| <= 3
    ensures Ungroup(Group(b)) == b
  {
    var x := b[0] as nat;
    var y := if |b| > 1 then b[1] as nat else 0;
    var z := if |b| > 2 then b[2] as nat else 0;
    hide Digit, Value;
    ValueOfDigit(x / 4);
    ValueOfDigit(x % 4 * 16 + y / 16);
    ValueOfDigit(y % 16 * 4 + z / 64);
    ValueOfDigit(z % 64);
    PaddingIsNothing();
    SixBitsBack(x, y, z);
  }

  lemma SixBitsBack(x: nat, y: nat, z: nat)
    requires x < 256 && y < 256 && z < 256
    ensures x / 4 * 4 + (x % 4 * 16 + y / 16) / 16 == x
    ensures (x % 4 * 16 + y / 16) % 16 * 16 + (y % 16 * 4 + z / 64) / 4 == y
    ensures (y % 16 * 4 + z / 64) % 4 * 64 + z % 64 == z
  {
  }

  lemma PaddingIsNothing()
    ensures Value('=') == 0
  {
  }

  /** The encoding is one that can be taken back. */
  lemma {:induction false} DecodeEncode(b: Bytes)
    ensures |Encode(b)| % 4 == 0 && Decode(Encode(b)) == b
  {
    hide Group, Ungroup;
    if |b| > 3 {
      var first, rest := Group(b[..3]), Encode(b[3..]);
      DecodeEncode(b[3..]);
      UngroupGroup(b[..3]);
      assert (first + rest)[..4] == first && (first + rest)[4..] == rest;
      assert b == b[..3] + b[3..];
    } else if |b| > 0 {
      UngroupGroup(b);
      assert Group(b)[..4] == Group(b) && Group(b)[4..] == "" && b + [] == b;
      assert Decode("") == [];
    }
  }

  function B64Len(s: string): nat {
    var pad := if EndsWith(s, "==") then 2 else if EndsWith(s, "=") then 1 else 0;
    var n := |s| * 3 / 4 - pad;
    if n < 0 then 0 else n
  }

  lemma GroupPadding(b: Bytes)
    requires 0 < |b| <= 3
    ensures EndsWith(Group(b), "==") <==> |b| == 1
    ensures EndsWith(Group(b), "=") <==> |b| != 3
  {
    var g := Group(b);
    hide Group, Digit;
    assert g[3] == '=' <==> |b| != 3 by { GroupDigits(b); }
    assert g[2] == '=' <==> |b| == 1 by { GroupDigits(b); }
    assert g[2..] == [g[2], g[3]] && g[3..] == [g[3]];
  }

  lemma GroupDigits(b: Bytes)
    requires 0 < |b| <= 3
    ensures Group(b)[3] == '=' <==> |b| != 3
    ensures Group(b)[2] == '=' <==> |b| == 1
  {
  }

  lemma EndOfAppend(a: string, s: string, end: string)
    requires |end| <= |s|
    ensures EndsWith(a + s, end) <==> EndsWith(s, end)
  {
    assert (a + s)[|a + s| - |end|..] == s[|s| - |end|..];
  }

  lemma OneGroupLess(n: nat)
    requires n > 3
    ensures (n - 3 + 2) / 3 * 4 + 4 == (n + 2) / 3 * 4 && (n - 3) % 3 == n % 3
  {
  }

  /** Length and padding of an encoding. */
  lemma {:induction false} EncodeShape(b: Bytes)
    ensures |Encode(b)| == (|b| + 2) / 3 * 4
    ensures EndsWith(Encode(b), "==") <==> |b| % 3 == 1
    ensures EndsWith(Encode(b), "=") <==> |b| % 3 != 0
  {
    if |b| > 3 {
      var first, rest := Group(b[..3]), Encode(b[3..]);
      assert Encode(b) == first + rest;
      hide Encode, EndsWith, Group;
      EncodeShape(b[3..]);
      OneGroupLess(|b|);
      EndOfAppend(first, rest, "==");
      EndOfAppend(first, rest, "=");
    } else if |b| > 0 {
      assert Encode(b) == Group(b);
      hide Encode, EndsWith, Group;
      GroupPadding(b);
    }
  }

  /** The hint is the exact size of what was encoded. */
  lemma B64LenIsExact(b: Bytes)
    ensures B64Len(Encode(b)) == |b|
  {
    hide Encode, EndsWith;
    EncodeShape(b);
    SizeFromLength(|b|);
  }

  lemma SizeFromLength(n: nat)
    ensures (n + 2) / 3 * 4 * 3 / 4 - (if n % 3 == 1 then 2 else if n % 3 != 0 then 1 else 0) == n
  {
    assert n == n / 3 * 3 + n % 3;
  }
}
