module GrepLines {
  // grep's line buffer. Each read returns at least one byte and at most what was
  // asked for while there is input, and 0 at its end or when nothing was asked for.
  // strchr stops at a NUL, so a line with one is never complete.

  import opened Regex

  const BUFSIZE := 1024

  /** The position of the first newline, |s| if there is none. */
  function Newline(s: string): (n: nat)
    ensures n <= |s|
    ensures forall i :: 0 <= i < n ==> s[i] != '\n'
    ensures n < |s| ==> s[n] == '\n'
  {
    if s == [] || s[0] == '\n' then 0 else 1 + Newline(s[1..])
  }

  /** The position of the first NUL, |s| if there is none. */
  function Nul(s: string): (n: nat)
    ensures n <= |s|
    ensures forall i :: 0 <= i < n ==> s[i] != '\0'
    ensures n < |s| ==> s[n] == '\0'
  {
    if s == [] || s[0] == '\0' then 0 else 1 + Nul(s[1..])
  }

  /** The input up to its first NUL. */
  function Text(s: string): string {
    s[..Nul(s)]
  }

  /** The output for one newline-terminated line. */
  ghost function LineOut(re: string, line: string): string {
    if Matches(re, line) then line + "\n" else []
  }

  /** The matching lines of s, each with its newline; an unterminated rest is not a line. */
  ghost function AllLines(re: string, s: string): string {
    var n := Newline(s);
    if n == |s| then [] else LineOut(re, s[..n]) + AllLines(re, s[n + 1..])
  }

  /** The same, up to the first line that does not fit the buffer with its newline and a NUL. */
  ghost function ShortLines(re: string, s: string): string {
    var n := Newline(s);
    if n == |s| || n + 1 > BUFSIZE - 1 then [] else LineOut(re, s[..n]) + ShortLines(re, s[n + 1..])
  }

  /** No line, with its newline, is longer than the buffer can hold. */
  ghost predicate LinesFit(s: string) {
    var n := Newline(s);
    n < |s| ==> n + 1 <= BUFSIZE - 1 && LinesFit(s[n + 1..])
  }

  lemma {:induction false} FitMeansAll(re: string, s: string)
    requires LinesFit(s)
    ensures ShortLines(re, s) == AllLines(re, s)
    decreases |s|
  {
    if Newline(s) < |s| {
      FitMeansAll(re, s[Newline(s) + 1..]);
    }
  }

  lemma FirstLine(s: string, n: nat)
    requires n < |s| && s[n] == '\n' && forall i :: 0 <= i < n ==> s[i] != '\n'
    ensures Newline(s) == n
  {
  }

  /** No newline and no NUL from p to q. */
  predicate Unbroken(buf: seq<char>, p: nat, q: nat) {
    q <= |buf| && forall i :: p <= i < q ==> buf[i] != '\n' && buf[i] != '\0'
  }

  /** strchr(p, '\n') in a NUL-terminated buffer holding data up to m. */
  method FindNewline(buf: array<char>, p: nat, m: nat) returns (q: nat)
    requires p <= m < buf.Length && buf[m] == '\0'
    ensures p <= q <= m && (buf[q] == '\n' || buf[q] == '\0') && Unbroken(buf[..], p, q)
  {
    q := p;
    while buf[q] != '\0' && buf[q] != '\n'
      invariant p <= q <= m && Unbroken(buf[..], p, q)
      decreases m - q
    {
      q := q + 1;
    }
  }

  /** The buffer from p to m holds the input from at on. */
  predicate Holds(buf: seq<char>, p: nat, m: nat, input: string, at: nat) {
    p <= m < |buf| && at + (m - p) <= |input| && forall i :: p <= i < m ==> buf[i] == input[at + (i - p)]
  }

  /** What follows a line in the buffer. */
  lemma HoldsRest(was: seq<char>, buf: seq<char>, p: nat, q: nat, m: nat, input: string, at: nat)
    requires Holds(was, p, m, input, at) && p <= q < m && |buf| == |was| && buf[q + 1..] == was[q + 1..]
    ensures Holds(buf, q + 1, m, input, at + (q + 1 - p))
  {
    forall i | q + 1 <= i < m ensures buf[i] == was[i] {
      assert buf[i] == buf[q + 1..][i - (q + 1)];
    }
  }

  /** out is the output for the text before at. */
  ghost predicate Printed(re: string, text: string, at: nat, out: string) {
    at <= |text| && out + ShortLines(re, text[at..]) == ShortLines(re, text)
  }

  /** Input without a NUL before k is text. */
  lemma TextTo(buf: seq<char>, p: nat, q: nat, m: nat, input: string, at: nat)
    requires Holds(buf, p, m, input, at) && p <= q <= m && Unbroken(buf, p, q) && at <= |Text(input)|
    ensures at + (q - p) <= |Text(input)|
    ensures q < m && buf[q] != '\0' ==> at + (q - p) < |Text(input)|
    ensures q < m && buf[q] == '\0' ==> at + (q - p) == |Text(input)|
  {
    forall i | at <= i < at + (q - p) ensures input[i] != '\0' {
      assert input[i] == buf[p + (i - at)];
    }
    if q < m { assert input[at + (q - p)] == buf[q]; }
  }

  lemma OneLine(re: string, s: string, n: nat)
    requires n < |s| && s[n] == '\n' && (forall i :: 0 <= i < n ==> s[i] != '\n') && n + 1 <= BUFSIZE - 1
    ensures ShortLines(re, s) == LineOut(re, s[..n]) + ShortLines(re, s[n + 1..])
  {
    FirstLine(s, n);
    hide LineOut;
  }

  lemma Assoc(a: string, b: string, c: string)
    ensures a + (b + c) == (a + b) + c
  {
  }

  /** One more line. */
  lemma LineDone(buf: seq<char>, p: nat, q: nat, m: nat, input: string, at: nat, re: string, out: string)
    requires Holds(buf, p, m, input, at) && Printed(re, Text(input), at, out) && p <= q < m < BUFSIZE
    requires buf[q] == '\n' && Unbroken(buf, p, q)
    ensures Printed(re, Text(input), at + (q + 1 - p), out + LineOut(re, buf[p..q]))
  {
    hide LineOut, ShortLines;
    TextTo(buf, p, q, m, input, at);
    var n, s := q - p, Text(input)[at..];
    assert s[n] == buf[q];
    forall i | 0 <= i < n ensures s[i] == buf[p + i] && s[i] == buf[p..q][i] {
      assert s[i] == input[at + i];
    }
    OneLine(re, s, n);
    assert buf[p..q] == s[..n];
    assert s[n + 1..] == Text(input)[at + (n + 1)..];
    Assoc(out, LineOut(re, s[..n]), ShortLines(re, s[n + 1..]));
  }

  /** Nothing more is printed once there is a NUL, the input is used up, or the buffer is full without a newline. */
  lemma NothingLeft(buf: seq<char>, z: nat, m: nat, input: string, at: nat, re: string, out: string)
    requires Holds(buf, 0, m, input, at) && Printed(re, Text(input), at, out)
    requires z <= m && Unbroken(buf, 0, z) && (z < m ==> buf[z] == '\0')
    requires at + m == |input| || m == BUFSIZE - 1
    ensures out == ShortLines(re, Text(input))
  {
    TextTo(buf, 0, z, m, input, at);
    var s := Text(input)[at..];
    assert forall i :: 0 <= i < z ==> s[i] == buf[i];
    assert ShortLines(re, s) == [];
  }

  /** grep: what it writes to standard output. */
  method Grep(pattern: string, input: string) returns (out: string)
    ensures out == ShortLines(pattern, Text(input))
    ensures LinesFit(Text(input)) ==> out == AllLines(pattern, Text(input))
  {
    hide ShortLines, AllLines, LinesFit;
    var buf := new char[BUFSIZE];
    var m, pos: nat := 0, 0;
    ghost var at: nat, z: nat := 0, 0;
    out := [];
    assert Text(input)[0..] == Text(input);
    assert Printed(pattern, Text(input), at, out);
    hide Printed;
    while true
      invariant 0 <= m < BUFSIZE && at + m == pos <= |input|
      invariant Holds(buf[..], 0, m, input, at) && Printed(pattern, Text(input), at, out)
      invariant z <= m && Unbroken(buf[..], 0, z) && (z < m ==> buf[z] == '\0')
      decreases |input| - pos
    {
      var n := Read(buf, m, input, pos);
      if n == 0 {
        break;
      }
      m, pos := m + n, pos + n;
      buf[m] := '\0';

      var p := 0;
      p, out, at, z := Lines(buf, m, pattern, input, at, out);
      if m > 0 {
        ghost var was := buf[..];
        m, z := m - p, z - p;
        forall i | 0 <= i < m {
          buf[i] := buf[p + i];
        }
        assert forall i :: 0 <= i < m ==> buf[i] == was[p + i];
      }
    }
    NothingLeft(buf[..], z, m, input, at, pattern, out);
    if LinesFit(Text(input)) { FitMeansAll(pattern, Text(input)); }
  }

  /** read(fd, buf + m, sizeof(buf) - m - 1): any amount up to that and to the end of the input. */
  method Read(buf: array<char>, m: nat, input: string, pos: nat) returns (n: nat)
    requires buf.Length == BUFSIZE && m < BUFSIZE && pos <= |input|
    modifies buf
    ensures n == 0 <==> pos == |input| || m == BUFSIZE - 1
    ensures pos + n <= |input| && m + n <= BUFSIZE - 1
    ensures forall i :: 0 <= i < m ==> buf[i] == old(buf[i])
    ensures forall i :: m <= i < m + n ==> buf[i] == input[pos + (i - m)]
  {
    var space, left := BUFSIZE - m - 1, |input| - pos;
    if space == 0 || left == 0 {
      return 0;
    }
    n :| 1 <= n <= space && n <= left;
    forall i | m <= i < m + n {
      buf[i] := input[pos + (i - m)];
    }
  }

  lemma LineOutIs(re: string, line: string)
    ensures LineOut(re, line) == if Matches(re, line) then line + "\n" else []
  {
  }

  /** The inner loop: every complete line in the buffer. */
  method Lines(buf: array<char>, m: nat, pattern: string, input: string, ghost at0: nat, out0: string)
    returns (p: nat, out: string, ghost at: nat, ghost z: nat)
    requires buf.Length == BUFSIZE && m < BUFSIZE && buf[m] == '\0'
    requires Holds(buf[..], 0, m, input, at0) && Printed(pattern, Text(input), at0, out0)
    modifies buf
    ensures p <= m && at == at0 + p
    ensures Holds(buf[..], p, m, input, at) && Printed(pattern, Text(input), at, out)
    ensures p <= z <= m && Unbroken(buf[..], p, z) && buf[z] == '\0'
  {
    hide Printed, LineOut, Text, Holds, Unbroken;
    p, out, at, z := 0, out0, at0, 0;
    while true
      invariant p <= m && at == at0 + p && buf[m] == '\0'
      invariant Holds(buf[..], p, m, input, at) && Printed(pattern, Text(input), at, out)
      decreases m - p
    {
      var q := FindNewline(buf, p, m);
      if buf[q] == '\0' {
        z := q;
        break;
      }
      ghost var was := buf[..];
      LineDone(was, p, q, m, input, at, pattern, out);
      buf[q] := '\0';
      assert buf[p..q] == was[p..q];
      var hit := Match(pattern, buf[p..q]);
      LineOutIs(pattern, was[p..q]);
      if hit {
        buf[q] := '\n';
        assert buf[p..q + 1] == was[p..q] + "\n";
        out := out + buf[p..q + 1];
      } else {
        assert out + [] == out;
      }
      at := at + (q + 1 - p);
      HoldsRest(was, buf[..], p, q, m, input, at - (q + 1 - p));
      p := q + 1;
    }
  }
}
