module ShellRoundTrip {
  // Printing a command with all its parentheses and parsing it back.

  import opened ShellParser
  import opened ShellWords

  datatype Tree = TExec(args: seq<string>) | TRedir(cmd: Tree, file: string, mode: Mode)
                | TPipe(left: Tree, right: Tree) | TList(left: Tree, right: Tree) | TBack(cmd: Tree)

  predicate LegalWord(w: string) {
    w != [] && forall k :: 0 <= k < |w| ==> !Ws(w[k]) && !Sym(w[k]) && w[k] != '\0'
  }

  /** Legal words, and fewer than MAXARGS arguments to a command. */
  predicate Legal(t: Tree) {
    match t
    case TExec(args) => |args| < MAXARGS && forall i :: 0 <= i < |args| ==> LegalWord(args[i])
    case TRedir(c, f, _) => Legal(c) && LegalWord(f)
    case TPipe(l, r) => Legal(l) && Legal(r)
    case TList(l, r) => Legal(l) && Legal(r)
    case TBack(c) => Legal(c)
  }

  function PrintArgs(args: seq<string>): string {
    if args == [] then [] else args[0] + " " + PrintArgs(args[1..])
  }

  function Symbol(m: Mode): string {
    match m
    case In => "<"
    case Out => ">"
    case Append => ">>"
  }

  function Group(t: Tree): string
    decreases t, 1
  {
    "(" + Print(t) + ")"
  }

  function Print(t: Tree): string
    decreases t, 0
  {
    match t
    case TExec(args) => PrintArgs(args)
    case TRedir(c, f, m) => Group(c) + Symbol(m) + f + " "
    case TPipe(l, r) => Group(l) + "|" + Group(r)
    case TList(l, r) => Group(l) + ";" + Group(r)
    case TBack(c) => Group(c) + "&"
  }

  /** c is t, word for word. */
  predicate Means(s: string, c: Cmd, t: Tree) {
    match t
    case TExec(args) => c.Exec? && |c.args| == |args| && forall i :: 0 <= i < |args| ==> Is(s, c.args[i], args[i])
    case TRedir(d, f, m) => c.Redir? && c.mode == m && Is(s, c.file, f) && Means(s, c.cmd, d)
    case TPipe(l, r) => c.Pipe? && Means(s, c.left, l) && Means(s, c.right, r)
    case TList(l, r) => c.List? && Means(s, c.left, l) && Means(s, c.right, r)
    case TBack(d) => c.Back? && Means(s, c.cmd, d)
  }

  predicate Is(s: string, w: Slice, x: string) {
    w.q <= w.eq <= |s| && s[w.q..w.eq] == x
  }

  /** x stands at position i of s. */
  predicate Has(s: string, i: nat, x: string) {
    i + |x| <= |s| && s[i..i + |x|] == x
  }

  lemma HasConcat(s: string, i: nat, x: string, y: string)
    requires Has(s, i, x + y)
    ensures Has(s, i, x) && Has(s, i + |x|, y)
  {
    var z := s[i..i + |x| + |y|];
    assert s[i..i + |x|] == z[..|x|] && (x + y)[..|x|] == x;
    assert s[i + |x|..i + |x| + |y|] == z[|x|..] && (x + y)[|x|..] == y;
  }

  lemma HasAt(s: string, i: nat, x: string, k: nat)
    requires Has(s, i, x) && k < |x|
    ensures i + k < |s| && s[i + k] == x[k]
  {
    assert s[i..i + |x|][k] == x[k];
  }

  /** The end of the line, or the parenthesis that closes the enclosing block. */
  predicate Closed(s: string, e: nat) {
    e == |s| || (e < |s| && s[e] == ')')
  }

  lemma SkipNone(s: string, i: nat)
    requires i == |s| || (i < |s| && !Ws(s[i]))
    ensures Skip(s, i) == i
  {
  }

  // -------------------------------------------------------------------------- tokens

  lemma {:induction false} WordEndAt(s: string, i: nat, e: nat)
    requires i <= e < |s| && (forall k :: i <= k < e ==> !Ws(s[k]) && !Sym(s[k])) && Ws(s[e])
    ensures WordEnd(s, i) == e
    decreases e - i
  {
    if i < e { WordEndAt(s, i + 1, e); }
  }

  /** A word followed by a blank. */
  lemma WordToken(s: string, i: nat, w: string)
    requires LegalWord(w) && Has(s, i, w + " ")
    requires i + |w| + 1 <= |s| && (i + |w| + 1 < |s| ==> !Ws(s[i + |w| + 1]))
    ensures Gettoken(s, i) == Token('a', i, i + |w|, i + |w| + 1) && Is(s, Slice(i, i + |w|), w)
    ensures !Ws(s[i]) && !Sym(s[i])
  {
    HasConcat(s, i, w, " ");
    HasAt(s, i + |w|, " ", 0);
    forall k | i <= k < i + |w| ensures s[k] == w[k - i] {
      HasAt(s, i, w, k - i);
    }
    assert s[i] == w[0];
    SkipNone(s, i);
    WordEndAt(s, i, i + |w|);
    SkipNone(s, i + |w| + 1);
    assert Skip(s, i + |w|) == Skip(s, i + |w| + 1);
  }

  lemma SymToken(s: string, i: nat)
    requires i < |s| && Sym(s[i]) && s[i] != '>' && (i + 1 == |s| || !Ws(s[i + 1]))
    ensures Gettoken(s, i).tok == s[i] && Gettoken(s, i).next == i + 1
  {
    SkipNone(s, i);
    SkipNone(s, i + 1);
  }

  // ------------------------------------------------------------------ simple commands

  /** Nothing printed begins with white space or a redirection; only an empty command prints nothing. */
  lemma Start(s: string, i: nat, t: Tree)
    requires Legal(t) && Has(s, i, Print(t)) && Closed(s, i + |Print(t)|)
    ensures Skip(s, i) == i
    ensures t.TExec? ==> At(s, i) != '(' && At(s, i) != '<' && At(s, i) != '>'
  {
    match t
    case TExec(args) =>
      if args == [] {
        SkipNone(s, i);
      } else {
        assert LegalWord(args[0]);
        HasConcat(s, i, args[0] + " ", PrintArgs(args[1..]));
        HasConcat(s, i, args[0], " ");
        HasAt(s, i, args[0], 0);
        SkipNone(s, i);
      }
    case _ =>
      GroupFirst(t);
      HasAt(s, i, Print(t), 0);
      SkipNone(s, i);
  }

  lemma GroupFirst(t: Tree)
    requires !t.TExec?
    ensures Print(t) != [] && Print(t)[0] == '('
  {
  }

  /** The argument loop ended at e with the words of rest after those of before. */
  predicate Parsed(s: string, r: Result, before: seq<Slice>, rest: seq<string>, e: nat) {
    && r.Ok? && r.pos == e && r.cmd.Exec? && |r.cmd.args| == |before| + |rest|
    && r.cmd.args[..|before|] == before
    && forall k :: 0 <= k < |rest| ==> Is(s, r.cmd.args[|before| + k], rest[k])
  }

  lemma ParsedShift(s: string, r: Result, before: seq<Slice>, w: Slice, rest: seq<string>, e: nat)
    requires rest != [] && Is(s, w, rest[0]) && Parsed(s, r, before + [w], rest[1..], e)
    ensures Parsed(s, r, before, rest, e)
  {
    var args, n := r.cmd.args, |before|;
    assert args[..n] == args[..n + 1][..n];
    assert args[n] == args[..n + 1][n] == w;
    forall k | 0 <= k < |rest| ensures Is(s, args[n + k], rest[k]) {
      if k > 0 { assert rest[1..][k - 1] == rest[k]; }
    }
  }

  lemma {:induction false} ArgsOf(s: string, before: seq<Slice>, rest: seq<string>, i: nat)
    requires Has(s, i, PrintArgs(rest)) && Closed(s, i + |PrintArgs(rest)|) && |before| + |rest| < MAXARGS
    requires forall k :: 0 <= k < |rest| ==> LegalWord(rest[k])
    ensures Parsed(s, ParseArgs(s, before, [], i), before, rest, i + |PrintArgs(rest)|)
    decreases |rest|
  {
    hide ParseArgs, Parsed, LegalWord, Has, Is, Closed;
    HasRoom(s, i, PrintArgs(rest));
    if rest == [] {
      ArgsEnd(s, before, i);
    } else {
      ArgsOne(s, before, rest, i);
      var w := Slice(i, i + |rest[0]|);
      ArgsOf(s, before + [w], rest[1..], i + |rest[0]| + 1);
      ParsedShift(s, ParseArgs(s, before, [], i), before, w, rest, i + |PrintArgs(rest)|);
    }
  }

  /** The first word of several. */
  lemma ArgsOne(s: string, before: seq<Slice>, rest: seq<string>, i: nat)
    requires rest != [] && Has(s, i, PrintArgs(rest)) && Closed(s, i + |PrintArgs(rest)|) && |before| + |rest| < MAXARGS
    requires forall k :: 0 <= k < |rest| ==> LegalWord(rest[k])
    ensures var w, j := Slice(i, i + |rest[0]|), i + |rest[0]| + 1;
      && Is(s, w, rest[0]) && Has(s, j, PrintArgs(rest[1..]))
      && |PrintArgs(rest)| == |rest[0]| + 1 + |PrintArgs(rest[1..])|
      && ParseArgs(s, before, [], i) == ParseArgs(s, before + [w], [], j)
  {
    hide ParseArgs, Gettoken;
    var w, j := rest[0], i + |rest[0]| + 1;
    HasConcat(s, i, w + " ", PrintArgs(rest[1..]));
    ArgsStart(s, rest[1..], j);
    WordToken(s, i, w);
    SkipNone(s, j);
    ArgsStep(s, before, rest, i);
  }

  lemma HasRoom(s: string, i: nat, x: string)
    requires Has(s, i, x)
    ensures i + |x| <= |s|
  {
  }

  lemma ArgsEnd(s: string, before: seq<Slice>, i: nat)
    requires Closed(s, i)
    ensures Parsed(s, ParseArgs(s, before, [], i), before, [], i)
  {
    SkipNone(s, i);
  }

  lemma ArgsStart(s: string, rest: seq<string>, j: nat)
    requires Has(s, j, PrintArgs(rest)) && Closed(s, j + |PrintArgs(rest)|) && forall k :: 0 <= k < |rest| ==>
      LegalWord(rest[k])
    ensures j == |s| || !Ws(s[j])
    ensures At(s, j) != '<' && At(s, j) != '>'
  {
    if rest != [] {
      HasConcat(s, j, rest[0] + " ", PrintArgs(rest[1..]));
      HasConcat(s, j, rest[0], " ");
      HasAt(s, j, rest[0], 0);
    }
  }

  /** One round of the argument loop on a word. */
  lemma ArgsStep(s: string, before: seq<Slice>, rest: seq<string>, i: nat)
    requires rest != [] && |before| + 1 < MAXARGS && LegalWord(rest[0]) && i + |rest[0]| + 1 <= |s|
    requires Gettoken(s, i) == Token('a', i, i + |rest[0]|, i + |rest[0]| + 1) && i < |s| && !Ws(s[i]) && !Sym(s[i])
    requires var j := i + |rest[0]| + 1; Skip(s, j) == j && At(s, j) != '<' && At(s, j) != '>'
    ensures ParseArgs(s, before, [], i) == ParseArgs(s, before + [Slice(i, i + |rest[0]|)], [], i + |rest[0]| + 1)
  {
    hide LegalWord, Gettoken;
    SkipNone(s, i);
    assert ParseRedirs(s, i + |rest[0]| + 1) == Redirs([], i + |rest[0]| + 1);
    var none: seq<(Slice, Mode)> := [];
    assert none + none == none;
  }

  // ------------------------------------------------------------------ what follows

  /** One step of each of the mutually recursive parsers. */
  lemma PipeEnds(s: string, i: nat, c: Cmd, e: nat)
    requires i <= |s| && ParseExec(s, i) == Ok(c, e) && Skip(s, e) == e && At(s, e) != '|'
    ensures ParsePipe(s, i) == Ok(c, e)
  {
    hide ParseExec, Gettoken, Skip, At;
  }

  lemma PipeGoesOn(s: string, i: nat, c: Cmd, m: nat, d: Cmd, e: nat)
    requires i <= |s| && ParseExec(s, i) == Ok(c, m) && Skip(s, m) == m && At(s, m) == '|' && m + 1 <= |s|
    requires Gettoken(s, m).next == m + 1 && ParsePipe(s, m + 1) == Ok(d, e)
    ensures ParsePipe(s, i) == Ok(Pipe(c, d), e)
  {
    hide ParseExec, Gettoken, Skip, At;
  }

  lemma LineEnds(s: string, i: nat, c: Cmd, k: nat, b: Cmd, e: nat)
    requires i <= |s| && ParsePipe(s, i) == Ok(c, k) && k <= |s| && Backs(s, c, k) == Ok(b, e) && Skip(s, e) == e
    requires At(s, e) != ';'
    ensures ParseLine(s, i) == Ok(b, e)
  {
    hide ParsePipe, Backs, Gettoken, Skip, At;
  }

  lemma LineGoesOn(s: string, i: nat, c: Cmd, m: nat, d: Cmd, e: nat)
    requires i <= |s| && ParsePipe(s, i) == Ok(c, m) && m + 1 <= |s| && Backs(s, c, m) == Ok(c, m) && Skip(s, m) == m
    requires At(s, m) == ';'
    requires Gettoken(s, m).next == m + 1 && ParseLine(s, m + 1) == Ok(d, e)
    ensures ParseLine(s, i) == Ok(List(c, d), e)
  {
    hide ParsePipe, Backs, Gettoken, Skip, At;
  }

  lemma NoBacks(s: string, c: Cmd, e: nat)
    requires e <= |s| && Skip(s, e) == e && At(s, e) != '&'
    ensures Backs(s, c, e) == Ok(c, e)
  {
    hide Gettoken, Skip, At;
  }

  lemma OneBack(s: string, c: Cmd, e: nat)
    requires e + 1 <= |s| && Skip(s, e) == e && At(s, e) == '&' && Gettoken(s, e).next == e + 1
    requires Backs(s, Back(c), e + 1) == Ok(Back(c), e + 1)
    ensures Backs(s, c, e) == Ok(Back(c), e + 1)
  {
    hide Gettoken, Skip, At;
  }

  /** parsepipe and parseline add nothing to a command that is closed. */
  lemma ClosedLine(s: string, i: nat, c: Cmd, e: nat)
    requires i <= |s| && ParseExec(s, i) == Ok(c, e) && Closed(s, e)
    ensures ParsePipe(s, i) == Ok(c, e) && ParseLine(s, i) == Ok(c, e)
  {
    hide ParseExec, ParsePipe, ParseLine, Backs, Gettoken, Skip;
    SkipNone(s, e);
    PipeEnds(s, i, c, e);
    NoBacks(s, c, e);
    LineEnds(s, i, c, e, c, e);
  }

  lemma BackLine(s: string, i: nat, c: Cmd, e: nat)
    requires i <= |s| && e < |s| && ParseExec(s, i) == Ok(c, e) && s[e] == '&' && Closed(s, e + 1)
    ensures ParseLine(s, i) == Ok(Back(c), e + 1)
  {
    hide ParseExec, ParsePipe, ParseLine, Backs, Gettoken, Skip;
    SkipNone(s, e);
    SkipNone(s, e + 1);
    SymToken(s, e);
    PipeEnds(s, i, c, e);
    NoBacks(s, Back(c), e + 1);
    OneBack(s, c, e);
    LineEnds(s, i, c, e, Back(c), e + 1);
  }

  lemma PipeLine(s: string, i: nat, c: Cmd, m: nat, d: Cmd, e: nat)
    requires i <= |s| && m < |s| && ParseExec(s, i) == Ok(c, m) && s[m] == '|'
    requires !Ws(At(s, m + 1)) && ParseExec(s, m + 1) == Ok(d, e) && Closed(s, e)
    ensures ParseLine(s, i) == Ok(Pipe(c, d), e)
  {
    hide ParseExec, ParsePipe, ParseLine, Backs, Gettoken, Skip;
    SkipNone(s, m);
    SymToken(s, m);
    ClosedLine(s, m + 1, d, e);
    PipeGoesOn(s, i, c, m, d, e);
    SkipNone(s, e);
    NoBacks(s, Pipe(c, d), e);
    LineEnds(s, i, Pipe(c, d), e, Pipe(c, d), e);
  }

  lemma ListLine(s: string, i: nat, c: Cmd, m: nat, d: Cmd, e: nat)
    requires i <= |s| && m < |s| && ParseExec(s, i) == Ok(c, m) && s[m] == ';'
    requires !Ws(At(s, m + 1)) && ParseExec(s, m + 1) == Ok(d, e) && Closed(s, e)
    ensures ParseLine(s, i) == Ok(List(c, d), e)
  {
    hide ParseExec, ParsePipe, ParseLine, Backs, Gettoken, Skip;
    SkipNone(s, m);
    SymToken(s, m);
    ClosedLine(s, m + 1, d, e);
    PipeEnds(s, i, c, m);
    NoBacks(s, c, m);
    LineGoesOn(s, i, c, m, d, e);
  }

  function Finished(c: Cmd, r: Redirs): Result {
    match r
    case NoFile => Err
    case Redirs(rs, e) => Ok(Wrap(c, rs), e)
  }

  /** A parenthesised command, with the redirections after it. */
  lemma GroupExec(s: string, i: nat, c: Cmd, k: nat)
    requires i < k < |s| && s[i] == '(' && !Ws(s[i + 1]) && ParseLine(s, i + 1) == Ok(c, k) && s[k] == ')'
    requires !Ws(At(s, k + 1))
    ensures ParseExec(s, i) == Finished(c, ParseRedirs(s, k + 1))
  {
    hide ParseBlock, Gettoken, ParseLine, ParseRedirs, Wrap, Skip;
    SkipNone(s, i);
    SymToken(s, i);
    SkipNone(s, k);
    SymToken(s, k);
    BlockStep(s, i, c, k);
    assert At(s, i) == '(';
  }

  lemma BlockStep(s: string, i: nat, c: Cmd, k: nat)
    requires i < k < |s| && s[i] == '(' && Gettoken(s, i).next == i + 1 && ParseLine(s, i + 1) == Ok(c, k)
    requires Skip(s, k) == k && At(s, k) == ')' && Gettoken(s, k).next == k + 1
    ensures ParseBlock(s, i) == Finished(c, ParseRedirs(s, k + 1))
  {
    hide Gettoken, ParseLine, ParseRedirs, Wrap, Skip, At, SpaceUpTo, WordAt, Ws, Sym;
  }

  lemma NoRedirs(s: string, i: nat)
    requires i <= |s| && !Ws(At(s, i)) && At(s, i) != '<' && At(s, i) != '>'
    ensures ParseRedirs(s, i) == Redirs([], i)
  {
    SkipNone(s, i);
  }

  /** One redirection and nothing more. */
  lemma OneRedir(s: string, i: nat, m: Mode, f: string)
    requires LegalWord(f) && Has(s, i, Symbol(m) + (f + " "))
    requires var e := i + |Symbol(m)| + |f| + 1; Closed(s, e)
    ensures var q := i + |Symbol(m)|;
      && ParseRedirs(s, i) == Redirs([(Slice(q, q + |f|), m)], q + |f| + 1) && Is(s, Slice(q, q + |f|), f)
      && !Ws(s[i])
  {
    hide Gettoken, LegalWord, Skip, ParseRedirs, Has, Is;
    var q := i + |Symbol(m)|;
    RedirText(s, i, m, f);
    WordToken(s, q, f);
    SkipNone(s, i);
    RedirToken(s, i, m);
    NoRedirs(s, q + |f| + 1);
    RedirStep(s, i, m, q, f);
  }

  lemma RedirText(s: string, i: nat, m: Mode, f: string)
    requires Has(s, i, Symbol(m) + (f + " "))
    ensures var q := i + |Symbol(m)|;
      && Has(s, q, f + " ") && q + |f| + 1 <= |s| && s[i] == Symbol(m)[0] && (m.Append? ==> s[i + 1] == '>')
  {
    HasConcat(s, i, Symbol(m), f + " ");
    HasAt(s, i, Symbol(m), 0);
    if m.Append? { HasAt(s, i, Symbol(m), 1); }
  }

  lemma RedirStep(s: string, i: nat, m: Mode, q: nat, f: string)
    requires q <= |s| && i < |s| && Skip(s, i) == i && (s[i] == '<' || s[i] == '>') && Gettoken(s, i).next == q
    requires Gettoken(s, i).tok == TokenOf(m)
    requires Gettoken(s, q) == Token('a', q, q + |f|, q + |f| + 1) && q + |f| + 1 <= |s|
    requires ParseRedirs(s, q + |f| + 1) == Redirs([], q + |f| + 1)
    ensures ParseRedirs(s, i) == Redirs([(Slice(q, q + |f|), m)], q + |f| + 1)
  {
    hide Gettoken, Skip, SpaceUpTo, WordAt, Ws, Sym;
    var none: seq<(Slice, Mode)> := [];
    assert [(Slice(q, q + |f|), m)] + none == [(Slice(q, q + |f|), m)];
  }

  function TokenOf(m: Mode): char {
    match m
    case In => '<'
    case Out => '>'
    case Append => '+'
  }

  lemma RedirToken(s: string, i: nat, m: Mode)
    requires i + |Symbol(m)| < |s| && !Ws(s[i + |Symbol(m)|]) && !Sym(s[i + |Symbol(m)|])
    requires s[i] == Symbol(m)[0] && (m.Append? ==> s[i + 1] == '>')
    ensures Gettoken(s, i).next == i + |Symbol(m)|
    ensures Gettoken(s, i).tok == TokenOf(m)
  {
    SkipNone(s, i);
    SkipNone(s, i + |Symbol(m)|);
  }

  // ------------------------------------------------------------------- the round trip

  lemma ExecStep(s: string, i: nat)
    requires i <= |s| && Skip(s, i) == i && At(s, i) != '(' && ParseRedirs(s, i) == Redirs([], i)
    ensures ParseExec(s, i) == ParseArgs(s, [], [], i)
  {
    hide ParseArgs, ParseRedirs, ParseBlock, Skip, At;
  }

  lemma ExecLine(s: string, i: nat, args: seq<string>)
    requires Legal(TExec(args)) && Has(s, i, PrintArgs(args)) && Closed(s, i + |PrintArgs(args)|)
    ensures i <= |s|
    ensures var r := ParseLine(s, i); r.Ok? && r.pos == i + |PrintArgs(args)| && Means(s, r.cmd, TExec(args))
  {
    hide ParseLine, ParseArgs, ParseExec, ParsePipe, ParseRedirs, Skip, Has, LegalWord, Is, Closed, PrintArgs;
    HasRoom(s, i, PrintArgs(args));
    Start(s, i, TExec(args));
    StartAt(s, i);
    NoRedirs(s, i);
    ExecStep(s, i);
    ArgsOf(s, [], args, i);
    var r := ParseArgs(s, [], [], i);
    ClosedLine(s, i, r.cmd, r.pos);
  }

  lemma StartAt(s: string, i: nat)
    requires i <= |s| && Skip(s, i) == i
    ensures !Ws(At(s, i))
  {
  }

  /** The text of a group: its parentheses and what is between them. */
  lemma GroupAt(s: string, i: nat, t: Tree)
    requires Has(s, i, Group(t))
    ensures var k := i + 1 + |Print(t)|;
      && k < |s| && s[i] == '(' && s[k] == ')' && Has(s, i + 1, Print(t)) && k + 1 == i + |Group(t)|
  {
    HasConcat(s, i, "(" + Print(t), ")");
    HasConcat(s, i, "(", Print(t));
    HasAt(s, i, "(", 0);
    HasAt(s, i + 1 + |Print(t)|, ")", 0);
  }

  /** A group whose content parses, and no redirection after it. */
  lemma GroupParsed(s: string, i: nat, t: Tree, c: Cmd)
    requires Content(s, i, t, c)
    requires var e := i + |Group(t)|; !Ws(At(s, e)) && At(s, e) != '<' && At(s, e) != '>'
    ensures ParseExec(s, i) == Ok(c, i + |Group(t)|)
  {
    hide ParseLine, ParseExec, ParseRedirs, Gettoken, Skip, Print, Legal;
    GroupAt(s, i, t);
    var k := i + 1 + |Print(t)|;
    Start(s, i + 1, t);
    SkipMeans(s, i + 1);
    NoRedirs(s, k + 1);
    GroupExec(s, i, c, k);
  }

  lemma SkipMeans(s: string, i: nat)
    requires i < |s| && Skip(s, i) == i
    ensures !Ws(s[i])
  {
  }

  /** The content of a group parses, and the group stands at i. */
  predicate Content(s: string, i: nat, t: Tree, c: Cmd) {
    && Legal(t) && Has(s, i, Group(t)) && i + 1 <= |s|
    && ParseLine(s, i + 1) == Ok(c, i + 1 + |Print(t)|)
  }

  lemma ClosedFacts(s: string, e: nat)
    requires Closed(s, e)
    ensures e <= |s| && !Ws(At(s, e)) && At(s, e) != '<' && At(s, e) != '>'
  {
  }

  lemma ContentAt(s: string, i: nat, t: Tree, c: Cmd)
    requires Content(s, i, t, c)
    ensures i < |s| && s[i] == '('
  {
    GroupAt(s, i, t);
  }

  lemma ContentRoom(s: string, i: nat, t: Tree, c: Cmd)
    requires Content(s, i, t, c)
    ensures i + |Group(t)| <= |s|
  {
  }

  lemma BackOf(s: string, i: nat, t: Tree, c: Cmd)
    requires Content(s, i, t, c) && Has(s, i + |Group(t)|, "&") && Closed(s, i + |Group(t)| + 1)
    ensures ParseLine(s, i) == Ok(Back(c), i + |Group(t)| + 1)
  {
    hide ParseLine, ParseExec, Group;
    var k := i + |Group(t)|;
    HasAt(s, k, "&", 0);
    GroupParsed(s, i, t, c);
    BackLine(s, i, c, k);
  }

  lemma PairOf(s: string, i: nat, l: Tree, c: Cmd, op: string, r: Tree, d: Cmd)
    requires Content(s, i, l, c) && (op == "|" || op == ";") && Has(s, i + |Group(l)|, op)
    requires Content(s, i + |Group(l)| + 1, r, d) && Closed(s, i + |Group(l)| + 1 + |Group(r)|)
    ensures ParseLine(s, i) == Ok(if op == "|" then Pipe(c, d) else List(c, d), i + |Group(l)| + 1 + |Group(r)|)
  {
    hide ParseLine, ParseExec, Group, Content, Has, Closed;
    var m := i + |Group(l)|;
    ContentRoom(s, i, l, c);
    ContentAt(s, m + 1, r, d);
    ClosedFacts(s, m + 1 + |Group(r)|);
    HasAt(s, m, op, 0);
    GroupParsed(s, i, l, c);
    GroupParsed(s, m + 1, r, d);
    if op == "|" { PipeLine(s, i, c, m, d, m + 1 + |Group(r)|); } else { ListLine(s, i, c, m, d, m + 1 + |Group(r)|); }
  }

  lemma RedirOf(s: string, i: nat, t: Tree, c: Cmd, f: string, m: Mode)
    requires Content(s, i, t, c) && LegalWord(f) && Has(s, i + |Group(t)|, Symbol(m) + (f + " "))
    requires Closed(s, i + |Group(t)| + |Symbol(m)| + |f| + 1)
    ensures var q := i + |Group(t)| + |Symbol(m)|;
      && ParseLine(s, i) == Ok(Redir(c, Slice(q, q + |f|), m), q + |f| + 1) && Is(s, Slice(q, q + |f|), f)
  {
    hide ParseLine, ParseExec, ParseRedirs, LegalWord, Wrap, Print, Legal, Has, Skip, Is, Closed;
    var k := i + |Group(t)|;
    ContentRoom(s, i, t, c);
    ClosedFacts(s, k + |Symbol(m)| + |f| + 1);
    OneRedir(s, k, m, f);
    GroupAt(s, i, t);
    Start(s, i + 1, t);
    SkipMeans(s, i + 1);
    GroupExec(s, i, c, k - 1);
    var w := Slice(k + |Symbol(m)|, k + |Symbol(m)| + |f|);
    WrapOne(c, w, m);
    ClosedLine(s, i, Redir(c, w, m), k + |Symbol(m)| + |f| + 1);
  }

  /** What LineOf states. */
  predicate Recovered(s: string, i: nat, t: Tree) {
    i <= |s| && var r := ParseLine(s, i); r.Ok? && r.pos == i + |Print(t)| && Means(s, r.cmd, t)
  }

  lemma ContentOf(s: string, i: nat, t: Tree)
    requires Legal(t) && Has(s, i, Group(t)) && Recovered(s, i + 1, t)
    ensures Content(s, i, t, ParseLine(s, i + 1).cmd)
  {
  }

  /** Parsing a printed command, in any closed context, gives back the command. */
  lemma {:induction false} LineOf(s: string, i: nat, t: Tree)
    requires Legal(t) && Has(s, i, Print(t)) && Closed(s, i + |Print(t)|)
    ensures Recovered(s, i, t)
    decreases t, 1
  {
    hide ParseLine, Has, Closed, LegalWord, Content;
    HasRoom(s, i, Print(t));
    match t
    case TExec(args) => ExecLine(s, i, args);
    case TRedir(c, f, m) =>
      assert Group(c) + Symbol(m) + f + " " == Group(c) + (Symbol(m) + (f + " "));
      HasConcat(s, i, Group(c), Symbol(m) + (f + " "));
      GroupOf(s, i, c);
      RedirOf(s, i, c, ParseLine(s, i + 1).cmd, f, m);
    case TPipe(l, r) => PairBoth(s, i, t, l, "|", r);
    case TList(l, r) => PairBoth(s, i, t, l, ";", r);
    case TBack(c) =>
      HasConcat(s, i, Group(c), "&");
      GroupOf(s, i, c);
      BackOf(s, i, c, ParseLine(s, i + 1).cmd);
  }

  lemma {:induction false} GroupOf(s: string, i: nat, t: Tree)
    requires Legal(t) && Has(s, i, Group(t))
    ensures Recovered(s, i + 1, t) && Content(s, i, t, ParseLine(s, i + 1).cmd)
    decreases t, 2
  {
    hide ParseLine;
    GroupAt(s, i, t);
    LineOf(s, i + 1, t);
    ContentOf(s, i, t);
  }

  lemma {:induction false} PairBoth(s: string, i: nat, t: Tree, l: Tree, op: string, r: Tree)
    requires t == (if op == "|" then TPipe(l, r) else TList(l, r)) && (op == "|" || op == ";")
    requires Legal(t) && Has(s, i, Group(l) + op + Group(r)) && Closed(s, i + |Print(t)|)
    ensures Recovered(s, i, t)
    decreases t, 0
  {
    hide ParseLine, Has, Closed, LegalWord, Content;
    HasRoom(s, i, Group(l) + op + Group(r));
    HasConcat(s, i, Group(l) + op, Group(r));
    HasConcat(s, i, Group(l), op);
    var m := i + |Group(l)| + 1;
    GroupOf(s, i, l);
    GroupOf(s, m, r);
    PairOf(s, i, l, ParseLine(s, i + 1).cmd, op, r, ParseLine(s, m + 1).cmd);
  }

  lemma WrapOne(c: Cmd, w: Slice, m: Mode)
    ensures Wrap(c, [(w, m)]) == Redir(c, w, m)
  {
    assert [(w, m)][1..] == [];
  }

  /** parsecmd undoes printing, for every legal command. */
  lemma ParsePrint(t: Tree)
    requires Legal(t)
    ensures var r := ParseCmd(Print(t)); r.Ok? && Means(Print(t), r.cmd, t)
  {
    var s := Print(t);
    hide ParseLine, Legal, Print, Means;
    assert s[0..|s|] == s;
    LineOf(s, 0, t);
    SkipNone(s, |s|);
  }

  // --------------------------------------------------------------- down to the C strings

  /** c is t when its pointers are read as C strings in the buffer b. */
  predicate MeansInBuffer(b: seq<char>, c: Cmd, t: Tree) {
    match t
    case TExec(args) =>
      c.Exec? && |c.args| == |args| && forall i :: 0 <= i < |args| ==> IsStr(b, c.args[i], args[i])
    case TRedir(d, f, m) => c.Redir? && c.mode == m && IsStr(b, c.file, f) && MeansInBuffer(b, c.cmd, d)
    case TPipe(l, r) => c.Pipe? && MeansInBuffer(b, c.left, l) && MeansInBuffer(b, c.right, r)
    case TList(l, r) => c.List? && MeansInBuffer(b, c.left, l) && MeansInBuffer(b, c.right, r)
    case TBack(d) => c.Back? && MeansInBuffer(b, c.cmd, d)
  }

  predicate IsStr(b: seq<char>, w: Slice, x: string) {
    w.q <= |b| && CStr(b, w.q) == x
  }

  /** Every recorded word w of whole is the C string at its start. */
  ghost predicate Terminated(s: string, whole: Cmd, b: seq<char>) {
    forall w :: SliceOf(whole, w) ==> w.q < w.eq <= |s| && w.q <= |b| && CStr(b, w.q) == s[w.q..w.eq]
  }

  /** The words of part are words of whole. */
  ghost predicate PartOf(part: Cmd, whole: Cmd) {
    forall w :: SliceOf(part, w) ==> SliceOf(whole, w)
  }

  lemma {:induction false} InBuffer(s: string, b: seq<char>, whole: Cmd, c: Cmd, t: Tree)
    requires Terminated(s, whole, b) && PartOf(c, whole) && Means(s, c, t)
    ensures MeansInBuffer(b, c, t)
    decreases t
  {
    hide CStr;
    match t
    case TExec(args) =>
      forall i | 0 <= i < |args| ensures IsStr(b, c.args[i], args[i]) {
        assert SliceOf(c, c.args[i]);
        assert Is(s, c.args[i], args[i]);
      }
    case TRedir(d, f, m) =>
      assert SliceOf(c, c.file);
      InBuffer(s, b, whole, c.cmd, d);
    case TPipe(l, r) =>
      InBuffer(s, b, whole, c.left, l);
      InBuffer(s, b, whole, c.right, r);
    case TList(l, r) =>
      InBuffer(s, b, whole, c.left, l);
      InBuffer(s, b, whole, c.right, r);
    case TBack(d) => InBuffer(s, b, whole, c.cmd, d);
  }

  predicate NoNul(s: string) {
    forall i :: 0 <= i < |s| ==> s[i] != '\0'
  }

  lemma NoNulConcat(x: string, y: string)
    ensures NoNul(x + y) <==> NoNul(x) && NoNul(y)
  {
    if NoNul(x + y) {
      forall i | 0 <= i < |x| ensures x[i] != '\0' {
        assert x[i] == (x + y)[i];
      }
      forall i | 0 <= i < |y| ensures y[i] != '\0' {
        assert y[i] == (x + y)[|x| + i];
      }
    }
  }

  lemma {:induction false} ArgsNoNul(args: seq<string>)
    requires forall i :: 0 <= i < |args| ==> LegalWord(args[i])
    ensures NoNul(PrintArgs(args))
  {
    if args != [] {
      ArgsNoNul(args[1..]);
      NoNulConcat(args[0], " ");
      NoNulConcat(args[0] + " ", PrintArgs(args[1..]));
    }
  }

  lemma {:induction false} GroupNoNul(t: Tree)
    requires NoNul(Print(t))
    ensures NoNul(Group(t))
  {
    hide Print;
    NoNulConcat("(", Print(t));
    NoNulConcat("(" + Print(t), ")");
  }

  lemma {:induction false} PrintNoNul(t: Tree)
    requires Legal(t)
    ensures NoNul(Print(t))
    decreases t, 1
  {
    hide NoNul, Group;
    match t
    case TExec(args) => ArgsNoNul(args);
    case TRedir(c, f, m) =>
      PrintNoNul(c);
      GroupNoNul(c);
      RedirNoNul(Group(c), f, m);
    case TPipe(l, r) => PairNoNul(t, l, r, "|");
    case TList(l, r) => PairNoNul(t, l, r, ";");
    case TBack(c) =>
      PrintNoNul(c);
      GroupNoNul(c);
      NoNulConcat(Group(c), "&");
      SymbolsNoNul();
  }

  lemma {:induction false} PairNoNul(t: Tree, l: Tree, r: Tree, op: string)
    requires (t == TPipe(l, r) || t == TList(l, r)) && Legal(t) && (op == "|" || op == ";")
    ensures NoNul(Group(l) + op + Group(r))
    decreases t, 0
  {
    hide NoNul, Group;
    PrintNoNul(l);
    PrintNoNul(r);
    GroupNoNul(l);
    GroupNoNul(r);
    SymbolsNoNul();
    NoNulConcat(Group(l), op);
    NoNulConcat(Group(l) + op, Group(r));
  }

  lemma SymbolsNoNul()
    ensures NoNul("|") && NoNul(";") && NoNul("&") && NoNul(" ") && NoNul(">") && NoNul(">>") && NoNul("<")
  {
  }

  lemma RedirNoNul(g: string, f: string, m: Mode)
    requires NoNul(g) && LegalWord(f)
    ensures NoNul(g + Symbol(m) + f + " ")
  {
    assert NoNul(f);
    SymbolsNoNul();
    hide NoNul;
    NoNulConcat(g, Symbol(m));
    NoNulConcat(g + Symbol(m), f);
    NoNulConcat(g + Symbol(m) + f, " ");
  }

  /**
    parsecmd with its nulterminate, on the text of any legal command: the tree in
    memory is that command, every word a C string in the buffer.
  */
  method ParseInPlace(t: Tree) returns (buf: array<char>, c: Cmd)
    requires Legal(t)
    ensures MeansInBuffer(buf[..], c, t)
  {
    hide Legal, Print, ParseCmd, GoodCmd, EndsAt, SliceOf, Means, CStr;
    var s := Print(t);
    PrintNoNul(t);
    buf := new char[|s| + 1](i requires 0 <= i => if i < |s| then s[i] else '\0');
    ParsePrint(t);
    c := ParseCmd(s).cmd;
    CmdGood(s);
    ghost var before := buf[..];
    assert forall i :: 0 <= i < buf.Length ==> buf[i] == At(s, i);
    Nulterminate(buf, c, s);
    ghost var b := buf[..];
    assert forall i :: 0 <= i < |b| ==> b[i] == if EndsAt(c, i) then '\0' else At(s, i);
    forall w | SliceOf(c, w) ensures w.q < w.eq <= |s| && w.q <= |b| && CStr(b, w.q) == s[w.q..w.eq] {
      WordsIntact(s, c, b, w);
    }
    InBuffer(s, b, c, c, t);
  }

  lemma CmdGood(s: string)
    requires ParseCmd(s).Ok?
    ensures GoodCmd(s, ParseCmd(s).cmd)
  {
    LineGood(s, 0);
    hide ParseLine, GoodCmd;
  }
}
