/**
  The shell's grammar, and that sh.c's parser accepts exactly its sentences and
  returns the command each of them stands for:

    line     = pipeline '&'* [ ';' line ]
    pipeline = unit [ '|' pipeline ]
    unit     = item*  |  '(' line ')' file*
    item     = word  |  file
    file     = ( '<' | '>' | '>>' ) word

  with at most nine words of its own to a unit. The white space between tokens is
  arbitrary.
*/
module ShellGrammar {
  import opened ShellParser

  // ------------------------------------------------------------------------------ tokens

  /** A token as gettoken classifies it, with its place in the line if it is a word. */
  datatype Tok = Tok(kind: char, w: Slice)

  const NOWHERE := Slice(0, 0)

  function Sign(c: char): Tok {
    Tok(c, NOWHERE)
  }

  function AsTok(t: Token): Tok {
    Tok(t.tok, if t.tok == 'a' then Slice(t.q, t.eq) else NOWHERE)
  }

  /** The tokens of the line from position i. */
  function Lex(s: string, i: nat): seq<Tok>
    requires i <= |s|
    decreases |s| - i
  {
    var t := Gettoken(s, i);
    if t.tok == '\0' then [] else [AsTok(t)] + Lex(s, t.next)
  }

  function Head(ts: seq<Tok>): char {
    if ts == [] then '\0' else ts[0].kind
  }

  /** What a look at the next character says about the next token. */
  predicate Shows(c: char, k: char) {
    if k == '+' then c == '>' else if k == 'a' then c != '\0' && !Sym(c) else c == k
  }

  lemma SameToken(s: string, i: nat)
    requires i <= |s|
    ensures Skip(s, i) <= |s| && Gettoken(s, Skip(s, i)) == Gettoken(s, i)
  {
    SkipSkip(s, i);
  }

  /** peek: past white space there are the same tokens, and the first is the one gettoken returns. */
  lemma Peek(s: string, i: nat)
    requires i <= |s|
    ensures var j, ts := Skip(s, i), Lex(s, i);
      && j <= |s| && Lex(s, j) == ts && Shows(At(s, j), Head(ts)) && Gettoken(s, j).tok == Head(ts)
      && (ts != [] ==> AsTok(Gettoken(s, j)) == ts[0] && Gettoken(s, j).next <= |s|
                       && Lex(s, Gettoken(s, j).next) == ts[1..])
  {
    SameToken(s, i);
    ShowsToken(s, i);
    hide Gettoken, Skip;
  }

  lemma ShowsToken(s: string, i: nat)
    requires i <= |s|
    ensures Skip(s, i) <= |s| && Shows(At(s, Skip(s, i)), Gettoken(s, i).tok)
  {
  }

  // ----------------------------------------------------------------------------- grammar

  datatype Item = Arg(w: Slice) | File(m: Mode, w: Slice)

  datatype Unit = Simple(items: seq<Item>) | Block(line: Line, files: seq<Item>)

  datatype Pipeline = Last(u: Unit) | More(u: Unit, rest: Pipeline)

  datatype Line = Line(p: Pipeline, amps: nat, next: Tail)

  datatype Tail = End | Semi(line: Line)

  function ModeSign(m: Mode): Tok {
    match m
    case In => Sign('<')
    case Out => Sign('>')
    case Append => Sign('+')
  }

  function ItemToks(x: Item): seq<Tok> {
    match x
    case Arg(w) => [Tok('a', w)]
    case File(m, w) => [ModeSign(m), Tok('a', w)]
  }

  function ItemsToks(xs: seq<Item>): seq<Tok> {
    if xs == [] then [] else ItemToks(xs[0]) + ItemsToks(xs[1..])
  }

  function Amps(n: nat): seq<Tok> {
    if n == 0 then [] else [Sign('&')] + Amps(n - 1)
  }

  function UnitToks(u: Unit): seq<Tok> {
    match u
    case Simple(items) => ItemsToks(items)
    case Block(line, files) => [Sign('(')] + LineToks(line) + [Sign(')')] + ItemsToks(files)
  }

  function PipeToks(p: Pipeline): seq<Tok> {
    match p
    case Last(u) => UnitToks(u)
    case More(u, rest) => UnitToks(u) + [Sign('|')] + PipeToks(rest)
  }

  function LineToks(l: Line): seq<Tok> {
    PipeToks(l.p) + Amps(l.amps) + TailToks(l.next)
  }

  function TailToks(t: Tail): seq<Tok> {
    match t
    case End => []
    case Semi(line) => [Sign(';')] + LineToks(line)
  }

  function WordOf(x: Item): seq<Slice> {
    if x.Arg? then [x.w] else []
  }

  function FileOf(x: Item): seq<(Slice, Mode)> {
    if x.File? then [(x.w, x.m)] else []
  }

  function Words(xs: seq<Item>): seq<Slice> {
    if xs == [] then [] else WordOf(xs[0]) + Words(xs[1..])
  }

  function Files(xs: seq<Item>): seq<(Slice, Mode)> {
    if xs == [] then [] else FileOf(xs[0]) + Files(xs[1..])
  }

  predicate AllFiles(xs: seq<Item>) {
    forall k :: 0 <= k < |xs| ==> xs[k].File?
  }

  predicate WfUnit(u: Unit) {
    match u
    case Simple(items) => |Words(items)| < MAXARGS
    case Block(line, files) => WfLine(line) && AllFiles(files)
  }

  predicate WfPipe(p: Pipeline) {
    match p
    case Last(u) => WfUnit(u)
    case More(u, rest) => WfUnit(u) && WfPipe(rest)
  }

  predicate WfLine(l: Line) {
    WfPipe(l.p) && WfTail(l.next)
  }

  predicate WfTail(t: Tail) {
    match t
    case End => true
    case Semi(line) => WfLine(line)
  }

  /** The redirections, in the order they stand: the last one outermost. */
  function Nested(c: Cmd, fs: seq<(Slice, Mode)>): Cmd {
    if fs == [] then c else var f := fs[|fs| - 1]; Redir(Nested(c, fs[..|fs| - 1]), f.0, f.1)
  }

  function Backed(c: Cmd, n: nat): Cmd {
    if n == 0 then c else Back(Backed(c, n - 1))
  }

  function UnitCmd(u: Unit): Cmd
    decreases u
  {
    match u
    case Simple(items) => Nested(Exec(Words(items)), Files(items))
    case Block(line, files) => Nested(LineCmd(line), Files(files))
  }

  function PipeCmd(p: Pipeline): Cmd
    decreases p
  {
    match p
    case Last(u) => UnitCmd(u)
    case More(u, rest) => Pipe(UnitCmd(u), PipeCmd(rest))
  }

  function LineCmd(l: Line): Cmd
    decreases l
  {
    TailCmd(Backed(PipeCmd(l.p), l.amps), l.next)
  }

  function TailCmd(c: Cmd, t: Tail): Cmd
    decreases t
  {
    match t
    case End => c
    case Semi(line) => List(c, LineCmd(line))
  }

  /** The line is a sentence of the grammar that stands for command c. */
  ghost predicate Derives(s: string, c: Cmd) {
    exists l :: WfLine(l) && LineToks(l) == Lex(s, 0) && LineCmd(l) == c
  }

  // ---------------------------------------------------------------------- small lemmas

  lemma {:induction false} WrapNested(c: Cmd, fs: seq<(Slice, Mode)>)
    ensures Wrap(c, fs) == Nested(c, fs)
    decreases |fs|
  {
    if fs != [] {
      WrapNested(Redir(c, fs[0].0, fs[0].1), fs[1..]);
      NestedFirst(c, fs);
    }
  }

  lemma {:induction false} NestedFirst(c: Cmd, fs: seq<(Slice, Mode)>)
    requires fs != []
    ensures Nested(c, fs) == Nested(Redir(c, fs[0].0, fs[0].1), fs[1..])
    decreases |fs|
  {
    if |fs| > 1 {
      var init := fs[..|fs| - 1];
      NestedFirst(c, init);
      assert init[1..] == fs[1..][..|fs[1..]| - 1];
    }
  }

  lemma {:induction false} ToksConcat(xs: seq<Item>, ys: seq<Item>)
    ensures ItemsToks(xs + ys) == ItemsToks(xs) + ItemsToks(ys)
    decreases |xs|
  {
    hide ItemToks;
    if xs == [] {
      assert xs + ys == ys;
    } else {
      ToksConcat(xs[1..], ys);
      assert (xs + ys)[1..] == xs[1..] + ys;
    }
  }

  lemma {:induction false} WordsConcat(xs: seq<Item>, ys: seq<Item>)
    ensures Words(xs + ys) == Words(xs) + Words(ys)
    decreases |xs|
  {
    hide WordOf;
    if xs == [] {
      assert xs + ys == ys;
    } else {
      WordsConcat(xs[1..], ys);
      assert (xs + ys)[1..] == xs[1..] + ys;
    }
  }

  lemma {:induction false} FilesConcat(xs: seq<Item>, ys: seq<Item>)
    ensures Files(xs + ys) == Files(xs) + Files(ys)
    decreases |xs|
  {
    hide FileOf;
    if xs == [] {
      assert xs + ys == ys;
    } else {
      FilesConcat(xs[1..], ys);
      assert (xs + ys)[1..] == xs[1..] + ys;
    }
  }

  lemma {:induction false} FilesOnly(xs: seq<Item>)
    requires AllFiles(xs)
    ensures Words(xs) == []
    decreases |xs|
  {
    if xs != [] { FilesOnly(xs[1..]); }
  }

  lemma {:induction false} BackedInner(c: Cmd, n: nat)
    ensures Backed(Back(c), n) == Backed(c, n + 1)
  {
    if n > 0 { BackedInner(c, n - 1); }
  }

  // ------------------------------------------------- what the parser accepts is a sentence

  /** r is command c, found in front of the tokens rest. */
  predicate Found(s: string, r: Result, c: Cmd, rest: seq<Tok>) {
    r.Ok? && r.cmd == c && r.pos <= |s| && Lex(s, r.pos) == rest
  }

  predicate FoundFiles(s: string, r: Redirs, fs: seq<(Slice, Mode)>, rest: seq<Tok>) {
    r.Redirs? && r.list == fs && r.pos <= |s| && Lex(s, r.pos) == rest
  }

  predicate IsMode(c: char) {
    c == '<' || c == '>' || c == '+'
  }

  /** The position behind the next token. */
  function After(s: string, i: nat): (k: nat)
    requires i <= |s|
    ensures k <= |s|
  {
    Gettoken(s, i).next
  }

  lemma LexAfter(s: string, i: nat)
    requires i <= |s| && Lex(s, i) != []
    ensures i < After(s, i) && Lex(s, After(s, i)) == Lex(s, i)[1..]
  {
  }

  function ModeOf(k: char): Mode {
    if k == '<' then In else if k == '>' then Out else Append
  }

  function WithFile(w: Slice, m: Mode, r: Redirs): Redirs {
    match r
    case NoFile => NoFile
    case Redirs(rest, e) => Redirs([(w, m)] + rest, e)
  }

  /** One round of parseredirs, in tokens. */
  lemma RedirsStep(s: string, i: nat)
    requires i <= |s|
    ensures var ts, r := Lex(s, i), ParseRedirs(s, i);
      && (!IsMode(Head(ts)) ==> FoundFiles(s, r, [], ts))
      && (IsMode(Head(ts)) && (|ts| < 2 || ts[1].kind != 'a') ==> r.NoFile?)
      && (IsMode(Head(ts)) && |ts| >= 2 && ts[1].kind == 'a' ==>
           var k := After(s, After(s, i));
           i < k && Lex(s, k) == ts[2..] && r == WithFile(ts[1].w, ModeOf(ts[0].kind), ParseRedirs(s, k)))
  {
    var j, ts := Skip(s, i), Lex(s, i);
    Peek(s, i);
    SameToken(s, i);
    if IsMode(Head(ts)) {
      LexAfter(s, i);
      FileToken(s, After(s, i));
      if |ts| >= 2 { LexAfter(s, After(s, i)); }
    }
    hide Gettoken, Skip, Lex;
  }

  lemma FileToken(s: string, i: nat)
    requires i <= |s|
    ensures Gettoken(s, i).tok == Head(Lex(s, i))
    ensures Lex(s, i) != [] ==> AsTok(Gettoken(s, i)) == Lex(s, i)[0]
  {
  }

  function Resumed(s: string, args: seq<Slice>, rs: seq<(Slice, Mode)>, r: Redirs): Result
    requires r.Redirs? ==> r.pos <= |s|
  {
    match r
    case NoFile => Err
    case Redirs(more, k) => ParseArgs(s, args, rs + more, k)
  }

  /** One round of parseexec's loop, in tokens. */
  lemma ArgsStep(s: string, args: seq<Slice>, rs: seq<(Slice, Mode)>, i: nat)
    requires i <= |s|
    ensures var ts, r := Lex(s, i), ParseArgs(s, args, rs, i);
      && (ts == [] || Stops(Head(ts)) ==> Found(s, r, Wrap(Exec(args), rs), ts))
      && (ts != [] && !Stops(Head(ts)) && (Head(ts) != 'a' || |args| + 1 >= MAXARGS) ==> r.Err?)
      && (ts != [] && Head(ts) == 'a' && |args| + 1 < MAXARGS ==>
           i < After(s, i) && r == Resumed(s, args + [ts[0].w], rs, ParseRedirs(s, After(s, i))))
  {
    var j, ts := Skip(s, i), Lex(s, i);
    Peek(s, i);
    SameToken(s, i);
    if ts == [] { NoMore(s, i); } else { LexAfter(s, i); }
    hide Gettoken, Skip, Lex, Wrap, ParseRedirs;
  }

  lemma NoMore(s: string, i: nat)
    requires i <= |s| && Lex(s, i) == []
    ensures Lex(s, Gettoken(s, i).next) == []
  {
    var t := Gettoken(s, i);
    assert Skip(s, t.q) == t.q;
    assert t.next == t.q;
    SameToken(s, i);
  }

  lemma RedirsSkip(s: string, i: nat)
    requires i <= |s|
    ensures Skip(s, i) <= |s| && ParseRedirs(s, Skip(s, i)) == ParseRedirs(s, i)
  {
    SkipSkip(s, i);
    SameToken(s, i);
    hide Gettoken, Skip;
  }

  function Wrapped(c: Cmd, r: Redirs): Result {
    match r
    case NoFile => Err
    case Redirs(rs, e) => Ok(Wrap(c, rs), e)
  }

  /** The tests of the other functions, in tokens. */
  lemma ExecStep(s: string, i: nat)
    requires i <= |s|
    ensures Head(Lex(s, i)) != '(' ==> ParseExec(s, i) == Resumed(s, [], [], ParseRedirs(s, i))
    ensures Head(Lex(s, i)) == '(' ==>
      match ParseLine(s, After(s, i))
      case Err => ParseExec(s, i).Err?
      case Ok(c, k) =>
        if Head(Lex(s, k)) != ')' then ParseExec(s, i).Err?
        else ParseExec(s, i) == Wrapped(c, ParseRedirs(s, After(s, k)))
  {
    Peek(s, i);
    SameToken(s, i);
    RedirsSkip(s, i);
    if Head(Lex(s, i)) == '(' {
      BlockStep(s, Skip(s, i));
    } else {
      assert forall rs: seq<(Slice, Mode)> :: [] + rs == rs;
    }
    hide Gettoken, Skip, Lex, ParseArgs, ParseLine, ParseBlock, ParseRedirs;
  }

  lemma BlockStep(s: string, j: nat)
    requires j < |s| && s[j] == '('
    ensures match ParseLine(s, After(s, j))
            case Err => ParseBlock(s, j).Err?
            case Ok(c, k) =>
              if Head(Lex(s, k)) != ')' then ParseBlock(s, j).Err?
              else ParseBlock(s, j) == Wrapped(c, ParseRedirs(s, After(s, k)))
  {
    hide Gettoken, Skip, Lex, ParseLine, ParseRedirs, Wrap;
    match ParseLine(s, After(s, j))
    case Err =>
    case Ok(c, k) =>
      Peek(s, k);
      SameToken(s, k);
  }

  lemma PipeStep(s: string, i: nat)
    requires i <= |s|
    ensures match ParseExec(s, i)
            case Err => ParsePipe(s, i).Err?
            case Ok(c, k) =>
              if Head(Lex(s, k)) != '|' then Found(s, ParsePipe(s, i), c, Lex(s, k))
              else ParsePipe(s, i) == match ParsePipe(s, After(s, k))
                                      case Err => Err
                                      case Ok(d, e) => Ok(Pipe(c, d), e)
  {
    hide Gettoken, Skip, Lex, ParseExec;
    match ParseExec(s, i)
    case Err =>
    case Ok(c, k) =>
      Peek(s, k);
      SameToken(s, k);
  }

  lemma BacksStep(s: string, c: Cmd, i: nat)
    requires i <= |s|
    ensures Head(Lex(s, i)) != '&' ==> Found(s, Backs(s, c, i), c, Lex(s, i))
    ensures Head(Lex(s, i)) == '&' ==> Backs(s, c, i) == Backs(s, Back(c), After(s, i))
  {
    hide Gettoken, Skip, Lex;
    Peek(s, i);
    SameToken(s, i);
  }

  lemma LineStep(s: string, i: nat)
    requires i <= |s|
    ensures match ParsePipe(s, i)
            case Err => ParseLine(s, i).Err?
            case Ok(c, k) =>
              var b := Backs(s, c, k);
              if Head(Lex(s, b.pos)) != ';' then Found(s, ParseLine(s, i), b.cmd, Lex(s, b.pos))
              else ParseLine(s, i) == match ParseLine(s, After(s, b.pos))
                                      case Err => Err
                                      case Ok(d, e) => Ok(List(b.cmd, d), e)
  {
    hide Gettoken, Skip, Lex, ParsePipe, Backs;
    match ParsePipe(s, i)
    case Err =>
    case Ok(c, k) =>
      var b := Backs(s, c, k);
      Peek(s, b.pos);
      SameToken(s, b.pos);
  }

  // ------------------------------------------------- what the parser accepts is a sentence

  lemma Assoc<T>(a: seq<T>, b: seq<T>, c: seq<T>)
    ensures (a + b) + c == a + (b + c)
  {
  }

  /** The first token and the rest. */
  lemma HeadTail(ts: seq<Tok>, t: Tok)
    requires ts != [] && ts[0] == t
    ensures ts == [t] + ts[1..]
  {
  }

  lemma SignIs(s: string, i: nat)
    requires i <= |s| && Lex(s, i) != [] && Head(Lex(s, i)) != 'a'
    ensures Lex(s, i)[0] == Sign(Head(Lex(s, i)))
  {
  }

  lemma {:induction false} RedirsSound(s: string, i: nat) returns (xs: seq<Item>)
    requires i <= |s| && ParseRedirs(s, i).Redirs?
    ensures AllFiles(xs) && FoundFiles(s, ParseRedirs(s, i), Files(xs), Lex(s, ParseRedirs(s, i).pos))
    ensures Lex(s, i) == ItemsToks(xs) + Lex(s, ParseRedirs(s, i).pos)
    decreases |s| - i
  {
    hide Gettoken, Skip, Lex, After, ParseRedirs;
    RedirsStep(s, i);
    var ts := Lex(s, i);
    xs := [];
    if IsMode(Head(ts)) {
      var k := After(s, After(s, i));
      var ys := RedirsSound(s, k);
      var x := File(ModeOf(ts[0].kind), ts[1].w);
      xs := [x] + ys;
      SignIs(s, i);
      FirstTwo(s, i);
      assert xs[1..] == ys;
      Assoc(ItemToks(x), ItemsToks(ys), Lex(s, ParseRedirs(s, k).pos));
    }
  }

  lemma FirstTwo(s: string, i: nat)
    requires i <= |s| && |Lex(s, i)| >= 2 && IsMode(Head(Lex(s, i))) && Lex(s, i)[1].kind == 'a'
    ensures var ts := Lex(s, i); ts == ItemToks(File(ModeOf(ts[0].kind), ts[1].w)) + ts[2..]
  {
    SignIs(s, i);
    hide Lex;
    var ts := Lex(s, i);
    assert ts == [ts[0], ts[1]] + ts[2..];
  }

  lemma {:induction false} ArgsSound(s: string, args: seq<Slice>, rs: seq<(Slice, Mode)>, i: nat)
    returns (xs: seq<Item>)
    requires i <= |s| && |args| < MAXARGS && ParseArgs(s, args, rs, i).Ok?
    ensures |args| + |Words(xs)| < MAXARGS
    ensures var r := ParseArgs(s, args, rs, i);
      && Found(s, r, Nested(Exec(args + Words(xs)), rs + Files(xs)), Lex(s, r.pos))
      && Lex(s, i) == ItemsToks(xs) + Lex(s, r.pos)
    decreases |s| - i
  {
    hide Gettoken, Skip, Lex, After, ParseRedirs, ParseArgs, Wrap, Nested;
    ArgsStep(s, args, rs, i);
    var ts := Lex(s, i);
    xs := [];
    if ts == [] || Stops(Head(ts)) {
      WrapNested(Exec(args), rs);
      assert args + Words(xs) == args && rs + Files(xs) == rs;
    } else {
      hide ItemsToks, Words, Files;
      var j, w := After(s, i), ts[0].w;
      var ys := RedirsSound(s, j);
      var k := ParseRedirs(s, j).pos;
      RedirsForward(s, j);
      var zs := ArgsSound(s, args + [w], rs + Files(ys), k);
      xs := [Arg(w)] + (ys + zs);
      ArgItems(w, ys, zs);
      LexAfter(s, i);
      Assoc(args, [w], Words(zs));
      Assoc(rs, Files(ys), Files(zs));
      HeadTail(ts, Tok('a', w));
      FourParts(Tok('a', w), ItemsToks(ys), ItemsToks(zs), Lex(s, ParseArgs(s, args, rs, i).pos));
    }
  }

  lemma FourParts(t: Tok, a: seq<Tok>, b: seq<Tok>, c: seq<Tok>)
    ensures [t] + (a + (b + c)) == [t] + (a + b) + c
  {
  }

  lemma RedirsForward(s: string, i: nat)
    requires i <= |s| && ParseRedirs(s, i).Redirs?
    ensures i <= ParseRedirs(s, i).pos <= |s|
  {
  }

  /** A word, the files behind it, and the other items. */
  lemma ArgItems(w: Slice, ys: seq<Item>, zs: seq<Item>)
    requires AllFiles(ys)
    ensures var xs := [Arg(w)] + (ys + zs);
      && ItemsToks(xs) == [Tok('a', w)] + (ItemsToks(ys) + ItemsToks(zs))
      && Words(xs) == [w] + Words(zs) && Files(xs) == Files(ys) + Files(zs)
  {
    ToksConcat(ys, zs);
    WordsConcat(ys, zs);
    FilesConcat(ys, zs);
    FilesOnly(ys);
    assert ([Arg(w)] + (ys + zs))[1..] == ys + zs;
  }

  /** r is command c and was made of the tokens ts. */
  ghost predicate Made(s: string, i: nat, r: Result, c: Cmd, ts: seq<Tok>)
    requires i <= |s|
  {
    r.Ok? && r.pos <= |s| && r.cmd == c && Lex(s, i) == ts + Lex(s, r.pos)
  }

  lemma {:induction false} UnitSound(s: string, i: nat) returns (u: Unit)
    requires i <= |s| && ParseExec(s, i).Ok?
    ensures WfUnit(u) && Made(s, i, ParseExec(s, i), UnitCmd(u), UnitToks(u))
    decreases |s| - i, 1
  {
    hide Gettoken, Skip, Lex, After, ParseRedirs, ParseArgs, ParseExec, ParseLine, Wrap, Nested, LineCmd, LineToks;
    ExecStep(s, i);
    if Head(Lex(s, i)) != '(' {
      var xs := RedirsSound(s, i);
      var k := ParseRedirs(s, i).pos;
      RedirsForward(s, i);
      var none: seq<(Slice, Mode)> := [];
      assert none + Files(xs) == Files(xs);
      var ys := ArgsSound(s, [], Files(xs), k);
      u := Simple(xs + ys);
      ToksConcat(xs, ys);
      WordsConcat(xs, ys);
      FilesConcat(xs, ys);
      FilesOnly(xs);
      assert [] + Words(ys) == Words(ys);
      Assoc(ItemsToks(xs), ItemsToks(ys), Lex(s, ParseExec(s, i).pos));
    } else {
      LexAfter(s, i);
      SignIs(s, i);
      var j := After(s, i);
      var l := LineSound(s, j);
      var k := ParseLine(s, j).pos;
      LexAfter(s, k);
      SignIs(s, k);
      var xs := RedirsSound(s, After(s, k));
      u := Block(l, xs);
      WrapNested(LineCmd(l), Files(xs));
      BlockToks(s, i, j, k, l, xs, ParseExec(s, i).pos);
    }
  }

  lemma BlockToks(s: string, i: nat, j: nat, k: nat, l: Line, xs: seq<Item>, e: nat)
    requires i <= |s| && j <= |s| && k <= |s| && e <= |s| && Lex(s, i) != [] && Lex(s, k) != []
    requires Lex(s, i)[0] == Sign('(') && Lex(s, j) == Lex(s, i)[1..] && Lex(s, j) == LineToks(l) + Lex(s, k)
    requires Lex(s, k)[0] == Sign(')') && Lex(s, k)[1..] == ItemsToks(xs) + Lex(s, e)
    ensures Lex(s, i) == UnitToks(Block(l, xs)) + Lex(s, e)
  {
    hide Lex, LineToks, ItemsToks;
    HeadTail(Lex(s, i), Sign('('));
    HeadTail(Lex(s, k), Sign(')'));
    var a, b, c, d := LineToks(l), [Sign(')')], ItemsToks(xs), Lex(s, e);
    assert [Sign('(')] + (a + (b + (c + d))) == [Sign('(')] + a + b + c + d;
  }

  lemma {:induction false} PipeSound(s: string, i: nat) returns (p: Pipeline)
    requires i <= |s| && ParsePipe(s, i).Ok?
    ensures WfPipe(p) && Made(s, i, ParsePipe(s, i), PipeCmd(p), PipeToks(p))
    decreases |s| - i, 2
  {
    hide Gettoken, Skip, Lex, After, ParseExec, ParsePipe, UnitCmd, UnitToks, WfUnit;
    PipeStep(s, i);
    var u := UnitSound(s, i);
    var k := ParseExec(s, i).pos;
    if Head(Lex(s, k)) != '|' {
      p := Last(u);
    } else {
      ExecForward(s, i);
      LexAfter(s, k);
      SignIs(s, k);
      var q := PipeSound(s, After(s, k));
      p := More(u, q);
      HeadTail(Lex(s, k), Sign('|'));
      assert UnitToks(u) + ([Sign('|')] + (PipeToks(q) + Lex(s, ParsePipe(s, i).pos)))
          == UnitToks(u) + [Sign('|')] + PipeToks(q) + Lex(s, ParsePipe(s, i).pos);
    }
  }

  lemma ExecForward(s: string, i: nat)
    requires i <= |s| && ParseExec(s, i).Ok?
    ensures i <= ParseExec(s, i).pos <= |s|
  {
  }

  lemma PipeForward(s: string, i: nat)
    requires i <= |s| && ParsePipe(s, i).Ok?
    ensures i <= ParsePipe(s, i).pos <= |s|
  {
  }

  lemma BacksForward(s: string, c: Cmd, i: nat)
    requires i <= |s|
    ensures i <= Backs(s, c, i).pos <= |s|
  {
  }

  lemma {:induction false} BacksSound(s: string, c: Cmd, i: nat) returns (n: nat)
    requires i <= |s|
    ensures Made(s, i, Backs(s, c, i), Backed(c, n), Amps(n))
    decreases |s| - i
  {
    hide Gettoken, Skip, Lex, After, Backs;
    BacksStep(s, c, i);
    n := 0;
    if Head(Lex(s, i)) == '&' {
      LexAfter(s, i);
      SignIs(s, i);
      n := BacksSound(s, Back(c), After(s, i));
      BackedInner(c, n);
      HeadTail(Lex(s, i), Sign('&'));
      Assoc([Sign('&')], Amps(n), Lex(s, Backs(s, c, i).pos));
      n := n + 1;
    }
  }

  lemma {:induction false} LineSound(s: string, i: nat) returns (l: Line)
    requires i <= |s| && ParseLine(s, i).Ok?
    ensures WfLine(l) && Made(s, i, ParseLine(s, i), LineCmd(l), LineToks(l))
    decreases |s| - i, 3
  {
    hide Gettoken, Skip, Lex, After, ParsePipe, ParseLine, Backs, PipeCmd, PipeToks, WfPipe, Backed, Amps;
    LineStep(s, i);
    var p := PipeSound(s, i);
    var c, k := PipeCmd(p), ParsePipe(s, i).pos;
    var n := BacksSound(s, c, k);
    var e := Backs(s, c, k).pos;
    if Head(Lex(s, e)) != ';' {
      l := Line(p, n, End);
      assert PipeToks(p) + (Amps(n) + Lex(s, e)) == PipeToks(p) + Amps(n) + [] + Lex(s, e);
    } else {
      PipeForward(s, i);
      BacksForward(s, c, k);
      LexAfter(s, e);
      SignIs(s, e);
      var m := LineSound(s, After(s, e));
      l := Line(p, n, Semi(m));
      HeadTail(Lex(s, e), Sign(';'));
      LineParts(PipeToks(p), Amps(n), LineToks(m), Lex(s, ParseLine(s, i).pos));
    }
  }

  lemma LineParts(a: seq<Tok>, b: seq<Tok>, c: seq<Tok>, d: seq<Tok>)
    ensures a + (b + ([Sign(';')] + (c + d))) == a + b + ([Sign(';')] + c) + d
  {
  }

  // ---------------------------------------------------- every sentence is accepted

  /** What may follow a unit, a pipeline and a line. */
  predicate UnitEnd(k: char) {
    k == '\0' || Stops(k)
  }

  predicate PipeEnd(k: char) {
    UnitEnd(k) && k != '|'
  }

  predicate LineEnd(k: char) {
    k == '\0' || k == ')'
  }

  lemma LexKind(s: string, i: nat)
    requires i <= |s|
    ensures Lex(s, i) == [] <==> Head(Lex(s, i)) == '\0'
  {
  }

  lemma Behind(s: string, i: nat, t: Tok, rest: seq<Tok>)
    requires i <= |s| && Lex(s, i) == [t] + rest
    ensures Lex(s, i) != [] && Lex(s, i)[0] == t && i < After(s, i) && Lex(s, After(s, i)) == rest
  {
    hide Lex;
    LexAfter(s, i);
    assert ([t] + rest)[1..] == rest;
  }

  lemma {:induction false} FilesComplete(s: string, i: nat, xs: seq<Item>, rest: seq<Tok>)
    requires i <= |s| && AllFiles(xs) && Lex(s, i) == ItemsToks(xs) + rest && !IsMode(Head(rest))
    ensures FoundFiles(s, ParseRedirs(s, i), Files(xs), rest)
    decreases |xs|
  {
    hide Gettoken, Skip, Lex, After, ParseRedirs;
    RedirsStep(s, i);
    if xs == [] {
      assert Lex(s, i) == rest;
    } else {
      FileToks(xs, rest);
      hide ItemsToks;
      FilesComplete(s, After(s, After(s, i)), xs[1..], rest);
    }
  }

  lemma FileToks(xs: seq<Item>, rest: seq<Tok>)
    requires xs != [] && xs[0].File?
    ensures var ts := ItemsToks(xs) + rest;
      && |ts| >= 2 && ts[0] == ModeSign(xs[0].m) && ts[1] == Tok('a', xs[0].w)
      && ts[2..] == ItemsToks(xs[1..]) + rest && ModeOf(ts[0].kind) == xs[0].m && IsMode(ts[0].kind)
    ensures Files(xs) == [(xs[0].w, xs[0].m)] + Files(xs[1..])
  {
    Assoc(ItemToks(xs[0]), ItemsToks(xs[1..]), rest);
  }

  /** How many items are files before the first word. */
  function Lead(xs: seq<Item>): (n: nat)
    ensures n <= |xs| && AllFiles(xs[..n]) && (n < |xs| ==> xs[n].Arg?)
  {
    if xs == [] || xs[0].Arg? then 0 else 1 + Lead(xs[1..])
  }

  lemma SplitItems(xs: seq<Item>, n: nat)
    requires n <= |xs| && AllFiles(xs[..n])
    ensures ItemsToks(xs) == ItemsToks(xs[..n]) + ItemsToks(xs[n..])
    ensures Words(xs) == Words(xs[n..]) && Files(xs) == Files(xs[..n]) + Files(xs[n..])
  {
    hide ItemsToks, Files, Words;
    assert xs == xs[..n] + xs[n..];
    ToksConcat(xs[..n], xs[n..]);
    WordsConcat(xs[..n], xs[n..]);
    FilesConcat(xs[..n], xs[n..]);
    FilesOnly(xs[..n]);
  }

  /** Items that begin with a word, or none, are not taken for files. */
  lemma NoFileAhead(zs: seq<Item>, rest: seq<Tok>)
    requires (zs == [] || zs[0].Arg?) && UnitEnd(Head(rest))
    ensures !IsMode(Head(ItemsToks(zs) + rest))
  {
    if zs == [] {
      assert ItemsToks(zs) + rest == rest;
    } else {
      assert (ItemsToks(zs) + rest)[0] == ItemToks(zs[0])[0];
    }
  }

  lemma {:induction false} ItemsComplete(s: string, args: seq<Slice>, rs: seq<(Slice, Mode)>, i: nat, xs: seq<Item>,
                                         rest: seq<Tok>)
    requires i <= |s| && (xs == [] || xs[0].Arg?) && |args| + |Words(xs)| < MAXARGS
    requires Lex(s, i) == ItemsToks(xs) + rest && UnitEnd(Head(rest))
    ensures Found(s, ParseArgs(s, args, rs, i), Nested(Exec(args + Words(xs)), rs + Files(xs)), rest)
    decreases |xs|
  {
    hide Gettoken, Skip, Lex, After, ParseRedirs, ParseArgs, Wrap, Nested;
    ArgsStep(s, args, rs, i);
    if xs == [] {
      assert Lex(s, i) == rest && args + Words(xs) == args && rs + Files(xs) == rs;
      LexKind(s, i);
      WrapNested(Exec(args), rs);
    } else {
      var w, n := xs[0].w, Lead(xs[1..]);
      var ys, zs := xs[1..][..n], xs[1..][n..];
      ItemsRound(s, i, xs, rest);
      var k := ParseRedirs(s, After(s, i)).pos;
      hide ItemsToks, Words, Files;
      ItemsComplete(s, args + [w], rs + Files(ys), k, zs, rest);
      Assoc(args, [w], Words(zs));
      Assoc(rs, Files(ys), Files(zs));
    }
  }

  /** One word and the files behind it. */
  lemma ItemsRound(s: string, i: nat, xs: seq<Item>, rest: seq<Tok>)
    requires i <= |s| && xs != [] && xs[0].Arg? && Lex(s, i) == ItemsToks(xs) + rest && UnitEnd(Head(rest))
    ensures var w, n := xs[0].w, Lead(xs[1..]);
      var ys, zs := xs[1..][..n], xs[1..][n..];
      && Words(xs) == [w] + Words(zs) && Files(xs) == Files(ys) + Files(zs)
      && Lex(s, i) != [] && Lex(s, i)[0] == Tok('a', w)
      && FoundFiles(s, ParseRedirs(s, After(s, i)), Files(ys), ItemsToks(zs) + rest)
  {
    hide Gettoken, Skip, Lex, After, ParseRedirs;
    var w, more := xs[0].w, xs[1..];
    var n := Lead(more);
    var ys, zs := more[..n], more[n..];
    SplitItems(more, n);
    Assoc([Tok('a', w)], ItemsToks(more), rest);
    Behind(s, i, Tok('a', w), ItemsToks(more) + rest);
    Assoc(ItemsToks(ys), ItemsToks(zs), rest);
    NoFileAhead(zs, rest);
    FilesComplete(s, After(s, i), ys, ItemsToks(zs) + rest);
  }

  lemma SimpleComplete(s: string, i: nat, items: seq<Item>, rest: seq<Tok>)
    requires i <= |s| && WfUnit(Simple(items)) && Lex(s, i) == ItemsToks(items) + rest && UnitEnd(Head(rest))
    ensures Found(s, ParseExec(s, i), UnitCmd(Simple(items)), rest)
  {
    hide Gettoken, Skip, Lex, ParseRedirs, ParseArgs, ParseExec, Nested;
    var n := Lead(items);
    var xs, ys := items[..n], items[n..];
    SplitItems(items, n);
    ExecStep(s, i);
    NotGroup(items, rest);
    Assoc(ItemsToks(xs), ItemsToks(ys), rest);
    NoFileAhead(ys, rest);
    FilesComplete(s, i, xs, ItemsToks(ys) + rest);
    var none: seq<(Slice, Mode)> := [];
    assert none + Files(xs) == Files(xs) && [] + Words(ys) == Words(ys);
    ItemsComplete(s, [], Files(xs), ParseRedirs(s, i).pos, ys, rest);
  }

  lemma NotGroup(items: seq<Item>, rest: seq<Tok>)
    requires UnitEnd(Head(rest))
    ensures Head(ItemsToks(items) + rest) != '('
  {
    if items == [] {
      assert ItemsToks(items) + rest == rest;
    } else {
      assert (ItemsToks(items) + rest)[0] == ItemToks(items[0])[0];
    }
  }

  lemma {:induction false} UnitComplete(s: string, i: nat, u: Unit, rest: seq<Tok>)
    requires i <= |s| && WfUnit(u) && Lex(s, i) == UnitToks(u) + rest && UnitEnd(Head(rest))
    ensures Found(s, ParseExec(s, i), UnitCmd(u), rest)
    decreases u
  {
    hide Gettoken, Skip, Lex, After, ParseRedirs, ParseExec, ParseLine, Wrap, Nested, LineCmd, LineToks;
    match u
    case Simple(items) => SimpleComplete(s, i, items, rest);
    case Block(l, xs) =>
      ExecStep(s, i);
      var inner := [Sign(')')] + (ItemsToks(xs) + rest);
      assert Lex(s, i) == [Sign('(')] + (LineToks(l) + inner);
      Behind(s, i, Sign('('), LineToks(l) + inner);
      LineComplete(s, After(s, i), l, inner);
      var k := ParseLine(s, After(s, i)).pos;
      Behind(s, k, Sign(')'), ItemsToks(xs) + rest);
      FilesComplete(s, After(s, k), xs, rest);
      WrapNested(LineCmd(l), Files(xs));
  }

  lemma {:induction false} PipeComplete(s: string, i: nat, p: Pipeline, rest: seq<Tok>)
    requires i <= |s| && WfPipe(p) && Lex(s, i) == PipeToks(p) + rest && PipeEnd(Head(rest))
    ensures Found(s, ParsePipe(s, i), PipeCmd(p), rest)
    decreases p
  {
    hide Gettoken, Skip, Lex, After, ParseExec, ParsePipe, UnitCmd, UnitToks, WfUnit;
    PipeStep(s, i);
    match p
    case Last(u) => UnitComplete(s, i, u, rest);
    case More(u, q) =>
      var after := [Sign('|')] + (PipeToks(q) + rest);
      assert Lex(s, i) == UnitToks(u) + after;
      UnitComplete(s, i, u, after);
      var k := ParseExec(s, i).pos;
      Behind(s, k, Sign('|'), PipeToks(q) + rest);
      PipeComplete(s, After(s, k), q, rest);
  }

  lemma {:induction false} BacksComplete(s: string, c: Cmd, i: nat, n: nat, rest: seq<Tok>)
    requires i <= |s| && Lex(s, i) == Amps(n) + rest && Head(rest) != '&'
    ensures Found(s, Backs(s, c, i), Backed(c, n), rest)
    decreases n
  {
    hide Gettoken, Skip, Lex, After, Backs;
    BacksStep(s, c, i);
    if n == 0 {
      assert Lex(s, i) == rest;
    } else {
      Assoc([Sign('&')], Amps(n - 1), rest);
      Behind(s, i, Sign('&'), Amps(n - 1) + rest);
      BacksComplete(s, Back(c), After(s, i), n - 1, rest);
      BackedInner(c, n - 1);
    }
  }

  lemma {:induction false} LineComplete(s: string, i: nat, l: Line, rest: seq<Tok>)
    requires i <= |s| && WfLine(l) && Lex(s, i) == LineToks(l) + rest && LineEnd(Head(rest))
    ensures Found(s, ParseLine(s, i), LineCmd(l), rest)
    decreases l
  {
    hide Gettoken, Skip, Lex, After, ParsePipe, ParseLine, Backs, PipeCmd, PipeToks, WfPipe, Backed, Amps;
    LineStep(s, i);
    var p, n := l.p, l.amps;
    var tail := TailToks(l.next) + rest;
    TailHead(l.next, rest);
    assert Lex(s, i) == PipeToks(p) + (Amps(n) + tail);
    AmpsHead(n, tail);
    PipeComplete(s, i, p, Amps(n) + tail);
    var k := ParsePipe(s, i).pos;
    BacksComplete(s, PipeCmd(p), k, n, tail);
    var e := Backs(s, PipeCmd(p), k).pos;
    match l.next
    case End => assert tail == rest;
    case Semi(m) =>
      Assoc([Sign(';')], LineToks(m), rest);
      Behind(s, e, Sign(';'), LineToks(m) + rest);
      LineComplete(s, After(s, e), m, rest);
  }

  lemma TailHead(t: Tail, rest: seq<Tok>)
    requires LineEnd(Head(rest))
    ensures Head(TailToks(t) + rest) == if t.End? then Head(rest) else ';'
  {
    hide LineToks;
    if t.End? { assert TailToks(t) + rest == rest; }
  }

  lemma AmpsHead(n: nat, rest: seq<Tok>)
    requires PipeEnd(Head(rest))
    ensures PipeEnd(Head(Amps(n) + rest))
  {
    if n == 0 { assert Amps(n) + rest == rest; }
  }

  // --------------------------------------------------------------------- the theorem

  /** A C string has no NUL in it. */
  predicate CString(s: string) {
    forall i :: 0 <= i < |s| ==> s[i] != '\0'
  }

  lemma AtEnd(s: string, k: nat)
    requires k <= |s| && CString(s)
    ensures Lex(s, k) == [] <==> Skip(s, k) == |s|
  {
    Peek(s, k);
    LexKind(s, k);
    hide Gettoken, Skip, Lex;
  }

  /** parsecmd accepts a line with command c if and only if the grammar derives it, for every line. */
  lemma ParseIff(s: string, c: Cmd)
    requires CString(s)
    ensures ParseCmd(s) == Ok(c, |s|) <==> Derives(s, c)
  {
    hide ParseLine, Lex, Skip, WfLine, LineCmd, LineToks, CString;
    if ParseCmd(s) == Ok(c, |s|) {
      var l := LineSound(s, 0);
      AtEnd(s, ParseLine(s, 0).pos);
      assert LineToks(l) + [] == LineToks(l);
      assert Derives(s, c);
    }
    if Derives(s, c) {
      var l :| WfLine(l) && LineToks(l) == Lex(s, 0) && LineCmd(l) == c;
      assert Lex(s, 0) == LineToks(l) + [];
      LineComplete(s, 0, l, []);
      AtEnd(s, ParseLine(s, 0).pos);
    }
  }

  /** It fails if and only if the grammar derives no command. */
  lemma SyntaxErrorIff(s: string)
    requires CString(s)
    ensures ParseCmd(s).Err? <==> forall c :: !Derives(s, c)
  {
    hide ParseLine, Derives;
    if ParseCmd(s).Ok? {
      ParseIff(s, ParseCmd(s).cmd);
    } else {
      forall c ensures !Derives(s, c) {
        ParseIff(s, c);
      }
    }
  }

  // ------------------------------------------------------------- the words of a line

  /** A longest run of characters that are neither white space nor symbols. */
  predicate MaximalWord(s: string, w: Slice) {
    WordAt(s, w.q, w.eq) && (w.q > 0 ==> Ws(s[w.q - 1]) || Sym(s[w.q - 1]))
  }

  /** Position i is not inside a word. */
  predicate Between(s: string, i: nat) {
    0 < i < |s| ==> Ws(s[i - 1]) || Sym(s[i - 1]) || Ws(s[i]) || Sym(s[i])
  }

  function WordToks(ts: seq<Tok>): seq<Slice> {
    if ts == [] then [] else (if ts[0].kind == 'a' then [ts[0].w] else []) + WordToks(ts[1..])
  }

  /** gettoken ends between words, and a word it does not return is further on. */
  lemma TokenBetween(s: string, i: nat)
    requires i <= |s| && CString(s) && Between(s, i) && Gettoken(s, i).tok != '\0'
    ensures var t := Gettoken(s, i);
      && i < t.next <= |s| && Between(s, t.next) && (t.tok == 'a' ==> MaximalWord(s, Slice(t.q, t.eq)))
      && forall w :: MaximalWord(s, w) && w.q >= i ==> w.q >= t.next || (t.tok == 'a' && w == Slice(t.q, t.eq))
  {
    var t := Gettoken(s, i);
    hide Gettoken;
    forall w | MaximalWord(s, w) && w.q >= i
      ensures w.q >= t.next || (t.tok == 'a' && w == Slice(t.q, t.eq))
    {
      WordAhead(s, i, t, w);
    }
    assert t.q > i ==> Ws(s[t.q - 1]);
    assert t.next > t.eq ==> Ws(s[t.next - 1]);
  }

  lemma WordAhead(s: string, i: nat, t: Token, w: Slice)
    requires i <= |s| && t == Gettoken(s, i) && t.tok != '\0' && CString(s) && MaximalWord(s, w) && w.q >= i
    ensures w.q >= t.next || (t.tok == 'a' && w == Slice(t.q, t.eq))
  {
    hide Gettoken;
    assert !Ws(s[w.q]) && !Sym(s[w.q]);
    if t.tok == 'a' && w.q == t.q { SameEnd(s, w.q, w.eq, t.eq); }
  }

  lemma SameEnd(s: string, q: nat, e: nat, f: nat)
    requires WordAt(s, q, e) && WordAt(s, q, f)
    ensures e == f
  {
    assert !(e < f) && !(f < e);
  }

  /** The words among the tokens are exactly the maximal words of the line, in the order they stand. */
  lemma {:induction false} LexWords(s: string, i: nat)
    requires i <= |s| && CString(s) && Between(s, i)
    ensures var ws := WordToks(Lex(s, i));
      && (forall w :: w in ws <==> MaximalWord(s, w) && w.q >= i)
      && (forall j, k :: 0 <= j < k < |ws| ==> ws[j].eq <= ws[k].q)
    decreases |s| - i
  {
    hide Gettoken, CString, Between, MaximalWord;
    var t := Gettoken(s, i);
    if t.tok == '\0' {
      NoWordLeft(s, i);
    } else {
      TokenBetween(s, i);
      LexWords(s, t.next);
      var ws := WordToks(Lex(s, t.next));
      assert Lex(s, i)[1..] == Lex(s, t.next);
      if t.tok == 'a' {
        var w := Slice(t.q, t.eq);
        assert t.eq <= t.next && t.q >= i;
        assert WordToks(Lex(s, i)) == [w] + ws;
        assert forall k :: 0 <= k < |ws| ==> ws[k] in ws;
      } else {
        assert WordToks(Lex(s, i)) == ws;
      }
    }
  }

  lemma NoWordLeft(s: string, i: nat)
    requires i <= |s| && CString(s) && Gettoken(s, i).tok == '\0'
    ensures forall w :: MaximalWord(s, w) ==> w.q < i
  {
    var t := Gettoken(s, i);
    hide Gettoken;
    assert t.q == |s|;
    forall w | MaximalWord(s, w) ensures w.q < i {
      assert !Ws(s[w.q]);
    }
  }
}
