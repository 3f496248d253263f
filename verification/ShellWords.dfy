/**
  The words a parse records, and nulterminate.

  Whatever the line, every slice that the parser records is a maximal run of
  characters that are neither white space nor symbols. Hence the position behind a
  word is never inside another word, and storing NULs there damages none of them.
*/
module ShellWords {
  import opened ShellParser

  /** A word: no white space, no symbol, ended by one or by the end of the line. */
  predicate GoodSlice(s: string, w: Slice) {
    && w.q < w.eq <= |s|
    && (forall k :: w.q <= k < w.eq ==> !Ws(s[k]) && !Sym(s[k]))
    && (w.eq < |s| ==> Ws(s[w.eq]) || Sym(s[w.eq]))
  }

  predicate GoodCmd(s: string, c: Cmd) {
    match c
    case Exec(args) => forall i :: 0 <= i < |args| ==> GoodSlice(s, args[i])
    case Redir(d, file, _) => GoodCmd(s, d) && GoodSlice(s, file)
    case Pipe(l, r) => GoodCmd(s, l) && GoodCmd(s, r)
    case List(l, r) => GoodCmd(s, l) && GoodCmd(s, r)
    case Back(d) => GoodCmd(s, d)
  }

  predicate GoodRedirs(s: string, rs: seq<(Slice, Mode)>) {
    forall i :: 0 <= i < |rs| ==> GoodSlice(s, rs[i].0)
  }

  lemma TokenGood(s: string, i: nat)
    requires i <= |s|
    ensures var t := Gettoken(s, i); t.tok == 'a' ==> GoodSlice(s, Slice(t.q, t.eq))
  {
  }

  lemma {:induction false} RedirsGood(s: string, i: nat)
    requires i <= |s|
    ensures ParseRedirs(s, i).Redirs? ==> GoodRedirs(s, ParseRedirs(s, i).list)
    decreases |s| - i
  {
    var j := Skip(s, i);
    if At(s, j) == '<' || At(s, j) == '>' {
      var t := Gettoken(s, j);
      var f := Gettoken(s, t.next);
      TokenGood(s, t.next);
      if f.tok == 'a' { RedirsGood(s, f.next); }
    }
  }

  lemma {:induction false} WrapGood(s: string, c: Cmd, rs: seq<(Slice, Mode)>)
    requires GoodCmd(s, c) && GoodRedirs(s, rs)
    ensures GoodCmd(s, Wrap(c, rs))
    decreases |rs|
  {
    if rs != [] { WrapGood(s, Redir(c, rs[0].0, rs[0].1), rs[1..]); }
  }

  lemma {:induction false} ArgsGood(s: string, args: seq<Slice>, rs: seq<(Slice, Mode)>, i: nat)
    requires i <= |s| && GoodCmd(s, Exec(args)) && GoodRedirs(s, rs)
    ensures ParseArgs(s, args, rs, i).Ok? ==> GoodCmd(s, ParseArgs(s, args, rs, i).cmd)
    decreases |s| - i
  {
    WrapGood(s, Exec(args), rs);
    var j := Skip(s, i);
    if !Stops(At(s, j)) {
      var t := Gettoken(s, j);
      TokenGood(s, j);
      RedirsGood(s, t.next);
      if t.tok == 'a' && |args| + 1 < MAXARGS && ParseRedirs(s, t.next).Redirs? {
        var more := ParseRedirs(s, t.next);
        ArgsGood(s, args + [Slice(t.q, t.eq)], rs + more.list, more.pos);
      }
    }
  }

  lemma {:induction false} BacksGood(s: string, c: Cmd, i: nat)
    requires i <= |s| && GoodCmd(s, c)
    ensures GoodCmd(s, Backs(s, c, i).cmd)
    decreases |s| - i
  {
    var j := Skip(s, i);
    if At(s, j) == '&' { BacksGood(s, Back(c), Gettoken(s, j).next); }
  }

  lemma {:induction false} ExecGood(s: string, i: nat)
    requires i <= |s|
    ensures ParseExec(s, i).Ok? ==> GoodCmd(s, ParseExec(s, i).cmd)
    decreases |s| - i, 1
  {
    var j := Skip(s, i);
    if At(s, j) == '(' {
      BlockGood(s, j);
    } else {
      RedirsGood(s, j);
      match ParseRedirs(s, j)
      case NoFile =>
      case Redirs(rs, k) => ArgsGood(s, [], rs, k);
    }
  }

  lemma {:induction false} BlockGood(s: string, j: nat)
    requires j < |s| && s[j] == '('
    ensures ParseBlock(s, j).Ok? ==> GoodCmd(s, ParseBlock(s, j).cmd)
    decreases |s| - j, 0
  {
    var i := Gettoken(s, j).next;
    LineGood(s, i);
    match ParseLine(s, i)
    case Err =>
    case Ok(c, k) =>
      if At(s, Skip(s, k)) == ')' {
        var e := Gettoken(s, Skip(s, k)).next;
        RedirsGood(s, e);
        match ParseRedirs(s, e)
        case NoFile =>
        case Redirs(rs, _) => WrapGood(s, c, rs);
      }
  }

  lemma {:induction false} PipeGood(s: string, i: nat)
    requires i <= |s|
    ensures ParsePipe(s, i).Ok? ==> GoodCmd(s, ParsePipe(s, i).cmd)
    decreases |s| - i, 2
  {
    ExecGood(s, i);
    match ParseExec(s, i)
    case Err =>
    case Ok(c, k) => if At(s, Skip(s, k)) == '|' { PipeGood(s, Gettoken(s, Skip(s, k)).next); }
  }

  /** Whatever the line, every word the parser records is a word of the line. */
  lemma {:induction false} LineGood(s: string, i: nat)
    requires i <= |s|
    ensures ParseLine(s, i).Ok? ==> GoodCmd(s, ParseLine(s, i).cmd)
    decreases |s| - i, 3
  {
    PipeGood(s, i);
    match ParsePipe(s, i)
    case Err =>
    case Ok(c, k) =>
      BacksGood(s, c, k);
      var b := Backs(s, c, k);
      if At(s, Skip(s, b.pos)) == ';' { LineGood(s, Gettoken(s, Skip(s, b.pos)).next); }
  }

  // -------------------------------------------------------------------- nulterminate

  /** A NUL goes to position i. */
  predicate EndsAt(c: Cmd, i: int) {
    match c
    case Exec(args) => exists k :: 0 <= k < |args| && args[k].eq == i
    case Redir(d, file, _) => EndsAt(d, i) || file.eq == i
    case Pipe(l, r) => EndsAt(l, i) || EndsAt(r, i)
    case List(l, r) => EndsAt(l, i) || EndsAt(r, i)
    case Back(d) => EndsAt(d, i)
  }

  predicate SliceOf(c: Cmd, w: Slice) {
    match c
    case Exec(args) => w in args
    case Redir(d, file, _) => SliceOf(d, w) || w == file
    case Pipe(l, r) => SliceOf(l, w) || SliceOf(r, w)
    case List(l, r) => SliceOf(l, w) || SliceOf(r, w)
    case Back(d) => SliceOf(d, w)
  }

  /** nulterminate: exactly the ends of the recorded words become NUL. */
  method Nulterminate(buf: array<char>, c: Cmd, ghost s: string)
    requires buf.Length == |s| + 1 && GoodCmd(s, c)
    modifies buf
    decreases c
    ensures forall i :: 0 <= i < buf.Length ==> buf[i] == if EndsAt(c, i) then '\0' else old(buf[i])
  {
    match c
    case Exec(args) =>
      var i := 0;
      while i < |args|
        invariant 0 <= i <= |args|
        invariant forall j :: 0 <= j < buf.Length ==> buf[j] == if EndsAt(Exec(args[..i]), j) then '\0' else old(buf[j])
      {
        assert GoodSlice(s, args[i]);
        ghost var was := buf[..];
        buf[args[i].eq] := '\0';
        forall j | 0 <= j < buf.Length
          ensures EndsAt(Exec(args[..i + 1]), j) <==> EndsAt(Exec(args[..i]), j) || j == args[i].eq
        {
          OneMore(args, i, j);
        }
        i := i + 1;
      }
      assert args[..i] == args;
    case Redir(d, file, _) =>
      Nulterminate(buf, d, s);
      buf[file.eq] := '\0';
    case Pipe(l, r) =>
      Nulterminate(buf, l, s);
      Nulterminate(buf, r, s);
    case List(l, r) =>
      Nulterminate(buf, l, s);
      Nulterminate(buf, r, s);
    case Back(d) =>
      Nulterminate(buf, d, s);
  }

  lemma OneMore(args: seq<Slice>, i: nat, j: int)
    requires i < |args|
    ensures EndsAt(Exec(args[..i + 1]), j) <==> EndsAt(Exec(args[..i]), j) || j == args[i].eq
  {
    var a, b := args[..i], args[..i + 1];
    assert b == a + [args[i]];
    assert forall k :: 0 <= k < i ==> a[k] == b[k];
    assert b[i] == args[i];
  }

  /** The C string at q. */
  function CStr(b: seq<char>, q: nat): string
    requires q <= |b|
    decreases |b| - q
  {
    if q == |b| || b[q] == '\0' then [] else [b[q]] + CStr(b, q + 1)
  }

  lemma {:induction false} EndIsNoWord(s: string, c: Cmd, i: nat)
    requires GoodCmd(s, c) && EndsAt(c, i)
    ensures i <= |s| && (i < |s| ==> Ws(s[i]) || Sym(s[i]))
    decreases c
  {
    match c
    case Exec(args) =>
    case Redir(d, file, _) => if EndsAt(d, i) { EndIsNoWord(s, d, i); }
    case Pipe(l, r) => if EndsAt(l, i) { EndIsNoWord(s, l, i); } else { EndIsNoWord(s, r, i); }
    case List(l, r) => if EndsAt(l, i) { EndIsNoWord(s, l, i); } else { EndIsNoWord(s, r, i); }
    case Back(d) => EndIsNoWord(s, d, i);
  }

  lemma {:induction false} SliceGood(s: string, c: Cmd, w: Slice)
    requires GoodCmd(s, c) && SliceOf(c, w)
    ensures GoodSlice(s, w) && EndsAt(c, w.eq)
    decreases c
  {
    match c
    case Exec(args) =>
    case Redir(d, file, _) => if SliceOf(d, w) { SliceGood(s, d, w); }
    case Pipe(l, r) => if SliceOf(l, w) { SliceGood(s, l, w); } else { SliceGood(s, r, w); }
    case List(l, r) => if SliceOf(l, w) { SliceGood(s, l, w); } else { SliceGood(s, r, w); }
    case Back(d) => SliceGood(s, d, w);
  }

  lemma {:induction false} CStrIs(b: seq<char>, q: nat, e: nat)
    requires q <= e < |b| && b[e] == '\0' && forall k :: q <= k < e ==> b[k] != '\0'
    ensures CStr(b, q) == b[q..e]
    decreases e - q
  {
    if q < e {
      CStrIs(b, q + 1, e);
      assert b[q..e] == [b[q]] + b[q + 1..e];
    }
  }

  /** After nulterminate every recorded word is a C string of its own, and none is damaged. */
  lemma WordsIntact(s: string, c: Cmd, b: seq<char>, w: Slice)
    requires forall i :: 0 <= i < |s| ==> s[i] != '\0'
    requires GoodCmd(s, c) && SliceOf(c, w) && |b| == |s| + 1
    requires forall i :: 0 <= i < |b| ==> b[i] == if EndsAt(c, i) then '\0' else At(s, i)
    ensures w.q < w.eq <= |s| && CStr(b, w.q) == s[w.q..w.eq]
  {
    SliceGood(s, c, w);
    forall k | w.q <= k < w.eq ensures b[k] == s[k] {
      if EndsAt(c, k) { EndIsNoWord(s, c, k); }
    }
    CStrIs(b, w.q, w.eq);
    assert b[w.q..w.eq] == s[w.q..w.eq];
  }
}
