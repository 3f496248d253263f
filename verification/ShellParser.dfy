/**
  sh.c's parser. A position in the command line stands for the char pointer; the
  line is NUL-free up to its end. A word is the slice of the line between the two
  pointers the parser records. A panic is Err.
*/
module ShellParser {
  const MAXARGS := 10

  predicate Ws(c: char) {
    c == ' ' || c == '\t' || c == '\r' || c == '\n' || c == '\U{0B}'
  }

  predicate Sym(c: char) {
    c == '<' || c == '|' || c == '>' || c == '&' || c == ';' || c == '(' || c == ')'
  }

  datatype Slice = Slice(q: nat, eq: nat)

  datatype Mode = In | Out | Append

  datatype Cmd = Exec(args: seq<Slice>) | Redir(cmd: Cmd, file: Slice, mode: Mode)
               | Pipe(left: Cmd, right: Cmd) | List(left: Cmd, right: Cmd) | Back(cmd: Cmd)

  datatype Result = Ok(cmd: Cmd, pos: nat) | Err

  /** *s, NUL at the end of the line. */
  function At(s: string, i: nat): char {
    if i < |s| then s[i] else '\0'
  }

  /** Past white space. */
  function Skip(s: string, i: nat): (j: nat)
    ensures i <= j && (i <= |s| ==> j <= |s|) && (j < |s| ==> !Ws(s[j]))
    ensures forall k :: i <= k < j ==> k < |s| && Ws(s[k])
    decreases |s| - i
  {
    if i < |s| && Ws(s[i]) then Skip(s, i + 1) else i
  }

  /** The end of a word. */
  function WordEnd(s: string, i: nat): (j: nat)
    ensures i <= j && (i <= |s| ==> j <= |s|) && (j < |s| ==> Ws(s[j]) || Sym(s[j]))
    ensures forall k :: i <= k < j ==> k < |s| && !Ws(s[k]) && !Sym(s[k])
    decreases |s| - i
  {
    if i < |s| && !Ws(s[i]) && !Sym(s[i]) then WordEnd(s, i + 1) else i
  }

  /** gettoken: its result, the slice, and the position after it. */
  datatype Token = Token(tok: char, q: nat, eq: nat, next: nat)

  /** Only white space in s[i..j], and none at j. */
  predicate SpaceUpTo(s: string, i: nat, j: nat) {
    i <= j <= |s| && (forall k :: i <= k < j ==> Ws(s[k])) && (j < |s| ==> !Ws(s[j]))
  }

  /** s[q..e] is a longest run of characters that are neither white space nor symbols. */
  predicate WordAt(s: string, q: nat, e: nat) {
    q < e <= |s| && (forall k :: q <= k < e ==> !Ws(s[k]) && !Sym(s[k])) && (e < |s| ==> Ws(s[e]) || Sym(s[e]))
  }

  /** The token starts at the first character that is not white space, and its kind says what it is. */
  function Gettoken(s: string, i: nat): (t: Token)
    requires i <= |s|
    ensures SpaceUpTo(s, i, t.q) && t.q <= t.eq && SpaceUpTo(s, t.eq, t.next)
    ensures t.tok == '\0' <==> At(s, t.q) == '\0'
    ensures t.tok == '\0' ==> t.eq == t.q
    ensures t.tok == 'a' <==> WordAt(s, t.q, t.eq) && s[t.q] != '\0'
    ensures t.tok == '+' <==> t.eq == t.q + 2 && s[t.q..t.eq] == ">>"
    ensures t.tok != '\0' && t.tok != 'a' && t.tok != '+' ==> t.eq == t.q + 1 && Sym(t.tok) && s[t.q] == t.tok
    ensures t.tok == '>' ==> At(s, t.q + 1) != '>'
  {
    var q := Skip(s, i);
    if q == |s| || s[q] == '\0' then Token('\0', q, q, Skip(s, q))
    else if s[q] == '>' then
      if At(s, q + 1) == '>' then Token('+', q, q + 2, Skip(s, q + 2)) else Token('>', q, q + 1, Skip(s, q + 1))
    else if Sym(s[q]) then Token(s[q], q, q + 1, Skip(s, q + 1))
    else Token('a', q, WordEnd(s, q), Skip(s, WordEnd(s, q)))
  }

  /** The loops of gettoken and peek. */
  method SkipSpace(s: string, i: nat) returns (j: nat)
    requires i <= |s|
    ensures j == Skip(s, i)
  {
    j := i;
    while j < |s| && Ws(s[j])
      invariant i <= j <= |s| && Skip(s, j) == Skip(s, i)
    {
      j := j + 1;
    }
  }

  method SkipWord(s: string, i: nat) returns (j: nat)
    requires i <= |s|
    ensures j == WordEnd(s, i)
  {
    j := i;
    while j < |s| && !Ws(s[j]) && !Sym(s[j])
      invariant i <= j <= |s| && WordEnd(s, j) == WordEnd(s, i)
    {
      j := j + 1;
    }
  }

  // -------------------------------------------------------------- recursive descent

  datatype Redirs = Redirs(list: seq<(Slice, Mode)>, pos: nat) | NoFile

  /** parseredirs: the redirections found, innermost first. */
  function ParseRedirs(s: string, i: nat): (r: Redirs)
    requires i <= |s|
    ensures r.Redirs? ==> Skip(s, i) <= r.pos <= |s| && r.pos == Skip(s, r.pos)
    decreases |s| - i
  {
    var j := Skip(s, i);
    if At(s, j) != '<' && At(s, j) != '>' then SkipSkip(s, i); Redirs([], j)
    else
      var t := Gettoken(s, j);
      var f := Gettoken(s, t.next);
      if f.tok != 'a' then NoFile
      else
        match ParseRedirs(s, f.next)
        case NoFile => NoFile
        case Redirs(rest, k) =>
          Redirs([(Slice(f.q, f.eq), if t.tok == '<' then In else if t.tok == '>' then Out else Append)] + rest, k)
  }

  function Wrap(c: Cmd, rs: seq<(Slice, Mode)>): Cmd
    decreases |rs|
  {
    if rs == [] then c else Wrap(Redir(c, rs[0].0, rs[0].1), rs[1..])
  }

  lemma SkipSkip(s: string, i: nat)
    ensures Skip(s, Skip(s, i)) == Skip(s, i)
  {
  }

  predicate Stops(c: char) {
    c == '|' || c == ')' || c == '&' || c == ';'
  }

  /** The argument loop of parseexec. */
  function ParseArgs(s: string, args: seq<Slice>, rs: seq<(Slice, Mode)>, i: nat): (r: Result)
    requires i <= |s|
    ensures r.Ok? ==> Skip(s, i) <= r.pos <= |s|
    decreases |s| - i
  {
    var j := Skip(s, i);
    if Stops(At(s, j)) then Ok(Wrap(Exec(args), rs), j)
    else
      var t := Gettoken(s, j);
      if t.tok == '\0' then Ok(Wrap(Exec(args), rs), t.next)
      else if t.tok != 'a' || |args| + 1 >= MAXARGS then Err
      else
        match ParseRedirs(s, t.next)
        case NoFile => Err
        case Redirs(more, k) => ParseArgs(s, args + [Slice(t.q, t.eq)], rs + more, k)
  }

  function ParseExec(s: string, i: nat): (r: Result)
    requires i <= |s|
    ensures r.Ok? ==> Skip(s, i) <= r.pos <= |s|
    decreases |s| - i, 1
  {
    var j := Skip(s, i);
    if At(s, j) == '(' then ParseBlock(s, j)
    else
      match ParseRedirs(s, j)
      case NoFile => Err
      case Redirs(rs, k) => ParseArgs(s, [], rs, k)
  }

  function ParseBlock(s: string, j: nat): (r: Result)
    requires j < |s| && s[j] == '('
    ensures r.Ok? ==> j < r.pos <= |s|
    decreases |s| - j, 0
  {
    match ParseLine(s, Gettoken(s, j).next)
    case Err => Err
    case Ok(c, k) =>
      if At(s, Skip(s, k)) != ')' then Err
      else
        match ParseRedirs(s, Gettoken(s, Skip(s, k)).next)
        case NoFile => Err
        case Redirs(rs, e) => Ok(Wrap(c, rs), e)
  }

  function ParsePipe(s: string, i: nat): (r: Result)
    requires i <= |s|
    ensures r.Ok? ==> Skip(s, i) <= r.pos <= |s|
    decreases |s| - i, 2
  {
    match ParseExec(s, i)
    case Err => Err
    case Ok(c, k) =>
      if At(s, Skip(s, k)) != '|' then Ok(c, Skip(s, k))
      else
        match ParsePipe(s, Gettoken(s, Skip(s, k)).next)
        case Err => Err
        case Ok(d, e) => Ok(Pipe(c, d), e)
  }

  /** The & loop of parseline. */
  function Backs(s: string, c: Cmd, i: nat): (r: Result)
    requires i <= |s|
    ensures r.Ok? && Skip(s, i) <= r.pos <= |s|
    decreases |s| - i
  {
    var j := Skip(s, i);
    if At(s, j) == '&' then Backs(s, Back(c), Gettoken(s, j).next) else Ok(c, j)
  }

  function ParseLine(s: string, i: nat): (r: Result)
    requires i <= |s|
    ensures r.Ok? ==> Skip(s, i) <= r.pos <= |s|
    decreases |s| - i, 3
  {
    match ParsePipe(s, i)
    case Err => Err
    case Ok(c, k) =>
      var b := Backs(s, c, k);
      if At(s, Skip(s, b.pos)) != ';' then Ok(b.cmd, Skip(s, b.pos))
      else
        match ParseLine(s, Gettoken(s, Skip(s, b.pos)).next)
        case Err => Err
        case Ok(d, e) => Ok(List(b.cmd, d), e)
  }

  /** parsecmd before nulterminate: all of the line is one command. */
  function ParseCmd(s: string): Result {
    match ParseLine(s, 0)
    case Err => Err
    case Ok(c, k) => if Skip(s, k) != |s| then Err else Ok(c, |s|)
  }
}
