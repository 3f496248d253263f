module LinkOverflow {
  // nlink is a short and sys_link does not test it: a run from the root-only tree
  // in which a file gets 32768 links, and the unlink that panics after it. No
  // directory has more entries than a file can hold.

  import opened Wrappers
  import opened Directory
  import opened PathWalk
  import opened DirGraph
  import opened DirTree
  import opened DirTreeProof
  import opened DanglingDirs
  import opened LinkCounts

  /** MAXFILE * BSIZE / sizeof(struct dirent) */
  const MAXENTRIES := 17152

  function Digit(d: nat): char
    requires d < 64
  {
    (64 + d) as char
  }

  /** The k-th name: three digits in base 64. */
  function Label(k: nat): (r: string)
    ensures NulFree(r) && Trunc(r) == r && !Dot(r)
  {
    [Digit(k / 4096 % 64), Digit(k / 64 % 64), Digit(k % 64)]
  }

  lemma LabelsDiffer(j: nat, k: nat)
    requires j < 64 * 4096 && k < 64 * 4096 && Label(j) == Label(k)
    ensures j == k
  {
    assert Label(j)[0] == Digit(j / 4096 % 64) && Label(k)[0] == Digit(k / 4096 % 64);
    assert Label(j)[1] == Digit(j / 64 % 64) && Label(k)[1] == Digit(k / 64 % 64);
    assert Label(j)[2] == Digit(j % 64) && Label(k)[2] == Digit(k % 64);
    Digits(j);
    Digits(k);
  }

  lemma Digits(k: nat)
    requires k < 64 * 4096
    ensures k == k / 4096 % 64 * 4096 + k / 64 % 64 * 64 + k % 64
  {
    assert k / 4096 == k / 64 / 64;
  }

  /** Labels from k on are not in use in directory d, and it has at most k names besides its dots. */
  ghost predicate Unused(s: State, d: nat, k: nat) {
    s.IsDir(d) && |s.Entries(d)| <= 2 + k && forall j :: k <= j < 64 * 4096 ==> Label(j) !in AsMap(s.Entries(d))
  }

  /** File 2 is called x in the root, and by a labels in directory 3 and b labels in directory 4. */
  ghost predicate Named2(s: State, a: nat, b: nat) {
    && s.nodes.Keys == {1, 2, 3, 4} && s.held == multiset{1, 2, 3, 4} && s.promised == multiset{}
    && s.IsDir(1) && |s.Entries(1)| <= 5 && !s.IsDir(2) && Unused(s, 3, a) && Unused(s, 4, b)
    && "x" in AsMap(s.Entries(1)) && AsMap(s.Entries(1))["x"] == 2 && s.nodes[2].nlink == 1 + a + b
  }

  /** sys_link of file 2 into directory d, in its two halves. */
  function Linking(d: nat, k: nat): seq<Step> {
    [Promise(2), Enter(2, d, Label(k), true)]
  }

  /** What the two halves do. */
  ghost function LinkedTo(s: State, d: nat, k: nat): State
    requires 2 in s.nodes && s.IsDir(d) && d != 2
  {
    var u := s.Count(2, 1).(promised := s.promised + multiset{2});
    u.Link(d, Label(k), 2).(promised := u.promised - multiset{2})
  }

  lemma LinkRuns(s: State, d: nat, k: nat, a: nat, b: nat) returns (u: State)
    requires Named2(s, a, b) && (d == 3 || d == 4) && Unused(s, d, k) && k < 64 * 4096
    ensures Enabled(s, Promise(2)) && u == Next(s, Promise(2)).0 && Enabled(u, Enter(2, d, Label(k), true))
    ensures Next(u, Enter(2, d, Label(k), true)).0 == LinkedTo(s, d, k)
    ensures !Wraps(u, Enter(2, d, Label(k), true)) && (Wraps(s, Promise(2)) <==> s.nodes[2].nlink == NLINK_MAX)
  {
    hide AsMap, Linked, Label;
    u := s.Count(2, 1).(promised := s.promised + multiset{2});
    assert Label(k) !in AsMap(s.Entries(d));
  }

  /** The directory gains one label, the file one link. */
  lemma LinkedFacts(s: State, d: nat, k: nat, a: nat, b: nat)
    requires Named2(s, a, b) && DirsOk(s) && (if d == 3 then k == a else d == 4 && k == b) && k + 1 < 64 * 4096
    requires s.nodes[2].nlink < NLINK_MAX
    ensures Named2(LinkedTo(s, d, k), if d == 3 then a + 1 else a, if d == 3 then b else b + 1)
  {
    hide AsMap, Linked, DirOk, Dotted, Label, Unused;
    UnusedDir(s, 3, a);
    UnusedDir(s, 4, b);
    var t := LinkedTo(s, d, k);
    StillUnused(s, d, k);
    LinkedMap(s.Entries(d), Label(k), 2, d);
    LinkedSize(s.Entries(d), Label(k), 2);
    assert t.nodes.Keys == s.nodes.Keys;
    OneFewer(s, t, d, k);
    SameUnused(s, t, 7 - d, if d == 3 then b else a);
  }

  lemma UnusedDir(s: State, d: nat, k: nat)
    requires Unused(s, d, k)
    ensures s.IsDir(d)
  {
  }

  lemma StillUnused(s: State, d: nat, k: nat)
    requires Unused(s, d, k) && k < 64 * 4096
    ensures Label(k) !in AsMap(s.Entries(d))
  {
  }

  lemma SameUnused(s: State, t: State, d: nat, k: nat)
    requires Unused(s, d, k) && t.IsDir(d) && t.Entries(d) == s.Entries(d)
    ensures Unused(t, d, k)
  {
  }

  lemma OneFewer(s: State, t: State, d: nat, k: nat)
    requires Unused(s, d, k) && k + 1 < 64 * 4096 && t.IsDir(d) && |t.Entries(d)| <= |s.Entries(d)| + 1
    requires AsMap(t.Entries(d)) == AsMap(s.Entries(d))[Label(k) := 2]
    ensures Unused(t, d, k + 1)
  {
    hide AsMap, Label;
    forall j | k + 1 <= j < 64 * 4096 ensures Label(j) !in AsMap(t.Entries(d)) {
      if Label(j) == Label(k) { LabelsDiffer(j, k); }
    }
  }

  lemma {:induction false} FillDir(s: State, d: nat, n: nat, a: nat, b: nat) returns (steps: seq<Step>, t: State)
    requires Named2(s, a, b) && s.Inv() && (d == 3 || d == 4) && a + b + n <= 32766
    ensures CleanRun(s, steps, t) && t.Inv() && Named2(t, if d == 3 then a + n else a, if d == 3 then b else b + n)
    decreases n
  {
    hide State.Inv, Named2, CleanRun, Unused;
    if n == 0 {
      NoSteps(s);
      steps, t := [], s;
    } else {
      var k := if d == 3 then a else b;
      var u := LinkStep(s, d, k, a, b);
      var more;
      more, t := FillDir(u, d, n - 1, if d == 3 then a + 1 else a, if d == 3 then b else b + 1);
      CleanConcat(s, Linking(d, k), u, more, t);
      steps := Linking(d, k) + more;
    }
  }

  lemma NoSteps(s: State)
    ensures CleanRun(s, [], s)
  {
  }

  lemma LinkStep(s: State, d: nat, k: nat, a: nat, b: nat) returns (t: State)
    requires Named2(s, a, b) && s.Inv() && (if d == 3 then k == a else d == 4 && k == b) && a + b < 32766
    ensures CleanRun(s, Linking(d, k), t) && t.Inv()
    ensures Named2(t, if d == 3 then a + 1 else a, if d == 3 then b else b + 1)
  {
    InvDirs(s);
    hide State.Inv, CleanRun, DirsOk;
    t := LinkedTo(s, d, k);
    var u := LinkRuns(s, d, k, a, b);
    LinkedFacts(s, d, k, a, b);
    NextInv(s, Promise(2));
    NextInv(u, Enter(2, d, Label(k), true));
    TwoSteps(s, Promise(2), u, Enter(2, d, Label(k), true), t);
  }

  lemma InvDirs(s: State)
    requires s.Inv()
    ensures DirsOk(s)
  {
    hide State.Counts, State.Links, State.Refs, State.NoneLost, DirOk, Dotted;
  }

  // ------------------------------------------------------------------------------- the start

  /** A file in the root and two directories, all held. */
  lemma Start() returns (steps: seq<Step>, s: State)
    ensures CleanRun(Mkfs(), steps, s) && s.Inv() && Named2(s, 0, 0)
  {
    hide State.Inv, NewEntries, AsMap, Created, CleanRun, FileAndDir;
    var a, s3 := FirstThree();
    var dir4 := Create(1, "b", DirNode(NewEntries(4, 1)), Some(4), true);
    s := SecondDir(s3, dir4);
    OneStep(s3, dir4, s);
    CleanConcat(Mkfs(), a, s3, [dir4], s);
    steps := a + [dir4];
  }

  /** File 2 is called x in the root and directory 3 is empty. */
  ghost predicate FileAndDir(s: State) {
    && s.nodes.Keys == {1, 2, 3} && s.held == multiset{1, 2, 3} && s.promised == multiset{}
    && s.IsDir(1) && |s.Entries(1)| <= 4 && s.nodes[1].nlink == 2 && s.nodes[2] == Inode(FileNode, 1)
    && s.IsDir(3) && |s.Entries(3)| == 2 && AsMap(s.Entries(3)).Keys == {".", ".."}
    && AsMap(s.Entries(1)) == map["." := 1, ".." := 1, "x" := 2, "a" := 3]
  }

  lemma SecondDir(s: State, a: Step) returns (t: State)
    requires FileAndDir(s) && s.Inv() && a == Create(1, "b", DirNode(NewEntries(4, 1)), Some(4), true)
    ensures Enabled(s, a) && !Wraps(s, a) && t == Next(s, a).0 && t.Inv() && Named2(t, 0, 0)
  {
    hide State.Inv, NewEntries, AsMap, Created, Named2;
    MkdirFacts(s, 1, "b", 4);
    t := Next(s, a).0;
    StartNamed(t);
  }

  lemma FirstThree() returns (steps: seq<Step>, s: State)
    ensures CleanRun(Mkfs(), steps, s) && s.Inv() && FileAndDir(s)
  {
    hide State.Inv, NewEntries, AsMap, Created, CleanRun;
    var s0 := Mkfs();
    MkfsInv();
    NewEntriesMap(ROOTINO, ROOTINO);
    var s1 := s0.(held := multiset{1});
    assert s0.held + multiset{1} == multiset{1};
    HoldInv(s0, 1);
    var file := Create(1, "x", FileNode, Some(2), true);
    MkfileFacts(s1, 1, "x", 2);
    var s2 := Next(s1, file).0;
    var dir3 := Create(1, "a", DirNode(NewEntries(3, 1)), Some(3), true);
    MkdirFacts(s2, 1, "a", 3);
    s := Next(s2, dir3).0;
    steps := [Hold(1), file, dir3];
    ThreeSteps(s0, steps, s1, s2, s);
  }

  lemma OneStep(s: State, a: Step, t: State)
    requires Enabled(s, a) && !Wraps(s, a) && t == Next(s, a).0
    ensures CleanRun(s, [a], t)
  {
    hide Enabled, Next, Wraps;
    assert [a][1..] == [] && CleanRun(t, [], t);
  }

  lemma StartNamed(s: State)
    requires s.nodes.Keys == {1, 2, 3, 4} && s.held == multiset{1, 2, 3, 4} && s.promised == multiset{}
    requires s.IsDir(1) && |s.Entries(1)| <= 5 && !s.IsDir(2) && s.nodes[2].nlink == 1
    requires s.IsDir(3) && s.IsDir(4) && |s.Entries(3)| == |s.Entries(4)| == 2
    requires AsMap(s.Entries(3)).Keys == {".", ".."} && AsMap(s.Entries(4)).Keys == {".", ".."}
    requires "x" in AsMap(s.Entries(1)) && AsMap(s.Entries(1))["x"] == 2
    ensures Named2(s, 0, 0)
  {
    hide AsMap, Label;
    forall j | 0 <= j < 64 * 4096 ensures Label(j) !in AsMap(s.Entries(3)) && Label(j) !in AsMap(s.Entries(4)) {
      assert Label(j) !in {".", ".."};
    }
  }

  // ------------------------------------------------------------------------------- the panic

  /** A file whose link count has wrapped: unlinking any of its names panics. */
  lemma WrappedPanics(t: State)
    requires DirsOk(t) && t.IsDir(1) && 2 in t.nodes && t.nodes[2].nlink < 1
    requires "x" in AsMap(t.Entries(1)) && AsMap(t.Entries(1))["x"] == 2
    ensures Unlinked(t, 1, "x").1.Panic?
  {
    hide AsMap, DirOk, Dotted, NameOf;
    MapHas(t.Entries(1), "x");
  }

  /**
    Every step of the run is admitted by the code and every directory fits a file;
    then one more link, number 32768, and the unlink of the file's first name
    panics.
  */
  lemma TooManyLinks() returns (steps: seq<Step>, t: State)
    ensures Run(Mkfs(), steps, t) && AtDir(t, 1, "x") && Unlinked(t, 1, "x").1.Panic?
    ensures forall d :: t.IsDir(d) ==> |t.Entries(d)| <= MAXENTRIES
  {
    hide State.Inv, Named2, CleanRun, Run, Unlinked;
    var a, s := Start();
    var b, u := FillDir(s, 3, 16383, 0, 0);
    var c, v := FillDir(u, 4, 16383, 16383, 0);
    CleanConcat(Mkfs(), a, s, b, u);
    CleanConcat(Mkfs(), a + b, u, c, v);
    CleanIsRun(Mkfs(), a + b + c, v);
    t := LastLink(v);
    RunConcat(Mkfs(), a + b + c, v, Linking(4, 16383), t);
    steps := a + b + c + Linking(4, 16383);
  }

  lemma CleanIsRun(s: State, steps: seq<Step>, t: State)
    requires CleanRun(s, steps, t)
    ensures Run(s, steps, t)
  {
  }

  lemma LastLink(v: State) returns (t: State)
    requires Named2(v, 16383, 16383) && v.Inv()
    ensures Run(v, Linking(4, 16383), t) && AtDir(t, 1, "x") && Unlinked(t, 1, "x").1.Panic?
    ensures forall d :: t.IsDir(d) ==> |t.Entries(d)| <= MAXENTRIES
  {
    hide State.Inv, AsMap, DirsOk, Unlinked, Named2, Enabled, Next, Run, AtDir, Label;
    InvDirs(v);
    NamedFacts(v, 16383, 16383);
    t := LinkedTo(v, 4, 16383);
    var u := LinkRuns(v, 4, 16383, 16383, 16383);
    NextNames(v, Promise(2));
    NextNames(u, Enter(2, 4, Label(16383), true));
    TwoAny(v, Promise(2), u, Enter(2, 4, Label(16383), true), t);
    LastFacts(v, t);
    WrappedPanics(t);
  }

  lemma NamedFacts(s: State, a: nat, b: nat)
    requires Named2(s, a, b)
    ensures 2 in s.nodes && s.IsDir(4) && Unused(s, 4, b)
  {
  }

  lemma LastFacts(v: State, t: State)
    requires Named2(v, 16383, 16383) && 2 in v.nodes && v.IsDir(4) && t == LinkedTo(v, 4, 16383)
    ensures AtDir(t, 1, "x") && 2 in t.nodes && t.nodes[2].nlink < 1
    ensures t.IsDir(1) && "x" in AsMap(t.Entries(1)) && AsMap(t.Entries(1))["x"] == 2
    ensures forall d :: t.IsDir(d) ==> |t.Entries(d)| <= MAXENTRIES
  {
    hide AsMap, Linked, Label;
    LinkedSize(v.Entries(4), Label(16383), 2);
    assert t.nodes.Keys == v.nodes.Keys;
    forall d | t.IsDir(d) ensures |t.Entries(d)| <= MAXENTRIES {
      assert d in v.nodes.Keys;
    }
  }

  lemma TwoAny(s: State, a: Step, u: State, b: Step, t: State)
    requires Enabled(s, a) && u == Next(s, a).0 && Enabled(u, b) && t == Next(u, b).0
    ensures Run(s, [a, b], t)
  {
    hide Enabled, Next;
    assert [a, b][1..] == [b] && [b][1..] == [] && Run(t, [], t);
    assert Run(u, [b], t);
  }
}
