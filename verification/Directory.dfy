module Directory {
  // Directories of fs.c: sequences of entries whose names are DIRSIZ-byte buffers,
  // cut off or padded with NULs. An entry with inode number 0 is free. A directory
  // stands for the finite map of its entries in use.

  import opened Wrappers

  const DIRSIZ := 14

  datatype Dirent = Dirent(inum: nat, name: string)

  /** A name as the file system sees it. */
  function Trunc(s: string): string {
    if |s| <= DIRSIZ then s else s[..DIRSIZ]
  }

  predicate NulFree(s: string) {
    forall i :: 0 <= i < |s| ==> s[i] != '\0'
  }

  /** strncpy(de.name, name, DIRSIZ) */
  function Pad(name: string): (r: string)
    ensures |r| == DIRSIZ
  {
    var t := Trunc(name);
    t + seq(DIRSIZ - |t|, _ => '\0')
  }

  /** The name in a buffer, up to its first NUL. */
  function NameOf(buf: string): (r: string)
    ensures |r| <= |buf| && NulFree(r)
  {
    if buf == [] || buf[0] == '\0' then [] else [buf[0]] + NameOf(buf[1..])
  }

  lemma {:induction false} NameOfPadded(t: string, n: nat)
    requires NulFree(t)
    ensures NameOf(t + seq(n, _ => '\0')) == t
  {
    var z := seq(n, _ => '\0');
    if t == [] {
      assert t + z == z;
    } else {
      assert (t + z)[1..] == t[1..] + z;
      NameOfPadded(t[1..], n);
    }
  }

  /** Storing a name and reading it back cuts it to DIRSIZ characters. */
  lemma PadRoundTrip(name: string)
    requires NulFree(name)
    ensures NameOf(Pad(name)) == Trunc(name)
  {
    NameOfPadded(Trunc(name), DIRSIZ - |Trunc(name)|);
  }

  /** Comparing one character. */
  lemma NameStep(t: string, buf: string)
    requires NulFree(t) && buf != []
    ensures t == NameOf(buf) <==> if t == [] then buf[0] == '\0' else buf[0] == t[0] && t[1..] == NameOf(buf[1..])
  {
    if t != [] {
      assert t == [t[0]] + t[1..];
      if buf[0] != '\0' { assert NameOf(buf)[0] == buf[0] && NameOf(buf)[1..] == NameOf(buf[1..]); }
    }
  }

  /** namecmp(name, buf) == 0: strncmp of a C string with a name buffer. */
  method Namecmp(name: string, buf: string) returns (same: bool)
    requires NulFree(name) && |buf| == DIRSIZ
    ensures same <==> Trunc(name) == NameOf(buf)
  {
    ghost var t := Trunc(name);
    var i := 0;
    assert t[0..] == t && buf[0..] == buf;
    while i < DIRSIZ
      invariant 0 <= i <= DIRSIZ && i <= |t|
      invariant t == NameOf(buf) <==> t[i..] == NameOf(buf[i..])
    {
      var a := if i < |name| then name[i] else '\0';
      assert a == if i < |t| then t[i] else '\0';
      NameStep(t[i..], buf[i..]);
      assert buf[i..][1..] == buf[i + 1..] && buf[i..][0] == buf[i];
      assert i < |t| ==> t[i..][1..] == t[i + 1..] && t[i..][0] == t[i];
      if a != buf[i] {
        return false;
      }
      if a == '\0' {
        return true;
      }
      i := i + 1;
    }
    assert t[i..] == [] && buf[i..] == [];
    return true;
  }

  type Entries = seq<Dirent>

  predicate Live(e: Dirent) {
    e.inum != 0
  }

  /** No two entries in use have the same name. */
  predicate DirOk(d: Entries) {
    && (forall i :: 0 <= i < |d| ==> |d[i].name| == DIRSIZ)
    && (forall i, j :: 0 <= i < j < |d| && Live(d[i]) && Live(d[j]) ==> NameOf(d[i].name) != NameOf(d[j].name))
  }

  /** The map a directory stands for. */
  ghost function AsMap(d: Entries): map<string, nat> {
    if d == [] then map[]
    else
      var m, e := AsMap(d[..|d| - 1]), d[|d| - 1];
      if Live(e) then m[NameOf(e.name) := e.inum] else m
  }

  /** Some entry in use has the name. */
  ghost predicate Named(d: Entries, name: string) {
    exists i :: 0 <= i < |d| && Live(d[i]) && NameOf(d[i].name) == name
  }

  lemma {:induction false} MapHas(d: Entries, name: string)
    requires DirOk(d)
    ensures name in AsMap(d) <==> Named(d, name)
    ensures forall i :: 0 <= i < |d| && Live(d[i]) && NameOf(d[i].name) == name ==>
      name in AsMap(d) && AsMap(d)[name] == d[i].inum
  {
    if d != [] {
      var n := |d| - 1;
      var p := d[..n];
      MapHas(p, name);
      assert forall i :: 0 <= i < n ==> p[i] == d[i];
      if Named(p, name) {
        var i :| 0 <= i < n && Live(p[i]) && NameOf(p[i].name) == name;
        assert d[i] == p[i];
      }
    }
  }

  /** A map with the same names and numbers is the map of the directory. */
  lemma SameMap(d: Entries, m: map<string, nat>)
    requires DirOk(d) && forall k :: k in m <==> Named(d, k)
    requires forall i :: 0 <= i < |d| && Live(d[i]) ==> NameOf(d[i].name) in m && m[NameOf(d[i].name)] == d[i].inum
    ensures AsMap(d) == m
  {
    forall k ensures k in AsMap(d) <==> k in m {
      MapHas(d, k);
    }
    forall k | k in m ensures k in AsMap(d) && AsMap(d)[k] == m[k] {
      MapHas(d, k);
      var i :| 0 <= i < |d| && Live(d[i]) && NameOf(d[i].name) == k;
    }
  }

  /** dirlookup: the entry's position, or nothing. */
  method Dirlookup(d: Entries, name: string) returns (r: Option<nat>)
    requires DirOk(d) && NulFree(name)
    ensures r.Some? <==> Trunc(name) in AsMap(d)
    ensures r.Some? ==> r.value < |d| && Live(d[r.value]) && NameOf(d[r.value].name) == Trunc(name)
                        && AsMap(d)[Trunc(name)] == d[r.value].inum
  {
    MapHas(d, Trunc(name));
    var i := 0;
    while i < |d|
      invariant 0 <= i <= |d|
      invariant forall j :: 0 <= j < i ==> !(Live(d[j]) && NameOf(d[j].name) == Trunc(name))
    {
      if d[i].inum != 0 {
        var same := Namecmp(name, d[i].name);
        if same {
          return Some(i);
        }
      }
      i := i + 1;
    }
    return None;
  }

  function Put(d: Entries, i: nat, e: Dirent): Entries
    requires i <= |d|
  {
    if i < |d| then d[i := e] else d + [e]
  }

  lemma PutAt(d: Entries, i: nat, e: Dirent)
    requires i <= |d|
    ensures |Put(d, i, e)| == (if i < |d| then |d| else |d| + 1)
    ensures forall j :: 0 <= j < |Put(d, i, e)| ==> Put(d, i, e)[j] == if j == i then e else d[j]
  {
  }

  lemma PutOk(d: Entries, i: nat, e: Dirent)
    requires DirOk(d) && i <= |d| && |e.name| == DIRSIZ
    requires Live(e) ==> forall j :: 0 <= j < |d| && j != i && Live(d[j]) ==> NameOf(d[j].name) != NameOf(e.name)
    ensures DirOk(Put(d, i, e))
  {
    PutAt(d, i, e);
    hide Put, NameOf;
  }

  /** Entries in use, as the map after a change should have them. */
  lemma PutNumbers(d: Entries, i: nat, e: Dirent, m: map<string, nat>, j: nat)
    requires DirOk(d) && i <= |d| && j < |Put(d, i, e)| && Live(Put(d, i, e)[j])
    requires Live(e) ==> NameOf(e.name) in m && m[NameOf(e.name)] == e.inum
    requires forall k :: k in AsMap(d) && k != (if i < |d| && Live(d[i]) then NameOf(d[i].name) else NameOf(e.name)) ==>
      k in m && m[k] == AsMap(d)[k]
    requires forall l :: 0 <= l < |d| && l != i && Live(d[l]) ==>
      NameOf(d[l].name) != if i < |d| && Live(d[i]) then NameOf(d[i].name) else NameOf(e.name)
    ensures var x := Put(d, i, e)[j]; NameOf(x.name) in m && m[NameOf(x.name)] == x.inum
  {
    PutAt(d, i, e);
    hide Put, AsMap;
    if j != i { MapHas(d, NameOf(d[j].name)); }
  }

  /** A name other than that of entry i is there as before. */
  lemma OtherName(d: Entries, i: nat, e: Dirent, k: string)
    requires i <= |d| && (i < |d| && Live(d[i]) ==> NameOf(d[i].name) != k) && (Live(e) ==> NameOf(e.name) != k)
    ensures Named(Put(d, i, e), k) <==> Named(d, k)
  {
    PutAt(d, i, e);
    var d2 := Put(d, i, e);
    hide Put;
    if Named(d, k) {
      var j :| 0 <= j < |d| && Live(d[j]) && NameOf(d[j].name) == k;
      assert d2[j] == d[j];
    }
    if Named(d2, k) {
      var j :| 0 <= j < |d2| && Live(d2[j]) && NameOf(d2[j].name) == k;
      assert d2[j] == d[j];
    }
  }

  /** A new name goes into a free entry or to the end. */
  lemma PutNew(d: Entries, i: nat, name: string, inum: nat)
    requires DirOk(d) && NulFree(name) && inum != 0 && i <= |d| && (i < |d| ==> !Live(d[i])) && Trunc(name) !in AsMap(d)
    ensures DirOk(Put(d, i, Dirent(inum, Pad(name))))
    ensures AsMap(Put(d, i, Dirent(inum, Pad(name)))) == AsMap(d)[Trunc(name) := inum]
  {
    PadRoundTrip(name);
    var t := Trunc(name);
    var e := Dirent(inum, Pad(name));
    var d2, m := Put(d, i, e), AsMap(d)[t := inum];
    MapHas(d, t);
    PutAt(d, i, e);
    assert d2[i] == e;
    hide Put, Pad, Trunc, AsMap, NameOf;
    PutOk(d, i, e);
    forall k ensures k in m <==> Named(d2, k) {
      MapHas(d, k);
      if k != t { OtherName(d, i, e, k); }
    }
    forall j | 0 <= j < |d2| && Live(d2[j]) ensures NameOf(d2[j].name) in m && m[NameOf(d2[j].name)] == d2[j].inum {
      PutNumbers(d, i, e, m, j);
    }
    hide DirOk, Named;
    SameMap(d2, m);
  }

  /** Clearing an entry in use takes its name away and nothing else. */
  lemma PutFree(d: Entries, i: nat)
    requires DirOk(d) && i < |d| && Live(d[i])
    ensures DirOk(Put(d, i, Dirent(0, Pad([]))))
    ensures AsMap(Put(d, i, Dirent(0, Pad([])))) == AsMap(d) - {NameOf(d[i].name)}
  {
    var t := NameOf(d[i].name);
    var e := Dirent(0, Pad([]));
    var d2, m := Put(d, i, e), AsMap(d) - {t};
    PutAt(d, i, e);
    hide Put, Pad, AsMap, NameOf;
    PutOk(d, i, e);
    assert !Named(d2, t);
    forall k ensures k in m <==> Named(d2, k) {
      MapHas(d, k);
      if k != t { OtherName(d, i, e, k); }
    }
    forall j | 0 <= j < |d2| && Live(d2[j]) ensures NameOf(d2[j].name) in m && m[NameOf(d2[j].name)] == d2[j].inum {
      PutNumbers(d, i, e, m, j);
    }
    hide DirOk, Named;
    SameMap(d2, m);
  }

  // ------------------------------------------------------------- the changes a directory sees

  /** The first entry not in use, or the end. */
  function FirstFree(d: Entries): (r: nat)
    ensures r <= |d| && (forall i :: 0 <= i < r ==> Live(d[i])) && (r < |d| ==> !Live(d[r]))
  {
    if d == [] || !Live(d[0]) then 0 else 1 + FirstFree(d[1..])
  }

  function Linked(d: Entries, name: string, inum: nat): Entries {
    Put(d, FirstFree(d), Dirent(inum, Pad(name)))
  }

  ghost function IndexOf(d: Entries, t: string): (i: nat)
    requires Named(d, t)
    ensures i < |d| && Live(d[i]) && NameOf(d[i].name) == t
  {
    var i :| 0 <= i < |d| && Live(d[i]) && NameOf(d[i].name) == t;
    i
  }

  /** The entry called t is zeroed. */
  ghost function Cleared(d: Entries, t: string): Entries
    requires Named(d, t)
  {
    d[IndexOf(d, t) := Dirent(0, Pad([]))]
  }

  /** dirlink; room says whether writei can store the entry. */
  method Dirlink(d: Entries, name: string, inum: nat, room: bool) returns (r: int, d': Entries)
    requires DirOk(d) && NulFree(name)
    ensures r == if Trunc(name) in AsMap(d) || !room then -1 else 0
    ensures d' == if r == 0 then Linked(d, name, inum) else d
  {
    var found := Dirlookup(d, name);
    if found.Some? {
      return -1, d;
    }
    var off := 0;
    while off < |d|
      invariant 0 <= off <= |d| && forall i :: 0 <= i < off ==> Live(d[i])
    {
      if d[off].inum == 0 {
        break;
      }
      off := off + 1;
    }
    if !room {
      return -1, d;
    }
    return 0, Put(d, off, Dirent(inum, Pad(name)));
  }

  /** The entries of a directory are ., the directory itself, then .., then the rest. */
  predicate Dotted(d: Entries, self: nat) {
    && |d| >= 2 && Live(d[0]) && Live(d[1]) && d[0].inum == self
    && NameOf(d[0].name) == "." && NameOf(d[1].name) == ".."
  }

  /** A new name adds one pair to the map, and the first two entries stay. */
  lemma LinkedMap(d: Entries, name: string, inum: nat, self: nat)
    requires DirOk(d) && NulFree(name) && inum != 0 && Trunc(name) !in AsMap(d)
    ensures DirOk(Linked(d, name, inum)) && AsMap(Linked(d, name, inum)) == AsMap(d)[Trunc(name) := inum]
    ensures Dotted(d, self) ==> Dotted(Linked(d, name, inum), self)
  {
    PutNew(d, FirstFree(d), name, inum);
    PutAt(d, FirstFree(d), Dirent(inum, Pad(name)));
    hide AsMap, NameOf, Pad, DirOk, Put;
  }

  lemma LinkedSize(d: Entries, name: string, inum: nat)
    ensures |Linked(d, name, inum)| <= |d| + 1
  {
  }

  /** Clearing an entry takes its name away and nothing else; . and .. stay. */
  lemma ClearedMap(d: Entries, t: string, self: nat)
    requires DirOk(d) && Named(d, t)
    ensures DirOk(Cleared(d, t)) && AsMap(Cleared(d, t)) == AsMap(d) - {t}
    ensures Dotted(d, self) && t != "." && t != ".." ==> Dotted(Cleared(d, t), self)
  {
    PutFree(d, IndexOf(d, t));
    hide AsMap, NameOf, Pad, DirOk;
  }

  /** What create puts into a new directory. */
  function NewEntries(self: nat, parent: nat): Entries {
    Linked(Linked([], ".", self), "..", parent)
  }

  lemma NewEntriesMap(self: nat, parent: nat)
    requires self != 0 && parent != 0
    ensures DirOk(NewEntries(self, parent)) && Dotted(NewEntries(self, parent), self)
    ensures AsMap(NewEntries(self, parent)) == map["." := self, ".." := parent] && |NewEntries(self, parent)| == 2
  {
    PadRoundTrip(".");
    PadRoundTrip("..");
    LinkedMap([], ".", self, self);
    LinkedMap(Linked([], ".", self), "..", parent, self);
    assert Linked([], ".", self) == [Dirent(self, Pad("."))];
    assert NewEntries(self, parent) == [Dirent(self, Pad(".")), Dirent(parent, Pad(".."))];
    hide NameOf, Pad, DirOk;
    assert AsMap([]) == map[];
  }

  /** The dots, read off the map. */
  lemma DottedMap(d: Entries, self: nat)
    requires DirOk(d) && Dotted(d, self)
    ensures "." in AsMap(d) && ".." in AsMap(d) && AsMap(d)["."] == self && AsMap(d)[".."] == d[1].inum
  {
    MapHas(d, ".");
    MapHas(d, "..");
  }

  /** isdirempty: nothing in use after the first two entries. */
  method IsDirEmpty(d: Entries) returns (r: bool)
    ensures r <==> forall i :: 2 <= i < |d| ==> !Live(d[i])
  {
    var off := 2;
    while off < |d|
      invariant 2 <= off && forall i :: 2 <= i < off && i < |d| ==> !Live(d[i])
    {
      if d[off].inum != 0 {
        return false;
      }
      off := off + 1;
    }
    return true;
  }

  /** In a directory whose first entries are . and .., isdirempty means that they are all there is. */
  lemma EmptyMeans(d: Entries, self: nat)
    requires DirOk(d) && Dotted(d, self)
    ensures (forall i :: 2 <= i < |d| ==> !Live(d[i])) <==> AsMap(d).Keys == {".", ".."}
  {
    hide AsMap, NameOf;
    MapHas(d, ".");
    MapHas(d, "..");
    if i :| 2 <= i < |d| && Live(d[i]) {
      MapHas(d, NameOf(d[i].name));
      assert NameOf(d[i].name) in AsMap(d).Keys && NameOf(d[i].name) !in {".", ".."};
    } else {
      forall k | k in AsMap(d) ensures k == "." || k == ".." {
        MapHas(d, k);
        var i :| 0 <= i < |d| && Live(d[i]) && NameOf(d[i].name) == k;
      }
    }
  }
}
