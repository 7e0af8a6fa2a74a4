/** The storage tree: accepted paths, their two mappings, and the directories a UEFI write makes on its way. */
module StorageTree {
  import opened CText
  import opened TextStore

  const PATH_MAX: nat := 192
  const HOST_ROOT := "build/storage"
  const VITA := "/vita"

  // ---- Accepted paths

  predicate NoDots(s: string) { forall i :: 0 <= i < |s| - 1 ==> !(s[i] == '.' && s[i + 1] == '.') }

  predicate PathAllowed(path: string) {
    && (path == VITA || VITA + "/" <= path)
    && (forall i :: 0 <= i < |path| ==> path[i] != ':' && path[i] as int >= 32)
    && NoDots(path)
  }

  /** The firmware's name of a path: it separates components by `\`. */
  function Fw(path: string): (n: string)
    ensures |n| == |path|
  {
    seq(|path|, i requires 0 <= i < |path| => if path[i] == '/' then '\\' else path[i])
  }

  // ---- Where a name leads

  /** Walks the components; `..` leaves a directory, `.` and the empty component stay. */
  function Resolve(parts: seq<string>): seq<string> {
    if parts == [] then []
    else
      var at, c := Resolve(parts[..|parts| - 1]), parts[|parts| - 1];
      if c == "" || c == "." then at
      else if c == ".." then if at == [] then [] else at[..|at| - 1]
      else at + [c]
  }

  /** The last component is the tail of the text, and none of them is `..`. */
  predicate Plain(s: string, parts: seq<string>) {
    && ".." !in parts && parts != []
    && |parts[|parts| - 1]| <= |s| && parts[|parts| - 1] == s[|s| - |parts[|parts| - 1]|..]
  }

  lemma TailSnoc(s: string, c: char, last: string)
    requires |last| <= |s| && last == s[|s| - |last|..]
    ensures last + [c] == (s + [c])[|s + [c]| - |last + [c]|..]
    ensures NoDots(s + [c]) ==> last + [c] != ".."
  {
    var all := s + [c];
    if last + [c] == ".." {
      assert |last| == 1 && (last + [c])[0] == '.' && (last + [c])[1] == '.';
      assert all[|s| - 1] == '.' && all[|s|] == '.';
    }
  }

  lemma PlainSnoc(s: string, c: char, sep: char)
    requires Plain(s, Components(s, sep)) && NoDots(s + [c])
    ensures Plain(s + [c], Components(s + [c], sep))
  {
    hide Components;
    ComponentsSnoc(s, c, sep);
    var parts := Components(s, sep);
    TailSnoc(s, c, parts[|parts| - 1]);
    assert (s + [c])[|s + [c]|..] == "";
  }

  /** A component is a piece of the text: a text without two dots in a row has no `..` among its components. */
  lemma {:induction false} NoDotsNoParent(s: string, sep: char)
    requires NoDots(s)
    ensures Plain(s, Components(s, sep))
    decreases |s|
  {
    hide Components, Plain;
    if s != "" {
      NoDotsNoParent(s[..|s| - 1], sep);
      assert s[..|s| - 1] + [s[|s| - 1]] == s;
      PlainSnoc(s[..|s| - 1], s[|s| - 1], sep);
    } else {
      PlainNothing(s, sep);
    }
  }

  lemma PlainNothing(s: string, sep: char)
    requires s == ""
    ensures Plain(s, Components(s, sep))
  {
  }

  /** Without `..` a walk never goes back. */
  lemma {:induction false} WalkOnlyGoesOn(a: seq<string>, b: seq<string>)
    requires ".." !in b
    ensures Resolve(a) <= Resolve(a + b)
    decreases |b|
  {
    if b == [] {
      assert a + b == a;
    } else {
      assert (a + b)[..|a + b| - 1] == a + b[..|b| - 1];
      WalkOnlyGoesOn(a, b[..|b| - 1]);
    }
  }

  lemma VitaResolves(sep: char)
    requires sep !in "vita"
    ensures Resolve(["", "vita"]) == ["vita"]
    ensures Components([sep] + "vita", sep) == ["", "vita"]
  {
    LettersAlone("", sep);
    LettersAlone("vita", sep);
    ComponentsOfJoin("", "vita", sep);
    assert "" + [sep] + "vita" == [sep] + "vita";
    assert [""] + ["vita"] == ["", "vita"];
    assert ["", "vita"][..1] == [""] && [""][..0] == [];
    assert Resolve([]) == [];
    assert Resolve([""]) == [];
  }

  /** A walk that starts in a directory and meets no `..` stays in it at every step. */
  lemma WalkStaysIn(base: seq<string>, rest: seq<string>, k: nat)
    requires ".." !in rest && |base| <= k <= |base| + |rest|
    ensures Resolve(base) <= Resolve((base + rest)[..k])
  {
    WalkOnlyGoesOn(base, rest[..k - |base|]);
    assert (base + rest)[..k] == base + rest[..k - |base|];
  }

  /** The firmware name of a path, cut to the buffer of the conversion. */
  function FwName(path: string): string { Fw(Clip(path, 191)) }

  function HostPath(path: string): string { Clip(HOST_ROOT + path, 255) }

  predicate StaysIn(parts: seq<string>, place: seq<string>, from: nat) {
    from <= |parts| && forall k: nat {:trigger parts[..k]} :: from <= k <= |parts| ==> place <= Resolve(parts[..k])
  }

  lemma StaysInBase(base: seq<string>, rest: seq<string>)
    requires ".." !in rest
    ensures StaysIn(base + rest, Resolve(base), |base|)
  {
    hide Resolve;
    forall k: nat | |base| <= k <= |base| + |rest|
      ensures Resolve(base) <= Resolve((base + rest)[..k])
    {
      WalkStaysIn(base, rest, k);
    }
  }

  /** A name is the place itself or lies below it. */
  lemma NameStaysIn(name: string, place: string, sep: char, at: seq<string>)
    requires NoDots(name) && (name == place || place + [sep] <= name)
    requires Resolve(Components(place, sep)) == at
    ensures StaysIn(Components(name, sep), at, |Components(place, sep)|)
  {
    hide Components, Resolve, StaysIn, NoDots;
    var base := Components(place, sep);
    if name == place {
      StaysInBase(base, []);
      assert base + [] == base;
    } else {
      var rest := name[|place| + 1..];
      assert name == place + [sep] + rest;
      NoDotsInRest(name, |place| + 1);
      NoDotsNoParent(rest, sep);
      assert ".." !in Components(rest, sep);
      ComponentsOfJoin(place, rest, sep);
      StaysInBase(base, Components(rest, sep));
    }
  }

  lemma NoDotsInRest(s: string, k: nat)
    requires NoDots(s) && k <= |s|
    ensures NoDots(s[k..])
  {
  }

  /** Every accepted path, however long, names something inside `/vita` on the firmware's volume: the walk
      along its name is inside from the second component on. */
  lemma UefiNameStaysInVita(path: string)
    requires PathAllowed(path)
    ensures StaysIn(Components(FwName(path), '\\'), ["vita"], 2)
  {
    hide Components, Resolve, StaysIn;
    VitaResolves('\\');
    assert Fw(VITA) == ['\\'] + "vita";
    NameStaysIn(FwName(path), ['\\'] + "vita", '\\', ["vita"]);
  }

  /** The same on the host, inside `build/storage/vita`. */
  lemma HostPathStaysInVita(path: string)
    requires PathAllowed(path)
    ensures StaysIn(Components(HostPath(path), '/'), ["build", "storage", "vita"], 3)
  {
    hide Components, Resolve, StaysIn;
    HostVitaResolves();
    var place := HOST_ROOT + VITA;
    assert place <= HOST_ROOT + path;
    assert NoDots(HOST_ROOT + path);
    NameStaysIn(HostPath(path), place, '/', ["build", "storage", "vita"]);
  }

  lemma HostVitaResolves()
    ensures Components(HOST_ROOT + VITA, '/') == ["build", "storage", "vita"]
    ensures Resolve(["build", "storage", "vita"]) == ["build", "storage", "vita"]
  {
    hide Components, Resolve;
    LettersAlone("build", '/');
    LettersAlone("storage", '/');
    LettersAlone("vita", '/');
    ComponentsOfJoin("build", "storage", '/');
    ComponentsOfJoin("build/storage", "vita", '/');
    assert "build" + ['/'] + "storage" == "build/storage";
    assert "build/storage" + ['/'] + "vita" == HOST_ROOT + VITA;
    ResolvesToItself(["build", "storage", "vita"]);
  }

  lemma {:induction false} ResolvesToItself(parts: seq<string>)
    requires "" !in parts && "." !in parts && ".." !in parts
    ensures Resolve(parts) == parts
    decreases |parts|
  {
    if parts != [] {
      ResolvesToItself(parts[..|parts| - 1]);
    }
  }

  // ---- The tree

  datatype Node = Directory | File(text: string)

  type Tree = map<string, Node>

  /** The root of the volume has the empty name. */
  predicate IsDir(t: Tree, n: string) { n == "" || (n in t && t[n].Directory?) }

  function LastSep(n: string, sep: char): (k: int)
    ensures -1 <= k < |n| && (k >= 0 ==> n[k] == sep)
    ensures forall j :: k < j < |n| ==> n[j] != sep
  {
    if n == "" then -1 else if n[|n| - 1] == sep then |n| - 1 else LastSep(n[..|n| - 1], sep)
  }

  function Parent(n: string): (p: string)
    ensures |p| <= |n| && p <= n && (n != "" ==> p != n)
  {
    if LastSep(n, '\\') < 0 then "" else n[..LastSep(n, '\\')]
  }

  /** Every entry stands in a directory. */
  predicate Closed(t: Tree) { forall n :: n in t ==> n != "" && IsDir(t, Parent(n)) }

  predicate AncestorsAreDirs(t: Tree, n: string) {
    forall j :: 1 <= j < |n| && n[j] == '\\' ==> IsDir(t, n[..j])
  }

  lemma {:induction false} ClosedAncestors(t: Tree, n: string)
    requires Closed(t) && n in t
    ensures AncestorsAreDirs(t, n)
    decreases |n|
  {
    var p := Parent(n);
    if p != "" {
      ClosedAncestors(t, p);
      forall j | 1 <= j < |n| && n[j] == '\\'
        ensures IsDir(t, n[..j])
      {
        if j < |p| {
          assert n[..j] == p[..j] && p[j] == '\\';
        } else {
          assert n[..j] == p;
        }
      }
    }
  }

  // ---- What the firmware calls do

  /** Whether the open that asks for a directory succeeds, and whether the open that creates it does. */
  datatype Io = Io(seen: bool, grants: bool)

  datatype Made = Made(tree: Tree, ok: bool)

  function CreateDir(t: Tree, n: string, grants: bool): Made {
    if !grants || !(n in t || IsDir(t, Parent(n))) then Made(t, false)
    else if n in t then Made(t, true)
    else Made(t[n := Directory], true)
  }

  function EnsureDir(t: Tree, n: string, io: Io): Made {
    if io.seen && n in t then Made(t, true) else CreateDir(t, n, io.grants)
  }

  function EnsureAll(t: Tree, names: seq<string>, ios: nat -> Io): Made {
    if names == [] then Made(t, true)
    else
      var n := |names| - 1;
      var m := EnsureAll(t, names[..n], ios);
      if m.ok then EnsureDir(m.tree, names[n], ios(n)) else m
  }

  /** The names of the directories a path runs through before position `i`. */
  function Cuts(path: string, i: nat): seq<string>
    requires i <= |path|
  {
    if i <= 1 then []
    else if path[i - 1] == '/' then Cuts(path, i - 1) + [Fw(path[..i - 1])]
    else Cuts(path, i - 1)
  }

  function ParentDirs(path: string): seq<string>
    requires LastSep(path, '/') >= 0
  {
    Cuts(path, |path|) + [Fw(path[..LastSep(path, '/')])]
  }

  predicate Grows(before: Tree, after: Tree) { forall n :: n in before ==> n in after && after[n] == before[n] }

  predicate NewOnesAreDirs(before: Tree, after: Tree, names: seq<string>) {
    forall n :: n in after && n !in before ==> after[n] == Directory && n in names
  }

  predicate AllIn(t: Tree, names: seq<string>) { forall k :: 0 <= k < |names| ==> names[k] in t }

  lemma EnsureDirKeeps(t: Tree, n: string, io: Io)
    requires Closed(t) && n != ""
    ensures var m := EnsureDir(t, n, io);
            Closed(m.tree) && Grows(t, m.tree) && (m.ok ==> n in m.tree) && NewOnesAreDirs(t, m.tree, [n])
  {
  }

  /** Whatever the firmware answers, making directories keeps the tree closed, changes nothing that was there,
      adds only directories that were asked for, and success means that all of them exist.  As this holds of
      every prefix of the names, a directory is only ever made after the one it stands in. */
  lemma {:induction false} EnsureAllKeeps(t: Tree, names: seq<string>, ios: nat -> Io)
    requires Closed(t) && "" !in names
    ensures var m := EnsureAll(t, names, ios);
            Closed(m.tree) && Grows(t, m.tree) && (m.ok ==> AllIn(m.tree, names)) && NewOnesAreDirs(t, m.tree, names)
    decreases |names|
  {
    hide Closed, EnsureDir;
    if names != [] {
      var n := |names| - 1;
      EnsureAllKeeps(t, names[..n], ios);
      assert names[n] in names;
      EnsureDirKeeps(EnsureAll(t, names[..n], ios).tree, names[n], ios(n));
    }
  }

  lemma {:induction false} CutsAt(path: string, i: nat, n: string)
    requires i <= |path|
    ensures n in Cuts(path, i) <==> exists j :: 1 <= j < i && path[j] == '/' && n == Fw(path[..j])
    decreases i
  {
    if i > 1 {
      CutsAt(path, i - 1, n);
    }
  }

  lemma ParentDirsAt(path: string, n: string)
    requires VITA + "/" <= path
    ensures LastSep(path, '/') >= 1
    ensures n in ParentDirs(path) <==> exists j :: 1 <= j < |path| && path[j] == '/' && n == Fw(path[..j])
  {
    hide Cuts;
    assert path[5] == '/';
    CutsAt(path, |path|, n);
  }

  // ---- Writing a text

  datatype WriteIo = WriteIo(opens: bool, dirs: nat -> Io, deletes: bool, creates: bool, writes: bool, left: string)

  predicate Childless(t: Tree, n: string) { forall m :: m in t ==> Parent(m) != n }

  function Deleted(t: Tree, n: string, deletes: bool): Tree {
    if deletes && n in t && Childless(t, n) then t - {n} else t
  }

  /** What of an old, longer text stays behind the new one when the old file could not be deleted. */
  function Tail(node: Node, text: string): string {
    if node.File? && |node.text| > |text| then node.text[|text|..] else ""
  }

  /** Written over an old text the new one takes its beginning, character for character, and the rest stays. */
  lemma OverwrittenInPlace(old_: string, text: string, i: nat)
    requires i < |text + Tail(File(old_), text)|
    ensures |text + Tail(File(old_), text)| == if |old_| > |text| then |old_| else |text|
    ensures (text + Tail(File(old_), text))[i] == if i < |text| then text[i] else old_[i]
  {
  }

  function PutText(t: Tree, n: string, text: string, io: WriteIo): Made {
    if !io.creates || !(n in t || IsDir(t, Parent(n))) then Made(t, false)
    else
      var node := if n in t then t[n] else File("");
      if node.Directory? then Made(t, false)
      else if io.writes then Made(t[n := File(text + Tail(node, text))], true)
      else Made(t[n := File(io.left)], false)
  }

  function Write(t: Tree, path: string, text: string, io: WriteIo): Made {
    if !PathAllowed(path) || !io.opens || !(VITA + "/" <= path) then Made(t, false)
    else
      var p := Clip(path, PATH_MAX - 1);
      assert p[5] == '/';
      var m := EnsureAll(t, ParentDirs(p), io.dirs);
      if !m.ok then m else PutText(Deleted(m.tree, Fw(p), io.deletes), Fw(p), text, io)
  }

  lemma DeletedKeeps(t: Tree, n: string, deletes: bool)
    requires Closed(t)
    ensures Closed(Deleted(t, n, deletes))
  {
  }

  lemma PutFileKeeps(t: Tree, n: string, text: string)
    requires Closed(t) && IsDir(t, Parent(n)) && !IsDir(t, n)
    ensures Closed(t[n := File(text)])
  {
    hide Parent;
    assert Parent(n) != n;
    forall m | m in t
      ensures IsDir(t[n := File(text)], Parent(m))
    {
      assert IsDir(t, Parent(m));
    }
  }

  lemma PutTextKeeps(t: Tree, n: string, text: string, io: WriteIo)
    requires Closed(t) && n != ""
    ensures var m := PutText(t, n, text, io);
            Closed(m.tree)
            && (m.tree == t || exists x :: m.tree == t[n := File(x)])
            && (m.ok <==> io.creates && io.writes && IsDir(t, Parent(n)) && !IsDir(t, n))
            && (m.ok ==> m.tree == t[n := File(text + if n in t then Tail(t[n], text) else "")])
  {
    hide Closed, Parent, Tail;
    EntryStands(t, n);
    if io.creates && IsDir(t, Parent(n)) && !IsDir(t, n) {
      var tail := if n in t then Tail(t[n], text) else "";
      PutFileKeeps(t, n, text + tail);
      PutFileKeeps(t, n, io.left);
      TailOfNothing(text);
    }
  }

  lemma EntryStands(t: Tree, n: string)
    requires Closed(t)
    ensures n in t ==> IsDir(t, Parent(n))
  {
  }

  lemma TailOfNothing(text: string)
    ensures Tail(File(""), text) == ""
  {
  }

  lemma FilesAreChildless(t: Tree, n: string)
    requires Closed(t) && n in t && t[n].File?
    ensures Childless(t, n)
  {
    assert n != "";
  }

  /** Unless the old file outlives its deletion, the file holds exactly the text. */
  function Survivor(t: Tree, n: string, text: string, deletes: bool): string {
    if n in t && !deletes then Tail(t[n], text) else ""
  }

  /** What the making of the parents leaves alone: the target itself and what stands in it. */
  lemma ParentsMissTarget(t: Tree, path: string, ios: nat -> Io)
    requires Closed(t) && VITA + "/" <= path && LastSep(path, '/') >= 1
    ensures var m := EnsureAll(t, ParentDirs(path), ios);
            Closed(m.tree) && Grows(t, m.tree) && NewOnesAreDirs(t, m.tree, ParentDirs(path))
            && (Fw(path) in m.tree <==> Fw(path) in t)
            && (Childless(m.tree, Fw(path)) <==> Childless(t, Fw(path)))
            && (m.ok ==> AllIn(m.tree, ParentDirs(path)))
  {
    hide EnsureAll, ParentDirs, Closed;
    forall n | n in ParentDirs(path)
      ensures 0 < |n| < |Fw(path)|
    {
      ParentDirsAt(path, n);
    }
    assert "" !in ParentDirs(path);
    EnsureAllKeeps(t, ParentDirs(path), ios);
  }

  predicate AncestorOf(a: string, path: string) {
    exists j :: 1 <= j < |path| && path[j] == '/' && a == Fw(path)[..j]
  }

  predicate OthersKept(before: Tree, after: Tree, n: string) {
    forall x :: x in before && x != n ==> x in after && after[x] == before[x]
  }

  predicate OnlyAncestorsNew(before: Tree, after: Tree, path: string) {
    forall x :: x in after && x !in before && x != Fw(path) ==> after[x] == Directory && AncestorOf(x, path)
  }

  /** What a write does to the tree, said of the trees before and after. */
  predicate WriteEffect(t: Tree, m: Made, path: string, text: string, io: WriteIo) {
    var n := Fw(path);
    && Closed(m.tree) && OthersKept(t, m.tree, n) && OnlyAncestorsNew(t, m.tree, path)
    && (m.ok ==> n in m.tree && m.tree[n] == File(text + Survivor(t, n, text, io.deletes)))
  }

  lemma FwPrefix(path: string, j: nat)
    requires j <= |path|
    ensures Fw(path[..j]) == Fw(path)[..j]
  {
  }

  lemma DirsAreAncestors(path: string, x: string)
    requires VITA + "/" <= path && LastSep(path, '/') >= 0 && x in ParentDirs(path)
    ensures AncestorOf(x, path)
  {
    hide ParentDirs;
    ParentDirsAt(path, x);
    var j :| 1 <= j < |path| && path[j] == '/' && x == Fw(path[..j]);
    FwPrefix(path, j);
  }

  lemma ParentsEffect(t: Tree, path: string, text: string, io: WriteIo)
    requires Closed(t) && VITA + "/" <= path && LastSep(path, '/') >= 1
    ensures var m := EnsureAll(t, ParentDirs(path), io.dirs);
            WriteEffect(t, Made(m.tree, false), path, text, io)
  {
    hide EnsureAll, ParentDirs, Closed, AncestorOf;
    ParentsMissTarget(t, path, io.dirs);
    forall x | x in ParentDirs(path)
      ensures AncestorOf(x, path)
    {
      DirsAreAncestors(path, x);
    }
  }

  lemma TargetEffect(t: Tree, p: Tree, path: string, text: string, io: WriteIo)
    requires WriteEffect(t, Made(p, false), path, text, io) && path != ""
    requires var n := Fw(path);
             (n in p <==> n in t) && (n in t ==> p[n] == t[n]) && (n in p && p[n].File? ==> Childless(p, n))
    ensures var n := Fw(path); WriteEffect(t, PutText(Deleted(p, n, io.deletes), n, text, io), path, text, io)
  {
    var n := Fw(path);
    hide Closed, Tail, AncestorOf, PutText, Childless;
    var d := Deleted(p, n, io.deletes);
    DeletedKeeps(p, n, io.deletes);
    PutTextKeeps(d, n, text, io);
  }

  /** Over every write, whatever the firmware answers: the tree stays closed under parent, nothing changes but
      the target, nothing is added but its ancestors, and after a success they are all directories and the
      target holds the text. */
  lemma WriteMakesAncestors(t: Tree, path: string, text: string, io: WriteIo)
    requires Closed(t)
    ensures var m := Write(t, path, text, io);
            WriteEffect(t, m, Clip(path, PATH_MAX - 1), text, io) && (m.ok ==> AncestorsAreDirs(m.tree, FwName(path)))
  {
    hide EnsureAll, ParentDirs, Closed, PutText, Deleted, AncestorOf, PathAllowed, LastSep, Childless, AncestorsAreDirs;
    var m := Write(t, path, text, io);
    var p := Clip(path, PATH_MAX - 1);
    if PathAllowed(path) && io.opens && VITA + "/" <= path {
      ParentDirsAt(p, "");
      ParentsMissTarget(t, p, io.dirs);
      ParentsEffect(t, p, text, io);
      var q := EnsureAll(t, ParentDirs(p), io.dirs);
      if q.ok {
        if Fw(p) in q.tree && q.tree[Fw(p)].File? { FilesAreChildless(q.tree, Fw(p)); }
        TargetEffect(t, q.tree, p, text, io);
      }
    }
    if m.ok { ClosedAncestors(m.tree, FwName(path)); }
  }

  // ---- When a write succeeds

  ghost predicate Obliges(io: WriteIo) {
    io.opens && io.deletes && io.creates && io.writes && forall k :: io.dirs(k).grants
  }

  /** No file stands where the write needs a directory.  Only `/` is followed by the code: a directory named
      behind a backslash, which the firmware also takes for a separator, must already be there. */
  predicate WayIsClear(t: Tree, path: string) {
    var n := Fw(path);
    forall j :: 1 <= j < |n| && n[j] == '\\' ==>
      if path[j] == '/' then !(n[..j] in t && t[n[..j]].File?) else IsDir(t, n[..j])
  }

  predicate TargetIsFree(t: Tree, n: string) { IsDir(t, n) ==> Childless(t, n) }

  lemma ParentIsCut(path: string, i: nat)
    requires i <= |path|
    ensures var n := Fw(path); var L := LastSep(n[..i], '\\');
            Parent(n[..i]) == if L < 1 then "" else n[..L]
    ensures var n := Fw(path); forall j :: 1 <= j < i && n[j] == '\\' ==> j <= LastSep(n[..i], '\\')
  {
    var n := Fw(path);
    var L := LastSep(n[..i], '\\');
    if L >= 0 { assert n[..i][..L] == n[..L]; }
    forall j | 1 <= j < i && n[j] == '\\'
      ensures j <= L
    {
      assert n[..i][j] == '\\';
    }
  }

  predicate DirsUpTo(t: Tree, n: string, i: nat)
    requires i <= |n|
  {
    forall j :: 1 <= j < i && n[j] == '\\' ==> IsDir(t, n[..j])
  }

  lemma ParentIsThere(t: Tree, path: string, i: nat)
    requires i <= |path| && DirsUpTo(t, Fw(path), i)
    ensures IsDir(t, Parent(Fw(path)[..i]))
  {
    hide Parent, LastSep;
    ParentIsCut(path, i);
  }

  lemma GrantedDir(t: Tree, n: string, io: Io)
    requires io.grants && IsDir(t, Parent(n)) && !(n in t && t[n].File?)
    ensures var m := EnsureDir(t, n, io); m.ok && IsDir(m.tree, n) && Grows(t, m.tree)
  {
  }

  lemma GrowsKeepsDirs(before: Tree, after: Tree, n: string, i: nat)
    requires i <= |n| && DirsUpTo(before, n, i) && Grows(before, after)
    ensures DirsUpTo(after, n, i)
  {
  }

  lemma NoFileAppears(t: Tree, path: string, ios: nat -> Io, i: nat)
    requires i <= |path| && Closed(t)
    ensures var m := EnsureAll(t, Cuts(path, i), ios);
            Grows(t, m.tree) && forall n :: n in m.tree && n !in t ==> m.tree[n] == Directory
  {
    hide EnsureAll, Closed;
    CutsAt(path, i, "");
    EnsureAllKeeps(t, Cuts(path, i), ios);
  }

  lemma CutsStep(path: string, i: nat)
    requires 1 < i <= |path|
    ensures Cuts(path, i) == if path[i - 1] == '/' then Cuts(path, i - 1) + [Fw(path)[..i - 1]] else Cuts(path, i - 1)
  {
    FwPrefix(path, i - 1);
  }

  lemma EnsureAllSnoc(t: Tree, names: seq<string>, n: string, ios: nat -> Io)
    ensures var m := EnsureAll(t, names, ios);
            EnsureAll(t, names + [n], ios) == if m.ok then EnsureDir(m.tree, n, ios(|names|)) else m
  {
    assert (names + [n])[..|names|] == names;
  }

  lemma {:induction false} CutsSucceed(t: Tree, path: string, ios: nat -> Io, i: nat)
    requires i <= |path| && Closed(t) && WayIsClear(t, path) && forall k :: ios(k).grants
    ensures var m := EnsureAll(t, Cuts(path, i), ios); m.ok && DirsUpTo(m.tree, Fw(path), i)
    decreases i
  {
    hide EnsureAll, EnsureDir, Cuts, Closed;
    if i <= 1 {
      NoCuts(t, path, ios, i);
    } else {
      var n := Fw(path);
      CutsSucceed(t, path, ios, i - 1);
      NoFileAppears(t, path, ios, i - 1);
      CutsStep(path, i);
      if path[i - 1] == '/' {
        var m := EnsureAll(t, Cuts(path, i - 1), ios);
        ParentIsThere(m.tree, path, i - 1);
        EnsureAllSnoc(t, Cuts(path, i - 1), n[..i - 1], ios);
        GrantedDir(m.tree, n[..i - 1], ios(|Cuts(path, i - 1)|));
        GrowsKeepsDirs(m.tree, EnsureAll(t, Cuts(path, i), ios).tree, n, i - 1);
      }
    }
  }

  lemma NoCuts(t: Tree, path: string, ios: nat -> Io, i: nat)
    requires i <= 1 && i <= |path|
    ensures EnsureAll(t, Cuts(path, i), ios) == Made(t, true) && DirsUpTo(t, Fw(path), i)
  {
  }

  lemma ParentsSucceed(t: Tree, path: string, ios: nat -> Io)
    requires VITA + "/" <= path && LastSep(path, '/') >= 1
    requires Closed(t) && WayIsClear(t, path) && forall k :: ios(k).grants
    ensures var m := EnsureAll(t, ParentDirs(path), ios); m.ok && IsDir(m.tree, Parent(Fw(path)))
  {
    hide EnsureAll, EnsureDir, Cuts, Closed, WayIsClear;
    CutsSucceed(t, path, ios, |path|);
    var m := EnsureAll(t, Cuts(path, |path|), ios);
    var n, j := Fw(path), LastSep(path, '/');
    FwPrefix(path, j);
    assert IsDir(m.tree, n[..j]);
    EnsureAllSnoc(t, Cuts(path, |path|), n[..j], ios);
    AlreadyThere(m.tree, n[..j], ios(|Cuts(path, |path|)|));
    ParentIsThere(m.tree, path, |path|);
    assert n[..|path|] == n;
  }

  lemma AlreadyThere(t: Tree, n: string, io: Io)
    requires n in t && io.grants
    ensures EnsureDir(t, n, io) == Made(t, true)
  {
  }

  lemma ClearWayIsNeeded(t: Tree, after: Tree, path: string)
    requires OthersKept(t, after, Fw(path)) && OnlyAncestorsNew(t, after, path) && AncestorsAreDirs(after, Fw(path))
    ensures WayIsClear(t, path)
  {
    var n := Fw(path);
    forall j | 1 <= j < |n| && n[j] == '\\'
      ensures if path[j] == '/' then !(n[..j] in t && t[n[..j]].File?) else IsDir(t, n[..j])
    {
      assert IsDir(after, n[..j]) && |n[..j]| == j;
      if n[..j] !in t {
        var k :| 1 <= k < |path| && path[k] == '/' && n[..j] == n[..k];
        assert |n[..k]| == k;
      }
    }
  }

  lemma TargetSucceeds(t: Tree, n: string, text: string, io: WriteIo)
    requires Closed(t) && n != "" && io.creates && io.writes && io.deletes
    ensures PutText(Deleted(t, n, io.deletes), n, text, io).ok <==> IsDir(t, Parent(n)) && TargetIsFree(t, n)
  {
    hide Closed, Parent, PutText, Tail;
    var d := Deleted(t, n, io.deletes);
    DeletedKeeps(t, n, io.deletes);
    PutTextKeeps(d, n, text, io);
    ProperParent(n);
  }

  lemma ProperParent(n: string)
    ensures n != "" ==> Parent(n) != n
  {
  }

  lemma TargetStaysFree(t: Tree, p: Tree, n: string)
    requires n != "" && Grows(t, p) && (n in p <==> n in t) && (Childless(p, n) <==> Childless(t, n))
    ensures TargetIsFree(p, n) <==> TargetIsFree(t, n)
  {
  }

  /** Under a firmware that grants every call, a write succeeds exactly when the path is accepted and lies
      below `/vita`, no file stands where a directory is needed, and the target is not a directory with
      something in it: it never fails because a parent is missing. */
  lemma WriteSucceedsExactly(t: Tree, path: string, text: string, io: WriteIo)
    requires Closed(t) && Obliges(io)
    ensures var p := Clip(path, PATH_MAX - 1);
            Write(t, path, text, io).ok
            <==> PathAllowed(path) && VITA + "/" <= path && WayIsClear(t, p) && TargetIsFree(t, Fw(p))
  {
    hide EnsureAll, ParentDirs, Closed, PutText, Deleted, AncestorOf, PathAllowed, LastSep, Childless, AncestorsAreDirs,
      WayIsClear, TargetIsFree, Parent;
    var p := Clip(path, PATH_MAX - 1);
    var m := Write(t, path, text, io);
    WriteMakesAncestors(t, path, text, io);
    if m.ok { ClearWayIsNeeded(t, m.tree, p); }
    if PathAllowed(path) && VITA + "/" <= path && WayIsClear(t, p) {
      ParentDirsAt(p, "");
      ParentsSucceed(t, p, io.dirs);
      ParentsMissTarget(t, p, io.dirs);
      var q := EnsureAll(t, ParentDirs(p), io.dirs).tree;
      TargetSucceeds(q, Fw(p), text, io);
      TargetStaysFree(t, q, Fw(p));
    }
  }

  // ---- The store the other modules rely on

  function Texts(t: Tree): Files { map n | n in t && t[n].File? :: t[n].text }

  /** What the clients of storage see of a write. */
  function Seen(t: Tree, path: string, text: string, io: WriteIo): WriteResult {
    var n := FwName(path);
    var after := Write(t, path, text, io);
    if after.ok then
      if Survivor(t, n, text, io.deletes) == "" then Written
      else Garbled(text + Survivor(t, n, text, io.deletes))
    else if n !in Texts(after.tree) then Lost
    else if n in Texts(t) && Texts(after.tree)[n] == Texts(t)[n] then Untouched
    else Garbled(Texts(after.tree)[n])
  }

  /** Seen as a store of texts, a write changes the target's text and no other, and it reports success exactly
      when the text was stored, unless an older and longer file outlived its deletion. */
  lemma WriteRefinesStore(t: Tree, path: string, text: string, io: WriteIo)
    requires Closed(t)
    ensures var m := Write(t, path, text, io);
            var w := Seen(t, path, text, io);
            Texts(m.tree) == AfterWrite(Texts(t), FwName(path), text, w)
            && (w.Written? <==> m.ok && Survivor(t, FwName(path), text, io.deletes) == "")
  {
    hide Write, Closed, PathAllowed, Survivor, AncestorOf;
    var m := Write(t, path, text, io);
    var n := FwName(path);
    WriteMakesAncestors(t, path, text, io);
    TextsOfEffect(t, m.tree, Clip(path, PATH_MAX - 1));
    assert Survivor(t, n, text, io.deletes) == "" ==> text + Survivor(t, n, text, io.deletes) == text;
  }

  /** A rewrite loses a stored text exactly when the firmware lets the old file be deleted and then refuses to
      create the new one. */
  lemma WriteLosesExactly(t: Tree, path: string, text: string, io: WriteIo)
    requires Closed(t) && FwName(path) in Texts(t) && PathAllowed(path) && VITA + "/" <= path
    ensures var p := Clip(path, PATH_MAX - 1);
            LastSep(p, '/') >= 0
            && (Seen(t, path, text, io).Lost?
                <==> io.opens && EnsureAll(t, ParentDirs(p), io.dirs).ok && io.deletes && !io.creates)
  {
    hide EnsureAll, ParentDirs, Closed, AncestorOf, PathAllowed, LastSep, Childless, PutText, Deleted, Survivor;
    var p := Clip(path, PATH_MAX - 1);
    var n := Fw(p);
    ParentDirsAt(p, "");
    ParentsMissTarget(t, p, io.dirs);
    var q := EnsureAll(t, ParentDirs(p), io.dirs);
    WriteMakesAncestors(t, path, text, io);
    if io.opens && q.ok {
      assert n in q.tree && q.tree[n].File?;
      FilesAreChildless(q.tree, n);
      RewriteOutcome(q.tree, n, text, io);
    }
  }

  /** What becomes of an existing file when its parents are in place. */
  lemma RewriteOutcome(t: Tree, n: string, text: string, io: WriteIo)
    requires Closed(t) && n in t && t[n].File? && Childless(t, n)
    ensures var m := PutText(Deleted(t, n, io.deletes), n, text, io);
            (m.ok ==> n in m.tree && m.tree[n].File?)
            && (io.deletes && !io.creates <==> !(n in m.tree && m.tree[n].File?))
  {
    hide Childless, Tail, Parent;
    EntryStands(t, n);
    ProperParent(n);
  }

  lemma {:induction false} SeenDirsStay(t: Tree, names: seq<string>, ios: nat -> Io)
    requires AllIn(t, names) && forall k :: ios(k).seen
    ensures EnsureAll(t, names, ios) == Made(t, true)
    decreases |names|
  {
    if names != [] {
      SeenDirsStay(t, names[..|names| - 1], ios);
    }
  }

  /** Where a file stands, its parents are found. */
  lemma ParentsOfFileStand(t: Tree, path: string)
    requires Closed(t) && Fw(path) in t && VITA + "/" <= path
    ensures LastSep(path, '/') >= 0 && AllIn(t, ParentDirs(path))
  {
    hide ParentDirs, Closed;
    ParentDirsAt(path, "");
    ClosedAncestors(t, Fw(path));
    var names := ParentDirs(path);
    forall k | 0 <= k < |names|
      ensures names[k] in t
    {
      ParentDirsAt(path, names[k]);
      var j :| 1 <= j < |path| && path[j] == '/' && names[k] == Fw(path[..j]);
      FwPrefix(path, j);
      assert Fw(path)[j] == '\\' && |names[k]| == j;
    }
  }

  /** A firmware that finds every directory, deletes the old file and refuses the new one loses the text. */
  lemma RefusedCreationLoses(t: Tree, path: string, text: string, io: WriteIo)
    requires Closed(t) && FwName(path) in Texts(t) && PathAllowed(path) && VITA + "/" <= path
    requires io.opens && io.deletes && !io.creates && forall k :: io.dirs(k).seen
    ensures Seen(t, path, text, io) == Lost
  {
    hide Seen, PathAllowed, ParentDirs, EnsureAll, LastSep, Closed;
    var p := Clip(path, PATH_MAX - 1);
    ParentsOfFileStand(t, p);
    SeenDirsStay(t, ParentDirs(p), io.dirs);
    WriteLosesExactly(t, path, text, io);
  }

  lemma TextsOfEffect(before: Tree, after: Tree, path: string)
    requires OthersKept(before, after, Fw(path)) && OnlyAncestorsNew(before, after, path)
    ensures Texts(after) - {Fw(path)} == Texts(before) - {Fw(path)}
    ensures Fw(path) in Texts(after) ==> Texts(after) == Texts(before)[Fw(path) := Texts(after)[Fw(path)]]
    ensures Fw(path) !in Texts(after) ==> Texts(after) == Texts(before) - {Fw(path)}
  {
    hide AncestorOf;
  }

  // ---- The expected directories

  const EXPECTED := [
    "/vita", "/vita/config", "/vita/audit", "/vita/notes",
    "/vita/messages", "/vita/messages/inbox", "/vita/messages/outbox", "/vita/messages/drafts",
    "/vita/emergency", "/vita/emergency/reports", "/vita/emergency/checklists",
    "/vita/ai", "/vita/ai/prompts", "/vita/ai/responses", "/vita/ai/sessions",
    "/vita/net", "/vita/net/profiles",
    "/vita/export", "/vita/export/audit", "/vita/export/notes", "/vita/export/reports",
    "/vita/tmp"
  ]

  /** For each expected directory the position of the one it stands in. */
  const STANDS_IN: seq<nat> := [0, 0, 0, 0, 0, 4, 4, 4, 0, 8, 8, 0, 11, 11, 11, 0, 15, 0, 17, 17, 17, 0]

  const LEAVES := [
    "vita", "config", "audit", "notes", "messages", "inbox", "outbox", "drafts", "emergency", "reports", "checklists",
    "ai", "prompts", "responses", "sessions", "net", "profiles", "export", "audit", "notes", "reports", "tmp"
  ]

  predicate IsLeaf(s: string) { forall c :: c in s ==> 'a' <= c <= 'z' }

  lemma LeavesAreLetters(k: nat)
    requires k < |LEAVES|
    ensures IsLeaf(LEAVES[k])
  {
  }

  predicate JoinsAt(k: nat)
    requires 0 < k < |EXPECTED|
  {
    STANDS_IN[k] < k && EXPECTED[k] == EXPECTED[STANDS_IN[k]] + "/" + LEAVES[k]
  }

  lemma JoinsToFour(k: nat)
    requires 0 < k <= 4
    ensures JoinsAt(k)
  {
  }

  lemma JoinsToNine(k: nat)
    requires 5 <= k <= 9
    ensures JoinsAt(k)
  {
  }

  lemma JoinsToThirteen(k: nat)
    requires 10 <= k <= 13
    ensures JoinsAt(k)
  {
  }

  lemma JoinsToSeventeen(k: nat)
    requires 14 <= k <= 17
    ensures JoinsAt(k)
  {
  }

  lemma JoinsToTheEnd(k: nat)
    requires 18 <= k < |EXPECTED|
    ensures JoinsAt(k)
  {
  }

  /** The list names every directory after the one it stands in. */
  lemma ExpectedIsJoin(k: nat)
    requires 0 < k < |EXPECTED|
    ensures JoinsAt(k)
  {
    hide JoinsAt;
    if k <= 4 { JoinsToFour(k); }
    else if k <= 9 { JoinsToNine(k); }
    else if k <= 13 { JoinsToThirteen(k); }
    else if k <= 17 { JoinsToSeventeen(k); }
    else { JoinsToTheEnd(k); }
  }

  function FwAll(paths: seq<string>): (r: seq<string>)
    ensures |r| == |paths|
  {
    seq(|paths|, i requires 0 <= i < |paths| => Fw(paths[i]))
  }

  const NAMES := FwAll(EXPECTED)

  predicate HasFile(t: Tree, n: string) { n in t && t[n].File? }

  lemma ParentOfJoin(a: string, leaf: string)
    requires IsLeaf(leaf)
    ensures Parent(Fw(a + "/" + leaf)) == Fw(a)
  {
    var n := Fw(a + "/" + leaf);
    assert n[|a|] == '\\';
    forall j | |a| < j < |n|
      ensures n[j] != '\\'
    {
      assert (a + "/" + leaf)[j] == leaf[j - |a| - 1] && leaf[j - |a| - 1] in leaf;
    }
    assert LastSep(n, '\\') == |a| && n[..|a|] == Fw(a);
  }

  lemma ExpectedParent(k: nat)
    requires k < |EXPECTED|
    ensures Parent(NAMES[k]) == if k == 0 then "" else NAMES[STANDS_IN[k]]
    ensures k > 0 ==> STANDS_IN[k] < k
  {
    hide Parent, IsLeaf, STANDS_IN, LEAVES, EXPECTED;
    Sizes();
    LeavesAreLetters(k);
    if k == 0 {
      TheRoot();
      ParentOfJoin("", LEAVES[0]);
    } else {
      ExpectedIsJoin(k);
      ParentOfJoin(EXPECTED[STANDS_IN[k]], LEAVES[k]);
    }
  }

  lemma Sizes()
    ensures |EXPECTED| == |STANDS_IN| == |LEAVES|
  {
  }

  lemma TheRoot()
    ensures EXPECTED[0] == "" + "/" + LEAVES[0] && Fw("") == ""
  {
  }

  lemma NamesAreNames()
    ensures "" !in NAMES
  {
  }

  function Repair(t: Tree, ios: nat -> Io): Made { EnsureAll(t, NAMES, ios) }

  /** A file where a directory should stand that holds other expected directories. */
  predicate InnerFile(t: Tree) {
    exists k :: 0 < k < |EXPECTED| && STANDS_IN[k] < |NAMES| && HasFile(t, NAMES[STANDS_IN[k]])
  }

  lemma {:induction false} RepairStep(t: Tree, ios: nat -> Io, k: nat)
    requires Closed(t) && !InnerFile(t) && k <= |NAMES| && forall i :: ios(i).grants
    ensures var m := EnsureAll(t, NAMES[..k], ios);
            m.ok && Closed(m.tree) && AllIn(m.tree, NAMES[..k]) && forall x :: HasFile(m.tree, x) ==> HasFile(t, x)
    decreases k
  {
    hide EnsureAll, EnsureDir, Closed, NAMES, Parent, EXPECTED, STANDS_IN, InnerFile;
    NamesAreNames();
    EnsureAllKeeps(t, NAMES[..k], ios);
    if k == 0 {
      NoNames(t, NAMES[..k], ios);
    } else {
      RepairStep(t, ios, k - 1);
      var m := EnsureAll(t, NAMES[..k - 1], ios);
      assert NAMES[..k] == NAMES[..k - 1] + [NAMES[k - 1]];
      EnsureAllSnoc(t, NAMES[..k - 1], NAMES[k - 1], ios);
      ExpectedParentStands(t, m.tree, k - 1);
      GrantedName(m.tree, NAMES[k - 1], ios(k - 1));
    }
  }

  lemma NoNames(t: Tree, names: seq<string>, ios: nat -> Io)
    requires names == []
    ensures EnsureAll(t, names, ios) == Made(t, true)
  {
  }

  lemma GrantedName(t: Tree, n: string, io: Io)
    requires io.grants && IsDir(t, Parent(n))
    ensures EnsureDir(t, n, io).ok
  {
  }

  lemma ExpectedParentStands(t: Tree, after: Tree, k: nat)
    requires k < |NAMES| && !InnerFile(t) && AllIn(after, NAMES[..k])
    requires forall x :: HasFile(after, x) ==> HasFile(t, x)
    ensures IsDir(after, Parent(NAMES[k]))
  {
    hide NAMES, Parent, EXPECTED, STANDS_IN;
    Sizes();
    SameSize();
    ExpectedParent(k);
    if k > 0 {
      var s := STANDS_IN[k];
      assert NAMES[..k][s] == NAMES[s];
      assert !HasFile(t, NAMES[s]);
    }
  }

  lemma SameSize()
    ensures |NAMES| == |EXPECTED|
  {
  }

  lemma FileBlocksRepair(t: Tree, ios: nat -> Io, k: nat)
    requires Closed(t) && 0 < k < |NAMES| == |EXPECTED| == |STANDS_IN| && STANDS_IN[k] < |NAMES|
    requires HasFile(t, NAMES[STANDS_IN[k]])
    ensures !Repair(t, ios).ok
  {
    hide EnsureAll, NAMES, Parent, EXPECTED, STANDS_IN;
    NamesAreNames();
    EnsureAllKeeps(t, NAMES, ios);
    ExpectedParent(k);
    var m, n := Repair(t, ios), NAMES[k];
    assert m.ok ==> n in m.tree && IsDir(m.tree, Parent(n));
  }

  /** Repairing keeps the tree closed and every entry; after a success every expected directory exists.  Under
      a firmware that grants every call it succeeds exactly when none of the directories that hold others is
      a file; a file in the place of a leaf passes for the directory. */
  lemma RepairSucceedsExactly(t: Tree, ios: nat -> Io)
    requires Closed(t)
    ensures var m := Repair(t, ios); Closed(m.tree) && Grows(t, m.tree) && (m.ok ==> AllIn(m.tree, NAMES))
    ensures (forall i :: ios(i).grants) ==> (Repair(t, ios).ok <==> !InnerFile(t))
  {
    hide EnsureAll, NAMES, Closed, EXPECTED, STANDS_IN, Grows;
    NamesAreNames();
    Sizes();
    SameSize();
    EnsureAllKeeps(t, NAMES, ios);
    if InnerFile(t) {
      var k :| 0 < k < |EXPECTED| && STANDS_IN[k] < |NAMES| && HasFile(t, NAMES[STANDS_IN[k]]);
      FileBlocksRepair(t, ios, k);
    } else if forall i :: ios(i).grants {
      RepairStep(t, ios, |NAMES|);
      assert NAMES[..|NAMES|] == NAMES;
    }
  }

  // ---- The code

  /** The text of a C string: what stands before the first NUL. */
  function CString(a: seq<char>): string {
    if a == [] || a[0] == '\0' then "" else [a[0]] + CString(a[1..])
  }

  lemma {:induction false} CStringIs(a: seq<char>, k: nat)
    requires k < |a| && a[k] == '\0' && '\0' !in a[..k]
    ensures CString(a) == a[..k]
    decreases k
  {
    if k > 0 {
      assert a[0] in a[..k] && a[1..][..k - 1] == a[..k][1..];
      CStringIs(a[1..], k - 1);
    }
  }

  lemma AllowedHasNoNul(path: string, k: nat)
    requires PathAllowed(path) && k <= |path|
    ensures '\0' !in path[..k]
    ensures VITA + "/" <= path && 5 <= k && (k < |path| ==> path[k] == '/') ==> PathAllowed(path[..k])
  {
  }

  class Volume {
    var tree: Tree

    constructor (initial: Tree)
      ensures tree == initial
    {
      tree := initial;
    }

    /** Converts a path into the firmware's form, cut to the buffer. */
    method PathToChar16(path: string, output: array<char>) returns (ok: bool, len: nat)
      requires output.Length == PATH_MAX
      modifies output
      ensures ok <==> PathAllowed(path)
      ensures ok ==> len < output.Length && output[..len] == FwName(path)
    {
      ok, len := PathAllowed(path), 0;
      if !ok {
        return;
      }
      output[0] := '\\';
      len := 1;
      while len < |path| && len + 1 < output.Length
        invariant 1 <= len <= |path| && len < output.Length && output[..len] == Fw(path)[..len]
      {
        output[len] := if path[len] == '/' then '\\' else path[len];
        len := len + 1;
      }
      FwPrefix(path, len);
    }

    method EnsureDirectory(path: string, io: Io) returns (ok: bool)
      requires PathAllowed(path) && |path| < PATH_MAX
      modifies this
      ensures Made(tree, ok) == EnsureDir(old(tree), Fw(path), io)
    {
      hide PathAllowed, Parent;
      var path16 := new char[PATH_MAX];
      var _, len := PathToChar16(path, path16);
      var name := path16[..len];
      if io.seen && name in tree {
        return true;
      }
      if !io.grants || !(name in tree || IsDir(tree, Parent(name))) {
        return false;
      }
      if name !in tree {
        tree := tree[name := Directory];
      }
      return true;
    }

    /** Makes the directories a path runs through, by cutting a copy of it short at each `/` in turn and
        putting the `/` back. */
    method EnsureParentDirs(path: string, ios: nat -> Io) returns (ok: bool)
      requires PathAllowed(path)
      modifies this
      ensures VITA + "/" <= path ==> LastSep(Clip(path, PATH_MAX - 1), '/') >= 5
      ensures Made(tree, ok) == if VITA + "/" <= path
                                then EnsureAll(old(tree), ParentDirs(Clip(path, PATH_MAX - 1)), ios)
                                else Made(old(tree), false)
    {
      hide PathAllowed, EnsureAll, EnsureDir, Cuts, CString, Parent, LastSep;
      if !(VITA + "/" <= path) {
        return false;
      }
      var dir := new char[PATH_MAX];
      var n, lastSlash := CopyPath(path, dir);
      ghost var p := path[..n];
      var k;
      ok, k := EnsureCuts(path, dir, n, ios);
      EnsureAllSnoc(old(tree), Cuts(p, n), Fw(p[..lastSlash]), ios);
      if !ok {
        return;
      }
      CutIsAllowed(path, lastSlash);
      assert dir[..lastSlash] == p[..lastSlash] == path[..lastSlash];
      ok := EnsureCut(dir, lastSlash, ios(k));
    }

    /** The loop over the cuts; `k` counts the directories it asked for. */
    method EnsureCuts(path: string, dir: array<char>, n: nat, ios: nat -> Io) returns (ok: bool, k: nat)
      requires PathAllowed(path) && VITA + "/" <= path && 6 <= n <= |path|
      requires dir.Length == PATH_MAX && n < PATH_MAX && dir[..n] == path[..n] && dir[n] == '\0'
      modifies this, dir
      ensures dir[..] == old(dir[..])
      ensures Made(tree, ok) == EnsureAll(old(tree), Cuts(path[..n], n), ios)
      ensures ok ==> k == |Cuts(path[..n], n)|
    {
      hide PathAllowed, EnsureAll, EnsureDir, Cuts, Parent;
      ghost var p := path[..n];
      forall j | 0 <= j < n
        ensures path[j] != '\0'
      {
        AllowedHasNoNul(path, n);
        assert path[..n][j] == path[j];
      }
      var i := 1;
      k := 0;
      NoCuts(tree, p, ios, i);
      NoCutsYet(p);
      while dir[i] != '\0'
        invariant 1 <= i <= n && dir[..] == old(dir[..]) && k == |Cuts(p, i)|
        invariant EnsureAll(old(tree), Cuts(p, i), ios) == Made(tree, true)
        decreases n - i
      {
        CutsStep(p, i + 1);
        FwPrefix(p, i);
        assert dir[i] == path[i] && dir[..i] == p[..i] == path[..i];
        if dir[i] == '/' {
          CutIsAllowed(path, i);
          EnsureAllSnoc(old(tree), Cuts(p, i), Fw(p[..i]), ios);
          ok := EnsureCut(dir, i, ios(k));
          k := k + 1;
          if !ok {
            CutsGrow(p, i + 1, n);
            FailureStays(old(tree), Cuts(p, i + 1), Cuts(p, n), ios);
            return;
          }
        }
        i := i + 1;
      }
      return true, k;
    }

    method WriteText(path: string, text: string, io: WriteIo) returns (ok: bool)
      modifies this
      ensures Made(tree, ok) == Write(old(tree), path, text, io)
    {
      hide PathAllowed, EnsureAll, ParentDirs, Childless, Parent, LastSep, Tail;
      var path16 := new char[PATH_MAX];
      var allowed, len := PathToChar16(path, path16);
      if !allowed || !io.opens {
        return false;
      }
      ok := EnsureParentDirs(path, io.dirs);
      if !ok {
        return;
      }
      var name := path16[..len];
      DeleteIfExists(name, io.deletes);
      if !io.creates || !(name in tree || IsDir(tree, Parent(name))) {
        return false;
      }
      var node := if name in tree then tree[name] else File("");
      if node.Directory? {
        return false;
      }
      tree := tree[name := File(if io.writes then text + Tail(node, text) else io.left)];
      ok := io.writes;
    }

    method DeleteIfExists(name: string, deletes: bool)
      modifies this
      ensures tree == Deleted(old(tree), name, deletes)
    {
      if deletes && name in tree && Childless(tree, name) {
        tree := tree - {name};
      }
    }

    method RepairTree(ios: nat -> Io) returns (ok: bool)
      modifies this
      ensures Made(tree, ok) == Repair(old(tree), ios)
    {
      hide EnsureAll, EnsureDir, NAMES, EXPECTED, PathAllowed;
      SameSize();
      var i := 0;
      ok := true;
      NoNames(tree, NAMES[..0], ios);
      while i < |EXPECTED| && ok
        invariant i <= |EXPECTED| == |NAMES| && EnsureAll(old(tree), NAMES[..i], ios) == Made(tree, ok)
      {
        assert NAMES[..i + 1] == NAMES[..i] + [NAMES[i]];
        EnsureAllSnoc(old(tree), NAMES[..i], NAMES[i], ios);
        ExpectedIsAllowed(i);
        ok := EnsureDirectory(EXPECTED[i], ios(i));
        i := i + 1;
      }
      if !ok {
        FailureStays(old(tree), NAMES[..i], NAMES, ios);
      }
      assert NAMES[..|NAMES|] == NAMES;
    }

    method TreeCheck(seen: nat -> bool) returns (ok: bool)
      ensures ok <==> AllIn(tree, NAMES) && forall k :: 0 <= k < |NAMES| ==> seen(k)
    {
      hide NAMES, EXPECTED, PathAllowed;
      SameSize();
      var i := 0;
      while i < |EXPECTED|
        invariant i <= |EXPECTED| == |NAMES|
        invariant forall k :: 0 <= k < i ==> NAMES[k] in tree && seen(k)
      {
        ExpectedIsAllowed(i);
        if !(seen(i) && Fw(EXPECTED[i]) in tree) {
          return false;
        }
        i := i + 1;
      }
      return true;
    }

    /** Makes the directory named by the first `i` characters of `dir`: a NUL goes in at `i`, and the
        character that was there comes back. */
    method EnsureCut(dir: array<char>, i: nat, io: Io) returns (ok: bool)
      requires dir.Length == PATH_MAX && i < dir.Length && '\0' !in dir[..i] && PathAllowed(dir[..i])
      modifies this, dir
      ensures dir[..] == old(dir[..])
      ensures Made(tree, ok) == EnsureDir(old(tree), Fw(old(dir[..i])), io)
    {
      hide PathAllowed, EnsureDir, CString;
      ghost var name := dir[..i];
      var keep := dir[i];
      dir[i] := '\0';
      assert dir[..][..i] == name;
      CStringIs(dir[..], i);
      ok := EnsureDirectory(CString(dir[..]), io);
      dir[i] := keep;
    }

    method CopyPath(path: string, dir: array<char>) returns (n: nat, lastSlash: nat)
      requires dir.Length == PATH_MAX && VITA + "/" <= path
      modifies dir
      ensures n < PATH_MAX && n <= |path| && path[..n] == Clip(path, PATH_MAX - 1) && n >= 6
      ensures dir[..n] == path[..n] && dir[n] == '\0'
      ensures lastSlash == LastSep(path[..n], '/') && lastSlash >= 5
    {
      n, lastSlash := 0, 0;
      while n < |path| && n + 1 < dir.Length
        invariant n <= |path| && n < dir.Length && dir[..n] == path[..n]
        invariant lastSlash == if LastSep(path[..n], '/') < 0 then 0 else LastSep(path[..n], '/')
      {
        dir[n] := path[n];
        assert path[..n + 1][..n] == path[..n];
        if path[n] == '/' {
          lastSlash := n;
        }
        n := n + 1;
      }
      assert path[..n][5] == '/';
      dir[n] := '\0';
    }
  }

  lemma AllowedJoin(a: string, leaf: string)
    requires PathAllowed(a) && IsLeaf(leaf)
    ensures PathAllowed(a + "/" + leaf)
  {
    var p := a + "/" + leaf;
    forall i | 0 <= i < |p|
      ensures p[i] != ':' && p[i] as int >= 32 && (i > |a| ==> p[i] != '.')
    {
      if i > |a| { assert p[i] == leaf[i - |a| - 1] && leaf[i - |a| - 1] in leaf; }
    }
  }

  lemma VitaIsAllowed()
    ensures PathAllowed(EXPECTED[0])
  {
  }

  lemma ExpectedIsShort(k: nat)
    requires k < |EXPECTED|
    ensures |EXPECTED[k]| < PATH_MAX
  {
  }

  lemma {:induction false} ExpectedIsAllowed(k: nat)
    requires k < |EXPECTED|
    ensures PathAllowed(EXPECTED[k]) && |EXPECTED[k]| < PATH_MAX && k < |NAMES| && NAMES[k] == Fw(EXPECTED[k])
    decreases k
  {
    hide PathAllowed, EXPECTED, STANDS_IN, LEAVES, IsLeaf;
    ExpectedIsShort(k);
    if k == 0 {
      VitaIsAllowed();
    } else {
      Sizes();
      ExpectedIsJoin(k);
      LeavesAreLetters(k);
      ExpectedIsAllowed(STANDS_IN[k]);
      AllowedJoin(EXPECTED[STANDS_IN[k]], LEAVES[k]);
    }
  }

  lemma NoCutsYet(path: string)
    requires path != ""
    ensures Cuts(path, 1) == []
  {
  }

  lemma CutIsAllowed(path: string, i: nat)
    requires PathAllowed(path) && VITA + "/" <= path && 1 <= i < |path| && path[i] == '/'
    ensures PathAllowed(path[..i]) && '\0' !in path[..i]
  {
    assert i >= 5 by {
      assert path[1] != '/' && path[2] != '/' && path[3] != '/' && path[4] != '/';
    }
    AllowedHasNoNul(path, i);
  }

  lemma {:induction false} CutsGrow(path: string, i: nat, n: nat)
    requires i <= n <= |path|
    ensures Cuts(path, i) <= Cuts(path, n)
    decreases n
  {
    if i < n {
      CutsGrow(path, i, n - 1);
    }
  }

  lemma {:induction false} FailureStays(t: Tree, some: seq<string>, names: seq<string>, ios: nat -> Io)
    requires some <= names && !EnsureAll(t, some, ios).ok
    ensures EnsureAll(t, names, ios) == EnsureAll(t, some, ios)
    decreases |names|
  {
    hide EnsureDir;
    if |some| < |names| {
      FailureStays(t, some, names[..|names| - 1], ios);
    } else {
      assert some == names;
    }
  }
}
