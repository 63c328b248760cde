/** Local archives in the file manager: `compressLocal` and `extractLocal` over
    a tree of directories and regular files.

    A zip file is the list of its entries; the container encoding is not modelled. */
module Archive {
  import opened Text
  import opened Paths

  datatype Content = Raw(bytes: seq<bv8>) | Zip(entries: seq<Entry>)
  datatype Entry = Entry(name: string, data: Content)

  /** The sentinel errors, and every other error as `Failed`. */
  datatype Outcome = Done | ErrForbidden | ErrNotFound | Failed

  datatype Tree = Tree(files: map<Path, Content>, dirs: set<Path>) {
    /** Every node has a directory above it, and no file is also a directory. */
    ghost predicate Valid() {
      && [] in dirs
      && files.Keys !! dirs
      && forall p :: p in files.Keys + dirs ==> ValidPath(p) && (p != [] ==> p[..|p| - 1] in dirs)
    }

    predicate FileAbove(p: Path) {
      exists k :: 0 <= k < |p| && p[..k] in files
    }

    /** `MkdirAll(p)` succeeds unless a file is in the way. */
    predicate CanMkdirAll(p: Path) {
      !FileAbove(p) && p !in files
    }

    function MkdirAll(p: Path): Tree {
      Tree(files, dirs + set k | 0 <= k <= |p| :: p[..k])
    }

    function Write(p: Path, c: Content): Tree {
      Tree(files[p := c], dirs)
    }

    /** A regular file may be put at `t`, making its parents on the way. */
    predicate Room(t: Path) {
      !FileAbove(t) && t !in dirs
    }

    function Put(t: Path, c: Content): Tree
      requires t != []
    {
      MkdirAll(t[..|t| - 1]).Write(t, c)
    }
  }

  predicate Beneath(root: Path, p: Path) {
    root <= p && root != p
  }

  lemma {:induction false} Ancestors(t: Tree, a: Path, p: Path)
    requires t.Valid() && p in t.files.Keys + t.dirs && a < p
    ensures a in t.dirs
    decreases |p|
  {
    var up := p[..|p| - 1];
    if a != up {
      Ancestors(t, a, up);
    }
  }

  lemma MkdirValid(t: Tree, p: Path)
    requires t.Valid() && ValidPath(p) && t.CanMkdirAll(p)
    ensures t.MkdirAll(p).Valid() && p in t.MkdirAll(p).dirs
  {
    var t' := t.MkdirAll(p);
    forall k | 0 <= k <= |p|
      ensures p[..k] !in t.files && (k > 0 ==> p[..k][..k - 1] in t'.dirs)
    {
      assert k == |p| ==> p[..k] == p;
      assert k > 0 ==> p[..k][..k - 1] == p[..k - 1];
    }
    assert p[..|p|] == p;
  }

  lemma WriteValid(t: Tree, p: Path, c: Content)
    requires t.Valid() && p != [] && ValidPath(p) && p !in t.dirs && p[..|p| - 1] in t.dirs
    ensures t.Write(p, c).Valid()
  {
  }

  /** Nothing lies beneath a regular file. */
  lemma LoneFile(t: Tree, src: Path)
    requires t.Valid() && src in t.files
    ensures forall p :: p in t.files ==> !(src < p)
  {
    forall p | p in t.files ensures !(src < p) {
      if src < p {
        Ancestors(t, src, p);
        assert false;
      }
    }
  }

  // ---- Extracting ----

  predicate DirName(name: string) {
    name != "" && name[|name| - 1] == '/'
  }

  /** What a round does once the entry resolves to `at`, below `up`. */
  function ExtractAt(t: Tree, at: Path, up: Path, dir: bool, c: Content): (Tree, Outcome) {
    if dir then if t.CanMkdirAll(at) then (t.MkdirAll(at), Done) else (t, Failed)
    else if !t.CanMkdirAll(up) then (t, Failed)
    else if at in t.MkdirAll(up).dirs then (t.MkdirAll(up), Failed)
    else (t.MkdirAll(up).Write(at, c), Done)
  }

  /** One round of the loop in `extractLocal`. */
  function ExtractEntry(t: Tree, cleanDest: string, e: Entry): (Tree, Outcome)
    requires StartsWith(cleanDest, "/")
  {
    var entryPath := EntryPath(cleanDest, e.name);
    if !StartsWith(entryPath, cleanDest) then (t, ErrForbidden)
    else ExtractAt(t, Components(entryPath), Components(Dir(entryPath)), DirName(e.name), e.data)
  }

  function ExtractAll(t: Tree, cleanDest: string, es: seq<Entry>): (Tree, Outcome)
    requires StartsWith(cleanDest, "/")
    decreases |es|
  {
    if es == [] then (t, Done)
    else
      var (t', r) := ExtractEntry(t, cleanDest, es[0]);
      if r.Done? then ExtractAll(t', cleanDest, es[1..]) else (t', r)
  }

  lemma {:induction false} ExtractSnoc(t: Tree, cleanDest: string, es: seq<Entry>, e: Entry)
    requires StartsWith(cleanDest, "/")
    ensures var (t', r) := ExtractAll(t, cleanDest, es);
            ExtractAll(t, cleanDest, es + [e]) == if r.Done? then ExtractEntry(t', cleanDest, e) else (t', r)
    decreases |es|
  {
    if es == [] {
      assert [e][1..] == [];
    } else {
      assert (es + [e])[1..] == es[1..] + [e];
      var (t', r) := ExtractEntry(t, cleanDest, es[0]);
      if r.Done? {
        ExtractSnoc(t', cleanDest, es[1..], e);
      }
    }
  }

  lemma {:induction false} ExtractStops(t: Tree, cleanDest: string, es: seq<Entry>, i: nat)
    requires StartsWith(cleanDest, "/") && i <= |es|
    requires !ExtractAll(t, cleanDest, es[..i]).1.Done?
    ensures ExtractAll(t, cleanDest, es) == ExtractAll(t, cleanDest, es[..i])
    decreases |es| - i
  {
    if i == |es| {
      assert es[..i] == es;
    } else {
      ExtractSnoc(t, cleanDest, es[..i], es[i]);
      assert es[..i] + [es[i]] == es[..i + 1];
      ExtractStops(t, cleanDest, es, i + 1);
    }
  }

  lemma DirOf(p: Path)
    requires ValidPath(p)
    ensures Components(Dir(Render(p))) == Up(p)
  {
    if p == [] {
      assert Render(p) == "/";
      assert Dir("/") == Clean("/");
      ComponentsRender([]);
    } else {
      assert p == p[..|p| - 1] + [p[|p| - 1]];
      DirBaseRender(p[..|p| - 1], p[|p| - 1]);
      ComponentsRender(p[..|p| - 1]);
    }
  }

  lemma ValidConcat(a: string, b: string)
    ensures ValidPath(Components(a) + Components(b))
  {
    ComponentsValid(a);
    ComponentsValid(b);
  }

  function Up(p: Path): Path {
    if p == [] then [] else p[..|p| - 1]
  }

  /** The prefix check never fires: a round is decided by the resolved path. */
  lemma ExtractEntryAt(t: Tree, dest: string, e: Entry)
    requires SafePath(dest).Ok?
    ensures StartsWith(SafePath(dest).path, "/")
    ensures var at := Components(dest) + Components(e.name);
            ExtractEntry(t, SafePath(dest).path, e) == ExtractAt(t, at, Up(at), DirName(e.name), e.data)
  {
    EntryStaysInside(dest, e.name);
    ValidConcat(dest, e.name);
    var at := Components(dest) + Components(e.name);
    var entryPath := EntryPath(SafePath(dest).path, e.name);
    DirOf(at);
    assert Components(entryPath) == at && Components(Dir(entryPath)) == Up(at);
  }

  /** `MkdirAll` of the parent and `Create` succeed exactly when there is room. */
  lemma RoomParts(t: Tree, at: Path)
    requires t.Valid()
    ensures t.Room(at) <==> t.CanMkdirAll(Up(at)) && at !in t.MkdirAll(Up(at)).dirs
  {
    if at != [] {
      ExtractFileAt(t, at, Raw([]));
    }
  }

  lemma ExtractAtValid(t: Tree, at: Path, dir: bool, c: Content)
    requires t.Valid() && ValidPath(at)
    ensures ExtractAt(t, at, Up(at), dir, c).0.Valid()
  {
    if t.CanMkdirAll(at) {
      MkdirValid(t, at);
    }
    if t.CanMkdirAll(Up(at)) {
      MkdirValid(t, Up(at));
      if at !in t.MkdirAll(Up(at)).dirs {
        WriteValid(t.MkdirAll(Up(at)), at, c);
      }
    }
  }

  lemma ExtractEntryValid(t: Tree, dest: string, e: Entry)
    requires SafePath(dest).Ok? && t.Valid()
    ensures StartsWith(SafePath(dest).path, "/")
    ensures ExtractEntry(t, SafePath(dest).path, e).0.Valid()
  {
    ExtractEntryAt(t, dest, e);
    ValidConcat(dest, e.name);
    ExtractAtValid(t, Components(dest) + Components(e.name), DirName(e.name), e.data);
  }

  // ---- What extraction makes of any archive ----

  /** Where an entry goes under the directory `d`. */
  function At(d: Path, e: Entry): Path {
    d + Components(e.name)
  }

  /** A file stands in the way: at or above a directory to be, or above a file to be; or
      a directory stands where the file is to be. */
  predicate Blocked(t: Tree, at: Path, dir: bool) {
    || (exists k :: 0 <= k < |at| && at[..k] in t.files)
    || (if dir then at in t.files else at in t.dirs)
  }

  lemma UpBlocked(t: Tree, at: Path)
    requires at != []
    ensures t.CanMkdirAll(Up(at)) <==> !exists k :: 0 <= k < |at| && at[..k] in t.files
  {
    var up := Up(at);
    forall k | 0 <= k < |at| ensures at[..k] == if k < |up| then up[..k] else up {
    }
    if up in t.files {
      assert at[..|up|] in t.files;
    }
    if t.FileAbove(up) {
      var k :| 0 <= k < |up| && up[..k] in t.files;
      assert at[..k] in t.files;
    }
  }

  /** An entry fails exactly when it is blocked. A directory entry makes its directory, with
      those above it, and changes no file. */
  lemma DirEntry(t: Tree, dest: string, e: Entry)
    requires SafePath(dest).Ok? && DirName(e.name)
    ensures StartsWith(SafePath(dest).path, "/")
    ensures var at, (u, r) := At(Components(dest), e), ExtractEntry(t, SafePath(dest).path, e);
            && (r.Done? <==> !Blocked(t, at, true)) && (r.Done? || r == Failed) && u.files == t.files
            && (forall q :: q in u.dirs <==> q in t.dirs || (r.Done? && q <= at))
  {
    ExtractEntryAt(t, dest, e);
    var at := At(Components(dest), e);
    MadeDirs(t, at);
  }

  lemma MadeDirs(t: Tree, at: Path)
    ensures forall q :: q in t.MkdirAll(at).dirs <==> q in t.dirs || q <= at
  {
    forall q | q <= at ensures q in t.MkdirAll(at).dirs {
      assert q == at[..|q|];
    }
  }

  /** A file entry writes its file, with the directories above it, and no other file. */
  lemma FileEntry(t: Tree, dest: string, e: Entry)
    requires SafePath(dest).Ok? && t.Valid() && !DirName(e.name)
    ensures StartsWith(SafePath(dest).path, "/")
    ensures var at, (u, r) := At(Components(dest), e), ExtractEntry(t, SafePath(dest).path, e);
            && (r.Done? <==> !Blocked(t, at, false)) && (r.Done? || r == Failed)
            && u.files == (if r.Done? then t.files[at := e.data] else t.files)
            && (r.Done? ==> forall q :: q in u.dirs <==> q in t.dirs || q < at)
  {
    ExtractEntryAt(t, dest, e);
    var at := At(Components(dest), e);
    if at != [] {
      FileAt(t, at, e.data);
    }
  }

  lemma FileAt(t: Tree, at: Path, c: Content)
    requires t.Valid() && at != []
    ensures var (u, r) := ExtractAt(t, at, Up(at), false, c);
            && (r.Done? <==> !Blocked(t, at, false)) && (r.Done? || r == Failed)
            && u.files == (if r.Done? then t.files[at := c] else t.files)
            && (r.Done? ==> forall q :: q in u.dirs <==> q in t.dirs || q < at)
  {
    UpBlocked(t, at);
    forall q ensures q in t.MkdirAll(Up(at)).dirs <==> q in t.dirs || q < at {
      MadeDirs(t, Up(at));
      BelowUp(at, q);
    }
  }

  lemma BelowUp(at: Path, q: Path)
    requires at != []
    ensures q <= Up(at) <==> q < at
  {
    if q < at {
      assert q == at[..|q|] == Up(at)[..|q|];
    }
  }

  /** A file entry's file is there, below its directories, with the entry's bytes unless a
      later entry is for the same place. */
  ghost predicate HasFile(u: Tree, d: Path, es: seq<Entry>, i: nat)
    requires i < |es|
  {
    && At(d, es[i]) in u.files && (forall q :: q < At(d, es[i]) ==> q in u.dirs)
    && ((forall j :: i < j < |es| && !DirName(es[j].name) ==> At(d, es[j]) != At(d, es[i])) ==>
          u.files[At(d, es[i])] == es[i].data)
  }

  ghost predicate IsTarget(d: Path, es: seq<Entry>, q: Path) {
    exists e :: e in es && !DirName(e.name) && At(d, e) == q
  }

  /** `q` is a directory that some entry asks for. */
  ghost predicate Wanted(d: Path, es: seq<Entry>, q: Path) {
    exists e :: e in es && if DirName(e.name) then q <= At(d, e) else q < At(d, e)
  }

  /** `u` is `t` with the entries extracted under `d`: every directory asked for is there
      and every file; and nothing else has changed. */
  ghost predicate Extracted(t: Tree, u: Tree, d: Path, es: seq<Entry>) {
    && (forall q :: q in u.dirs <==> q in t.dirs || Wanted(d, es, q))
    && (forall i :: 0 <= i < |es| && !DirName(es[i].name) ==> HasFile(u, d, es, i))
    && (forall q :: q in u.files <==> q in t.files || IsTarget(d, es, q))
    && (forall q :: q in t.files && !IsTarget(d, es, q) ==> u.files[q] == t.files[q])
  }

  lemma WantedMore(d: Path, es: seq<Entry>, e: Entry, q: Path)
    ensures Wanted(d, es + [e], q) <==> Wanted(d, es, q) || if DirName(e.name) then q <= At(d, e) else q < At(d, e)
    ensures IsTarget(d, es + [e], q) <==> IsTarget(d, es, q) || (!DirName(e.name) && q == At(d, e))
  {
    assert forall x :: x in es + [e] <==> x in es || x == e;
  }

  lemma HasFileThen(u: Tree, v: Tree, d: Path, es: seq<Entry>, e: Entry, i: nat)
    requires i < |es| && HasFile(u, d, es, i) && u.dirs <= v.dirs
    requires v.files == if DirName(e.name) then u.files else u.files[At(d, e) := e.data]
    ensures HasFile(v, d, es + [e], i)
  {
    var more := es + [e];
    assert more[i] == es[i] && more[|es|] == e;
    if forall j :: i < j < |more| && !DirName(more[j].name) ==> At(d, more[j]) != At(d, more[i]) {
      forall j | i < j < |es| && !DirName(es[j].name) ensures At(d, es[j]) != At(d, es[i]) {
        assert more[j] == es[j];
      }
    }
  }

  lemma ExtractedThen(t: Tree, u: Tree, v: Tree, d: Path, es: seq<Entry>, e: Entry)
    requires Extracted(t, u, d, es)
    requires v.files == if DirName(e.name) then u.files else u.files[At(d, e) := e.data]
    requires forall q :: q in v.dirs <==> q in u.dirs || if DirName(e.name) then q <= At(d, e) else q < At(d, e)
    ensures Extracted(t, v, d, es + [e])
  {
    var more := es + [e];
    forall q ensures q in v.dirs <==> q in t.dirs || Wanted(d, more, q) {
      WantedMore(d, es, e, q);
    }
    forall q ensures q in v.files <==> q in t.files || IsTarget(d, more, q) {
      WantedMore(d, es, e, q);
    }
    forall q | q in t.files && !IsTarget(d, more, q) ensures v.files[q] == t.files[q] {
      WantedMore(d, es, e, q);
    }
    forall i | 0 <= i < |more| && !DirName(more[i].name) ensures HasFile(v, d, more, i) {
      if i < |es| {
        HasFileThen(u, v, d, es, e, i);
      }
    }
  }

  /** Extraction got through the first `i` entries and failed at the next, which a file or
      a directory blocks; no file has changed since. */
  ghost predicate StoppedAt(t: Tree, u: Tree, d: Path, es: seq<Entry>, i: nat, mid: Tree) {
    && i < |es| && Extracted(t, mid, d, es[..i])
    && Blocked(mid, At(d, es[i]), DirName(es[i].name)) && u.files == mid.files && mid.dirs <= u.dirs
  }

  /** What becomes of any archive: it is extracted, or stops at an entry that is blocked. */
  ghost predicate Outcomes(t: Tree, u: Tree, d: Path, es: seq<Entry>, r: Outcome) {
    if r.Done? then Extracted(t, u, d, es) else r == Failed && exists i: nat, mid :: StoppedAt(t, u, d, es, i, mid)
  }

  lemma NothingExtracted(t: Tree, d: Path)
    ensures Extracted(t, t, d, [])
  {
  }

  lemma EntryThen(t: Tree, u: Tree, dest: string, es: seq<Entry>, e: Entry)
    requires SafePath(dest).Ok? && u.Valid() && Extracted(t, u, Components(dest), es)
    ensures StartsWith(SafePath(dest).path, "/")
    ensures var (v, r) := ExtractEntry(u, SafePath(dest).path, e);
            v.Valid() && Outcomes(t, v, Components(dest), es + [e], r)
  {
    ExtractEntryValid(u, dest, e);
    var d := Components(dest);
    var (v, r) := ExtractEntry(u, SafePath(dest).path, e);
    if DirName(e.name) {
      DirEntry(u, dest, e);
    } else {
      FileEntry(u, dest, e);
    }
    if r.Done? {
      ExtractedThen(t, u, v, d, es, e);
    } else {
      assert (es + [e])[..|es|] == es;
      FailKeepsDirs(u, dest, e);
      assert StoppedAt(t, v, d, es + [e], |es|, u);
    }
  }

  lemma FailKeepsDirs(t: Tree, dest: string, e: Entry)
    requires SafePath(dest).Ok?
    ensures StartsWith(SafePath(dest).path, "/") && t.dirs <= ExtractEntry(t, SafePath(dest).path, e).0.dirs
  {
    ExtractEntryAt(t, dest, e);
  }

  lemma StoppedMore(t: Tree, u: Tree, d: Path, es: seq<Entry>, more: seq<Entry>, r: Outcome)
    requires Outcomes(t, u, d, es, r) && !r.Done? && es <= more
    ensures Outcomes(t, u, d, more, r)
  {
    var i: nat, mid: Tree :| StoppedAt(t, u, d, es, i, mid);
    assert more[..i] == es[..i] && more[i] == es[i];
    assert StoppedAt(t, u, d, more, i, mid);
  }

  /** The entry name of a file met while walking `src`: its path less the parent of `src`. */
  function WalkName(src: Path, p: Path): string {
    TrimPrefix(Render(p), Dir(Render(src)) + "/")
  }

  /** The name an entry has; a lone file is named by its base name. */
  function EntryName(src: Path, p: Path): string {
    if p == src then Base(Render(src)) else WalkName(src, p)
  }

  lemma RenderSecond(p: Path)
    requires ValidPath(p) && p != []
    ensures |Render(p)| > 1 && Render(p)[1] != '/'
  {
    assert p[0] in p && p[0][0] in p[0];
    if |p| > 1 {
      JoinAppend([p[0]], p[1..]);
      assert p == [p[0]] + p[1..];
    }
  }

  lemma TrimExact(a: string, b: string)
    ensures TrimPrefix(a + b, a) == b
  {
  }

  lemma WalkNameNested(parent: Path, last: string, p: Path)
    requires ValidPath(parent) && ValidName(last) && parent != [] && parent + [last] <= p
    ensures WalkName(parent + [last], p) == Join(p[|parent|..], "/")
  {
    var rest := p[|parent|..];
    DirBaseRender(parent, last);
    PrefixCut(parent, last, p);
    RenderUnder(parent, rest);
    TrimExact(Render(parent) + "/", Join(rest, "/"));
  }

  lemma PrefixCut(parent: Path, last: string, p: Path)
    requires parent + [last] <= p
    ensures p == parent + p[|parent|..] && p[|parent|..] != []
  {
  }

  lemma RenderUnder(parent: Path, rest: Path)
    requires parent != [] && rest != []
    ensures Render(parent + rest) == Render(parent) + "/" + Join(rest, "/")
  {
    JoinAppend(parent, rest);
    Assoc("/", Join(parent, "/"), "/");
    Assoc("/", Join(parent, "/") + "/", Join(rest, "/"));
  }

  lemma WalkNameTop(last: string, p: Path)
    requires ValidName(last) && ValidPath(p) && p != []
    ensures WalkName([last], p) == "/" + Join(p, "/")
  {
    DirBaseRender([], last);
    assert [] + [last] == [last];
    assert Render([]) == "/";
    RenderSecond(p);
  }

  /** What `EntryName` comes to: base(src)/rel, with a leading slash kept when
      `src` is a directory at the root. */
  lemma EntryNameText(src: Path, p: Path)
    requires src != [] && ValidPath(p) && src <= p
    ensures EntryName(src, p) ==
            (if |src| == 1 && p != src then "/" else "") + Join(p[|src| - 1..], "/")
  {
    var parent, last := src[..|src| - 1], src[|src| - 1];
    assert src == parent + [last];
    assert ValidPath(parent) && ValidName(last) by {
      forall c | c in src ensures ValidName(c) { assert c in p; }
    }
    if p == src {
      DirBaseRender(parent, last);
      assert p[|src| - 1..] == [last];
    } else if parent == [] {
      WalkNameTop(last, p);
      assert p[0..] == p;
    } else {
      WalkNameNested(parent, last, p);
    }
  }

  /** Both namings walk to base(src)/rel. */
  lemma EntryNameWalk(src: Path, p: Path)
    requires src != [] && ValidPath(p) && src <= p
    ensures Components(EntryName(src, p)) == p[|src| - 1..]
  {
    var tail := p[|src| - 1..];
    var text := Join(tail, "/");
    EntryNameText(src, p);
    assert EntryName(src, p) == text || EntryName(src, p) == "/" + text;
    forall c | c in tail ensures ValidName(c) { assert c in p; }
    ResolveJoin(tail, []);
    ComponentsSlashed(text);
  }

  /** Neither naming can be taken for a directory. */
  lemma EntryNameFile(src: Path, p: Path)
    requires src != [] && ValidPath(p) && src <= p
    ensures !DirName(EntryName(src, p))
  {
    var tail := p[|src| - 1..];
    EntryNameText(src, p);
    var final := tail[|tail| - 1];
    assert final == p[|p| - 1];
    assert final in p && final[|final| - 1] in final;
    LastName(tail);
  }

  lemma {:induction false} LastName(cs: Path)
    requires cs != [] && cs[|cs| - 1] != ""
    ensures var j, f := Join(cs, "/"), cs[|cs| - 1]; |j| >= |f| && j[|j| - 1] == f[|f| - 1]
  {
    if |cs| > 1 {
      LastName(cs[1..]);
    }
  }

  /** A file lands at its path if there is room, and fails otherwise. */
  lemma ExtractFileAt(t: Tree, at: Path, c: Content)
    requires at != []
    ensures ExtractAt(t, at, Up(at), false, c).1.Done? <==> t.Room(at)
    ensures t.Room(at) ==> ExtractAt(t, at, Up(at), false, c).0 == t.Put(at, c)
  {
    var up := at[..|at| - 1];
    forall k | 0 <= k < |at| ensures at[..k] == if k < |up| then up[..k] else up {}
    if t.FileAbove(up) {
      var k :| 0 <= k < |up| && up[..k] in t.files;
      assert at[..k] in t.files;
    }
    if up in t.files {
      assert at[..|up|] in t.files;
    }
    forall k | 0 <= k <= |up| ensures up[..k] != at { assert |up[..k]| < |at|; }
  }

  /** A file to be put in a tree. */
  datatype Target = Target(at: Path, data: Content)

  /** Where each entry is to land under the directory `d`. */
  function Aim(d: Path, es: seq<Entry>): seq<Target> {
    if es == [] then []
    else [Target(d + Components(es[0].name), es[0].data)] + Aim(d, es[1..])
  }

  /** The targets as a map, the last of a path winning. */
  function Landed(ts: seq<Target>): map<Path, Content> {
    if ts == [] then map[] else map[ts[0].at := ts[0].data] + Landed(ts[1..])
  }

  predicate FileEntries(es: seq<Entry>) {
    forall i :: 0 <= i < |es| ==> !DirName(es[i].name) && Components(es[i].name) != []
  }

  /** No path of the set lies above another. */
  ghost predicate Flat(ps: set<Path>) {
    forall a, b :: a in ps && b in ps ==> !(a < b)
  }

  lemma RoomKept(t: Tree, a: Path, c: Content, b: Path)
    requires a != [] && t.Room(a) && !(a < b) && !(b < a)
    ensures t.Put(a, c).Room(b) <==> t.Room(b)
  {
    var t' := t.Put(a, c);
    var up := a[..|a| - 1];
    forall k | 0 <= k <= |up| ensures up[..k] < a {}
    assert b in t'.dirs <==> b in t.dirs;
    if t'.FileAbove(b) {
      var k :| 0 <= k < |b| && b[..k] in t'.files;
      assert b[..k] < b;
      assert b[..k] in t.files;
    }
    if t.FileAbove(b) {
      var k :| 0 <= k < |b| && b[..k] in t.files;
      assert b[..k] in t'.files;
    }
  }

  predicate AllRoom(t: Tree, ps: set<Path>) {
    forall p :: p in ps ==> t.Room(p)
  }

  /** Putting one target leaves the room of the others as it was. */
  lemma RoomRest(t: Tree, at: Path, c: Content, rest: set<Path>)
    requires at != [] && t.Room(at) && Flat({at} + rest)
    ensures AllRoom(t.Put(at, c), rest) <==> AllRoom(t, {at} + rest)
  {
    forall p | p in rest ensures t.Put(at, c).Room(p) <==> t.Room(p) {
      assert p in {at} + rest && at in {at} + rest;
      RoomKept(t, at, c, p);
    }
  }

  /** What extraction amounts to on file entries: put each at its target,
      stopping at the first without room. */
  function PutAll(t: Tree, ts: seq<Target>): Option<Tree>
    decreases |ts|
  {
    if ts == [] then Some(t)
    else if ts[0].at == [] || !t.Room(ts[0].at) then None
    else PutAll(t.Put(ts[0].at, ts[0].data), ts[1..])
  }

  lemma {:induction false} ExtractIsPutAll(t: Tree, dest: string, es: seq<Entry>)
    requires SafePath(dest).Ok? && FileEntries(es)
    ensures StartsWith(SafePath(dest).path, "/")
    ensures var (t', r) := ExtractAll(t, SafePath(dest).path, es);
            PutAll(t, Aim(Components(dest), es)) == if r.Done? then Some(t') else None
    decreases |es|
  {
    EntryStaysInside(dest, "");
    if es != [] {
      ExtractEntryAt(t, dest, es[0]);
      var at := Components(dest) + Components(es[0].name);
      ExtractFileAt(t, at, es[0].data);
      assert Aim(Components(dest), es)[1..] == Aim(Components(dest), es[1..]);
      if t.Room(at) {
        ExtractIsPutAll(t.Put(at, es[0].data), dest, es[1..]);
      }
    }
  }

  /** Putting succeeds exactly when every target has room beforehand. */
  lemma {:induction false} PutAllSucceeds(t: Tree, ts: seq<Target>)
    requires Flat(Landed(ts).Keys)
    requires forall i :: 0 <= i < |ts| ==> ts[i].at != []
    ensures PutAll(t, ts).Some? <==> AllRoom(t, Landed(ts).Keys)
    decreases |ts|
  {
    if ts != [] {
      var w := ts[0];
      assert Landed(ts).Keys == {w.at} + Landed(ts[1..]).Keys;
      if t.Room(w.at) {
        RoomRest(t, w.at, w.data, Landed(ts[1..]).Keys);
        PutAllSucceeds(t.Put(w.at, w.data), ts[1..]);
      }
    }
  }

  /** When it succeeds, each target holds its file and no other file has changed. */
  lemma {:induction false} PutAllWrites(t: Tree, ts: seq<Target>)
    requires PutAll(t, ts).Some?
    ensures PutAll(t, ts).value.files == t.files + Landed(ts)
    decreases |ts|
  {
    if ts != [] {
      PutAllWrites(t.Put(ts[0].at, ts[0].data), ts[1..]);
    }
  }

  /** `q` lies above one of the paths. */
  ghost predicate Above(q: Path, ps: set<Path>) {
    exists p :: p in ps && q < p
  }

  lemma {:induction false} PutAllDirs(t: Tree, ts: seq<Target>, q: Path)
    requires PutAll(t, ts).Some?
    ensures q in PutAll(t, ts).value.dirs <==> q in t.dirs || Above(q, Landed(ts).Keys)
    decreases |ts|
  {
    if ts != [] {
      var at, rest := ts[0].at, Landed(ts[1..]).Keys;
      PutAllDirs(t.Put(at, ts[0].data), ts[1..], q);
      PutDirs(t, at, ts[0].data, q);
      assert Landed(ts).Keys == {at} + rest;
      assert Above(q, {at} + rest) <==> q < at || Above(q, rest) by {
        assert at in {at} + rest;
        if Above(q, rest) {
          var p :| p in rest && q < p;
          assert p in {at} + rest;
        }
      }
    }
  }

  lemma PutDirs(t: Tree, at: Path, c: Content, q: Path)
    requires at != []
    ensures q in t.Put(at, c).dirs <==> q in t.dirs || q < at
  {
    var up := at[..|at| - 1];
    if q < at {
      assert q == up[..|q|];
    }
    forall k | 0 <= k <= |up| ensures up[..k] < at {
    }
  }

  /** From `t` to `u` only the given files have come, with directories above them. */
  ghost predicate Confined(t: Tree, u: Tree, homes: map<Path, Content>) {
    && t.files.Keys <= u.files.Keys && t.dirs <= u.dirs
    && (forall q :: q in u.files ==> (q in t.files && u.files[q] == t.files[q]) || (q in homes && u.files[q] == homes[q]))
    && (forall q :: q in u.dirs ==> q in t.dirs || Above(q, homes.Keys))
  }

  lemma ExtractFileConfined(t: Tree, at: Path, c: Content)
    requires at != []
    ensures Confined(t, ExtractAt(t, at, Up(at), false, c).0, map[at := c])
  {
    var u := ExtractAt(t, at, Up(at), false, c).0;
    forall q | q in u.dirs && q !in t.dirs ensures Above(q, map[at := c].Keys) {
      PutDirs(t, at, c, q);
      assert at in map[at := c].Keys;
    }
  }

  lemma ConfinedThen(t: Tree, u: Tree, v: Tree, at: Path, c: Content, rest: map<Path, Content>)
    requires Confined(t, u, map[at := c]) && Confined(u, v, rest) && (at in rest ==> rest[at] == c)
    ensures Confined(t, v, map[at := c] + rest)
  {
    var homes := map[at := c] + rest;
    forall q | q in v.dirs && q !in t.dirs ensures Above(q, homes.Keys) {
      if q in u.dirs {
        assert at in homes.Keys;
      } else {
        var p :| p in rest.Keys && q < p;
        assert p in homes.Keys;
      }
    }
  }

  /** No path is aimed at with two different contents. */
  ghost predicate Agree(ts: seq<Target>) {
    forall i, j :: 0 <= i < |ts| && 0 <= j < |ts| && ts[i].at == ts[j].at ==> ts[i].data == ts[j].data
  }

  lemma AgreeTail(ts: seq<Target>)
    requires ts != [] && Agree(ts)
    ensures Agree(ts[1..])
    ensures ts[0].at in Landed(ts[1..]) ==> Landed(ts[1..])[ts[0].at] == ts[0].data
  {
    forall i, j | 0 <= i < |ts[1..]| && 0 <= j < |ts[1..]| && ts[1..][i].at == ts[1..][j].at
      ensures ts[1..][i].data == ts[1..][j].data
    {
      assert ts[1..][i] == ts[i + 1] && ts[1..][j] == ts[j + 1];
    }
    if ts[0].at in Landed(ts[1..]) {
      var i := LandedFrom(ts[1..], ts[0].at);
      assert ts[i + 1] == ts[1..][i];
    }
  }

  lemma ConfinedMore(t: Tree, u: Tree, at: Path, c: Content, rest: map<Path, Content>)
    requires Confined(t, u, map[at := c]) && (at in rest ==> rest[at] == c)
    ensures Confined(t, u, map[at := c] + rest)
  {
    assert at in (map[at := c] + rest).Keys;
  }

  /** However extraction ends, only files aimed at have come, each whole, with the
      directories above them. */
  lemma {:induction false} ExtractConfined(t: Tree, dest: string, es: seq<Entry>)
    requires SafePath(dest).Ok? && FileEntries(es) && Agree(Aim(Components(dest), es))
    ensures StartsWith(SafePath(dest).path, "/")
    ensures Confined(t, ExtractAll(t, SafePath(dest).path, es).0, Landed(Aim(Components(dest), es)))
    decreases |es|
  {
    EntryStaysInside(dest, "");
    if es != [] {
      var ts := Aim(Components(dest), es);
      assert ts[1..] == Aim(Components(dest), es[1..]);
      AgreeTail(ts);
      ExtractEntryAt(t, dest, es[0]);
      ExtractFileConfined(t, ts[0].at, es[0].data);
      var (u, r) := ExtractEntry(t, SafePath(dest).path, es[0]);
      if r.Done? {
        ExtractConfined(u, dest, es[1..]);
        ConfinedThen(t, u, ExtractAll(u, SafePath(dest).path, es[1..]).0, ts[0].at, es[0].data, Landed(ts[1..]));
      } else {
        ConfinedMore(t, u, ts[0].at, es[0].data, Landed(ts[1..]));
      }
    }
  }

  // ---- Packing ----

  /** Which file an entry was read from, and the source it was found under, by its place
      in the list of sources. */
  datatype Origin = Origin(k: nat, src: Path, path: Path)

  predicate Present(t: Tree, p: Path) {
    p in t.files || p in t.dirs
  }

  /** Entry `e` was read from the file `o`. What the archive stores for itself is
      left open: that copy is taken while the file is being written. */
  ghost predicate ReadFrom(t: Tree, zipAt: Path, e: Entry, o: Origin) {
    && o.src <= o.path && o.path in t.files
    && e.name == EntryName(o.src, o.path)
    && (o.path != zipAt ==> e.data == t.files[o.path])
  }

  /** The entries are every file at or beneath the `k`-th source, each once, under its
      entry name, and nothing else. */
  ghost predicate PackedOne(t: Tree, zipAt: Path, k: nat, src: Path, es: seq<Entry>, from: seq<Origin>) {
    && |from| == |es|
    && (forall i :: 0 <= i < |es| ==> ReadFrom(t, zipAt, es[i], from[i]) && from[i].k == k && from[i].src == src)
    && (forall i, j :: 0 <= i < j < |from| ==> from[i] != from[j])
    && (forall p :: p in t.files && src <= p ==> Origin(k, src, p) in from)
  }

  /** The entries are, source by source in order, every file at or beneath it, each once,
      under its entry name, and nothing else. */
  ghost predicate Packed(t: Tree, zipAt: Path, srcs: seq<Path>, es: seq<Entry>, from: seq<Origin>) {
    && |from| == |es|
    && (forall i :: 0 <= i < |es| ==> OfSource(t, zipAt, srcs, es[i], from[i]))
    && InOrder(from) && CoversAll(t, srcs, from)
  }

  /** `o` is an entry of the `k`-th of the sources. */
  ghost predicate OfSource(t: Tree, zipAt: Path, srcs: seq<Path>, e: Entry, o: Origin) {
    ReadFrom(t, zipAt, e, o) && o.k < |srcs| && o.src == srcs[o.k]
  }

  ghost predicate InOrder(from: seq<Origin>) {
    forall i, j :: 0 <= i < j < |from| ==> from[i] != from[j] && from[i].k <= from[j].k
  }

  ghost predicate CoversAll(t: Tree, srcs: seq<Path>, from: seq<Origin>) {
    forall k, p :: 0 <= k < |srcs| && p in t.files && srcs[k] <= p ==> Origin(k, srcs[k], p) in from
  }

  lemma AppendCovers(t: Tree, srcs: seq<Path>, src: Path, from: seq<Origin>, from': seq<Origin>)
    requires CoversAll(t, srcs, from)
    requires forall p :: p in t.files && src <= p ==> Origin(|srcs|, src, p) in from'
    ensures CoversAll(t, srcs + [src], from + from')
  {
    var all := srcs + [src];
    forall k, p | 0 <= k < |all| && p in t.files && all[k] <= p ensures Origin(k, all[k], p) in from + from' {
      assert k < |srcs| ==> all[k] == srcs[k];
    }
  }

  lemma AppendOrder(from: seq<Origin>, from': seq<Origin>, n: nat)
    requires InOrder(from) && forall i :: 0 <= i < |from| ==> from[i].k < n
    requires forall i, j :: 0 <= i < j < |from'| ==> from'[i] != from'[j]
    requires forall i :: 0 <= i < |from'| ==> from'[i].k == n
    ensures InOrder(from + from')
  {
  }

  lemma SourcesBelow(t: Tree, zipAt: Path, srcs: seq<Path>, es: seq<Entry>, from: seq<Origin>)
    requires Packed(t, zipAt, srcs, es, from)
    ensures forall i :: 0 <= i < |from| ==> from[i].k < |srcs|
  {
    forall i | 0 <= i < |from| ensures from[i].k < |srcs| {
      assert OfSource(t, zipAt, srcs, es[i], from[i]);
    }
  }

  lemma AppendReads(t: Tree, zipAt: Path, srcs: seq<Path>, es: seq<Entry>, from: seq<Origin>,
                    src: Path, es': seq<Entry>, from': seq<Origin>, i: nat)
    requires Packed(t, zipAt, srcs, es, from) && PackedOne(t, zipAt, |srcs|, src, es', from') && i < |es + es'|
    ensures |from + from'| == |es + es'| && OfSource(t, zipAt, srcs + [src], (es + es')[i], (from + from')[i])
  {
    if i < |es| {
      assert OfSource(t, zipAt, srcs, es[i], from[i]);
    } else {
      assert ReadFrom(t, zipAt, es'[i - |es|], from'[i - |es|]);
    }
  }

  lemma PackedAppend(t: Tree, zipAt: Path, srcs: seq<Path>, es: seq<Entry>, from: seq<Origin>,
                     src: Path, es': seq<Entry>, from': seq<Origin>)
    requires Packed(t, zipAt, srcs, es, from) && PackedOne(t, zipAt, |srcs|, src, es', from')
    ensures Packed(t, zipAt, srcs + [src], es + es', from + from')
  {
    AppendCovers(t, srcs, src, from, from');
    SourcesBelow(t, zipAt, srcs, es, from);
    AppendOrder(from, from', |srcs|);
    forall i | 0 <= i < |es + es'| ensures OfSource(t, zipAt, srcs + [src], (es + es')[i], (from + from')[i]) {
      AppendReads(t, zipAt, srcs, es, from, src, es', from', i);
    }
  }

  lemma PackedFile(t: Tree, zipAt: Path, k: nat, src: Path, e: Entry)
    requires t.Valid() && ReadFrom(t, zipAt, e, Origin(k, src, src))
    ensures PackedOne(t, zipAt, k, src, [e], [Origin(k, src, src)])
  {
    LoneFile(t, src);
    forall p | p in t.files && src <= p ensures p == src {
      assert !(src < p);
    }
  }

  lemma PackedWalk(t: Tree, zipAt: Path, k: nat, src: Path, paths: seq<Path>, es: seq<Entry>, from: seq<Origin>)
    requires forall p :: p in t.files && src <= p ==> p in paths
    requires forall i, j :: 0 <= i < j < |paths| ==> paths[i] != paths[j]
    requires |es| == |from| == |paths|
    requires forall i :: 0 <= i < |paths| ==> from[i] == Origin(k, src, paths[i])
    requires forall i :: 0 <= i < |paths| ==> ReadFrom(t, zipAt, es[i], from[i])
    ensures PackedOne(t, zipAt, k, src, es, from)
  {
    forall p | p in t.files && src <= p ensures Origin(k, src, p) in from {
      var i :| 0 <= i < |paths| && paths[i] == p;
      assert from[i] == Origin(k, src, p);
    }
  }

  /** The first `i` sources are packed. */
  ghost predicate PackedUpTo(t: Tree, zipAt: Path, srcPaths: seq<string>, i: nat, es: seq<Entry>, from: seq<Origin>) {
    && i <= |srcPaths| && Packed(t, zipAt, Walks(srcPaths[..i]), es, from)
    && forall j :: 0 <= j < i ==> Packable(t, srcPaths[j])
  }

  /** Those before the first that cannot be packed are. */
  ghost predicate StopsAt(t: Tree, zipAt: Path, srcPaths: seq<string>, k: nat, es: seq<Entry>, from: seq<Origin>) {
    PackedUpTo(t, zipAt, srcPaths, k, es, from) && k < |srcPaths| && !Packable(t, srcPaths[k])
  }

  lemma NonePacked(t: Tree, zipAt: Path, srcPaths: seq<string>)
    ensures PackedUpTo(t, zipAt, srcPaths, 0, [], [])
  {
  }

  lemma StopsHere(t: Tree, zipAt: Path, srcPaths: seq<string>, k: nat, es: seq<Entry>, from: seq<Origin>)
    requires PackedUpTo(t, zipAt, srcPaths, k, es, from) && k < |srcPaths| && !Packable(t, srcPaths[k])
    ensures exists k: nat :: StopsAt(t, zipAt, srcPaths, k, es, from)
  {
    assert StopsAt(t, zipAt, srcPaths, k, es, from);
  }

  lemma ErrorAt(t: Tree, srcPaths: seq<string>, i: nat)
    requires i < |srcPaths|
    ensures FirstError(t, srcPaths[i..]) ==
            if SafePath(srcPaths[i]).Forbidden? then ErrForbidden
            else if !Packable(t, srcPaths[i]) then ErrNotFound
            else FirstError(t, srcPaths[i + 1..])
  {
    assert srcPaths[i..][1..] == srcPaths[i + 1..];
  }

  lemma PackedStep(t: Tree, zipAt: Path, srcPaths: seq<string>, i: nat, es: seq<Entry>, from: seq<Origin>,
                   more: seq<Entry>, from': seq<Origin>)
    requires PackedUpTo(t, zipAt, srcPaths, i, es, from) && i < |srcPaths| && Packable(t, srcPaths[i])
    requires PackedOne(t, zipAt, i, Components(srcPaths[i]), more, from')
    ensures PackedUpTo(t, zipAt, srcPaths, i + 1, es + more, from + from')
  {
    PackedAppend(t, zipAt, Walks(srcPaths[..i]), es, from, Components(srcPaths[i]), more, from');
    WalksSnoc(srcPaths, i);
  }

  lemma AllPacked(t: Tree, zipAt: Path, srcPaths: seq<string>, es: seq<Entry>, from: seq<Origin>)
    requires PackedUpTo(t, zipAt, srcPaths, |srcPaths|, es, from)
    ensures Packed(t, zipAt, Walks(srcPaths), es, from)
  {
    TakeAll(srcPaths);
  }

  /** The file manager in local mode. */
  class Service {
    var tree: Tree

    constructor (tree: Tree)
      ensures this.tree == tree
    {
      this.tree := tree;
    }

    /** `afero.Walk`, keeping the regular files: each one beneath `root`, once. */
    method Walk(root: Path) returns (ps: seq<Path>)
      requires tree.Valid()
      ensures forall p :: p in ps <==> p in tree.files && Beneath(root, p)
      ensures forall i, j :: 0 <= i < j < |ps| ==> ps[i] != ps[j]
    {
      var todo := set p | p in tree.files && Beneath(root, p);
      ps := [];
      while todo != {}
        invariant forall p :: p in ps || p in todo <==> p in tree.files && Beneath(root, p)
        invariant forall p :: p in ps ==> p !in todo
        invariant forall i, j :: 0 <= i < j < |ps| ==> ps[i] != ps[j]
        decreases todo
      {
        var p :| p in todo;
        ps := ps + [p];
        todo := todo - {p};
      }
    }

    /** `addFileToZip`: the entry for one file. */
    method AddFileToZip(fsPath: Path, entryName: string, zipAt: Path) returns (e: Entry)
      requires fsPath in tree.files
      ensures e.name == entryName
      ensures fsPath != zipAt ==> e.data == tree.files[fsPath]
    {
      var data := tree.files[fsPath];
      if fsPath == zipAt {
        data := *;
      }
      e := Entry(entryName, data);
    }

    /** The directory branch of `addToZip`. */
    method AddDirToZip(src: Path, zipAt: Path, ghost n: nat) returns (es: seq<Entry>, ghost from: seq<Origin>)
      requires tree.Valid() && ValidPath(src) && src !in tree.files
      ensures PackedOne(tree, zipAt, n, src, es, from)
    {
      es, from := [], [];
      var paths := Walk(src);
      for i := 0 to |paths|
        invariant |es| == |from| == i
        invariant forall k :: 0 <= k < i ==>
          from[k] == Origin(n, src, paths[k]) && ReadFrom(tree, zipAt, es[k], from[k])
      {
        assert paths[i] in paths;
        var e := AddFileToZip(paths[i], WalkName(src, paths[i]), zipAt);
        es, from := es + [e], from + [Origin(n, src, paths[i])];
      }
      PackedWalk(tree, zipAt, n, src, paths, es, from);
    }

    /** `addToZip`: the entries for one source, a file or a directory. */
    method AddToZip(fsPath: string, prefix: string, zipAt: Path, ghost n: nat)
      returns (es: seq<Entry>, r: Outcome, ghost from: seq<Origin>)
      requires tree.Valid() && StartsWith(fsPath, "/")
      requires fsPath == Render(Components(fsPath)) && prefix == Base(fsPath)
      ensures r == if Present(tree, Components(fsPath)) then Done else ErrNotFound
      ensures r.Done? ==> PackedOne(tree, zipAt, n, Components(fsPath), es, from)
    {
      var src := Components(fsPath);
      es, from := [], [];
      if src !in tree.files && src !in tree.dirs {
        return es, ErrNotFound, from;
      }
      r := Done;
      ComponentsValid(fsPath);
      if src in tree.files {
        var e := AddFileToZip(src, prefix, zipAt);
        es, from := [e], [Origin(n, src, src)];
        PackedFile(tree, zipAt, n, src, e);
      } else {
        es, from := AddDirToZip(src, zipAt, n);
      }
    }

    /** The loop of `compressLocal`. */
    method PackSources(srcPaths: seq<string>, zipAt: Path)
      returns (es: seq<Entry>, r: Outcome, ghost from: seq<Origin>)
      requires tree.Valid()
      ensures r == FirstError(tree, srcPaths)
      ensures if r.Done? then PackedUpTo(tree, zipAt, srcPaths, |srcPaths|, es, from)
              else exists k: nat :: StopsAt(tree, zipAt, srcPaths, k, es, from)
    {
      es, r, from := [], Done, [];
      NonePacked(tree, zipAt, srcPaths);
      var i := 0;
      while i < |srcPaths|
        invariant 0 <= i <= |srcPaths| && r.Done?
        invariant FirstError(tree, srcPaths) == FirstError(tree, srcPaths[i..])
        invariant PackedUpTo(tree, zipAt, srcPaths, i, es, from)
      {
        var src := srcPaths[i];
        var clean := SafePath(src);
        ErrorAt(tree, srcPaths, i);
        if clean.Forbidden? {
          StopsHere(tree, zipAt, srcPaths, i, es, from);
          return es, ErrForbidden, from;
        }
        CleanSource(src);
        var more, r', from' := AddToZip(clean.path, Base(clean.path), zipAt, i);
        if !r'.Done? {
          StopsHere(tree, zipAt, srcPaths, i, es, from);
          return es, r', from;
        }
        PackedStep(tree, zipAt, srcPaths, i, es, from, more, from');
        es, from := es + more, from + from';
        i := i + 1;
      }
    }

    /** `compressLocal`. Whatever was packed before a source turned out to be
        forbidden or missing stays in the archive. */
    method CompressLocal(srcPaths: seq<string>, destZip: string) returns (r: Outcome, ghost from: seq<Origin>)
      requires tree.Valid()
      modifies this
      ensures tree.Valid()
      ensures SafePath(destZip).Forbidden? ==> r == ErrForbidden && tree == old(tree)
      ensures SafePath(destZip).Ok? && !old(tree).Room(Components(destZip)) ==>
                r == Failed && tree.files == old(tree).files
      ensures SafePath(destZip).Ok? && old(tree).Room(Components(destZip)) ==>
                var zipAt := Components(destZip);
                && zipAt != []
                && var mid := old(tree).Put(zipAt, Raw([]));
                && zipAt in tree.files && tree.files[zipAt].Zip?
                && tree == mid.Write(zipAt, tree.files[zipAt])
                && r == FirstError(mid, srcPaths)
                && (r.Done? ==> Packed(mid, zipAt, Walks(srcPaths), tree.files[zipAt].entries, from))
                && (!r.Done? ==> exists k: nat :: StopsAt(mid, zipAt, srcPaths, k, tree.files[zipAt].entries, from))
    {
      from := [];
      var dest := SafePath(destZip);
      SafePathExact(destZip);
      if dest.Forbidden? {
        return ErrForbidden, from;
      }
      var zipAt := Components(dest.path);
      ComponentsRender(Components(destZip));
      DirOf(zipAt);
      RoomParts(tree, zipAt);
      var up := Components(Dir(dest.path));
      if !tree.CanMkdirAll(up) {
        return Failed, from;
      }
      MkdirValid(tree, up);
      tree := tree.MkdirAll(up);
      if zipAt in tree.dirs {
        return Failed, from;
      }
      WriteValid(tree, zipAt, Raw([]));
      tree := tree.Write(zipAt, Raw([]));
      var es;
      es, r, from := PackSources(srcPaths, zipAt);
      if r.Done? {
        AllPacked(tree, zipAt, srcPaths, es, from);
      }
      WriteValid(tree, zipAt, Zip(es));
      tree := tree.Write(zipAt, Zip(es));
    }

    /** `extractLocal`. */
    method ExtractLocal(zipPath: string, destDir: string) returns (r: Outcome)
      requires tree.Valid()
      modifies this
      ensures tree.Valid()
      ensures SafePath(zipPath).Forbidden? || SafePath(destDir).Forbidden? ==> r == ErrForbidden && tree == old(tree)
      ensures SafePath(zipPath).Ok? && SafePath(destDir).Ok? ==>
                var files, zipAt := old(tree).files, Components(zipPath);
                if zipAt in files && files[zipAt].Zip? then
                  && StartsWith(SafePath(destDir).path, "/")
                  && (tree, r) == ExtractAll(old(tree), SafePath(destDir).path, files[zipAt].entries)
                  && Outcomes(old(tree), tree, Components(destDir), files[zipAt].entries, r)
                else tree == old(tree) && r == if zipAt in files || zipAt in old(tree).dirs then Failed else ErrNotFound
    {
      var zip, dest := SafePath(zipPath), SafePath(destDir);
      if zip.Forbidden? || dest.Forbidden? {
        return ErrForbidden;
      }
      SafePathExact(zipPath);
      SafePathExact(destDir);
      ComponentsRender(Components(zipPath));
      var zipAt := Components(zip.path);
      if zipAt !in tree.files {
        return if zipAt in tree.dirs then Failed else ErrNotFound;
      }
      if !tree.files[zipAt].Zip? {
        return Failed;
      }
      var es := tree.files[zipAt].entries;
      r := Done;
      NothingExtracted(tree, Components(destDir));
      var i := 0;
      while i < |es|
        invariant 0 <= i <= |es| && r.Done? && tree.Valid()
        invariant (tree, r) == ExtractAll(old(tree), dest.path, es[..i])
        invariant Extracted(old(tree), tree, Components(destDir), es[..i])
      {
        ExtractSnoc(old(tree), dest.path, es[..i], es[i]);
        TakeSnoc(es, i);
        EntryThen(old(tree), tree, destDir, es[..i], es[i]);
        var (t', r') := ExtractEntry(tree, dest.path, es[i]);
        tree, r := t', r';
        i := i + 1;
        if !r.Done? {
          ExtractStops(old(tree), dest.path, es, i);
          StoppedMore(old(tree), tree, Components(destDir), es[..i], es, r);
          return;
        }
      }
      assert es[..i] == es;
    }

    /** `compressLocal` and then `extractLocal` of its archive: every file of the sources,
        as they were when packed, is at its home under the destination, and nothing else
        has changed; it fails only where a home has no room. */
    method CompressThenExtract(srcPaths: seq<string>, destZip: string, destDir: string)
      returns (r: Outcome, ghost packed: Tree)
      requires tree.Valid() && SafePath(destZip).Ok? && SafePath(destDir).Ok?
      requires tree.Room(Components(destZip)) && Components(destZip) != []
      requires FirstError(tree.Put(Components(destZip), Raw([])), srcPaths).Done?
      requires DistinctBases(Walks(srcPaths))
      requires forall s :: s in Walks(srcPaths) ==> !(s <= Components(destZip))
      modifies this
      ensures Components(destZip) in packed.files
      ensures packed == old(tree).Put(Components(destZip), Raw([])).Write(Components(destZip), packed.files[Components(destZip)])
      ensures Regained(old(tree).Put(Components(destZip), Raw([])), Walks(srcPaths), Components(destDir), packed, tree, r)
    {
      ghost var mid := tree.Put(Components(destZip), Raw([]));
      PutValid(tree, Components(destZip), destZip);
      ghost var from;
      r, from := CompressLocal(srcPaths, destZip);
      packed := tree;
      r := ExtractLocal(destZip, destDir);
      RoundTrip(mid, Components(destZip), Walks(srcPaths), packed.files[Components(destZip)].entries, from, packed, destDir);
    }
  }

  lemma PutValid(t: Tree, at: Path, text: string)
    requires t.Valid() && at == Components(text) && at != [] && t.Room(at) && SafePath(text).Ok?
    ensures t.Put(at, Raw([])).Valid()
  {
    SafePathExact(text);
    RoomParts(t, at);
    MkdirValid(t, at[..|at| - 1]);
    WriteValid(t.MkdirAll(at[..|at| - 1]), at, Raw([]));
  }

  function Walks(srcPaths: seq<string>): seq<Path> {
    seq(|srcPaths|, i requires 0 <= i < |srcPaths| => Components(srcPaths[i]))
  }

  lemma WalksSnoc(srcPaths: seq<string>, i: nat)
    requires i < |srcPaths|
    ensures Walks(srcPaths[..i + 1]) == Walks(srcPaths[..i]) + [Components(srcPaths[i])]
  {
  }

  lemma CleanSource(src: string)
    requires SafePath(src).Ok?
    ensures var p := SafePath(src).path;
            StartsWith(p, "/") && Components(p) == Components(src) && p == Render(Components(src))
  {
    SafePathExact(src);
    ComponentsRender(Components(src));
  }

  /** The error of the first source that cannot be packed. */
  function FirstError(t: Tree, srcPaths: seq<string>): Outcome {
    if srcPaths == [] then Done
    else if SafePath(srcPaths[0]).Forbidden? then ErrForbidden
    else if !Present(t, Components(srcPaths[0])) then ErrNotFound
    else FirstError(t, srcPaths[1..])
  }

  /** When `compressLocal` packs all sources, when it meets a forbidden one, and when a
      missing one, whichever comes first. */
  lemma {:induction false} FirstErrorExact(t: Tree, srcPaths: seq<string>)
    ensures var r := FirstError(t, srcPaths);
            && (r.Done? <==> forall i :: 0 <= i < |srcPaths| ==> Packable(t, srcPaths[i]))
            && (r.Done? || exists i :: FirstBad(t, srcPaths, i) && r == (if SafePath(srcPaths[i]).Forbidden? then ErrForbidden else ErrNotFound))
  {
    if srcPaths != [] {
      FirstErrorExact(t, srcPaths[1..]);
      if !Packable(t, srcPaths[0]) {
        assert FirstBad(t, srcPaths, 0);
      } else if !FirstError(t, srcPaths[1..]).Done? {
        var i :| FirstBad(t, srcPaths[1..], i) &&
                 FirstError(t, srcPaths[1..]) == if SafePath(srcPaths[1..][i]).Forbidden? then ErrForbidden else ErrNotFound;
        FirstBadLater(t, srcPaths, i);
      } else {
        PackableAll(t, srcPaths);
      }
    }
  }

  predicate Packable(t: Tree, src: string) {
    SafePath(src).Ok? && (Components(src) in t.files || Components(src) in t.dirs)
  }

  predicate FirstBad(t: Tree, srcPaths: seq<string>, i: int) {
    0 <= i < |srcPaths| && !Packable(t, srcPaths[i]) && forall j :: 0 <= j < i ==> Packable(t, srcPaths[j])
  }

  lemma FirstBadLater(t: Tree, srcPaths: seq<string>, i: int)
    requires srcPaths != [] && Packable(t, srcPaths[0]) && FirstBad(t, srcPaths[1..], i)
    ensures FirstBad(t, srcPaths, i + 1) && srcPaths[i + 1] == srcPaths[1..][i]
  {
    forall j | 0 <= j < i + 1 ensures Packable(t, srcPaths[j]) {
      assert j > 0 ==> srcPaths[j] == srcPaths[1..][j - 1];
    }
  }

  lemma PackableAll(t: Tree, srcPaths: seq<string>)
    requires srcPaths != [] && Packable(t, srcPaths[0]) && forall i :: 0 <= i < |srcPaths[1..]| ==> Packable(t, srcPaths[1..][i])
    ensures forall i :: 0 <= i < |srcPaths| ==> Packable(t, srcPaths[i])
  {
    forall i | 0 <= i < |srcPaths| ensures Packable(t, srcPaths[i]) {
      assert i > 0 ==> srcPaths[i] == srcPaths[1..][i - 1];
    }
  }

  // ---- Round trip ----

  /** Source `s` holds the regular file `p`. */
  predicate Holds(t: Tree, srcs: seq<Path>, s: Path, p: Path) {
    s in srcs && p in t.files && s <= p
  }

  /** dest/base(s)/rel. */
  function Home(d: Path, s: Path, p: Path): Path
    requires s != [] && s <= p
  {
    d + p[|s| - 1..]
  }

  /** No two sources share a base name; the root has none. */
  ghost predicate DistinctBases(srcs: seq<Path>) {
    && (forall s :: s in srcs ==> s != [])
    && (forall a, b :: a in srcs && b in srcs && a[|a| - 1] == b[|b| - 1] ==> a == b)
  }

  /** A directory above the home of a packed file. */
  ghost predicate AboveHome(t: Tree, srcs: seq<Path>, d: Path, q: Path)
    requires DistinctBases(srcs)
  {
    exists s, p :: Holds(t, srcs, s, p) && q < Home(d, s, p)
  }

  /** From `before` to `after` only packed files have come to their homes, with the
      directories above them. */
  ghost predicate OnlyHomes(t: Tree, srcs: seq<Path>, d: Path, before: Tree, after: Tree)
    requires DistinctBases(srcs)
  {
    && before.files.Keys <= after.files.Keys && before.dirs <= after.dirs
    && (forall q :: q in after.files ==>
          || (q in before.files && after.files[q] == before.files[q])
          || exists s, p :: Holds(t, srcs, s, p) && q == Home(d, s, p) && after.files[q] == t.files[p])
    && (forall q :: q in after.dirs ==> q in before.dirs || AboveHome(t, srcs, d, q))
  }

  /** All of them have, and all of those directories. */
  ghost predicate Restored(t: Tree, srcs: seq<Path>, d: Path, after: Tree)
    requires DistinctBases(srcs)
  {
    && (forall s, p :: Holds(t, srcs, s, p) ==> Home(d, s, p) in after.files && after.files[Home(d, s, p)] == t.files[p])
    && (forall q :: AboveHome(t, srcs, d, q) ==> q in after.dirs)
  }

  lemma {:induction false} AimAt(d: Path, es: seq<Entry>, i: nat)
    requires i < |es|
    ensures |Aim(d, es)| == |es|
    ensures Aim(d, es)[i] == Target(d + Components(es[i].name), es[i].data)
  {
    if i > 0 {
      AimAt(d, es[1..], i - 1);
    } else if |es| > 1 {
      AimAt(d, es[1..], 0);
    }
  }

  lemma {:induction false} LandedAt(ts: seq<Target>, i: nat)
    requires i < |ts|
    ensures ts[i].at in Landed(ts)
  {
    if i > 0 {
      LandedAt(ts[1..], i - 1);
    }
  }

  lemma {:induction false} LandedFrom(ts: seq<Target>, q: Path) returns (i: nat)
    requires q in Landed(ts)
    ensures i < |ts| && ts[i].at == q && ts[i].data == Landed(ts)[q]
  {
    if q in Landed(ts[1..]) {
      var j := LandedFrom(ts[1..], q);
      i := j + 1;
    } else {
      i := 0;
    }
  }

  lemma CancelPrefix(d: Path, a: Path, b: Path)
    requires d + a <= d + b
    ensures a <= b
  {
    assert (d + a)[|d|..] == a && (d + b)[|d|..] == b;
    assert (d + b)[..|d + a|] == d + a;
    assert b[..|a|] == (d + b)[|d|..|d + a|];
  }

  lemma AddPrefix(d: Path, a: Path, b: Path)
    requires a <= b
    ensures d + a <= d + b
  {
  }

  /** Homes are ordered as the files themselves are: two files whose homes lie one
      above the other were so already, under one source. */
  lemma HomesOrder(t: Tree, srcs: seq<Path>, d: Path, s: Path, p: Path, s': Path, p': Path)
    requires DistinctBases(srcs) && Holds(t, srcs, s, p) && Holds(t, srcs, s', p')
    requires Home(d, s, p) <= Home(d, s', p')
    ensures s == s' && p <= p'
  {
    var a, a' := p[|s| - 1..], p'[|s'| - 1..];
    TailOf(s, p);
    TailOf(s', p');
    CancelPrefix(d, a, a');
    SameBase(srcs, s, s');
    AddPrefix(s[..|s| - 1], a, a');
  }

  lemma TailOf(s: Path, p: Path)
    requires s != [] && s <= p
    ensures p == s[..|s| - 1] + p[|s| - 1..]
    ensures |p[|s| - 1..]| > 0 && p[|s| - 1..][0] == s[|s| - 1]
  {
  }

  lemma SameBase(srcs: seq<Path>, s: Path, s': Path)
    requires DistinctBases(srcs) && s in srcs && s' in srcs && s[|s| - 1] == s'[|s'| - 1]
    ensures s == s'
  {
  }

  /** Homes of regular files never lie one above the other. */
  lemma HomesApart(t: Tree, srcs: seq<Path>, d: Path, s: Path, p: Path, s': Path, p': Path)
    requires t.Valid() && DistinctBases(srcs) && Holds(t, srcs, s, p) && Holds(t, srcs, s', p')
    requires Home(d, s, p) <= Home(d, s', p')
    ensures s == s' && p == p'
  {
    HomesOrder(t, srcs, d, s, p, s', p');
    LoneFile(t, p);
    assert !(p < p');
  }

  /** The packed entries land exactly at the homes of the packed files. */
  lemma LandsAtHome(t: Tree, zipAt: Path, srcs: seq<Path>, es: seq<Entry>, from: seq<Origin>, d: Path, i: nat)
    requires t.Valid() && DistinctBases(srcs) && Packed(t, zipAt, srcs, es, from) && i < |es|
    requires forall s :: s in srcs ==> !(s <= zipAt)
    ensures var o := from[i];
            && Holds(t, srcs, o.src, o.path)
            && |Aim(d, es)| == |es|
            && Aim(d, es)[i] == Target(Home(d, o.src, o.path), t.files[o.path])
    ensures !DirName(es[i].name) && Components(es[i].name) != []
  {
    var o := from[i];
    assert ReadFrom(t, zipAt, es[i], o);
    assert o.src in srcs;
    AimAt(d, es, i);
    EntryNameWalk(o.src, o.path);
    EntryNameFile(o.src, o.path);
  }

  lemma HomesFlat(t: Tree, zipAt: Path, srcs: seq<Path>, es: seq<Entry>, from: seq<Origin>, d: Path)
    requires t.Valid() && DistinctBases(srcs) && Packed(t, zipAt, srcs, es, from)
    requires forall s :: s in srcs ==> !(s <= zipAt)
    ensures Flat(Landed(Aim(d, es)).Keys)
  {
    var ts := Aim(d, es);
    if es != [] {
      LandsAtHome(t, zipAt, srcs, es, from, d, 0);
    }
    forall a, b | a in Landed(ts) && b in Landed(ts) ensures !(a < b) {
      var i := LandedFrom(ts, a);
      var j := LandedFrom(ts, b);
      LandsAtHome(t, zipAt, srcs, es, from, d, i);
      LandsAtHome(t, zipAt, srcs, es, from, d, j);
      if a < b {
        HomesApart(t, srcs, d, from[i].src, from[i].path, from[j].src, from[j].path);
        assert false;
      }
    }
  }

  /** `Landed` holds each packed file at its home, and only those. */
  lemma LandedIsHomes(t: Tree, zipAt: Path, srcs: seq<Path>, es: seq<Entry>, from: seq<Origin>, d: Path)
    requires t.Valid() && DistinctBases(srcs) && Packed(t, zipAt, srcs, es, from)
    requires forall s :: s in srcs ==> !(s <= zipAt)
    ensures AtHomes(t, srcs, d, Landed(Aim(d, es)))
  {
    var ts := Aim(d, es);
    forall s, p | Holds(t, srcs, s, p)
      ensures Home(d, s, p) in Landed(ts) && Landed(ts)[Home(d, s, p)] == t.files[p]
    {
      var k :| 0 <= k < |srcs| && srcs[k] == s;
      var i :| 0 <= i < |from| && from[i] == Origin(k, s, p);
      LandsAtHome(t, zipAt, srcs, es, from, d, i);
      LandedAt(ts, i);
      var j := LandedFrom(ts, Home(d, s, p));
      LandsAtHome(t, zipAt, srcs, es, from, d, j);
      HomesApart(t, srcs, d, s, p, from[j].src, from[j].path);
    }
    forall q | q in Landed(ts) ensures exists s, p :: Holds(t, srcs, s, p) && q == Home(d, s, p) {
      var i := LandedFrom(ts, q);
      if es != [] {
        AimAt(d, es, 0);
      }
      LandsAtHome(t, zipAt, srcs, es, from, d, i);
      assert Holds(t, srcs, from[i].src, from[i].path);
    }
  }

  lemma PackedAreFiles(t: Tree, zipAt: Path, srcs: seq<Path>, es: seq<Entry>, from: seq<Origin>, d: Path)
    requires t.Valid() && DistinctBases(srcs) && Packed(t, zipAt, srcs, es, from)
    requires forall s :: s in srcs ==> !(s <= zipAt)
    ensures FileEntries(es)
    ensures forall i :: 0 <= i < |Aim(d, es)| ==> Aim(d, es)[i].at != []
  {
    if es != [] {
      AimAt(d, es, 0);
    }
    forall i | 0 <= i < |es|
      ensures !DirName(es[i].name) && Components(es[i].name) != [] && Aim(d, es)[i].at != []
    {
      LandsAtHome(t, zipAt, srcs, es, from, d, i);
    }
  }

  /** Extracting the sources packed from `t` into `before` ended with `r` in `after`: only
      packed files have come to their homes dest/base(src)/rel, with the directories above
      them, however it ended; it succeeded exactly when every home had room, and then all
      of them are there with their bytes. */
  ghost predicate Regained(t: Tree, srcs: seq<Path>, d: Path, before: Tree, after: Tree, r: Outcome)
    requires DistinctBases(srcs)
  {
    && OnlyHomes(t, srcs, d, before, after)
    && (r.Done? <==> forall s, p :: Holds(t, srcs, s, p) ==> before.Room(Home(d, s, p)))
    && (r.Done? ==> Restored(t, srcs, d, after))
  }

  lemma AimsAgree(t: Tree, zipAt: Path, srcs: seq<Path>, es: seq<Entry>, from: seq<Origin>, d: Path)
    requires t.Valid() && DistinctBases(srcs) && Packed(t, zipAt, srcs, es, from)
    requires forall s :: s in srcs ==> !(s <= zipAt)
    ensures Agree(Aim(d, es))
  {
    var ts := Aim(d, es);
    if es != [] {
      LandsAtHome(t, zipAt, srcs, es, from, d, 0);
    }
    forall i, j | 0 <= i < |ts| && 0 <= j < |ts| && ts[i].at == ts[j].at ensures ts[i].data == ts[j].data {
      LandsAtHome(t, zipAt, srcs, es, from, d, i);
      LandsAtHome(t, zipAt, srcs, es, from, d, j);
      HomesApart(t, srcs, d, from[i].src, from[i].path, from[j].src, from[j].path);
    }
  }

  /** Packing and then extracting is the identity on the packed files. */
  lemma RoundTrip(t: Tree, zipAt: Path, srcs: seq<Path>, es: seq<Entry>, from: seq<Origin>, t1: Tree, dest: string)
    requires t.Valid() && DistinctBases(srcs) && Packed(t, zipAt, srcs, es, from)
    requires forall s :: s in srcs ==> !(s <= zipAt)
    requires SafePath(dest).Ok?
    ensures StartsWith(SafePath(dest).path, "/")
    ensures var (t2, r) := ExtractAll(t1, SafePath(dest).path, es);
            Regained(t, srcs, Components(dest), t1, t2, r)
  {
    var d := Components(dest);
    var ts := Aim(d, es);
    PackedAreFiles(t, zipAt, srcs, es, from, d);
    ExtractIsPutAll(t1, dest, es);
    HomesFlat(t, zipAt, srcs, es, from, d);
    LandedIsHomes(t, zipAt, srcs, es, from, d);
    PutAllSucceeds(t1, ts);
    RoomAtHomes(t, srcs, d, t1, Landed(ts));
    AimsAgree(t, zipAt, srcs, es, from, d);
    ExtractConfined(t1, dest, es);
    var t2 := ExtractAll(t1, SafePath(dest).path, es).0;
    ConfinedToHomes(t, srcs, d, t1, t2, Landed(ts));
    if PutAll(t1, ts).Some? {
      PutAllWrites(t1, ts);
      forall q ensures q in t2.dirs <==> q in t1.dirs || Above(q, Landed(ts).Keys) {
        PutAllDirs(t1, ts, q);
      }
      RestoredBy(t, srcs, d, t1, t2, Landed(ts));
    }
  }

  /** `landed` holds each packed file at its home, and only those. */
  ghost predicate AtHomes(t: Tree, srcs: seq<Path>, d: Path, landed: map<Path, Content>)
    requires DistinctBases(srcs)
  {
    && (forall s, p :: Holds(t, srcs, s, p) ==> Home(d, s, p) in landed && landed[Home(d, s, p)] == t.files[p])
    && (forall q :: q in landed ==> exists s, p :: Holds(t, srcs, s, p) && q == Home(d, s, p))
  }

  lemma RoomAtHomes(t: Tree, srcs: seq<Path>, d: Path, t1: Tree, landed: map<Path, Content>)
    requires DistinctBases(srcs) && AtHomes(t, srcs, d, landed)
    ensures AllRoom(t1, landed.Keys) <==> forall s, p :: Holds(t, srcs, s, p) ==> t1.Room(Home(d, s, p))
  {
  }

  lemma AboveLanded(t: Tree, srcs: seq<Path>, d: Path, landed: map<Path, Content>, q: Path)
    requires DistinctBases(srcs) && AtHomes(t, srcs, d, landed)
    ensures Above(q, landed.Keys) <==> AboveHome(t, srcs, d, q)
  {
    if Above(q, landed.Keys) {
      var a :| a in landed.Keys && q < a;
      var s, p :| Holds(t, srcs, s, p) && a == Home(d, s, p);
    }
    if AboveHome(t, srcs, d, q) {
      var s, p :| Holds(t, srcs, s, p) && q < Home(d, s, p);
      assert Home(d, s, p) in landed.Keys;
    }
  }

  lemma ConfinedToHomes(t: Tree, srcs: seq<Path>, d: Path, before: Tree, after: Tree, landed: map<Path, Content>)
    requires DistinctBases(srcs) && AtHomes(t, srcs, d, landed) && Confined(before, after, landed)
    ensures OnlyHomes(t, srcs, d, before, after)
  {
    forall q | q in after.files && !(q in before.files && after.files[q] == before.files[q])
      ensures exists s, p :: Holds(t, srcs, s, p) && q == Home(d, s, p) && after.files[q] == t.files[p]
    {
      var s, p :| Holds(t, srcs, s, p) && q == Home(d, s, p);
    }
    forall q | q in after.dirs && q !in before.dirs ensures AboveHome(t, srcs, d, q) {
      AboveLanded(t, srcs, d, landed, q);
    }
  }

  lemma RestoredBy(t: Tree, srcs: seq<Path>, d: Path, before: Tree, after: Tree, landed: map<Path, Content>)
    requires DistinctBases(srcs) && AtHomes(t, srcs, d, landed)
    requires after.files == before.files + landed
    requires forall q :: q in after.dirs <==> q in before.dirs || Above(q, landed.Keys)
    ensures Restored(t, srcs, d, after)
  {
    forall q | AboveHome(t, srcs, d, q) ensures q in after.dirs {
      AboveLanded(t, srcs, d, landed, q);
    }
  }
}
