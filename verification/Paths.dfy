/** Path cleaning in the file manager: `safePath`, and the `path/filepath`
    calls around it, on strings. */
module Paths {
  import opened Text

  /** A resolved path: the names from the root down. */
  type Path = seq<string>

  datatype PathResult = Ok(path: string) | Forbidden

  predicate ValidName(c: string) {
    c != "" && c != "." && c != ".." && '/' !in c
  }

  predicate ValidPath(cs: Path) {
    forall c :: c in cs ==> ValidName(c)
  }

  /** One step of a walk from the root: ".." at the root stays at the root. */
  function Enter(at: Path, c: string): Path {
    if c == "" || c == "." then at
    else if c == ".." then (if at == [] then [] else at[..|at| - 1])
    else at + [c]
  }

  function Resolve(parts: seq<string>, at: Path): Path {
    if parts == [] then at else Resolve(parts[1..], Enter(at, parts[0]))
  }

  /** The directory walk a rooted path spells. */
  function Components(p: string): Path {
    Resolve(Split(p, '/'), [])
  }

  function Render(cs: Path): string {
    "/" + Join(cs, "/")
  }

  /** `filepath.Clean` on a rooted path. */
  function Clean(p: string): string
    requires StartsWith(p, "/")
  {
    Render(Components(p))
  }

  /** `filepath.Join(a, b)` when `a` is rooted. */
  function JoinPath(a: string, b: string): string
    requires StartsWith(a, "/")
  {
    Clean(a + "/" + b)
  }

  /** Length of the text up to and including the last slash. */
  function UpToSlash(p: string): (n: nat)
    ensures n <= |p|
    ensures n > 0 ==> p[n - 1] == '/'
    ensures '/' !in p[n..]
    ensures n == 0 ==> '/' !in p
  {
    if p == [] then 0
    else if p[|p| - 1] == '/' then |p|
    else UpToSlash(p[..|p| - 1])
  }

  /** `filepath.Dir` on a rooted path. */
  function Dir(p: string): string
    requires StartsWith(p, "/")
  {
    assert p[0] in p;
    Clean(p[..UpToSlash(p)])
  }

  /** `filepath.Base` on a rooted path. */
  function Base(p: string): string
    requires StartsWith(p, "/")
  {
    var q := TrimRightChar(p, '/');
    var b := q[UpToSlash(q)..];
    if b == "" then "/" else b
  }

  /** `strings.Contains(s, "..")`. */
  predicate HasDotDot(s: string) {
    exists i :: 0 <= i < |s| - 1 && s[i] == '.' && s[i + 1] == '.'
  }

  /** `safePath`: clean the path as if rooted, then refuse any text that still
      holds two dots in a row. */
  function SafePath(rel: string): PathResult {
    var clean := Clean("/" + rel);
    if HasDotDot(clean) then Forbidden else Ok(clean)
  }

  /** Where `extractLocal` puts an archive entry, and the check it makes. */
  function EntryPath(cleanDest: string, name: string): string
    requires StartsWith(cleanDest, "/")
  {
    JoinPath(cleanDest, Clean("/" + name))
  }

  lemma {:induction false} ResolveConcat(a: seq<string>, b: seq<string>, at: Path)
    ensures Resolve(a + b, at) == Resolve(b, Resolve(a, at))
  {
    if a == [] {
      assert a + b == b;
    } else {
      assert (a + b)[1..] == a[1..] + b;
      ResolveConcat(a[1..], b, Enter(at, a[0]));
    }
  }

  lemma {:induction false} ResolveNames(cs: Path, at: Path)
    requires ValidPath(cs)
    ensures Resolve(cs, at) == at + cs
  {
    if cs != [] {
      assert cs[0] in cs;
      ResolveNames(cs[1..], at + [cs[0]]);
      assert at + [cs[0]] + cs[1..] == at + cs;
    }
  }

  lemma {:induction false} ResolveValid(parts: seq<string>, at: Path)
    requires ValidPath(at)
    requires forall p :: p in parts ==> '/' !in p
    ensures ValidPath(Resolve(parts, at))
  {
    if parts != [] {
      assert parts[0] in parts;
      ResolveValid(parts[1..], Enter(at, parts[0]));
    }
  }

  lemma ComponentsValid(p: string)
    ensures ValidPath(Components(p))
  {
    ResolveValid(Split(p, '/'), []);
  }

  /** A slash only separates: the walks on its two sides follow each other. */
  lemma ComponentsSlash(a: string, b: string)
    ensures Components(a + "/" + b) == Resolve(Split(b, '/'), Components(a))
  {
    SplitConcat(a, b, '/');
    ResolveConcat(Split(a, '/'), Split(b, '/'), []);
  }

  lemma ResolveJoin(cs: Path, at: Path)
    requires ValidPath(cs)
    ensures Resolve(Split(Join(cs, "/"), '/'), at) == at + cs
  {
    if cs != [] {
      forall c | c in cs ensures '/' !in c { assert ValidName(c); }
      SplitJoin(cs, '/');
      ResolveNames(cs, at);
    }
  }

  /** Rendering is undone by resolving: no two clean paths render alike. */
  lemma ComponentsRender(cs: Path)
    requires ValidPath(cs)
    ensures Components(Render(cs)) == cs
  {
    ComponentsSlash("", Join(cs, "/"));
    assert "" + "/" + Join(cs, "/") == Render(cs);
    ResolveJoin(cs, []);
  }

  /** An extra leading slash changes nothing. */
  lemma ComponentsSlashed(p: string)
    ensures Components("/" + p) == Components(p)
  {
    ComponentsSlash("", p);
    assert "" + "/" + p == "/" + p;
  }

  /** `Clean` is idempotent and only depends on the walk. */
  lemma CleanIdempotent(p: string)
    requires StartsWith(p, "/")
    ensures Clean(Clean(p)) == Clean(p)
  {
    ComponentsValid(p);
    ComponentsRender(Components(p));
  }

  lemma ComponentsMore(p: string, c: string)
    requires '/' !in c
    ensures Components(p + "/" + c) == Enter(Components(p), c)
  {
    ComponentsSlash(p, c);
    SplitPlain(c, '/');
    assert [c][1..] == [];
  }

  lemma RenderRoot(cs: Path)
    requires ValidPath(cs)
    ensures Render(cs) == "/" <==> cs == []
  {
    ComponentsRender(cs);
    ComponentsRender([]);
    assert Render([]) == "/";
  }

  /** `p` cleans to the walk `at`. */
  predicate CleansTo(p: string, at: Path) {
    StartsWith(p, "/") && Components(p) == at && Clean(p) == Render(at) && ValidPath(at)
  }

  lemma Cleans(p: string)
    requires StartsWith(p, "/")
    ensures CleansTo(p, Components(p))
  {
    ComponentsValid(p);
  }

  lemma CleansMore(p: string, c: string, q: string)
    requires StartsWith(p, "/") && '/' !in c && q == p + "/" + c
    ensures CleansTo(q, Enter(Components(p), c))
  {
    ComponentsMore(p, c);
    assert q[0] == p[0];
    Cleans(q);
  }

  /** What cleaning means, name by name. Empty names and dots do nothing, ... */
  lemma CleanDot(p: string, c: string)
    requires StartsWith(p, "/") && (c == "" || c == ".")
    ensures StartsWith(p + "/" + c, "/") && Clean(p + "/" + c) == Clean(p)
  {
    CleansMore(p, c, p + "/" + c);
    Cleans(p);
  }

  /** ... a name goes below what came before, ... */
  lemma CleanName(p: string, c: string)
    requires StartsWith(p, "/") && ValidName(c)
    ensures StartsWith(p + "/" + c, "/")
    ensures Clean(p + "/" + c) == (if Clean(p) == "/" then "" else Clean(p)) + "/" + c
  {
    CleansMore(p, c, p + "/" + c);
    Cleans(p);
    RenderRoot(Components(p));
    RenderSnoc(Components(p), c);
  }

  /** ... and two dots take the last name back, ... */
  lemma CleanDotDot(p: string, c: string)
    requires StartsWith(p, "/") && ValidName(c)
    ensures StartsWith(p + "/" + c + "/" + "..", "/")
    ensures Clean(p + "/" + c + "/" + "..") == Clean(p)
  {
    var q := p + "/" + c;
    CleansMore(p, c, q);
    CleansMore(q, "..", q + "/" + "..");
    Cleans(p);
    EnterBack(Components(p), c);
  }

  lemma EnterBack(at: Path, c: string)
    requires ValidName(c)
    ensures Enter(Enter(at, c), "..") == at
  {
    assert (at + [c])[..|at|] == at;
  }

  /** ... or do nothing at the root. */
  lemma CleanRoot()
    ensures Clean("/") == "/" && Clean("/..") == "/"
  {
    var at := Components("/");
    assert Split("/", '/') == ["", ""] && ["", ""][1..] == [""] && [""][1..] == [];
    assert at == [] && Render([]) == "/";
    CleansUp();
  }

  lemma CleansUp()
    ensures Components("/..") == []
  {
    ComponentsMore("", "..");
    assert "" + "/" + ".." == "/..";
  }

  lemma DotDotSlash(a: string, b: string)
    ensures HasDotDot(a + "/" + b) <==> HasDotDot(a) || HasDotDot(b)
  {
    var s := a + "/" + b;
    if HasDotDot(s) {
      var i :| 0 <= i < |s| - 1 && s[i] == '.' && s[i + 1] == '.';
      if i + 1 < |a| {
        assert a[i] == '.' && a[i + 1] == '.';
      } else {
        assert s[|a|] == '/';
        var j := i - |a| - 1;
        assert b[j] == '.' && b[j + 1] == '.';
      }
    }
    if HasDotDot(a) {
      var i :| 0 <= i < |a| - 1 && a[i] == '.' && a[i + 1] == '.';
      assert s[i] == '.' && s[i + 1] == '.';
    }
    if HasDotDot(b) {
      var i :| 0 <= i < |b| - 1 && b[i] == '.' && b[i + 1] == '.';
      assert s[i + |a| + 1] == '.' && s[i + |a| + 1 + 1] == '.';
    }
  }

  lemma {:induction false} DotDotJoin(cs: Path)
    ensures HasDotDot(Join(cs, "/")) <==> exists c :: c in cs && HasDotDot(c)
  {
    if |cs| == 1 {
      assert cs[0] in cs;
    } else if |cs| > 1 {
      DotDotSlash(cs[0], Join(cs[1..], "/"));
      DotDotJoin(cs[1..]);
      assert cs == [cs[0]] + cs[1..];
      assert cs[0] in cs;
    }
  }

  lemma DotDotRender(cs: Path)
    ensures HasDotDot(Render(cs)) <==> exists c :: c in cs && HasDotDot(c)
  {
    DotDotSlash("", Join(cs, "/"));
    assert "" + "/" + Join(cs, "/") == Render(cs);
    DotDotJoin(cs);
  }

  /** `safePath` refuses exactly the paths whose walk ends below some name with
      two dots in a row; otherwise it returns the walk, spelled with valid names. */
  lemma SafePathExact(rel: string)
    ensures SafePath(rel).Forbidden? <==> exists c :: c in Components(rel) && HasDotDot(c)
    ensures SafePath(rel).Ok? ==> SafePath(rel).path == Render(Components(rel))
    ensures SafePath(rel).Ok? ==>
              var p := SafePath(rel).path; forall i :: 0 <= i < |p| - 1 ==> !(p[i] == '.' && p[i + 1] == '.')
    ensures SafePath(rel).Forbidden? ==>
              exists c, i :: c in Components(rel) && 0 <= i < |c| - 1 && c[i] == '.' && c[i + 1] == '.'
    ensures ValidPath(Components(rel))
  {
    ComponentsSlashed(rel);
    ComponentsValid(rel);
    DotDotRender(Components(rel));
  }

  /** Sending an accepted path through `safePath` again changes nothing. */
  lemma SafePathIdempotent(rel: string)
    requires SafePath(rel).Ok?
    ensures SafePath(SafePath(rel).path) == SafePath(rel)
  {
    SafePathExact(rel);
    ComponentsRender(Components(rel));
    SafePathExact(SafePath(rel).path);
  }

  lemma {:induction false} JoinAppend(a: Path, b: Path)
    requires a != [] && b != []
    ensures Join(a + b, "/") == Join(a, "/") + "/" + Join(b, "/")
  {
    if |a| == 1 {
      assert (a + b)[1..] == b;
    } else {
      assert (a + b)[1..] == a[1..] + b;
      JoinAppend(a[1..], b);
    }
  }

  /** A longer walk spells a longer text. */
  lemma RenderPrefix(a: Path, b: Path)
    ensures StartsWith(Render(a + b), Render(a))
  {
    if b == [] {
      assert a + b == a;
    } else if a == [] {
      assert a + b == b;
    } else {
      JoinAppend(a, b);
    }
  }

  /** Zip-slip: whatever the entry is called, it lands inside the cleaned
      destination, name by name, so the string check in `extractLocal` holds. */
  lemma EntryStaysInside(dest: string, name: string)
    requires SafePath(dest).Ok?
    ensures StartsWith(SafePath(dest).path, "/")
    ensures var d := SafePath(dest).path;
            && Components(EntryPath(d, name)) == Components(dest) + Components(name)
            && EntryPath(d, name) == Render(Components(dest) + Components(name))
            && StartsWith(EntryPath(d, name), d)
  {
    SafePathExact(dest);
    var d := SafePath(dest).path;
    var ds, ns := Components(dest), Components(name);
    ComponentsRender(ds);
    ComponentsSlashed(name);
    ComponentsValid(name);
    var tail := Clean("/" + name);
    assert tail == Render(ns);
    ComponentsSlash(d, tail);
    ComponentsSlash("", Join(ns, "/"));
    assert "" + "/" + Join(ns, "/") == tail;
    SplitConcat("", Join(ns, "/"), '/');
    ResolveJoin(ns, ds);
    assert Split(tail, '/') == [""] + Split(Join(ns, "/"), '/');
    assert Split(tail, '/')[1..] == Split(Join(ns, "/"), '/');
    assert Components(d + "/" + tail) == ds + ns;
    RenderPrefix(ds, ns);
    ComponentsRender(ds + ns);
  }

  lemma {:induction false} UpToSlashName(a: string, name: string)
    requires '/' !in name
    ensures UpToSlash(a + "/" + name) == |a| + 1
  {
    var p := a + "/" + name;
    if name != "" {
      assert p[..|p| - 1] == a + "/" + name[..|name| - 1];
      UpToSlashName(a, name[..|name| - 1]);
      assert name[|name| - 1] in name;
    }
  }

  lemma RenderSnoc(parent: Path, name: string)
    ensures Render(parent + [name]) == (if parent == [] then "" else Render(parent)) + "/" + name
  {
    if parent != [] {
      JoinAppend(parent, [name]);
    }
  }

  lemma BaseAfterSlash(a: string, name: string)
    requires ValidName(name) && StartsWith(a + "/" + name, "/")
    ensures Base(a + "/" + name) == name
  {
    var p := a + "/" + name;
    UpToSlashName(a, name);
    assert name[|name| - 1] in name;
    assert p[|p| - 1] == name[|name| - 1];
    assert TrimRightChar(p, '/') == p;
    assert p[|a| + 1..] == name;
  }

  lemma DirBeforeSlash(a: string, name: string)
    requires ValidName(name) && StartsWith(a + "/" + name, "/")
    ensures StartsWith(a + "/", "/") && Dir(a + "/" + name) == Clean(a + "/")
  {
    UpToSlashName(a, name);
    assert (a + "/" + name)[..|a| + 1] == a + "/";
  }

  lemma CleanSlash(parent: Path, a: string)
    requires ValidPath(parent) && a == if parent == [] then "" else Render(parent)
    ensures StartsWith(a + "/", "/") && Clean(a + "/") == Render(parent)
  {
    ComponentsSlash(a, "");
    assert a + "/" + "" == a + "/";
    ComponentsRender(parent);
  }

  /** `filepath.Dir` and `filepath.Base` take a clean path apart. */
  lemma DirBaseRender(parent: Path, name: string)
    requires ValidPath(parent) && ValidName(name)
    ensures Dir(Render(parent + [name])) == Render(parent)
    ensures Base(Render(parent + [name])) == name
  {
    var a := if parent == [] then "" else Render(parent);
    RenderSnoc(parent, name);
    BaseAfterSlash(a, name);
    DirBeforeSlash(a, name);
    CleanSlash(parent, a);
  }
}
