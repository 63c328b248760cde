/** Keeping the newest: the pruning of uptime checks and of backup archives. */
module Retention {
  import opened Text

  // ---- Sorting, newest first ----

  predicate Descending(xs: seq<int>) {
    forall i, j :: 0 <= i < j < |xs| ==> xs[i] >= xs[j]
  }

  function InsertDesc(x: int, xs: seq<int>): seq<int> {
    if xs == [] || x >= xs[0] then [x] + xs else [xs[0]] + InsertDesc(x, xs[1..])
  }

  /** `ORDER BY checked_at DESC`. */
  function SortDesc(xs: seq<int>): seq<int> {
    if xs == [] then [] else InsertDesc(xs[0], SortDesc(xs[1..]))
  }

  lemma {:induction false} InsertIsDescending(x: int, xs: seq<int>)
    requires Descending(xs)
    ensures Descending(InsertDesc(x, xs))
  {
    if xs != [] && x < xs[0] {
      InsertIsDescending(x, xs[1..]);
      Prepended(xs[0], InsertDesc(x, xs[1..]));
    }
  }

  lemma Prepended(x: int, xs: seq<int>)
    requires Descending(xs) && (xs != [] ==> xs[0] <= x)
    ensures Descending([x] + xs)
  {
  }

  lemma {:induction false} InsertKeepsAll(x: int, xs: seq<int>)
    ensures multiset(InsertDesc(x, xs)) == multiset(xs) + multiset{x}
    ensures |InsertDesc(x, xs)| == |xs| + 1
  {
    if xs != [] && x < xs[0] {
      InsertKeepsAll(x, xs[1..]);
      assert xs == [xs[0]] + xs[1..];
    }
  }

  lemma {:induction false} SortIsDescending(xs: seq<int>)
    ensures Descending(SortDesc(xs)) && multiset(SortDesc(xs)) == multiset(xs) && |SortDesc(xs)| == |xs|
  {
    if xs != [] {
      SortIsDescending(xs[1..]);
      InsertIsDescending(xs[0], SortDesc(xs[1..]));
      InsertKeepsAll(xs[0], SortDesc(xs[1..]));
      assert xs == [xs[0]] + xs[1..];
    }
  }

  /** How many are `t` or more. */
  function AtLeast(xs: seq<int>, t: int): nat {
    if xs == [] then 0 else (if xs[0] >= t then 1 else 0) + AtLeast(xs[1..], t)
  }

  lemma {:induction false} AtLeastInsert(x: int, xs: seq<int>, t: int)
    ensures AtLeast(InsertDesc(x, xs), t) == AtLeast(xs, t) + if x >= t then 1 else 0
  {
    if xs == [] || x >= xs[0] {
      assert ([x] + xs)[1..] == xs;
    } else {
      AtLeastInsert(x, xs[1..], t);
      assert ([xs[0]] + InsertDesc(x, xs[1..]))[1..] == InsertDesc(x, xs[1..]);
    }
  }

  lemma {:induction false} AtLeastSorted(xs: seq<int>, t: int)
    ensures AtLeast(SortDesc(xs), t) == AtLeast(xs, t)
  {
    if xs != [] {
      AtLeastSorted(xs[1..], t);
      AtLeastInsert(xs[0], SortDesc(xs[1..]), t);
    }
  }

  lemma {:induction false} AtLeastSplit(xs: seq<int>, t: int, k: nat)
    requires k <= |xs|
    requires forall i :: 0 <= i < |xs| ==> (xs[i] >= t <==> i < k)
    ensures AtLeast(xs, t) == k
  {
    if xs != [] {
      if k == 0 {
        AtLeastSplit(xs[1..], t, 0);
      } else {
        AtLeastSplit(xs[1..], t, k - 1);
      }
    }
  }

  // ---- Uptime checks ----

  datatype Check = Check(siteID: string, checkedAt: int)

  const DEFAULT_KEEP := 10080

  function Keep(keep: int): nat {
    if keep <= 0 then DEFAULT_KEEP else keep
  }

  function Times(rows: seq<Check>, siteID: string): seq<int> {
    if rows == [] then []
    else (if rows[0].siteID == siteID then [rows[0].checkedAt] else []) + Times(rows[1..], siteID)
  }

  /** The subquery: the time at offset `keep` of the site's rows, newest first, if any. */
  function Threshold(rows: seq<Check>, siteID: string, keep: nat): Option<int> {
    SortIsDescending(Times(rows, siteID));
    var sorted := SortDesc(Times(rows, siteID));
    if keep < |sorted| then Some(sorted[keep]) else None
  }

  /** Whether DELETE takes a row. */
  predicate Goes(c: Check, siteID: string, threshold: Option<int>) {
    c.siteID == siteID && threshold.Some? && c.checkedAt < threshold.value
  }

  function Without(rows: seq<Check>, siteID: string, threshold: Option<int>): seq<Check> {
    if rows == [] then []
    else (if Goes(rows[0], siteID, threshold) then [] else [rows[0]]) + Without(rows[1..], siteID, threshold)
  }

  class UptimeTable {
    var rows: seq<Check>

    constructor (initial: seq<Check>)
      ensures rows == initial
    {
      rows := initial;
    }

    method Prune(siteID: string, keep: int)
      modifies this
      ensures rows == Without(old(rows), siteID, Threshold(old(rows), siteID, Keep(keep)))
      ensures forall c :: c in rows <==> c in old(rows) && Stays(old(rows), siteID, keep, c)
    {
      var n := if keep <= 0 then DEFAULT_KEEP else keep;
      var threshold := Threshold(rows, siteID, n);
      var kept: seq<Check> := [];
      var i := 0;
      while i < |rows|
        invariant 0 <= i <= |rows| && rows == old(rows)
        invariant kept + Without(rows[i..], siteID, threshold) == Without(rows, siteID, threshold)
      {
        assert rows[i..][1..] == rows[i + 1..];
        if !Goes(rows[i], siteID, threshold) {
          Assoc(kept, [rows[i]], Without(rows[i + 1..], siteID, threshold));
          kept := kept + [rows[i]];
        } else {
          assert [] + Without(rows[i + 1..], siteID, threshold) == Without(rows[i + 1..], siteID, threshold);
        }
        i := i + 1;
      }
      assert kept + [] == kept;
      rows := kept;
      forall c ensures c in rows <==> c in old(rows) && Stays(old(rows), siteID, keep, c) {
        WithoutHas(old(rows), siteID, threshold, c);
        if c in old(rows) {
          GoesIff(old(rows), siteID, keep, c);
        }
      }
    }
  }

  /** A row stays if it is another site's, or no more than `keep` rows of the site, or
      10080 if that is no usable number, are newer. */
  predicate Stays(rows: seq<Check>, siteID: string, keep: int, c: Check) {
    c.siteID != siteID || AtLeast(Times(rows, siteID), c.checkedAt + 1) <= if keep <= 0 then 10080 else keep
  }

  lemma {:induction false} WithoutHas(rows: seq<Check>, siteID: string, threshold: Option<int>, c: Check)
    ensures c in Without(rows, siteID, threshold) <==> c in rows && !Goes(c, siteID, threshold)
  {
    if rows != [] {
      WithoutHas(rows[1..], siteID, threshold, c);
      assert rows == [rows[0]] + rows[1..];
    }
  }

  lemma {:induction false} AtLeastFew(xs: seq<int>, t: int, k: nat)
    requires forall i :: k <= i < |xs| ==> xs[i] < t
    ensures AtLeast(xs, t) <= k
  {
    if xs != [] {
      AtLeastFew(xs[1..], t, if k == 0 then 0 else k - 1);
    }
  }

  lemma GoesIff(rows: seq<Check>, siteID: string, keep: int, c: Check)
    ensures Goes(c, siteID, Threshold(rows, siteID, Keep(keep))) <==> !Stays(rows, siteID, keep, c)
  {
    var sorted, k, t := SortDesc(Times(rows, siteID)), Keep(keep), c.checkedAt + 1;
    SortIsDescending(Times(rows, siteID));
    AtLeastSorted(Times(rows, siteID), t);
    if k < |sorted| && c.checkedAt < sorted[k] {
      forall i | 0 <= i < k + 1 ensures sorted[i] >= t {
        assert i < k ==> sorted[i] >= sorted[k];
      }
      AtLeastGrows(sorted, t, k + 1);
    } else {
      forall i | k <= i < |sorted| ensures sorted[i] < t {
        assert i > k ==> sorted[k] >= sorted[i];
      }
      AtLeastFew(sorted, t, k);
    }
  }

  lemma {:induction false} WithoutOther(rows: seq<Check>, siteID: string, threshold: Option<int>, other: string)
    requires other != siteID
    ensures Times(Without(rows, siteID, threshold), other) == Times(rows, other)
  {
    if rows != [] {
      WithoutOther(rows[1..], siteID, threshold, other);
      var rest := Without(rows[1..], siteID, threshold);
      assert ([rows[0]] + rest)[1..] == rest;
      assert [] + rest == rest;
    }
  }

  lemma Behind<T>(x: T, rest: seq<T>)
    ensures ([x] + rest)[1..] == rest && [] + rest == rest
  {
  }

  lemma {:induction false} WithoutCount(rows: seq<Check>, siteID: string, t: int)
    ensures |Times(Without(rows, siteID, Some(t)), siteID)| == AtLeast(Times(rows, siteID), t)
    ensures forall x :: x in Times(Without(rows, siteID, Some(t)), siteID) ==> x >= t
  {
    if rows != [] {
      WithoutCount(rows[1..], siteID, t);
      var rest := Without(rows[1..], siteID, Some(t));
      Behind(rows[0], rest);
      Behind(rows[0].checkedAt, Times(rows[1..], siteID));
    }
  }

  lemma {:induction false} WithoutNone(rows: seq<Check>, siteID: string)
    ensures Without(rows, siteID, None) == rows
  {
    if rows != [] {
      WithoutNone(rows[1..], siteID);
      assert [rows[0]] + rows[1..] == rows;
    }
  }

  /** Pruning leaves other sites alone and never a site with fewer than `keep` + 1 rows
      it had: it keeps the row at the offset too. It keeps exactly `keep` + 1 if and only
      if that row and the next older one, if any, have different times. */
  lemma PruneKeepsOneMore(rows: seq<Check>, siteID: string, keep: int)
    ensures var sorted := SortDesc(Times(rows, siteID));
            var k := Keep(keep);
            var after := Without(rows, siteID, Threshold(rows, siteID, k));
            && (forall other :: other != siteID ==> Times(after, other) == Times(rows, other))
            && |sorted| == |Times(rows, siteID)|
            && (|sorted| <= k ==> after == rows)
            && (|sorted| > k ==>
                  && |Times(after, siteID)| >= k + 1
                  && (|Times(after, siteID)| == k + 1 <==> |sorted| == k + 1 || sorted[k] != sorted[k + 1])
                  && forall x :: x in Times(after, siteID) ==> x >= sorted[k])
  {
    var times := Times(rows, siteID);
    var sorted := SortDesc(times);
    var k := Keep(keep);
    SortIsDescending(times);
    var threshold := Threshold(rows, siteID, k);
    forall other | other != siteID ensures Times(Without(rows, siteID, threshold), other) == Times(rows, other) {
      WithoutOther(rows, siteID, threshold, other);
    }
    if |sorted| <= k {
      WithoutNone(rows, siteID);
    } else {
      WithoutCount(rows, siteID, sorted[k]);
      AtLeastSorted(times, sorted[k]);
      CountFrom(sorted, k);
    }
  }

  lemma {:induction false} AtLeastGrows(xs: seq<int>, t: int, k: nat)
    requires k <= |xs| && forall i :: 0 <= i < k ==> xs[i] >= t
    ensures AtLeast(xs, t) >= k
  {
    if k > 0 {
      AtLeastGrows(xs[1..], t, k - 1);
    }
  }

  /** In a descending list as many are at least its k-th as stand up to the last of its
      equals. */
  lemma CountFrom(sorted: seq<int>, k: nat)
    requires Descending(sorted) && k < |sorted|
    ensures AtLeast(sorted, sorted[k]) >= k + 1
    ensures AtLeast(sorted, sorted[k]) == k + 1 <==> |sorted| == k + 1 || sorted[k] != sorted[k + 1]
  {
    AtLeastGrows(sorted, sorted[k], k + 1);
    if |sorted| == k + 1 || sorted[k] != sorted[k + 1] {
      forall i | 0 <= i < |sorted| ensures sorted[i] >= sorted[k] <==> i < k + 1 {
        if i > k {
          assert sorted[k + 1] >= sorted[i];
        }
      }
      AtLeastSplit(sorted, sorted[k], k + 1);
    } else {
      AtLeastGrows(sorted, sorted[k], k + 2);
    }
  }

  // ---- Backups ----

  /** A file of the backup directory. `infoOk`: its `Info` can be had. */
  datatype File = File(isDir: bool, infoOk: bool, size: nat, modTime: int)

  datatype BackupMeta = BackupMeta(name: string, sizeBytes: nat, createdAt: int)

  const DEFAULT_COUNT := 7
  const ARCHIVE_SUFFIX := ".tar.gz"

  predicate Archive(name: string, f: File) {
    !f.isDir && HasSuffix(name, ARCHIVE_SUFFIX) && f.infoOk
  }

  type Dir = map<string, File>

  function Meta(d: Dir, name: string): BackupMeta
    requires name in d
  {
    BackupMeta(name, d[name].size, d[name].modTime)
  }

  predicate NewestFirst(list: seq<BackupMeta>) {
    forall i, j :: 0 <= i < j < |list| ==> list[i].createdAt >= list[j].createdAt
  }

  /** `list` holds the archives among `names`, each once. */
  ghost predicate Lists(d: Dir, names: seq<string>, list: seq<BackupMeta>) {
    && (forall m :: m in list ==> m.name in names && m.name in d && Archive(m.name, d[m.name]) && m == Meta(d, m.name))
    && (forall n :: n in names && n in d && Archive(n, d[n]) ==> Meta(d, n) in list)
    && DistinctNames(list)
  }

  /** A reading of the directory: every file once. */
  predicate Reads(d: Dir, names: seq<string>) {
    && (forall i, j :: 0 <= i < j < |names| ==> names[i] != names[j])
    && (forall i :: 0 <= i < |names| ==> names[i] in d)
    && forall n :: n in d ==> n in names
  }

  function Archives(d: Dir): set<string> {
    set n | n in d && Archive(n, d[n])
  }

  class Backups {
    var dir: Dir
    var keepCount: nat

    constructor (d: Dir, count: int)
      ensures dir == d && keepCount == (if count <= 0 then 7 else count) && keepCount > 0
    {
      dir, keepCount := d, if count <= 0 then DEFAULT_COUNT else count;
    }

    method SetKeepCount(n: int)
      modifies this`keepCount
      ensures keepCount == if n > 0 then n else old(keepCount)
    {
      if n > 0 {
        keepCount := n;
      }
    }

    /** `List`. `names` is the order in which the directory is read. */
    method List(names: seq<string>) returns (out: seq<BackupMeta>)
      requires Reads(dir, names)
      ensures Lists(dir, names, out) && NewestFirst(out)
    {
      out := [];
      var i := 0;
      while i < |names|
        invariant 0 <= i <= |names|
        invariant Lists(dir, names[..i], out) && NewestFirst(out)
      {
        TakeSnoc(names, i);
        if Archive(names[i], dir[names[i]]) {
          var k := PlaceOf(dir[names[i]].modTime, out);
          Placed(dir, names[..i], names[i], out, k);
          PutAtNewest(out, k, Meta(dir, names[i]));
          out := PutAt(out, k, Meta(dir, names[i]));
        } else {
          Skipped(dir, names[..i], names[i], out);
        }
        i := i + 1;
      }
      TakeAll(names);
    }

    /** `prune`: removes what `List` gives past the first `keepCount`. Files in `stuck`
        cannot be removed, which is ignored. */
    method Prune(names: seq<string>, stuck: set<string>) returns (ghost list: seq<BackupMeta>)
      requires Reads(dir, names)
      modifies this`dir
      ensures Lists(old(dir), names, list) && NewestFirst(list)
      ensures dir == old(dir) - (Names(Excess(list, keepCount)) - stuck)
    {
      var found := List(names);
      list := found;
      if |found| <= keepCount {
        assert Names([]) - stuck == {};
        assert dir - {} == dir;
        return;
      }
      var excess := found[keepCount..];
      var i := 0;
      while i < |excess|
        invariant 0 <= i <= |excess|
        invariant dir == old(dir) - (Names(excess[..i]) - stuck)
      {
        TakeSnoc(excess, i);
        NamesMore(excess[..i], excess[i], stuck);
        if excess[i].name !in stuck {
          MinusMore(old(dir), Names(excess[..i]) - stuck, excess[i].name);
          dir := dir - {excess[i].name};
        }
        i := i + 1;
      }
      TakeAll(excess);
    }
  }

  function Excess(list: seq<BackupMeta>, keep: nat): seq<BackupMeta> {
    if |list| <= keep then [] else list[keep..]
  }

  lemma NamesMore(list: seq<BackupMeta>, m: BackupMeta, stuck: set<string>)
    ensures Names(list + [m]) - stuck == if m.name in stuck then Names(list) - stuck else (Names(list) - stuck) + {m.name}
  {
    forall n ensures n in Names(list + [m]) <==> n in Names(list) || n == m.name {
      if n in Names(list) {
        var x :| x in list && x.name == n;
        assert x in list + [m];
      }
      if n == m.name {
        assert m in list + [m];
      }
    }
  }

  lemma MinusMore(d: Dir, gone: set<string>, n: string)
    ensures d - gone - {n} == d - (gone + {n})
  {
  }

  function Names(list: seq<BackupMeta>): set<string> {
    set m | m in list :: m.name
  }

  /** Where a file of the given time goes in the list. */
  method PlaceOf(time: int, list: seq<BackupMeta>) returns (k: nat)
    requires NewestFirst(list)
    ensures k <= |list|
    ensures forall i :: 0 <= i < k ==> list[i].createdAt > time
    ensures forall i :: k <= i < |list| ==> list[i].createdAt <= time
  {
    k := 0;
    while k < |list| && list[k].createdAt > time
      invariant 0 <= k <= |list|
      invariant forall i :: 0 <= i < k ==> list[i].createdAt > time
    {
      k := k + 1;
    }
  }

  function PutAt<T>(list: seq<T>, k: nat, x: T): seq<T>
    requires k <= |list|
  {
    list[..k] + [x] + list[k..]
  }

  lemma PutAtHas<T>(list: seq<T>, k: nat, x: T, y: T)
    requires k <= |list|
    ensures y in PutAt(list, k, x) <==> y == x || y in list
  {
    var out := PutAt(list, k, x);
    assert out[k] == x;
    if y in list {
      var i :| 0 <= i < |list| && list[i] == y;
      assert out[if i < k then i else i + 1] == y;
    }
  }

  predicate DistinctNames(list: seq<BackupMeta>) {
    forall i, j :: 0 <= i < j < |list| ==> list[i].name != list[j].name
  }

  lemma PutAtDistinct(list: seq<BackupMeta>, k: nat, m: BackupMeta)
    requires k <= |list| && DistinctNames(list) && forall x :: x in list ==> x.name != m.name
    ensures DistinctNames(PutAt(list, k, m))
  {
    var out := PutAt(list, k, m);
    forall i, j | 0 <= i < j < |out| ensures out[i].name != out[j].name {
      if i != k && j != k {
        assert out[i] == list[if i < k then i else i - 1] && out[j] == list[if j < k then j else j - 1];
      } else {
        assert out[if i == k then j else i] in list;
      }
    }
  }

  lemma PutAtNewest(list: seq<BackupMeta>, k: nat, m: BackupMeta)
    requires k <= |list| && NewestFirst(list)
    requires forall i :: 0 <= i < k ==> list[i].createdAt > m.createdAt
    requires forall i :: k <= i < |list| ==> list[i].createdAt <= m.createdAt
    ensures NewestFirst(PutAt(list, k, m))
  {
  }

  lemma Placed(d: Dir, names: seq<string>, n: string, list: seq<BackupMeta>, k: nat)
    requires n in d && n !in names && Archive(n, d[n]) && Lists(d, names, list) && k <= |list|
    ensures Lists(d, names + [n], PutAt(list, k, Meta(d, n)))
  {
    var out := PutAt(list, k, Meta(d, n));
    PutAtDistinct(list, k, Meta(d, n));
    forall m | m in out
      ensures m.name in names + [n] && m.name in d && Archive(m.name, d[m.name]) && m == Meta(d, m.name)
    {
      PutAtHas(list, k, Meta(d, n), m);
    }
    forall x | x in names + [n] && x in d && Archive(x, d[x]) ensures Meta(d, x) in out {
      PutAtHas(list, k, Meta(d, n), Meta(d, x));
    }
  }

  lemma Skipped(d: Dir, names: seq<string>, n: string, list: seq<BackupMeta>)
    requires n in d && !Archive(n, d[n]) && Lists(d, names, list)
    ensures Lists(d, names + [n], list)
  {
  }

  lemma NameAt(list: seq<BackupMeta>, n: string) returns (i: nat)
    requires n in Names(list)
    ensures i < |list| && list[i].name == n
  {
    var m :| m in list && m.name == n;
    i :| i < |list| && list[i] == m;
  }

  lemma LastIsNew(list: seq<BackupMeta>)
    requires list != [] && DistinctNames(list)
    ensures Names(list) == Names(list[..|list| - 1]) + {list[|list| - 1].name}
    ensures list[|list| - 1].name !in Names(list[..|list| - 1])
  {
    var init, m := list[..|list| - 1], list[|list| - 1];
    assert list == init + [m];
    NamesMore(init, m, {});
    assert Names(init) - {} == Names(init) && Names(list) - {} == Names(list);
    forall n | n in Names(init) ensures n != m.name {
      var i := NameAt(init, n);
      assert list[i].name != list[|list| - 1].name;
    }
  }

  lemma {:induction false} NamesSize(list: seq<BackupMeta>)
    requires DistinctNames(list)
    ensures |Names(list)| == |list|
  {
    if list == [] {
      assert Names(list) == {};
    } else {
      NamesSize(list[..|list| - 1]);
      LastIsNew(list);
    }
  }

  lemma ListIsArchives(d: Dir, names: seq<string>, list: seq<BackupMeta>)
    requires Reads(d, names) && Lists(d, names, list)
    ensures Names(list) == Archives(d)
  {
    forall n ensures n in Names(list) <==> n in Archives(d) {
      if n in Archives(d) {
        assert Meta(d, n) in list;
      }
    }
  }

  function KeptList(list: seq<BackupMeta>, keep: nat): seq<BackupMeta> {
    if |list| <= keep then list else list[..keep]
  }

  lemma KeptAndExcess(list: seq<BackupMeta>, keep: nat, n: string)
    requires DistinctNames(list)
    ensures n in Names(list) <==> n in Names(KeptList(list, keep)) || n in Names(Excess(list, keep))
    ensures !(n in Names(KeptList(list, keep)) && n in Names(Excess(list, keep)))
  {
    var kept, excess := KeptList(list, keep), Excess(list, keep);
    assert list == kept + excess;
    if n in Names(list) {
      var i := NameAt(list, n);
      assert list[i] in kept || list[i] in excess;
    }
    if n in Names(kept) {
      var i := NameAt(kept, n);
      assert kept[i] in list;
      forall j | 0 <= j < |excess| ensures excess[j].name != n {
        assert list[i].name != list[|kept| + j].name;
      }
    } else if n in Names(excess) {
      var j := NameAt(excess, n);
      assert excess[j] in list;
    }
  }

  /** Pruning leaves the newest archives, as many as are to be kept or all when there are
      no more than that, and of the others just those that cannot be removed; none that
      is removed is newer than one of the newest; and no other file is touched. */
  lemma PruneKeepsNewest(d: Dir, names: seq<string>, list: seq<BackupMeta>, keep: nat, stuck: set<string>)
    requires Reads(d, names) && Lists(d, names, list) && NewestFirst(list)
    ensures var after := d - (Names(Excess(list, keep)) - stuck);
            var newest := Names(KeptList(list, keep));
            && Archives(after) == newest + Names(Excess(list, keep)) * stuck
            && newest !! Names(Excess(list, keep))
            && |newest| == (if |Archives(d)| <= keep then |Archives(d)| else keep)
            && (forall a, b :: a in newest && b in Archives(d) - Archives(after) ==> d[a].modTime >= d[b].modTime)
            && forall n :: n in d && n !in Archives(d) ==> n in after && after[n] == d[n]
  {
    ListIsArchives(d, names, list);
    NamesSize(list);
    assert DistinctNames(KeptList(list, keep));
    NamesSize(KeptList(list, keep));
    PrunedArchives(d, names, list, keep, stuck);
    forall a, b | a in Names(KeptList(list, keep)) && b in Names(Excess(list, keep)) ensures d[a].modTime >= d[b].modTime {
      OlderBehind(d, names, list, keep, a, b);
    }
  }

  lemma PrunedArchives(d: Dir, names: seq<string>, list: seq<BackupMeta>, keep: nat, stuck: set<string>)
    requires Reads(d, names) && Lists(d, names, list)
    ensures var after := d - (Names(Excess(list, keep)) - stuck);
            && Names(KeptList(list, keep)) !! Names(Excess(list, keep))
            && Archives(d) == Names(KeptList(list, keep)) + Names(Excess(list, keep))
            && Archives(after) == Names(KeptList(list, keep)) + Names(Excess(list, keep)) * stuck
            && forall n :: n in d && n !in Archives(d) ==> n in after && after[n] == d[n]
  {
    var after := d - (Names(Excess(list, keep)) - stuck);
    ListIsArchives(d, names, list);
    forall n
      ensures n in Archives(d) <==> n in Names(KeptList(list, keep)) || n in Names(Excess(list, keep))
      ensures !(n in Names(KeptList(list, keep)) && n in Names(Excess(list, keep)))
    {
      KeptAndExcess(list, keep, n);
    }
    forall n ensures n in Archives(after) <==> n in Names(KeptList(list, keep)) + Names(Excess(list, keep)) * stuck {
      assert n in Archives(after) <==> n in Archives(d) && !(n in Names(Excess(list, keep)) && n !in stuck);
    }
  }

  lemma OlderBehind(d: Dir, names: seq<string>, list: seq<BackupMeta>, keep: nat, a: string, b: string)
    requires Lists(d, names, list) && NewestFirst(list)
    requires a in Names(KeptList(list, keep)) && b in Names(Excess(list, keep))
    ensures a in d && b in d && d[a].modTime >= d[b].modTime
  {
    var kept, excess := KeptList(list, keep), Excess(list, keep);
    var i := NameAt(kept, a);
    var j := NameAt(excess, b);
    assert list[i] in list && list[keep + j] in list;
    assert list[i].createdAt >= list[keep + j].createdAt;
  }
}
