/** The listing determines the tree, and the tree and its archive have the same listing. */
module PackageDigestLaws {
  import opened Basics
  import opened Ordering
  import opened PackageDigest

  // ----- reading a listing back

  /** The text cut at its line feeds. */
  function Lines(s: string): (r: seq<string>)
    ensures r != []
  {
    if s == "" then [""] else
    var rest := Lines(s[1..]);
    if s[0] == '\n' then [""] + rest else [[s[0]] + rest[0]] + rest[1..]
  }

  lemma {:induction false} LinesOfOne(a: string)
    requires '\n' !in a
    ensures Lines(a) == [a]
  {
    if a != "" {
      assert a[0] in a && forall c :: c in a[1..] ==> c in a;
      LinesOfOne(a[1..]);
      assert a == [a[0]] + a[1..];
    }
  }

  lemma {:induction false} LinesOfTwo(a: string, b: string)
    requires '\n' !in a
    ensures Lines(a + "\n" + b) == [a] + Lines(b)
  {
    var s := a + "\n" + b;
    if a == "" {
      assert s[1..] == b;
    } else {
      assert a[0] in a && forall c :: c in a[1..] ==> c in a;
      LinesOfTwo(a[1..], b);
      assert s[1..] == a[1..] + "\n" + b;
      assert a == [a[0]] + a[1..];
    }
  }

  lemma {:induction false} LinesOfJoin(rows: seq<string>)
    requires rows != [] && forall r :: r in rows ==> '\n' !in r
    ensures Lines(JoinLines(rows)) == rows
  {
    assert rows[0] in rows && forall r :: r in rows[1..] ==> r in rows;
    if |rows| == 1 {
      LinesOfOne(rows[0]);
    } else {
      LinesOfJoin(rows[1..]);
      LinesOfTwo(rows[0], JoinLines(rows[1..]));
      assert rows == [rows[0]] + rows[1..];
    }
  }

  /** The hash is the last 64 characters of a row, so a row determines path and hash. */
  lemma RowInjective(digest: Digest, p: string, x: Bytes, q: string, y: Bytes)
    requires Row(digest, p, x) == Row(digest, q, y)
    ensures p == q && digest(x) == digest(y)
  {
    var r := Row(digest, p, x);
    assert |digest(x)| == 64 == |digest(y)|;
    assert p == r[..|r| - 65] && digest(x) == r[|r| - 64..];
    assert q == r[..|r| - 65] && digest(y) == r[|r| - 64..];
  }

  ghost predicate LinePaths(tree: Tree) {
    forall p :: p in tree ==> '\n' !in p
  }

  ghost predicate SameHashes(digest: Digest, t: Tree, u: Tree) {
    t.Keys == u.Keys && forall p :: p in t ==> digest(t[p]) == digest(u[p])
  }

  lemma RowsAreLines(digest: Digest, t: Tree)
    requires LinePaths(t) && t != map[]
    ensures Lines(Listing(digest, t)) == Rows(digest, t, Sorted(t.Keys))
  {
    var paths := Sorted(t.Keys);
    var rows := Rows(digest, t, paths);
    forall i | 0 <= i < |rows|
      ensures '\n' !in rows[i]
    {
      assert paths[i] in paths && '\n' !in digest(t[paths[i]]);
    }
    var p :| p in t;
    assert p in paths;
    LinesOfJoin(rows);
  }

  lemma SortedElements(s: set<string>)
    ensures Elements(Sorted(s)) == s
  {
  }

  lemma KeysOfSorted(t: Tree, u: Tree, p: seq<string>)
    requires p == Sorted(t.Keys) && p == Sorted(u.Keys)
    ensures t.Keys == u.Keys && forall k :: k in t ==> exists i :: 0 <= i < |p| && p[i] == k
  {
    SortedElements(t.Keys);
    SortedElements(u.Keys);
    assert t.Keys == Elements(p) == u.Keys;
  }

  /** For packages whose paths hold no line feed, two listings are equal exactly when the packages
      have the same paths and the same hash at every path. */
  lemma ListingDetermines(digest: Digest, t: Tree, u: Tree)
    requires LinePaths(t) && LinePaths(u) && t != map[] && u != map[]
    ensures Listing(digest, t) == Listing(digest, u) <==> SameHashes(digest, t, u)
  {
    var p, q := Sorted(t.Keys), Sorted(u.Keys);
    if Listing(digest, t) == Listing(digest, u) {
      RowsAreLines(digest, t);
      RowsAreLines(digest, u);
      assert Rows(digest, t, p) == Rows(digest, u, q);
      forall i | 0 <= i < |p|
        ensures p[i] == q[i] && digest(t[p[i]]) == digest(u[q[i]])
      {
        assert p[i] in p && q[i] in q && Rows(digest, t, p)[i] == Rows(digest, u, q)[i];
        RowInjective(digest, p[i], t[p[i]], q[i], u[q[i]]);
      }
      assert |p| == |Rows(digest, t, p)| == |Rows(digest, u, q)| == |q|;
      assert p == q;
      KeysOfSorted(t, u, p);
    }
    if SameHashes(digest, t, u) {
      assert Rows(digest, t, p) == Rows(digest, u, q);
    }
  }

  lemma SortedIs(s: set<string>, r: seq<string>)
    requires Ascending(r) && forall x :: x in r <==> x in s
    ensures Sorted(s) == r
  {
    AscendingUnique(Sorted(s), r);
  }

  /** A line feed inside a path breaks this, whatever the hash function: one file can list like two. */
  lemma LineFeedConfuses(digest: Digest, x: Bytes, y: Bytes)
    ensures Listing(digest, map["a" := x, "b" := y]) == Listing(digest, map["a\t" + digest(x) + "\nb" := y])
  {
    var two, one := map["a" := x, "b" := y], map["a\t" + digest(x) + "\nb" := y];
    assert two.Keys == {"a", "b"};
    SortedIs(two.Keys, ["a", "b"]);
    SortedIs(one.Keys, ["a\t" + digest(x) + "\nb"]);
    assert Rows(digest, two, ["a", "b"]) == [Row(digest, "a", x), Row(digest, "b", y)];
    assert Rows(digest, one, ["a\t" + digest(x) + "\nb"]) == [Row(digest, "a\t" + digest(x) + "\nb", y)];
    var rows := [Row(digest, "a", x), Row(digest, "b", y)];
    assert JoinLines(rows) == rows[0] + "\n" + JoinLines(rows[1..]) && rows[1..] == [rows[1]];
    assert rows[0] + "\n" + rows[1] == Row(digest, "a\t" + digest(x) + "\nb", y);
  }

  lemma {:induction false} JoinLast(rows: seq<string>)
    requires |rows| >= 2
    ensures JoinLines(rows) == JoinLines(rows[..|rows| - 1]) + "\n" + rows[|rows| - 1]
  {
    var n := |rows| - 1;
    if |rows| == 2 {
      assert rows[1..] == [rows[1]] && rows[..1] == [rows[0]];
    } else {
      JoinLast(rows[1..]);
      assert rows[1..][..n - 1] == rows[..n][1..] && rows[1..][n - 1] == rows[n];
    }
  }

  lemma ListingOfOne(digest: Digest, path: string, content: Bytes)
    ensures Listing(digest, map[path := content]) == Row(digest, path, content)
  {
    SortedIs((map[path := content]).Keys, [path]);
  }

  lemma RowAfter(digest: Digest, before: string, path: string, content: Bytes)
    ensures Row(digest, before + "\n" + path, content) == before + "\n" + Row(digest, path, content)
    ensures '\n' in before + "\n" + path
  {
    assert (before + "\n" + path)[|before|] == '\n';
  }

  lemma JoinedLikeOneFile(digest: Digest, tree: Tree, paths: seq<string>) returns (path: string, content: Bytes)
    requires paths != [] && forall p :: p in paths ==> p in tree
    ensures Row(digest, path, content) == JoinLines(Rows(digest, tree, paths))
    ensures |paths| > 1 ==> '\n' in path
  {
    var rows := Rows(digest, tree, paths);
    var n := |paths| - 1;
    assert paths[n] in paths;
    path, content := paths[n], tree[paths[n]];
    if n > 0 {
      JoinLast(rows);
      RowAfter(digest, JoinLines(rows[..n]), path, content);
      path := JoinLines(rows[..n]) + "\n" + path;
    }
  }

  lemma SortedCount(s: set<string>)
    ensures |Sorted(s)| == |s|
  {
    DistinctCount(Sorted(s));
    assert Elements(Sorted(s)) == s;
  }

  /** Without a condition on paths a listing does not even tell how many files it lists: every package lists like
      one single file, whose path holds a line feed when the package has more files than one. */
  lemma ListsLikeOneFile(digest: Digest, tree: Tree) returns (path: string, content: Bytes)
    requires tree != map[]
    ensures Listing(digest, map[path := content]) == Listing(digest, tree)
    ensures |tree| > 1 ==> '\n' in path
  {
    SortedCount(tree.Keys);
    path, content := JoinedLikeOneFile(digest, tree, Sorted(tree.Keys));
    ListingOfOne(digest, path, content);
  }

  // ----- enumeration order and the archive

  lemma {:induction false} ReadsIt(files: seq<File>, f: File)
    requires DistinctPaths(files) && f in files
    ensures f.path in Paths(files) && ReadFile(files, f.path) == f.content
  {
    var last := files[|files| - 1];
    if last.path == f.path {
      var i :| 0 <= i < |files| && files[i] == f;
    } else {
      assert f in files[..|files| - 1];
      ReadsIt(files[..|files| - 1], f);
    }
  }

  /** The order in which the directory is enumerated does not matter. */
  lemma {:induction false} EnumerationIrrelevant(files: seq<File>, other: seq<File>)
    requires DistinctPaths(files) && DistinctPaths(other) && forall f :: f in files <==> f in other
    ensures TreeOf(files) == TreeOf(other)
  {
    TreeHolds(files);
    TreeHolds(other);
    forall p | p in Paths(files)
      ensures p in Paths(other) && ReadFile(files, p) == ReadFile(other, p)
    {
      var f :| f in files && f.path == p;
      ReadsIt(files, f);
      ReadsIt(other, f);
    }
    assert Paths(files) == Paths(other);
  }

  function Prefixed(prefix: string, paths: seq<string>): seq<string> {
    seq(|paths|, i requires 0 <= i < |paths| => prefix + paths[i])
  }

  /** A common prefix keeps the sorted order. */
  lemma PrefixKeepsOrder(prefix: string, s: set<string>)
    ensures Sorted(set p | p in s :: prefix + p) == Prefixed(prefix, Sorted(s))
  {
    var paths := Sorted(s);
    var names := Prefixed(prefix, paths);
    forall i, j | 0 <= i < j < |names|
      ensures Le(names[i], names[j]) && names[i] != names[j]
    {
      LePrefixed(prefix, paths[i], paths[j]);
      assert names[i][|prefix|..] == paths[i] && names[j][|prefix|..] == paths[j];
    }
    forall n
      ensures n in names <==> n in (set p | p in s :: prefix + p)
    {
      if n in (set p | p in s :: prefix + p) {
        var p :| p in s && n == prefix + p;
        assert p in paths;
        var i :| 0 <= i < |paths| && paths[i] == p;
        assert names[i] == n;
      }
      if n in names {
        var i :| 0 <= i < |names| && names[i] == n;
        assert paths[i] in paths;
      }
    }
    SortedIs(set p | p in s :: prefix + p, names);
  }

  lemma {:induction false} ArchiveHolds(members: seq<Member>)
    requires forall i, j :: 0 <= i < j < |members| ==> members[i].name != members[j].name
    ensures forall m :: m in members ==> m.name in Archive(members) && Archive(members)[m.name] == m.content
    ensures forall n :: n in Archive(members) ==> exists m :: m in members && m.name == n
  {
    if members != [] {
      var before, last := members[..|members| - 1], members[|members| - 1];
      assert members == before + [last];
      ArchiveHolds(before);
      forall m | m in before
        ensures m.name != last.name
      {
        var i :| 0 <= i < |before| && before[i] == m;
        assert members[i] == m;
      }
    }
  }

  lemma ControlNotPackaged()
    ensures forall i :: 0 <= i < |RELEASE_CONTROL_FILES| ==> !Packaged(RELEASE_CONTROL_FILES[i])
    ensures forall i, j :: 0 <= i < j < |RELEASE_CONTROL_FILES| ==> RELEASE_CONTROL_FILES[i] != RELEASE_CONTROL_FILES[j]
  {
    assert RELEASE_CONTROL_FILES[0][0] == 'A' && RELEASE_CONTROL_FILES[1][0] == 'R';
    assert RELEASE_CONTROL_FILES[2][0] == 'd' && RELEASE_CONTROL_FILES[3][0] == 'd';
    assert RELEASE_CONTROL_FILES[2][8] == 'b' && RELEASE_CONTROL_FILES[3][8] == 'm';
    assert PACKAGE_PREFIX[0] == 'M';
  }

  /** The members in order: the package files in ascending order of their paths, below the package's directory, and
      then the four control files. */
  lemma MembersAre(tree: Tree, control: Tree)
    requires forall name :: name in RELEASE_CONTROL_FILES ==> name in control
    ensures var members, n := Members(tree, control), |tree|;
      && |members| == n + 4
      && (forall i, j :: 0 <= i < j < n ==> Le(members[i].name, members[j].name) && members[i].name != members[j].name)
      && (forall i :: 0 <= i < n ==> exists path :: path in tree && members[i] == Member("Matters/" + path, tree[path]))
      && forall k :: 0 <= k < 4 ==>
           var name := ["AI-SETUP.md", "README.md", "desktop-build-toolchain.json", "desktop-manifest.json"][k];
           name in control && members[n + k] == Member(name, control[name])
  {
    var paths, members := Sorted(tree.Keys), Members(tree, control);
    SortedCount(tree.Keys);
    assert |tree| == |tree.Keys|;
    forall i, j | 0 <= i < j < |paths|
      ensures Le(members[i].name, members[j].name) && members[i].name != members[j].name
    {
      LePrefixed(PACKAGE_PREFIX, paths[i], paths[j]);
      assert members[i].name[|PACKAGE_PREFIX|..] == paths[i] && members[j].name[|PACKAGE_PREFIX|..] == paths[j];
    }
    forall i | 0 <= i < |paths|
      ensures exists path :: path in tree && members[i] == Member("Matters/" + path, tree[path])
    {
      assert paths[i] in paths;
    }
    assert forall k :: 0 <= k < 4 ==> RELEASE_CONTROL_FILES[k] in RELEASE_CONTROL_FILES;
  }

  lemma MembersDistinct(tree: Tree, control: Tree)
    requires forall name :: name in RELEASE_CONTROL_FILES ==> name in control
    ensures var members := Members(tree, control);
      forall i, j :: 0 <= i < j < |members| ==> members[i].name != members[j].name
  {
    var paths := Sorted(tree.Keys);
    var package, members := PackageMembers(tree, paths), Members(tree, control);
    ControlNotPackaged();
    forall i, j | 0 <= i < j < |members|
      ensures members[i].name != members[j].name
    {
      if j < |paths| {
        assert members[i].name[|PACKAGE_PREFIX|..] == paths[i] && members[j].name[|PACKAGE_PREFIX|..] == paths[j];
      } else if i < |paths| {
        assert Packaged(members[i].name) && members[j].name == RELEASE_CONTROL_FILES[j - |paths|];
      } else {
        assert members[i].name == RELEASE_CONTROL_FILES[i - |paths|] && members[j].name == RELEASE_CONTROL_FILES[j - |paths|];
      }
    }
  }

  function RelativePaths(archive: Tree): (r: set<string>)
    ensures forall p :: p in r <==> PACKAGE_PREFIX + p in archive
  {
    assert forall n :: n in archive && Packaged(n) ==> PACKAGE_PREFIX + n[|PACKAGE_PREFIX|..] == n;
    assert forall p :: Packaged(PACKAGE_PREFIX + p) && (PACKAGE_PREFIX + p)[|PACKAGE_PREFIX|..] == p;
    set n | n in archive && Packaged(n) :: n[|PACKAGE_PREFIX|..]
  }

  /** The package tree an archive carries. */
  function Unpacked(archive: Tree): Tree {
    map p | p in RelativePaths(archive) :: archive[PACKAGE_PREFIX + p]
  }

  lemma MembersHold(tree: Tree, control: Tree, p: string)
    requires forall name :: name in RELEASE_CONTROL_FILES ==> name in control
    requires p in tree
    ensures Member(PACKAGE_PREFIX + p, tree[p]) in Members(tree, control)
  {
    var paths := Sorted(tree.Keys);
    assert p in paths;
    var i :| 0 <= i < |paths| && paths[i] == p;
    assert Members(tree, control)[i] == Member(PACKAGE_PREFIX + p, tree[p]);
  }

  lemma PackagedMember(tree: Tree, control: Tree, m: Member)
    requires forall name :: name in RELEASE_CONTROL_FILES ==> name in control
    requires m in Members(tree, control) && Packaged(m.name)
    ensures m.name[|PACKAGE_PREFIX|..] in tree && m.content == tree[m.name[|PACKAGE_PREFIX|..]]
  {
    var paths, members := Sorted(tree.Keys), Members(tree, control);
    ControlNotPackaged();
    var i :| 0 <= i < |members| && members[i] == m;
    assert i < |paths|;
    assert paths[i] in paths && m.name == PACKAGE_PREFIX + paths[i];
  }

  lemma PackUnpackAt(tree: Tree, control: Tree, p: string)
    requires forall name :: name in RELEASE_CONTROL_FILES ==> name in control
    ensures var archive := Archive(Members(tree, control));
      (PACKAGE_PREFIX + p in archive <==> p in tree) && (p in tree ==> archive[PACKAGE_PREFIX + p] == tree[p])
  {
    var members, name := Members(tree, control), PACKAGE_PREFIX + p;
    MembersDistinct(tree, control);
    ArchiveHolds(members);
    assert Packaged(name) && name[|PACKAGE_PREFIX|..] == p;
    if p in tree {
      MembersHold(tree, control, p);
      assert Member(name, tree[p]).name in Archive(members);
    }
    if name in Archive(members) {
      var m :| m in members && m.name == name;
      PackagedMember(tree, control, m);
    }
  }

  lemma SameEntries<K, V>(m: map<K, V>, n: map<K, V>)
    requires forall k :: k in m <==> k in n
    requires forall k :: k in m && k in n ==> m[k] == n[k]
    ensures m == n
  {
  }

  /** Packing a tree with the control files and reading the archive back gives the tree. */
  lemma PackUnpack(tree: Tree, control: Tree)
    requires forall name :: name in RELEASE_CONTROL_FILES ==> name in control
    ensures Unpacked(Archive(Members(tree, control))) == tree
  {
    var archive := Archive(Members(tree, control));
    var unpacked := Unpacked(archive);
    forall p: string
      ensures p in unpacked <==> p in tree
      ensures p in unpacked && p in tree ==> unpacked[p] == tree[p]
    {
      PackUnpackAt(tree, control, p);
    }
    SameEntries(unpacked, tree);
  }

  lemma PackagedNamesArePrefixed(archive: Tree)
    ensures PackagedNames(archive) == (set p | p in Unpacked(archive).Keys :: PACKAGE_PREFIX + p)
    ensures forall p :: p in Unpacked(archive) ==> PACKAGE_PREFIX + p in archive && archive[PACKAGE_PREFIX + p] == Unpacked(archive)[p]
  {
    forall name | name in archive && Packaged(name)
      ensures name == PACKAGE_PREFIX + name[|PACKAGE_PREFIX|..] && name[|PACKAGE_PREFIX|..] in Unpacked(archive)
    {
    }
  }

  lemma SameRows(digest: Digest, tree: Tree, archive: Tree, paths: seq<string>, names: seq<string>)
    requires names == Prefixed(PACKAGE_PREFIX, paths)
    requires forall p :: p in paths ==> p in tree && PACKAGE_PREFIX + p in archive && archive[PACKAGE_PREFIX + p] == tree[p]
    ensures forall n :: n in names ==> n in archive && Packaged(n)
    ensures ArchiveRows(digest, archive, names) == Rows(digest, tree, paths)
  {
    forall i | 0 <= i < |names|
      ensures names[i] in archive && Packaged(names[i])
      ensures Row(digest, names[i][|PACKAGE_PREFIX|..], archive[names[i]]) == Row(digest, paths[i], tree[paths[i]])
    {
      assert paths[i] in paths;
      assert names[i][|PACKAGE_PREFIX|..] == paths[i];
    }
  }

  /** The listing recomputed from an archive is the listing of the tree it carries. */
  lemma ArchiveListsItsTree(digest: Digest, archive: Tree)
    ensures JoinLines(ArchiveRows(digest, archive, Sorted(PackagedNames(archive)))) == Listing(digest, Unpacked(archive))
  {
    var tree := Unpacked(archive);
    PackagedNamesArePrefixed(archive);
    PrefixKeepsOrder(PACKAGE_PREFIX, tree.Keys);
    SameRows(digest, tree, archive, Sorted(tree.Keys), Sorted(PackagedNames(archive)));
  }

  /** The listing recomputed from the release archive is the listing of the tree it was made from,
      so the recorded package digest of a fresh archive is never found stale. */
  lemma TreeAndArchiveAgree(digest: Digest, tree: Tree, control: Tree)
    requires forall name :: name in RELEASE_CONTROL_FILES ==> name in control
    ensures var archive := Archive(Members(tree, control));
      JoinLines(ArchiveRows(digest, archive, Sorted(PackagedNames(archive)))) == Listing(digest, tree)
  {
    PackUnpack(tree, control);
    ArchiveListsItsTree(digest, Archive(Members(tree, control)));
  }

  /** An archive's package listing matches the listing of a tree exactly when it carries the same
      paths with the same hashes, given that no path holds a line feed. */
  lemma ArchiveMatchesIff(digest: Digest, tree: Tree, archive: Tree)
    requires LinePaths(tree) && LinePaths(Unpacked(archive)) && tree != map[] && Unpacked(archive) != map[]
    ensures JoinLines(ArchiveRows(digest, archive, Sorted(PackagedNames(archive)))) == Listing(digest, tree) <==>
            SameHashes(digest, Unpacked(archive), tree)
  {
    ArchiveListsItsTree(digest, archive);
    ListingDetermines(digest, Unpacked(archive), tree);
  }
}
