/**
 The digest preimage of a desktop package: computed over a directory tree
 (scripts/build_desktop_manifest.py), over the release archive made from that tree
 (scripts/build_desktop_release_archive.py), and recomputed from the archive
 (scripts/check_public_boundary.py). SHA-256 is a parameter.
 */
module PackageDigest {
  import opened Basics
  import opened Ordering

  type Bytes = seq<bv8>

  /** A hexadecimal digest: 64 characters, none of them a tab or a line feed. */
  ghost predicate LawfulDigest(f: Bytes -> string) {
    forall b :: |f(b)| == 64 && '\n' !in f(b) && '\t' !in f(b)
  }

  type Digest = f: Bytes -> string | LawfulDigest(f) witness (_: Bytes) => ZEROES

  const ZEROES: string := seq(64, _ => '0')

  /** One file of the tree, under its path relative to the package root. */
  datatype File = File(path: string, content: Bytes)

  /** One member of the archive. */
  datatype Member = Member(name: string, content: Bytes)

  type Tree = map<string, Bytes>

  const PACKAGE_PREFIX := "Matters/"
  const RELEASE_CONTROL_FILES := ["AI-SETUP.md", "README.md", "desktop-build-toolchain.json", "desktop-manifest.json"]

  predicate DistinctPaths(files: seq<File>) {
    forall i, j :: 0 <= i < j < |files| ==> files[i].path != files[j].path
  }

  function Paths(files: seq<File>): set<string> {
    set f | f in files :: f.path
  }

  /** The tree an enumeration lists, whatever its order. */
  function TreeOf(files: seq<File>): Tree {
    if files == [] then map[] else TreeOf(files[..|files| - 1])[files[|files| - 1].path := files[|files| - 1].content]
  }

  function ReadFile(files: seq<File>, path: string): Bytes
    requires path in Paths(files)
  {
    if files[|files| - 1].path == path then files[|files| - 1].content else
    assert exists f :: f in files[..|files| - 1] && f.path == path by {
      var f :| f in files && f.path == path;
      assert f in files[..|files| - 1];
    }
    ReadFile(files[..|files| - 1], path)
  }

  function Row(digest: Digest, path: string, content: Bytes): string {
    path + "\t" + digest(content)
  }

  function Rows(digest: Digest, tree: Tree, paths: seq<string>): seq<string>
    requires forall p :: p in paths ==> p in tree
  {
    seq(|paths|, i requires 0 <= i < |paths| => assert paths[i] in paths; Row(digest, paths[i], tree[paths[i]]))
  }

  function JoinLines(rows: seq<string>): string {
    if rows == [] then "" else if |rows| == 1 then rows[0] else rows[0] + "\n" + JoinLines(rows[1..])
  }

  /** The text whose SHA-256 identifies the tree. */
  function Listing(digest: Digest, tree: Tree): string {
    JoinLines(Rows(digest, tree, Sorted(tree.Keys)))
  }

  lemma {:induction false} TreeHolds(files: seq<File>)
    ensures TreeOf(files).Keys == Paths(files)
    ensures forall p :: p in Paths(files) ==> TreeOf(files)[p] == ReadFile(files, p)
  {
    if files != [] {
      var before, last := files[..|files| - 1], files[|files| - 1];
      assert files == before + [last];
      TreeHolds(before);
      assert Paths(files) == Paths(before) + {last.path};
    }
  }

  /** `_tree_sha256` before the final hash; None is its error for an empty package. */
  method TreeListing(digest: Digest, files: seq<File>) returns (r: Option<string>)
    ensures r == if files == [] then None else Some(Listing(digest, TreeOf(files)))
  {
    var paths := Sorted(Paths(files));
    TreeHolds(files);
    var rows: seq<string> := [];
    for i := 0 to |paths|
      invariant |rows| == i && forall k :: 0 <= k < i ==> rows[k] == Rows(digest, TreeOf(files), paths)[k]
    {
      assert paths[i] in paths;
      rows := rows + [Row(digest, paths[i], ReadFile(files, paths[i]))];
    }
    assert rows == Rows(digest, TreeOf(files), paths);
    if rows == [] {
      assert files == [] || files[0].path in Paths(files);
      return None;
    }
    assert paths[0] in Paths(files);
    return Some(JoinLines(rows));
  }

  // ----- the archive

  function PackageMembers(tree: Tree, paths: seq<string>): seq<Member>
    requires forall p :: p in paths ==> p in tree
  {
    seq(|paths|, i requires 0 <= i < |paths| => assert paths[i] in paths; Member(PACKAGE_PREFIX + paths[i], tree[paths[i]]))
  }

  function ControlMembers(control: Tree): seq<Member>
    requires forall name :: name in RELEASE_CONTROL_FILES ==> name in control
  {
    seq(|RELEASE_CONTROL_FILES|, i requires 0 <= i < |RELEASE_CONTROL_FILES| =>
      Member(RELEASE_CONTROL_FILES[i], control[RELEASE_CONTROL_FILES[i]]))
  }

  function Members(tree: Tree, control: Tree): seq<Member>
    requires forall name :: name in RELEASE_CONTROL_FILES ==> name in control
  {
    PackageMembers(tree, Sorted(tree.Keys)) + ControlMembers(control)
  }

  /** `build_release_archive`: package files in path order under the prefix, then the control files. */
  method WriteMembers(files: seq<File>, control: Tree) returns (members: seq<Member>)
    requires forall name :: name in RELEASE_CONTROL_FILES ==> name in control
    ensures members == Members(TreeOf(files), control)
  {
    var paths := Sorted(Paths(files));
    TreeHolds(files);
    members := [];
    for i := 0 to |paths|
      invariant |members| == i && forall k :: 0 <= k < i ==> members[k] == PackageMembers(TreeOf(files), paths)[k]
    {
      assert paths[i] in paths;
      members := members + [Member(PACKAGE_PREFIX + paths[i], ReadFile(files, paths[i]))];
    }
    assert members == PackageMembers(TreeOf(files), paths);
    for i := 0 to |RELEASE_CONTROL_FILES|
      invariant members == PackageMembers(TreeOf(files), paths) + ControlMembers(control)[..i]
    {
      members := members + [Member(RELEASE_CONTROL_FILES[i], control[RELEASE_CONTROL_FILES[i]])];
      assert ControlMembers(control)[..i + 1] == ControlMembers(control)[..i] + [ControlMembers(control)[i]];
    }
    assert ControlMembers(control)[..|RELEASE_CONTROL_FILES|] == ControlMembers(control);
  }

  /** Reading members by name. */
  function Archive(members: seq<Member>): Tree {
    if members == [] then map[] else Archive(members[..|members| - 1])[members[|members| - 1].name := members[|members| - 1].content]
  }

  predicate Packaged(name: string) {
    PACKAGE_PREFIX <= name
  }

  function PackagedNames(archive: Tree): set<string> {
    set name | name in archive && Packaged(name)
  }

  function ArchiveRows(digest: Digest, archive: Tree, names: seq<string>): seq<string>
    requires forall n :: n in names ==> n in archive && Packaged(n)
  {
    seq(|names|, i requires 0 <= i < |names| =>
      assert names[i] in names && Packaged(names[i]); Row(digest, names[i][|PACKAGE_PREFIX|..], archive[names[i]]))
  }

  /** The listing recomputed from the archive. */
  method ArchiveListing(digest: Digest, archive: Tree) returns (r: string)
    ensures r == JoinLines(ArchiveRows(digest, archive, Sorted(PackagedNames(archive))))
  {
    var names := Sorted(PackagedNames(archive));
    var rows: seq<string> := [];
    for i := 0 to |names|
      invariant |rows| == i && forall k :: 0 <= k < i ==> rows[k] == ArchiveRows(digest, archive, names)[k]
    {
      var name := names[i];
      assert name in names;
      rows := rows + [Row(digest, name[|PACKAGE_PREFIX|..], archive[name])];
    }
    assert rows == ArchiveRows(digest, archive, names);
    r := JoinLines(rows);
  }
}
