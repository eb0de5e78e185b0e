/** The part of the filesystem the tutorial coordinator looks at.

    A directory listing is given as the sequence of entries that
    `Dir.glob(join(dir, '*'))` returns, in the order it returns them; this
    holds while `dir` contains no glob metacharacter, which the model
    assumes (the glob reads the whole path as a pattern). Paths
    are a base string (the expanded tutorial root) and a list of components
    joined onto it; no normalisation of `..` is performed, as `join` does
    none that the model can see.
 */
module FileSystem {

  /** One entry of a listing: its base name, whether it is a directory, and
      (for a directory) its own listing. */
  datatype Node = Node(name: string, isDir: bool, children: seq<Node>)

  /** A path: `base` followed by the components in `parts`. */
  datatype Path = Path(base: string, parts: seq<string>)

  /** `join(p, c1, c2, ...)` */
  function Join(p: Path, parts: seq<string>): (r: Path)
    ensures r.base == p.base && |r.parts| == |p.parts| + |parts|
    ensures r.parts[..|p.parts|] == p.parts && r.parts[|p.parts|..] == parts
  {
    Path(p.base, p.parts + parts)
  }

  /** The names of the directories of a listing, in listing order; every
      other entry is skipped. Defined on the last entry, the way a loop over
      the listing extends its result one entry at a time. */
  function DirNames(entries: seq<Node>): (r: seq<string>)
  {
    if entries == [] then []
    else
      var e := entries[|entries| - 1];
      DirNames(entries[..|entries| - 1]) + (if e.isDir then [e.name] else [])
  }

  /** Filtering keeps listing order: the names of a concatenation are the
      names of each part, one after the other. */
  lemma {:induction false} DirNamesAppend(a: seq<Node>, b: seq<Node>)
    ensures DirNames(a + b) == DirNames(a) + DirNames(b)
    decreases |b|
  {
    if b == [] {
      assert a + b == a;
    } else {
      var b' := b[..|b| - 1];
      assert (a + b)[..|a + b| - 1] == a + b';
      DirNamesAppend(a, b');
    }
  }

  /** A name is produced exactly when some directory entry carries it: no
      file ever contributes a name, and no directory is missed. */
  lemma {:induction false} DirNamesMembers(entries: seq<Node>, x: string)
    ensures x in DirNames(entries) <==>
            exists k :: 0 <= k < |entries| && entries[k].isDir && entries[k].name == x
  {
    if entries != [] {
      var init := entries[..|entries| - 1];
      DirNamesMembers(init, x);
      if x in DirNames(init) {
        var k :| 0 <= k < |init| && init[k].isDir && init[k].name == x;
        assert entries[k] == init[k];
      }
      if exists k :: 0 <= k < |entries| && entries[k].isDir && entries[k].name == x {
        var k :| 0 <= k < |entries| && entries[k].isDir && entries[k].name == x;
        if k < |init| {
          assert init[k] == entries[k];
        }
      }
    }
  }

  /** A listing without directories yields no names. */
  lemma {:induction false} DirNamesEmpty(entries: seq<Node>)
    ensures DirNames(entries) == [] <==> forall k :: 0 <= k < |entries| ==> !entries[k].isDir
  {
    if DirNames(entries) != [] {
      DirNamesMembers(entries, DirNames(entries)[0]);
    } else {
      forall k | 0 <= k < |entries|
        ensures !entries[k].isDir
      {
        DirNamesMembers(entries, entries[k].name);
      }
    }
  }
}
