/** The two-level scan of the tutorial root (language directories, then
    version directories inside each), as specification functions on the
    root's listing. `Languages` is the key order of the resulting hash and
    `VersionsOf` the list stored under one key.
 */
module Discovery {
  import opened FileSystem

  /** Keys of the language/version hash, in insertion order. A language is
      added when the first version directory inside it is seen, and only
      if it is not already a key. */
  function Languages(listing: seq<Node>): (r: seq<string>)
  {
    if listing == [] then []
    else
      var e := listing[|listing| - 1];
      var keys := Languages(listing[..|listing| - 1]);
      if e.isDir && DirNames(e.children) != [] && e.name !in keys then keys + [e.name] else keys
  }

  /** The versions appended under `language`: the version directories of
      every language directory of that name, in listing order. */
  function VersionsOf(listing: seq<Node>, language: string): (r: seq<string>)
  {
    if listing == [] then []
    else
      var e := listing[|listing| - 1];
      VersionsOf(listing[..|listing| - 1], language)
        + (if e.isDir && e.name == language then DirNames(e.children) else [])
  }

  /** No two keys are equal (they are the keys of a hash). */
  ghost predicate Distinct(s: seq<string>)
  {
    forall i, j :: 0 <= i < j < |s| ==> s[i] != s[j]
  }

  lemma {:induction false} LanguagesDistinct(listing: seq<Node>)
    ensures Distinct(Languages(listing))
  {
    if listing != [] {
      LanguagesDistinct(listing[..|listing| - 1]);
    }
  }

  /** A language is a key exactly when something was appended under it. */
  lemma {:induction false} LanguageKeyIff(listing: seq<Node>, language: string)
    ensures language in Languages(listing) <==> VersionsOf(listing, language) != []
  {
    if listing != [] {
      LanguageKeyIff(listing[..|listing| - 1], language);
    }
  }

  /** Every version stored under a language is the name of a directory
      inside a directory of that language's name, and every such directory
      is stored: files are skipped at both levels. */
  lemma {:induction false} VersionsMembers(listing: seq<Node>, language: string, version: string)
    ensures version in VersionsOf(listing, language) <==>
            exists k, j :: 0 <= k < |listing| && listing[k].isDir && listing[k].name == language &&
                           0 <= j < |listing[k].children| &&
                           listing[k].children[j].isDir && listing[k].children[j].name == version
  {
    if listing != [] {
      var init := listing[..|listing| - 1];
      var e := listing[|listing| - 1];
      VersionsMembers(init, language, version);
      DirNamesMembers(e.children, version);
      if version in VersionsOf(init, language) {
        var k, j :| 0 <= k < |init| && init[k].isDir && init[k].name == language &&
                    0 <= j < |init[k].children| &&
                    init[k].children[j].isDir && init[k].children[j].name == version;
        assert listing[k] == init[k];
      }
      if version in VersionsOf(listing, language) && version !in VersionsOf(init, language) {
        var j :| 0 <= j < |e.children| && e.children[j].isDir && e.children[j].name == version;
        assert listing[|listing| - 1].children[j] == e.children[j];
      }
      if exists k, j :: 0 <= k < |listing| && listing[k].isDir && listing[k].name == language &&
                        0 <= j < |listing[k].children| &&
                        listing[k].children[j].isDir && listing[k].children[j].name == version
      {
        var k, j :| 0 <= k < |listing| && listing[k].isDir && listing[k].name == language &&
                    0 <= j < |listing[k].children| &&
                    listing[k].children[j].isDir && listing[k].children[j].name == version;
        if k < |init| {
          assert init[k] == listing[k];
        }
      }
    }
  }

  /** A key exists for a language exactly when a directory of that name has
      at least one version directory. */
  lemma LanguageKeyFromDirectories(listing: seq<Node>, language: string)
    ensures language in Languages(listing) <==>
            exists k :: 0 <= k < |listing| && listing[k].isDir && listing[k].name == language &&
                        DirNames(listing[k].children) != []
  {
    LanguageKeyIff(listing, language);
    if VersionsOf(listing, language) != [] {
      var v := VersionsOf(listing, language)[0];
      VersionsMembers(listing, language, v);
      var k, j :| 0 <= k < |listing| && listing[k].isDir && listing[k].name == language &&
                  0 <= j < |listing[k].children| &&
                  listing[k].children[j].isDir && listing[k].children[j].name == v;
      DirNamesMembers(listing[k].children, v);
    }
    if exists k :: 0 <= k < |listing| && listing[k].isDir && listing[k].name == language &&
                   DirNames(listing[k].children) != []
    {
      var k :| 0 <= k < |listing| && listing[k].isDir && listing[k].name == language &&
               DirNames(listing[k].children) != [];
      var v := DirNames(listing[k].children)[0];
      DirNamesMembers(listing[k].children, v);
      VersionsMembers(listing, language, v);
    }
  }

  /** Where a directory has a unique name (as in any real directory), the
      versions stored under it are exactly its version directories, in
      listing order and unsorted. */
  lemma {:induction false} VersionsOfSingleDirectory(listing: seq<Node>, k: nat)
    requires k < |listing| && listing[k].isDir
    requires forall i :: 0 <= i < |listing| && i != k ==> listing[i].name != listing[k].name
    ensures VersionsOf(listing, listing[k].name) == DirNames(listing[k].children)
  {
    var init := listing[..|listing| - 1];
    if k < |listing| - 1 {
      forall i | 0 <= i < |init| && i != k
        ensures init[i].name != init[k].name
      {
        assert init[i] == listing[i];
      }
      VersionsOfSingleDirectory(init, k);
    } else {
      VersionsOfAbsent(init, listing[k].name);
    }
  }

  /** A name that no directory of the listing carries has nothing stored. */
  lemma {:induction false} VersionsOfAbsent(listing: seq<Node>, language: string)
    requires forall i :: 0 <= i < |listing| ==> !(listing[i].isDir && listing[i].name == language)
    ensures VersionsOf(listing, language) == []
  {
    if listing != [] {
      var init := listing[..|listing| - 1];
      forall i | 0 <= i < |init|
        ensures !(init[i].isDir && init[i].name == language)
      {
        assert init[i] == listing[i];
      }
      VersionsOfAbsent(init, language);
    }
  }
}
