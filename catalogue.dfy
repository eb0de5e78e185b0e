/** The flat module list built from the language/version hash: one module
    set per (language, version) pair, in key order and then version order,
    each rooted at `join(tutorial_root, language, version)`.
 */
module Catalogue {
  import opened FileSystem

  /** What `Appium::ModuleSet.new(tutorial_root:, module_root:)` is given. */
  datatype ModuleSet = ModuleSet(tutorialRoot: Path, moduleRoot: Path)

  /** Every key of the key order has an entry in the hash. */
  predicate Keyed(languages: seq<string>, tutorials: map<string, seq<string>>)
  {
    forall l :: l in languages ==> l in tutorials
  }

  /** The module sets of one language, in version order. */
  function Block(root: Path, language: string, versions: seq<string>): (r: seq<ModuleSet>)
  {
    seq(|versions|, j requires 0 <= j < |versions| => ModuleSet(root, Join(root, [language, versions[j]])))
  }

  /** The module list: the blocks of the languages, in key order. */
  function Modules(root: Path, languages: seq<string>, tutorials: map<string, seq<string>>): (r: seq<ModuleSet>)
    requires Keyed(languages, tutorials)
  {
    if languages == [] then []
    else
      var n := |languages| - 1;
      Modules(root, languages[..n], tutorials) + Block(root, languages[n], tutorials[languages[n]])
  }

  /** The sum of the lengths of the version lists of `languages`. */
  function TotalVersions(languages: seq<string>, tutorials: map<string, seq<string>>): (r: nat)
    requires Keyed(languages, tutorials)
  {
    if languages == [] then 0
    else
      var n := |languages| - 1;
      TotalVersions(languages[..n], tutorials) + |tutorials[languages[n]]|
  }

  /** There is one module per (language, version) pair. */
  lemma {:induction false} ModulesCount(root: Path, languages: seq<string>, tutorials: map<string, seq<string>>)
    requires Keyed(languages, tutorials)
    ensures |Modules(root, languages, tutorials)| == TotalVersions(languages, tutorials)
  {
    if languages != [] {
      ModulesCount(root, languages[..|languages| - 1], tutorials);
    }
  }

  /** Order: the modules of a longer key order extend those of a shorter
      one, so all modules of an earlier language precede those of a later
      one. */
  lemma {:induction false} ModulesAppend(root: Path, a: seq<string>, b: seq<string>, tutorials: map<string, seq<string>>)
    requires Keyed(a, tutorials) && Keyed(b, tutorials)
    ensures Keyed(a + b, tutorials)
    ensures Modules(root, a + b, tutorials) == Modules(root, a, tutorials) + Modules(root, b, tutorials)
    decreases |b|
  {
    if b == [] {
      assert a + b == a;
    } else {
      var b' := b[..|b| - 1];
      assert (a + b)[..|a + b| - 1] == a + b';
      ModulesAppend(root, a, b', tutorials);
    }
  }

  /** The module of the `j`-th version of the `k`-th language sits after all
      versions of the earlier languages, and is rooted at
      `join(root, language, version)`. */
  lemma {:induction false} ModuleAt(root: Path, languages: seq<string>, tutorials: map<string, seq<string>>, k: nat, j: nat)
    requires Keyed(languages, tutorials)
    requires k < |languages| && j < |tutorials[languages[k]]|
    ensures TotalVersions(languages[..k], tutorials) + j < |Modules(root, languages, tutorials)|
    ensures Modules(root, languages, tutorials)[TotalVersions(languages[..k], tutorials) + j]
            == ModuleSet(root, Join(root, [languages[k], tutorials[languages[k]][j]]))
  {
    var n := |languages| - 1;
    var init := languages[..n];
    ModulesCount(root, init, tutorials);
    if k < n {
      assert init[..k] == languages[..k];
      assert init[k] == languages[k];
      ModuleAt(root, init, tutorials, k, j);
    } else {
      assert languages[..k] == init;
    }
  }

  /** Every module is `join(root, language, version)` for a key and one of
      its versions: nothing outside the two-level layout is invented. */
  lemma ModuleProvenance(root: Path, languages: seq<string>, tutorials: map<string, seq<string>>, i: nat)
    requires Keyed(languages, tutorials)
    requires i < |Modules(root, languages, tutorials)|
    ensures exists k, j :: 0 <= k < |languages| && 0 <= j < |tutorials[languages[k]]| &&
                           Modules(root, languages, tutorials)[i] ==
                           ModuleSet(root, Join(root, [languages[k], tutorials[languages[k]][j]]))
  {
    var n := |languages| - 1;
    var init := languages[..n];
    var before := Modules(root, init, tutorials);
    if i < |before| {
      ModuleProvenance(root, init, tutorials, i);
      var k, j :| 0 <= k < |init| && 0 <= j < |tutorials[init[k]]| &&
                  before[i] == ModuleSet(root, Join(root, [init[k], tutorials[init[k]][j]]));
      assert init[k] == languages[k];
    } else {
      var j := i - |before|;
      assert Modules(root, languages, tutorials)[i] == ModuleSet(root, Join(root, [languages[n], tutorials[languages[n]][j]]));
    }
  }
}
