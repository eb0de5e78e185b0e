/** `Appium::Tutorial`: the coordinator that discovers every
    (language, version) module set under the tutorial root and broadcasts
    the rake tasks to them.

    The methods change the object's fields in place, as the Ruby methods
    do; what the outside world sees of them is appended to `log`.
 */
module AppiumTutorial {
  import opened FileSystem
  import opened Discovery
  import opened Catalogue
  import opened Effects
  import opened Publishing

  datatype Option<T> = None | Some(value: T)

  /** A construction that raises (with its message), or what it built. */
  datatype Result<T> = Success(value: T) | Failure(error: string)

  /** The message raised for an invalid tutorial root; nil interpolates as
      the empty string. */
  function RootError(root: Option<string>): (r: string)
  {
    "Tutorial root directory must be set. Invalid value: " + (if root.Some? then root.value else "")
  }

  /** `_init_tutorial_root`. `root` is the expanded `opts[:tutorial_root]`
      (`None` for nil) and `at` what that path names (`None` when nothing
      does). */
  function ValidateRoot(root: Option<string>, at: Option<Node>): (r: Result<Path>)
    ensures r.Success? <==> root.Some? && root.value != "" && at.Some? && at.value.isDir
    ensures r.Success? ==> r.value == Path(root.value, [])
    ensures r.Failure? ==> r.error == RootError(root)
  {
    if root.None? || root.value == "" then Failure(RootError(root))
    else if at.None? || !at.value.isDir then Failure(RootError(root))
    else Success(Path(root.value, []))
  }

  /** The header line `list_contents` puts before each module's listing. */
  function Header(name: string): (h: string)
    ensures |h| == |name| + 4
    ensures h[..3] == ":: " && h[|h| - 1] == '\n' && h[3..|h| - 1] == name
  {
    ":: " + name + "\n"
  }

  /** The hash `m` after appending each of `versions` under `key` with
      `<<`, the key being created (empty) just before the first append. */
  function AppendAll(m: map<string, seq<string>>, key: string, versions: seq<string>): (r: map<string, seq<string>>)
  {
    if versions == [] then m else m[key := (if key in m then m[key] else []) + versions]
  }

  /** The key order after those appends. */
  function KeysAfter(keys: seq<string>, key: string, versions: seq<string>): (r: seq<string>)
  {
    if versions != [] && key !in keys then keys + [key] else keys
  }

  /** One more append: create the key if it is missing, then append. */
  lemma AppendOne(m: map<string, seq<string>>, key: string, versions: seq<string>, v: string)
    ensures var before := AppendAll(m, key, versions);
            var created := if key in before then before else before[key := []];
            AppendAll(m, key, versions + [v]) == created[key := created[key] + [v]]
  {
    var before := AppendAll(m, key, versions);
    var created := if key in before then before else before[key := []];
    var stored := if key in m then m[key] else [];
    assert created[key] == stored + versions;
    assert (stored + versions) + [v] == stored + (versions + [v]);
  }

  class Tutorial {
    var tutorialRoot: Path
    var tutorialPath: Path
    /** `@tutorials`: its keys in insertion order, and the hash itself. */
    var languages: seq<string>
    var tutorials: map<string, seq<string>>
    var modules: seq<ModuleSet>
    var skipGit: bool
    /** Everything done to module sets, the filesystem and the shell. */
    var log: seq<Effect>

    /** The output lies at `root/../../tutorials`, the key order lists each
        key of the hash once, and the module list is the flattening of the
        hash. */
    ghost predicate Valid()
      reads this
    {
      && tutorialPath == OutputPath(tutorialRoot)
      && Distinct(languages)
      && (forall l :: l in tutorials <==> l in languages)
      && modules == Modules(tutorialRoot, languages, tutorials)
    }

    /** `Tutorial.new(tutorial_root: ...)`: validate the root, then build
        the object from the root's listing. A rejected root raises before
        any module is discovered. */
    static method New(root: Option<string>, at: Option<Node>) returns (r: Result<Tutorial>)
      ensures r.Failure? <==> ValidateRoot(root, at).Failure?
      ensures r.Failure? ==> r.error == RootError(root)
      ensures r.Success? ==> && fresh(r.value) && r.value.Valid()
                             && r.value.tutorialRoot == ValidateRoot(root, at).value
                             && r.value.languages == Languages(at.value.children)
                             && (forall l :: l in r.value.tutorials ==>
                                   r.value.tutorials[l] == VersionsOf(at.value.children, l))
                             && !r.value.skipGit && r.value.log == []
    {
      var checked := ValidateRoot(root, at);
      if checked.Failure? {
        return Failure(checked.error);
      }
      var t := new Tutorial(checked.value, at.value.children);
      r := Success(t);
    }

    /** Lines after the root check of `initialize`: derive the output path,
        discover the modules from the root's `listing`, flatten them, and
        clear `skip_git`. */
    constructor (root: Path, listing: seq<Node>)
      ensures Valid()
      ensures tutorialRoot == root && tutorialPath == OutputPath(root)
      ensures languages == Languages(listing)
      ensures forall l :: l in tutorials ==> tutorials[l] == VersionsOf(listing, l)
      ensures !skipGit && log == []
    {
      tutorialRoot := root;
      tutorialPath := OutputPath(root);
      log := [];
      new;
      InitModules(listing);
      LanguagesDistinct(listing);
      var _ := PopulateModules();
      skipGit := false;
    }

    /** `_init_modules`: scan the language directories of `listing`, and the
        version directories inside each, appending each version to its
        language's list; a key is created with the first version. */
    method InitModules(listing: seq<Node>)
      modifies this`languages, this`tutorials
      ensures languages == Languages(listing)
      ensures forall l :: l in tutorials <==> l in languages
      ensures forall l :: l in tutorials ==> tutorials[l] == VersionsOf(listing, l)
    {
      languages, tutorials := [], map[];
      var i := 0;
      while i < |listing|
        invariant 0 <= i <= |listing|
        invariant languages == Languages(listing[..i])
        invariant forall l :: l in tutorials <==> l in languages
        invariant forall l :: l in tutorials ==> tutorials[l] == VersionsOf(listing[..i], l)
      {
        var entry := listing[i];
        assert listing[..i + 1][..i] == listing[..i];
        if entry.isDir {
          LanguageKeyIff(listing[..i], entry.name);
          ScanVersions(entry.name, entry.children);
        }
        i := i + 1;
      }
      assert listing[..i] == listing;
    }

    /** The inner scan of `_init_modules` for one language directory:
        append the name of each version directory of `entries`, in order,
        to the language's list, creating the key with the first one. */
    method ScanVersions(language: string, entries: seq<Node>)
      requires forall l :: l in tutorials <==> l in languages
      modifies this`languages, this`tutorials
      ensures forall l :: l in tutorials <==> l in languages
      ensures languages == KeysAfter(old(languages), language, DirNames(entries))
      ensures tutorials == AppendAll(old(tutorials), language, DirNames(entries))
    {
      var j := 0;
      while j < |entries|
        invariant 0 <= j <= |entries|
        invariant forall l :: l in tutorials <==> l in languages
        invariant languages == KeysAfter(old(languages), language, DirNames(entries[..j]))
        invariant tutorials == AppendAll(old(tutorials), language, DirNames(entries[..j]))
      {
        var version := entries[j];
        assert entries[..j + 1][..j] == entries[..j];
        assert DirNames(entries[..j + 1]) == DirNames(entries[..j]) + (if version.isDir then [version.name] else []);
        if version.isDir {
          AppendOne(old(tutorials), language, DirNames(entries[..j]), version.name);
          if language !in tutorials {
            tutorials := tutorials[language := []];
            languages := languages + [language];
          }
          tutorials := tutorials[language := tutorials[language] + [version.name]];
        } else {
          assert DirNames(entries[..j + 1]) == DirNames(entries[..j]);
        }
        j := j + 1;
      }
      assert entries[..j] == entries;
    }

    /** `populate_modules`: one module set per (language, version), in key
        order and then version order. */
    method PopulateModules() returns (result: seq<ModuleSet>)
      requires Keyed(languages, tutorials)
      modifies this`modules
      ensures modules == Modules(tutorialRoot, languages, tutorials) && result == modules
    {
      modules := [];
      var i := 0;
      while i < |languages|
        invariant 0 <= i <= |languages|
        invariant modules == Modules(tutorialRoot, languages[..i], tutorials)
      {
        var language := languages[i];
        var versions := tutorials[language];
        assert languages[..i + 1][..i] == languages[..i];
        var j := 0;
        while j < |versions|
          invariant 0 <= j <= |versions|
          invariant modules == Modules(tutorialRoot, languages[..i], tutorials) + Block(tutorialRoot, language, versions[..j])
        {
          modules := modules + [ModuleSet(tutorialRoot, Join(tutorialRoot, [language, versions[j]]))];
          assert Block(tutorialRoot, language, versions[..j + 1])
              == Block(tutorialRoot, language, versions[..j]) + [ModuleSet(tutorialRoot, Join(tutorialRoot, [language, versions[j]]))];
          j := j + 1;
        }
        assert versions[..j] == versions;
        i := i + 1;
      }
      assert languages[..i] == languages;
      result := modules;
    }

    /** `all_modules`: call `op` on every module set in list order; the
        first call that raises stops the loop and the raise propagates. */
    method AllModules(op: Op, raising: set<(Op, ModuleSet)>) returns (outcome: Outcome)
      modifies this`log
      ensures log == old(log) + Broadcast(op, modules, raising).effects
      ensures outcome == Broadcast(op, modules, raising).outcome
    {
      var i := 0;
      while i < |modules|
        invariant 0 <= i <= |modules|
        invariant AllOk(op, modules[..i], raising)
        invariant log == old(log) + Invocations(op, modules[..i])
      {
        log := log + [Invoke(op, modules[i])];
        assert Invocations(op, modules[..i + 1]) == Invocations(op, modules[..i]) + [Invoke(op, modules[i])];
        if Call(raising, op, modules[i]) == Fail {
          BroadcastStops(op, modules, raising, i);
          return Fail;
        }
        assert modules[..i + 1][i] == modules[i];
        ghost var done := modules[..i + 1];
        assert AllOk(op, done, raising) by {
          forall k | 0 <= k < |done|
            ensures Call(raising, op, done[k]) == Ok
          {
            if k < i {
              assert done[k] == modules[..i][k];
            }
          }
        }
        i := i + 1;
      }
      assert modules[..i] == modules;
      BroadcastOk(op, modules, raising);
      outcome := Ok;
    }

    method GenerateHtml(raising: set<(Op, ModuleSet)>) returns (outcome: Outcome)
      modifies this`log
      ensures log == old(log) + Broadcast(Op.GenerateHtml, modules, raising).effects
      ensures outcome == Broadcast(Op.GenerateHtml, modules, raising).outcome
    {
      outcome := AllModules(Op.GenerateHtml, raising);
    }

    method GenerateMarkdown(raising: set<(Op, ModuleSet)>) returns (outcome: Outcome)
      modifies this`log
      ensures log == old(log) + Broadcast(Op.GenerateMarkdown, modules, raising).effects
      ensures outcome == Broadcast(Op.GenerateMarkdown, modules, raising).outcome
    {
      outcome := AllModules(Op.GenerateMarkdown, raising);
    }

    method DeleteGen(raising: set<(Op, ModuleSet)>) returns (outcome: Outcome)
      modifies this`log
      ensures log == old(log) + Broadcast(Op.DeleteGen, modules, raising).effects
      ensures outcome == Broadcast(Op.DeleteGen, modules, raising).outcome
    {
      outcome := AllModules(Op.DeleteGen, raising);
    }

    /** `_publish`: publish every module set into `dir`. */
    method PublishModules(dir: Path, raising: set<(Op, ModuleSet)>) returns (outcome: Outcome)
      modifies this`log
      ensures log == old(log) + Broadcast(PublishInto(dir), modules, raising).effects
      ensures outcome == Broadcast(PublishInto(dir), modules, raising).outcome
    {
      outcome := AllModules(PublishInto(dir), raising);
    }

    /** `list_contents`: for each module set in order, its header line and
        then its own listing (`contents`), as one element each. Nothing is
        logged or changed. */
    method ListContents(name: ModuleSet -> string, contents: ModuleSet -> string) returns (results: seq<string>)
      ensures |results| == 2 * |modules|
      ensures forall i :: 0 <= i < |modules| ==>
                results[2 * i] == Header(name(modules[i])) && results[2 * i + 1] == contents(modules[i])
    {
      results := [];
      var i := 0;
      while i < |modules|
        invariant 0 <= i <= |modules|
        invariant |results| == 2 * i
        invariant forall k :: 0 <= k < i ==>
                    results[2 * k] == Header(name(modules[k])) && results[2 * k + 1] == contents(modules[k])
      {
        results := results + [Header(name(modules[i]))];
        results := results + [contents(modules[i])];
        i := i + 1;
      }
    }

    /** `attr_accessor :skip_git` (writer). */
    method SetSkipGit(skip: bool)
      modifies this`skipGit
      ensures skipGit == skip
    {
      skipGit := skip;
    }

    /** `sh`: run a command; a failure stops the task. */
    method Sh(c: GitCommand, failing: set<GitCommand>) returns (outcome: Outcome)
      modifies this`log
      ensures log == old(log) + [Shell(c)] && outcome == Exit(failing, c)
    {
      log := log + [Shell(c)];
      outcome := Exit(failing, c);
    }

    /** `sh_ignore_failure`: run a command whatever its exit status. */
    method ShIgnoreFailure(c: GitCommand)
      modifies this`log
      ensures log == old(log) + [Shell(c)]
    {
      log := log + [Shell(c)];
    }

    /** `publish`: clear and recreate the output directory, publish every
        module set into it, copy the css, then (unless `skip_git`) run the
        git commands. Any failure that is not ignored ends the publish. */
    method Publish(raising: set<(Op, ModuleSet)>, failing: set<GitCommand>) returns (outcome: Outcome)
      modifies this`log
      ensures log == old(log) + PublishRun(tutorialRoot, tutorialPath, modules, skipGit, raising, failing).effects
      ensures outcome == PublishRun(tutorialRoot, tutorialPath, modules, skipGit, raising, failing).outcome
    {
      ghost var expected := PublishRun(tutorialRoot, tutorialPath, modules, skipGit, raising, failing);
      ghost var published := Broadcast(PublishInto(tutorialPath), modules, raising);
      ghost var prepare := [RemoveTree(tutorialPath), MakeDirs(tutorialPath)];
      log := log + [RemoveTree(tutorialPath)];
      log := log + [MakeDirs(tutorialPath)];
      assert log == old(log) + prepare;
      outcome := PublishModules(tutorialPath, raising);
      if outcome == Fail {
        assert expected == Run(prepare + published.effects, Fail);
        return;
      }
      var css := CssSource(tutorialRoot);
      log := log + [CopyTree(css, Join(tutorialPath, ["css"]))];
      ghost var copied := prepare + published.effects + [CopyTree(css, Join(tutorialPath, ["css"]))];
      assert log == old(log) + copied;
      if !skipGit {
        ghost var git := GitRun(GitSequence, failing);
        assert expected == Run(copied + git.effects, git.outcome);
        outcome := CommitAndPush(failing);
      } else {
        assert expected == Run(copied, Ok);
      }
    }

    /** The `unless skip_git` block of `publish`: add, commit (its failure
        ignored), pull --rebase, push and check out master, each with `sh`
        stopping at its failure. */
    method CommitAndPush(failing: set<GitCommand>) returns (outcome: Outcome)
      modifies this`log
      ensures log == old(log) + GitRun(GitSequence, failing).effects
      ensures outcome == GitRun(GitSequence, failing).outcome
    {
      GitSequenceRun(failing);
      var add, commit, pull, push, checkout :=
        Shell(AddAll), Shell(Commit), Shell(PullRebase),
        Shell(Push), Shell(CheckoutMaster);
      outcome := Sh(AddAll, failing);
      if outcome == Fail {
        return;
      }
      ShIgnoreFailure(Commit);
      outcome := Sh(PullRebase, failing);
      assert log == old(log) + [add, commit, pull];
      if outcome == Fail {
        return;
      }
      outcome := Sh(Push, failing);
      if outcome == Fail {
        return;
      }
      ghost var pushed := log;
      outcome := Sh(CheckoutMaster, failing);
      assert log == pushed + [checkout];
    }
  }
}
