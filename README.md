# Appium tutorial coordinator, modelled in Dafny

`Appium::Tutorial` (`lib/tutorial.rb`) is the object behind the tutorial's
rake tasks. It works through five steps:

- It validates the tutorial root.
- It discovers the module sets laid out as `root/<language>/<version>/`.
- It flattens them into one list of module sets.
- It broadcasts `generate_html`, `generate_markdown`, `delete_gen`, `publish`
  and `list_contents` to every module set.
- It runs the publish workflow. That workflow clears the output directory,
  publishes every module set into it, copies the shared css and then runs a
  fixed git command sequence.

The model keeps the Ruby object's shape. `AppiumTutorial.Tutorial` is a class
whose methods update its fields in place, with loops that mirror the Ruby
iterations:

- `tutorialRoot` and `tutorialPath` are the two paths.
- The hash `@tutorials` is kept as `languages` (its key insertion order) plus
  `tutorials` (the map).
- `modules` is the flat list of module sets.
- `skipGit` is the `skip_git` flag.
- `log` records everything done to the world: module-set calls, `rm_rf`,
  `mkdir_p`, `copy_entry` and shell commands.

Every method is proved against a specification function:

| Function | Specifies |
|---|---|
| `Discovery.Languages` and `Discovery.VersionsOf` | the two-level scan |
| `Catalogue.Modules` | the flattening |
| `Effects.Broadcast` | `all_modules` |
| `Publishing.GitRun` and `Publishing.PublishRun` | `publish` |

The properties the Ruby code promises are proved as lemmas about those
functions.

There are six modules, one per file:

| File | Module | Contents |
|---|---|---|
| `filesystem.dfy` | `FileSystem` | listings (`Node`), paths (`Path`, `Join`) and the directory filter `DirNames` |
| `discovery.dfy` | `Discovery` | the language/version scan |
| `catalogue.dfy` | `Catalogue` | the flat module list |
| `effects.dfy` | `Effects` | outcomes, effects and the broadcast |
| `publish.dfy` | `Publishing` | the publish workflow |
| `tutorial.dfy` | `AppiumTutorial` | root validation and the `Tutorial` class |

Nothing here can see a module set's own work (`Appium::ModuleSet`) or the
shell. Both are seen only through their outcome. The caller gives two sets:

- `raising`: the (operation, module set) calls that raise;
- `failing`: the git commands that exit with a failure.

A raise is modelled as the outcome `Fail`, which ends the run that contains it.

## Model

| member | source | states |
|---|---|---|
| AppiumTutorial.ValidateRoot | lib/tutorial.rb:51-56 | the root is accepted exactly when it is given, non-empty and a directory; otherwise the error is "Tutorial root directory must be set. Invalid value: " followed by the value (empty for nil) |
| AppiumTutorial.Tutorial.New | lib/tutorial.rb:39-56 | construction raises exactly when the root is rejected, with the root error; otherwise the new object is valid, holds the discovered languages and versions, has `skip_git` false and has done nothing yet |
| AppiumTutorial.Tutorial.constructor | lib/tutorial.rb:42-47 | the output path is `root/../../tutorials`, the key order and lists are those of the scan, the module list is their flattening, and `skip_git` is false |
| AppiumTutorial.Tutorial.InitModules | lib/tutorial.rb:60-78 | after the scan, the keys in insertion order are `Languages(listing)`, every key is in the hash and nothing else is, and each key stores `VersionsOf(listing, key)` |
| AppiumTutorial.Tutorial.ScanVersions | lib/tutorial.rb:69-76 | one language directory appends each of its version directories in order; the key is added to the key order only at its first version and only if new |
| AppiumTutorial.AppendOne | lib/tutorial.rb:74-75 | creating the key when it is nil and then appending with `<<` extends the stored list by exactly one version |
| AppiumTutorial.Tutorial.PopulateModules | lib/tutorial.rb:80-90 | the module list is rebuilt as the flattening of the hash, in key order and then version order, and is returned |
| AppiumTutorial.Tutorial.AllModules | lib/tutorial.rb:92-95 | the calls made and the outcome are exactly those of the fail-fast broadcast over the module list |
| AppiumTutorial.Tutorial.GenerateHtml | lib/tutorial.rb:101-103 | broadcasts `generate_html` |
| AppiumTutorial.Tutorial.GenerateMarkdown | lib/tutorial.rb:105-107 | broadcasts `generate_markdown` |
| AppiumTutorial.Tutorial.DeleteGen | lib/tutorial.rb:109-111 | broadcasts `delete_gen` |
| AppiumTutorial.Tutorial.PublishModules | lib/tutorial.rb:122-124 | broadcasts `publish(dir)` |
| AppiumTutorial.Tutorial.ListContents | lib/tutorial.rb:113-120 | two entries per module set, in module order: the header `":: " + name + "\n"`, then that module set's own listing |
| AppiumTutorial.Header | lib/tutorial.rb:116 | the header is the name framed by ":: " and a newline, four characters longer |
| AppiumTutorial.Tutorial.SetSkipGit | lib/tutorial.rb:9 | the writer sets `skip_git` |
| Publishing.GitSequenceLines | lib/tutorial.rb:139-144 | the git commands of publish run the lines "git add --all .", "git commit -am \"Update tutorial\"", "git pull --rebase origin master", "git push" and "git checkout master", in that order, and no two commands share a line |
| AppiumTutorial.Tutorial.Sh | lib/tutorial.rb:139 | `sh` issues the command and reports whether it failed |
| AppiumTutorial.Tutorial.ShIgnoreFailure | lib/tutorial.rb:141 | `sh_ignore_failure` issues the command and never fails |
| AppiumTutorial.Tutorial.Publish | lib/tutorial.rb:126-146 | the effects and the outcome are exactly those of the publish specification `PublishRun` |
| AppiumTutorial.Tutorial.CommitAndPush | lib/tutorial.rb:137-145 | the git block issues add, commit, pull --rebase, push and checkout master as `GitRun` says |
| FileSystem.DirNamesMembers | lib/tutorial.rb:70-71 | a name is kept exactly when some directory entry carries it; files never contribute |
| FileSystem.DirNamesAppend | lib/tutorial.rb:70-76 | filtering keeps listing order across a split of the listing |
| FileSystem.DirNamesEmpty | lib/tutorial.rb:70-71 | a listing yields no version exactly when it has no directory |
| Discovery.LanguagesDistinct | lib/tutorial.rb:74 | no language appears twice in the key order |
| Discovery.LanguageKeyIff | lib/tutorial.rb:74-75 | a language is a key exactly when at least one version was appended under it |
| Discovery.LanguageKeyFromDirectories | lib/tutorial.rb:64-75 | a language is a key exactly when some directory of that name holds a version directory; a language directory without versions creates no key |
| Discovery.VersionsMembers | lib/tutorial.rb:64-76 | a version is stored under a language exactly when it names a directory inside a directory of that language's name |
| Discovery.VersionsOfSingleDirectory | lib/tutorial.rb:69-76 | a uniquely named language directory stores exactly its version directories, in listing order |
| Discovery.VersionsOfAbsent | lib/tutorial.rb:64-65 | a name carried by no directory stores nothing |
| Catalogue.ModulesCount | lib/tutorial.rb:82-87 | there is exactly one module set per (language, version) pair |
| Catalogue.ModulesAppend | lib/tutorial.rb:82-87 | the modules of earlier languages come before those of later ones |
| Catalogue.ModuleAt | lib/tutorial.rb:82-86 | the `j`-th version of the `k`-th language sits right after every version of the earlier languages, rooted at `join(root, language, version)` |
| Catalogue.ModuleProvenance | lib/tutorial.rb:82-86 | every module set is rooted at `join(root, language, version)` for a key and one of its versions |
| Effects.BroadcastOk | lib/tutorial.rb:92-95 | a broadcast returns exactly when every call returns, and then each module set was called once, in list order |
| Effects.BroadcastStops | lib/tutorial.rb:93 | when the `k`-th call is the first to raise, exactly the first `k + 1` module sets were called and the raise propagates |
| Effects.BroadcastBounded | lib/tutorial.rb:92-95 | a broadcast calls only module sets of the list, with the requested operation, and no more calls than there are module sets |
| Publishing.GitSequenceRun | lib/tutorial.rb:137-145 | the git stage case by case: a failed add stops at once, a failed commit is ignored, and a failed pull or push stops before the later commands |
| Publishing.GitRunOk | lib/tutorial.rb:138-144 | the git sequence succeeds exactly when every command other than the commit succeeds, and then all of them were issued in order |
| Publishing.GitRunStops | lib/tutorial.rb:138-144 | at the first failure of a command that must succeed, exactly the commands up to it were issued |
| Publishing.PublishAllSteps | lib/tutorial.rb:126-146 | a publish where nothing fails: rm_rf, mkdir_p, publish of each module set in order, css copy, then the five git commands unless skip_git |
| Publishing.PublishOk | lib/tutorial.rb:126-146 | publish succeeds exactly when every module set publishes and, unless skip_git, every git command except the commit succeeds |
| Publishing.PublishIssuesGit | lib/tutorial.rb:130-137 | a git command is issued exactly when skip_git is false and every module set published |
| Publishing.PublishModuleFailure | lib/tutorial.rb:127-130 | a module set that fails to publish ends the publish: no later module set is called, the css is not copied and no git command is issued |
| Publishing.PublishGitFailure | lib/tutorial.rb:137-145 | the first git command that must succeed and fails ends the publish after the commands up to it |
| Publishing.PushFailureAborts | lib/tutorial.rb:143-144 | a failed push fails the publish before `git checkout master` |

## Left out

- Filesystem access: the tutorial root is given as a tree of `Node`s. The
  listing that `Dir.glob(join(dir, '*'))` returns is taken to be the
  node's children, in whatever order the glob returns them. Hidden entries
  are assumed to be already excluded, as the glob excludes them.
- Glob metacharacters: `Dir.glob` reads the whole path as a pattern
  (lib/tutorial.rb:63-64, 69-70). The model assumes that the root and every
  language directory name are free of `[`, `]`, `{`, `}`, `*`, `?` and `\`.
  With such a character, the source scans a different directory from the
  one the model scans. For example, a root of `/x/tut[1]/modules` is
  scanned as `/x/tut1/modules/*`.
- AppiumTutorial.ValidateRoot: `expand_path` is not modelled; the given
  string is taken as already expanded. One effect: Ruby expands an empty
  string to the working directory.
- `join` and `basename`: a path is a base plus a list of components, with
  no normalisation of `..`.
- `Appium::ModuleSet` is not part of this model. Its `generate_html`,
  `generate_markdown`, `delete_gen` and `publish` are seen only through
  their outcome (the `raising` set). Its `name` and `list_contents` are
  functions given by the caller.
- AppiumTutorial.Tutorial.PopulateModules: `Appium::ModuleSet.new`
  (lib/tutorial.rb:85) is assumed never to raise. So the model does not
  capture a construction that fails part-way through the module list.
- AppiumTutorial.Tutorial.New: it fails exactly when the root is rejected
  only because `Appium::ModuleSet.new` is assumed never to raise.
- AppiumTutorial.Tutorial.ListContents: a module set's `name` or
  `list_contents` that raises is not modelled.
- `rm_rf`, `mkdir_p` and `copy_entry` are recorded as effects and assumed to
  succeed. Their effect on files is not modelled.
- `sh` and `sh_ignore_failure`: only the exit status of each git command is
  modelled, not the process or its output. The command lines are given by
  `Effects.CommandLine`.
- Generation of HTML, markdown and css: it belongs to the module sets and
  helpers, which are not part of this model.
- The `attr_reader`s are plain field reads and have no member of their own.
  `all_modules` returns nil in Ruby; here it returns whether a call raised.
