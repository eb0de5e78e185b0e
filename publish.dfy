/** The publish workflow as a specification: clear the output directory,
    recreate it, publish every module set into it, copy the shared css, and
    then, unless git is skipped, run the fixed git command sequence.

    `sh` stops the task when its command fails; `sh_ignore_failure` (used
    only for the commit) never does.
 */
module Publishing {
  import opened FileSystem
  import opened Catalogue
  import opened Effects

  /** The commands run with `sh_ignore_failure`: a commit with nothing to
      commit fails, and that is not an error. */
  predicate Tolerated(c: GitCommand)
  {
    c == Commit
  }

  /** The git commands, in the order publish issues them. */
  const GitSequence: seq<GitCommand> := [AddAll, Commit, PullRebase, Push, CheckoutMaster]

  /** The command lines of the git stage, in the order publish issues
      them. No two commands share a line, so the commands in the log
      determine the lines that were run. */
  lemma GitSequenceLines()
    ensures seq(|GitSequence|, k requires 0 <= k < |GitSequence| => CommandLine(GitSequence[k])) ==
            ["git add --all .", "git commit -am \"Update tutorial\"", "git pull --rebase origin master",
             "git push", "git checkout master"]
    ensures forall a: GitCommand, b: GitCommand :: CommandLine(a) == CommandLine(b) ==> a == b
  {
  }

  /** `join(tutorial_root, '..', 'css')`: the shared stylesheet directory. */
  function CssSource(root: Path): (r: Path)
  {
    Join(root, ["..", "css"])
  }

  /** `join(tutorial_root, '..', '..', 'tutorials')`: the output directory. */
  function OutputPath(root: Path): (r: Path)
  {
    Join(root, ["..", "..", "tutorials"])
  }

  /** The shell effects of issuing `cmds`, one per command, in order. */
  function ShellLog(cmds: seq<GitCommand>): (r: seq<Effect>)
  {
    seq(|cmds|, k requires 0 <= k < |cmds| => Shell(cmds[k]))
  }

  /** Issue `cmds` in order; a failure of a command that is not tolerated
      ends the sequence and fails the run. */
  function GitRun(cmds: seq<GitCommand>, failing: set<GitCommand>): (r: Run)
  {
    if cmds == [] then Run([], Ok)
    else if Exit(failing, cmds[0]) == Fail && !Tolerated(cmds[0]) then Run([Shell(cmds[0])], Fail)
    else
      var rest := GitRun(cmds[1..], failing);
      Run([Shell(cmds[0])] + rest.effects, rest.outcome)
  }

  /** Every command that must succeed does. */
  ghost predicate GitOk(cmds: seq<GitCommand>, failing: set<GitCommand>)
  {
    forall k :: 0 <= k < |cmds| && !Tolerated(cmds[k]) ==> Exit(failing, cmds[k]) == Ok
  }

  /** `publish`, from `rm_rf tutorial_path` to `sh 'git checkout master'`. */
  function PublishRun(root: Path, out: Path, mods: seq<ModuleSet>, skipGit: bool,
                      raising: set<(Op, ModuleSet)>, failing: set<GitCommand>): (r: Run)
  {
    var prepare := [RemoveTree(out), MakeDirs(out)];
    var published := Broadcast(PublishInto(out), mods, raising);
    if published.outcome == Fail then Run(prepare + published.effects, Fail)
    else
      var copied := prepare + published.effects + [CopyTree(CssSource(root), Join(out, ["css"]))];
      if skipGit then Run(copied, Ok)
      else
        var git := GitRun(GitSequence, failing);
        Run(copied + git.effects, git.outcome)
  }

  /** The git stage of publish, command by command: `git add` and then the
      commit are always issued once `git add` succeeds, the commit's own
      failure is ignored, and the first other failure ends the stage. */
  lemma GitSequenceRun(failing: set<GitCommand>)
    ensures var add, commit, pull, push, checkout :=
              Shell(AddAll), Shell(Commit), Shell(PullRebase),
              Shell(Push), Shell(CheckoutMaster);
            GitRun(GitSequence, failing) ==
              if Exit(failing, AddAll) == Fail then Run([add], Fail)
              else if Exit(failing, PullRebase) == Fail then Run([add, commit, pull], Fail)
              else if Exit(failing, Push) == Fail then Run([add, commit, pull, push], Fail)
              else Run([add, commit, pull, push, checkout], Exit(failing, CheckoutMaster))
  {
    var cmds := GitSequence;
    assert cmds[4..] == [CheckoutMaster] && cmds[4..][1..] == [];
    assert GitRun(cmds[4..], failing) == Run([Shell(CheckoutMaster)], Exit(failing, CheckoutMaster));
    assert cmds[3..] == [Push, CheckoutMaster] && cmds[3..][1..] == cmds[4..];
    assert cmds[2..] == [PullRebase, Push, CheckoutMaster] && cmds[2..][1..] == cmds[3..];
    assert cmds[1..] == [Commit, PullRebase, Push, CheckoutMaster] && cmds[1..][1..] == cmds[2..];
    var g3 := GitRun(cmds[3..], failing);
    assert g3 == if Exit(failing, Push) == Fail then Run([Shell(Push)], Fail)
                 else Run([Shell(Push), Shell(CheckoutMaster)], Exit(failing, CheckoutMaster));
    var g2 := GitRun(cmds[2..], failing);
    assert g2 == if Exit(failing, PullRebase) == Fail then Run([Shell(PullRebase)], Fail)
                 else Run([Shell(PullRebase)] + g3.effects, g3.outcome);
    var g1 := GitRun(cmds[1..], failing);
    assert g1 == Run([Shell(Commit)] + g2.effects, g2.outcome);
  }

  /** The git sequence succeeds exactly when every command that must succeed
      does (whatever the tolerated ones do), and then every command has been
      issued once, in order. */
  lemma {:induction false} GitRunOk(cmds: seq<GitCommand>, failing: set<GitCommand>)
    ensures GitRun(cmds, failing).outcome == Ok <==> GitOk(cmds, failing)
    ensures GitOk(cmds, failing) ==> GitRun(cmds, failing).effects == ShellLog(cmds)
  {
    if cmds != [] {
      GitRunOk(cmds[1..], failing);
      if GitOk(cmds, failing) {
        assert GitOk(cmds[1..], failing) by {
          forall k | 0 <= k < |cmds| - 1 && !Tolerated(cmds[1..][k])
            ensures Exit(failing, cmds[1..][k]) == Ok
          {
            assert cmds[1..][k] == cmds[k + 1];
          }
        }
        assert [Shell(cmds[0])] + ShellLog(cmds[1..]) == ShellLog(cmds);
      } else if Exit(failing, cmds[0]) == Ok || Tolerated(cmds[0]) {
        var k :| 0 <= k < |cmds| && !Tolerated(cmds[k]) && Exit(failing, cmds[k]) != Ok;
        assert cmds[1..][k - 1] == cmds[k];
      }
    }
  }

  /** When the `k`-th command is the first one that must succeed and does
      not, exactly the first `k + 1` commands have been issued. */
  lemma {:induction false} GitRunStops(cmds: seq<GitCommand>, failing: set<GitCommand>, k: nat)
    requires k < |cmds| && Exit(failing, cmds[k]) == Fail && !Tolerated(cmds[k])
    requires GitOk(cmds[..k], failing)
    ensures GitRun(cmds, failing) == Run(ShellLog(cmds[..k + 1]), Fail)
  {
    if k == 0 {
      assert ShellLog(cmds[..1]) == [Shell(cmds[0])];
    } else {
      assert cmds[..k][0] == cmds[0];
      assert cmds[1..][k - 1] == cmds[k];
      var tail := cmds[1..][..k - 1];
      assert GitOk(tail, failing) by {
        forall i | 0 <= i < |tail| && !Tolerated(tail[i])
          ensures Exit(failing, tail[i]) == Ok
        {
          assert tail[i] == cmds[..k][i + 1];
        }
      }
      GitRunStops(cmds[1..], failing, k - 1);
      assert cmds[1..][..k] == cmds[1..k + 1];
      assert [Shell(cmds[0])] + ShellLog(cmds[1..k + 1]) == ShellLog(cmds[..k + 1]);
    }
  }

  /** A publish where every step succeeds: clear, recreate, publish each
      module set in list order, copy the css, then (unless skipped) the five
      git commands in order. */
  lemma PublishAllSteps(root: Path, out: Path, mods: seq<ModuleSet>, skipGit: bool,
                        raising: set<(Op, ModuleSet)>, failing: set<GitCommand>)
    requires AllOk(PublishInto(out), mods, raising)
    requires skipGit || GitOk(GitSequence, failing)
    ensures PublishRun(root, out, mods, skipGit, raising, failing).effects ==
            [RemoveTree(out), MakeDirs(out)] + Invocations(PublishInto(out), mods)
            + [CopyTree(CssSource(root), Join(out, ["css"]))]
            + (if skipGit then [] else ShellLog(GitSequence))
  {
    BroadcastOk(PublishInto(out), mods, raising);
    GitRunOk(GitSequence, failing);
  }

  /** Publish succeeds exactly when every module set publishes and, unless
      git is skipped, every git command other than the commit succeeds: a
      failed commit never fails a publish. */
  lemma PublishOk(root: Path, out: Path, mods: seq<ModuleSet>, skipGit: bool,
                  raising: set<(Op, ModuleSet)>, failing: set<GitCommand>)
    ensures PublishRun(root, out, mods, skipGit, raising, failing).outcome == Ok <==>
            AllOk(PublishInto(out), mods, raising) && (skipGit || GitOk(GitSequence, failing))
  {
    BroadcastOk(PublishInto(out), mods, raising);
    GitRunOk(GitSequence, failing);
  }

  /** A git command is issued exactly when git is not skipped and every
      module set published. */
  lemma PublishIssuesGit(root: Path, out: Path, mods: seq<ModuleSet>, skipGit: bool,
                         raising: set<(Op, ModuleSet)>, failing: set<GitCommand>)
    ensures (exists i :: 0 <= i < |PublishRun(root, out, mods, skipGit, raising, failing).effects| &&
                         PublishRun(root, out, mods, skipGit, raising, failing).effects[i].Shell?)
            <==> !skipGit && AllOk(PublishInto(out), mods, raising)
  {
    var published := Broadcast(PublishInto(out), mods, raising);
    var effects := PublishRun(root, out, mods, skipGit, raising, failing).effects;
    BroadcastOk(PublishInto(out), mods, raising);
    BroadcastBounded(PublishInto(out), mods, raising);
    if !skipGit && AllOk(PublishInto(out), mods, raising) {
      var git := GitRun(GitSequence, failing);
      assert git.effects != [] && git.effects[0] == Shell(AddAll);
      assert effects[|effects| - |git.effects|] == Shell(AddAll);
    } else {
      forall i | 0 <= i < |effects|
        ensures !effects[i].Shell?
      {
        if 2 <= i < 2 + |published.effects| {
          assert effects[i] == published.effects[i - 2];
          assert effects[i] in published.effects;
        }
      }
    }
  }

  /** When the `k`-th module set is the first that fails to publish, no
      later module set is called, the css is not copied and no git command
      is issued. */
  lemma PublishModuleFailure(root: Path, out: Path, mods: seq<ModuleSet>, skipGit: bool,
                             raising: set<(Op, ModuleSet)>, failing: set<GitCommand>, k: nat)
    requires k < |mods| && Call(raising, PublishInto(out), mods[k]) == Fail
    requires AllOk(PublishInto(out), mods[..k], raising)
    ensures PublishRun(root, out, mods, skipGit, raising, failing) ==
            Run([RemoveTree(out), MakeDirs(out)] + Invocations(PublishInto(out), mods[..k + 1]), Fail)
  {
    BroadcastStops(PublishInto(out), mods, raising, k);
  }

  /** When the `k`-th git command is the first one that must succeed and
      does not, the later git commands are not issued and publish fails. */
  lemma PublishGitFailure(root: Path, out: Path, mods: seq<ModuleSet>,
                          raising: set<(Op, ModuleSet)>, failing: set<GitCommand>, k: nat)
    requires AllOk(PublishInto(out), mods, raising)
    requires k < |GitSequence| && Exit(failing, GitSequence[k]) == Fail && !Tolerated(GitSequence[k])
    requires GitOk(GitSequence[..k], failing)
    ensures PublishRun(root, out, mods, false, raising, failing) ==
            Run([RemoveTree(out), MakeDirs(out)] + Invocations(PublishInto(out), mods)
                + [CopyTree(CssSource(root), Join(out, ["css"]))] + ShellLog(GitSequence[..k + 1]), Fail)
  {
    BroadcastOk(PublishInto(out), mods, raising);
    GitRunStops(GitSequence, failing, k);
  }

  /** A failed push ends the publish before `git checkout master`, and the
      run fails. */
  lemma PushFailureAborts(root: Path, out: Path, mods: seq<ModuleSet>,
                          raising: set<(Op, ModuleSet)>, failing: set<GitCommand>)
    requires AllOk(PublishInto(out), mods, raising)
    requires Exit(failing, AddAll) == Ok && Exit(failing, PullRebase) == Ok && Exit(failing, Push) == Fail
    ensures PublishRun(root, out, mods, false, raising, failing).outcome == Fail
    ensures Shell(CheckoutMaster) !in PublishRun(root, out, mods, false, raising, failing).effects
  {
    assert GitOk(GitSequence[..3], failing);
    PublishGitFailure(root, out, mods, raising, failing, 3);
    BroadcastBounded(PublishInto(out), mods, raising);
    var effects := PublishRun(root, out, mods, false, raising, failing).effects;
    var published := Invocations(PublishInto(out), mods);
    var shells := ShellLog(GitSequence[..4]);
    assert effects == [RemoveTree(out), MakeDirs(out)] + published
                      + [CopyTree(CssSource(root), Join(out, ["css"]))] + shells;
    assert Shell(CheckoutMaster) !in shells;
    assert Shell(CheckoutMaster) !in published;
  }
}
