/** What the coordinator does to the outside world, as a log of effects, and
    the broadcast of one operation to every module set.

    A module set's operations live in `Appium::ModuleSet`, which is not
    part of this model, and shell commands are run by helpers that are not
    part of it either: each call and each command is seen only through its
    outcome, given by the caller as the set of calls that raise and the set
    of commands that exit with a failure.
 */
module Effects {
  import opened FileSystem
  import opened Catalogue

  /** A call either returns or raises. */
  datatype Outcome = Ok | Fail

  /** The operations the coordinator sends to every module set. */
  datatype Op = GenerateHtml | GenerateMarkdown | DeleteGen | PublishInto(dir: Path)

  /** The git commands publish issues. */
  datatype GitCommand = AddAll | Commit | PullRebase | Push | CheckoutMaster

  /** The command line of each git command. */
  function CommandLine(c: GitCommand): (r: string)
  {
    match c
    case AddAll => "git add --all ."
    case Commit => "git commit -am \"Update tutorial\""
    case PullRebase => "git pull --rebase origin master"
    case Push => "git push"
    case CheckoutMaster => "git checkout master"
  }

  /** The outcome of calling `op` on `m` when exactly the calls in
      `raising` raise. */
  function Call(raising: set<(Op, ModuleSet)>, op: Op, m: ModuleSet): (r: Outcome)
  {
    if (op, m) in raising then Fail else Ok
  }

  /** The outcome of running `c` when exactly the commands in `failing`
      exit with a failure. */
  function Exit(failing: set<GitCommand>, c: GitCommand): (r: Outcome)
  {
    if c in failing then Fail else Ok
  }

  /** One observable step: a call on a module set, a filesystem change, or a
      shell command (run with the command line `CommandLine(command)`). */
  datatype Effect =
    | Invoke(op: Op, target: ModuleSet)
    | RemoveTree(path: Path)
    | MakeDirs(path: Path)
    | CopyTree(source: Path, destination: Path)
    | Shell(command: GitCommand)

  /** The effects of a run, and whether it returned or raised. */
  datatype Run = Run(effects: seq<Effect>, outcome: Outcome)

  /** The calls of `op` on each of `mods`, in order. */
  function Invocations(op: Op, mods: seq<ModuleSet>): (r: seq<Effect>)
  {
    seq(|mods|, k requires 0 <= k < |mods| => Invoke(op, mods[k]))
  }

  /** `all_modules`: call `op` on each module set in order; the first call
      that raises ends the broadcast and the raise propagates. */
  function Broadcast(op: Op, mods: seq<ModuleSet>, raising: set<(Op, ModuleSet)>): (r: Run)
  {
    if mods == [] then Run([], Ok)
    else if Call(raising, op, mods[0]) == Fail then Run([Invoke(op, mods[0])], Fail)
    else
      var rest := Broadcast(op, mods[1..], raising);
      Run([Invoke(op, mods[0])] + rest.effects, rest.outcome)
  }

  /** Every module set's call returns. */
  ghost predicate AllOk(op: Op, mods: seq<ModuleSet>, raising: set<(Op, ModuleSet)>)
  {
    forall k :: 0 <= k < |mods| ==> Call(raising, op, mods[k]) == Ok
  }

  /** A broadcast returns exactly when every call returns, and then it has
      called `op` once on every module set, in list order. */
  lemma {:induction false} BroadcastOk(op: Op, mods: seq<ModuleSet>, raising: set<(Op, ModuleSet)>)
    ensures Broadcast(op, mods, raising).outcome == Ok <==> AllOk(op, mods, raising)
    ensures AllOk(op, mods, raising) ==> Broadcast(op, mods, raising).effects == Invocations(op, mods)
  {
    if mods != [] {
      BroadcastOk(op, mods[1..], raising);
      if AllOk(op, mods, raising) {
        assert AllOk(op, mods[1..], raising) by {
          forall k | 0 <= k < |mods| - 1
            ensures Call(raising, op, mods[1..][k]) == Ok
          {
            assert mods[1..][k] == mods[k + 1];
          }
        }
        assert [Invoke(op, mods[0])] + Invocations(op, mods[1..]) == Invocations(op, mods);
      } else if Call(raising, op, mods[0]) == Ok {
        var k :| 0 <= k < |mods| && Call(raising, op, mods[k]) != Ok;
        assert mods[1..][k - 1] == mods[k];
      }
    }
  }

  /** Fail-fast: when the `k`-th call is the first to raise, exactly the
      first `k + 1` module sets have been called and no later one. */
  lemma {:induction false} BroadcastStops(op: Op, mods: seq<ModuleSet>, raising: set<(Op, ModuleSet)>, k: nat)
    requires k < |mods| && Call(raising, op, mods[k]) == Fail
    requires AllOk(op, mods[..k], raising)
    ensures Broadcast(op, mods, raising) == Run(Invocations(op, mods[..k + 1]), Fail)
  {
    if k == 0 {
      assert Invocations(op, mods[..1]) == [Invoke(op, mods[0])];
    } else {
      assert Call(raising, op, mods[..k][0]) == Ok;
      assert mods[1..][k - 1] == mods[k];
      assert mods[1..][..k - 1] == mods[..k][1..];
      var tail := mods[1..][..k - 1];
      assert AllOk(op, tail, raising) by {
        forall i | 0 <= i < |tail|
          ensures Call(raising, op, tail[i]) == Ok
        {
          assert tail[i] == mods[..k][i + 1];
        }
      }
      BroadcastStops(op, mods[1..], raising, k - 1);
      assert mods[1..][..k] == mods[1..k + 1];
      assert [Invoke(op, mods[0])] + Invocations(op, mods[1..k + 1]) == Invocations(op, mods[..k + 1]);
    }
  }

  /** A broadcast never calls a module set outside the list, and never more
      calls than there are module sets. */
  lemma {:induction false} BroadcastBounded(op: Op, mods: seq<ModuleSet>, raising: set<(Op, ModuleSet)>)
    ensures |Broadcast(op, mods, raising).effects| <= |mods|
    ensures forall e :: e in Broadcast(op, mods, raising).effects ==> e.Invoke? && e.op == op && e.target in mods
  {
    if mods != [] {
      BroadcastBounded(op, mods[1..], raising);
    }
  }
}
