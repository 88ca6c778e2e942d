/**
 * The registration as the program holds it: objects shared with the commands
 * that started from them (the sync messages in internal/ui/app.go, applyPullCmd
 * in internal/ui/sync.go).
 */
module SyncApp {
  import opened Options
  import M = SyncModel

  class GitHubAuth {
    const target: M.Target
    var sha: Option<M.Sha>

    constructor (target: M.Target, sha: Option<M.Sha>)
      ensures this.target == target && this.sha == sha
    {
      this.target, this.sha := target, sha;
    }

    function View(): M.Registration
      reads this
    {
      M.Registration(target, sha)
    }
  }

  class App {
    var github: GitHubAuth?
    /** Every registration there has been, in the order they were made, and which is the present one. */
    ghost var objects: seq<GitHubAuth>
    ghost var current: Option<nat>

    ghost predicate Valid()
      reads this
    {
      && (forall i, j | 0 <= i < j < |objects| :: objects[i] != objects[j])
      && (if current.Some? then current.value < |objects| && github == objects[current.value] else github == null)
    }

    ghost function Objects(): (r: seq<M.Registration>)
      reads this, objects
      ensures |r| == |objects|
    {
      seq(|objects|, i requires 0 <= i < |objects| reads this, objects => objects[i].View())
    }

    /** The app's part of a device. */
    ghost predicate Shows(dev: M.Device)
      reads this, objects
    {
      dev.objects == Objects() && dev.current == current
    }

    constructor ()
      ensures Valid() && objects == [] && current == None
    {
      github, objects, current := null, [], None;
    }

    method OnChecked(target: M.Target)
      requires Valid()
      modifies this
      ensures Valid() && fresh(set o | o in objects && o !in old(objects))
      ensures forall dev: M.Device | old(Shows(dev)) :: Shows(M.Checked(dev, target).(jobs := dev.jobs))
    {
      var keep := None;
      if github != null && github.target.file == target.file {
        keep := github.sha;
      }
      var auth := new GitHubAuth(target, keep);
      ghost var was := Objects();
      github, objects, current := auth, objects + [auth], Some(|objects|);
      assert Objects() == was + [M.Registration(target, keep)];
    }

    method OnPushed(sha: M.Sha)
      requires Valid()
      modifies github
      ensures Valid() && objects == old(objects) && current == old(current)
      ensures forall dev: M.Device | old(Shows(dev)) :: Shows(M.PushedMsg(dev, sha))
    {
      ghost var was := Objects();
      if github != null {
        github.sha := Some(sha);
        assert Objects() == was[current.value := was[current.value].(sha := Some(sha))];
      }
    }

    /** The registration a finished pull hands back: a copy of the one it started from, under the new sha. */
    method ApplyPull(captured: GitHubAuth?, sha: M.Sha, inner: Option<M.Registration>) returns (result: GitHubAuth?)
      ensures result != null ==> fresh(result)
      ensures captured != null ==> result != null && result.View() == M.Registration(captured.target, Some(sha))
      ensures captured == null ==> (result == null <==> inner == None) && (result != null ==> inner == Some(result.View()))
    {
      if captured != null {
        result := new GitHubAuth(captured.target, Some(sha));
      } else if inner.Some? {
        result := new GitHubAuth(inner.value.target, inner.value.sha);
      } else {
        result := null;
      }
    }

    method OnApplied(result: GitHubAuth?)
      requires Valid() && result !in objects
      modifies this
      ensures Valid()
      ensures forall dev: M.Device | old(Shows(dev)) ::
                Shows(M.AppliedMsg(dev, if result == null then None else Some(result.View())))
    {
      ghost var was := Objects();
      github := result;
      if result != null {
        objects, current := objects + [result], Some(|objects|);
        assert Objects() == was + [result.View()];
      } else {
        current := None;
      }
    }
  }
}
