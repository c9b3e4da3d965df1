/**
 * The project manager's load latch: requests wait until the project data
 * has been loaded, unless the manager was told not to halt while loading.
 */
module ProjectManagers {
  import opened Projects

  /** A pending `waitLoad` call: stands for the `resolve` callback of its
      promise. */
  type Waiter = nat

  /** How a `waitLoad` call settles: at once, or once the latch is set. */
  datatype WaitResult = Resolved | Pending

  class ProjectManager {
    const haltWhileLoading: bool
    var loaded: bool
    /** `_loadedPromises`: the waiters not yet released, oldest first. */
    var loadedPromises: seq<Waiter>
    /** Every waiter ever queued, and every waiter released, in order. */
    ghost var queued: seq<Waiter>
    ghost var released: seq<Waiter>

    /** Waiters leave the queue only by being released, in the order they
        joined it, and nobody waits while the latch is open. */
    ghost predicate Valid()
      reads this
    {
      && queued == released + loadedPromises
      && ((loaded || !haltWhileLoading) ==> loadedPromises == [])
    }

    constructor (haltWhileLoading: bool := true)
      ensures Valid()
      ensures this.haltWhileLoading == haltWhileLoading
      ensures !loaded && loadedPromises == []
      ensures queued == [] && released == []
    {
      this.haltWhileLoading := haltWhileLoading;
      loaded := false;
      loadedPromises := [];
      queued := [];
      released := [];
    }

    /** `waitLoad()`: resolves at once when the latch is open (or the
        manager does not halt); otherwise queues the waiter at the end. */
    method WaitLoad(w: Waiter) returns (r: WaitResult)
      requires Valid()
      modifies this
      ensures Valid()
      ensures r == Resolved <==> !haltWhileLoading || old(loaded)
      ensures r == Resolved ==> loadedPromises == old(loadedPromises) && queued == old(queued)
      ensures r == Pending ==> loadedPromises == old(loadedPromises) + [w] && queued == old(queued) + [w]
      ensures loaded == old(loaded) && released == old(released)
    {
      if !haltWhileLoading {
        return Resolved;
      }
      if loaded {
        return Resolved;
      }
      loadedPromises := loadedPromises + [w];
      queued := queued + [w];
      r := Pending;
    }

    /** `setLoaded(val)`: stores the flag; when it is true, swaps the queue
        out for an empty one and resolves the old queue front to back. */
    method SetLoaded(val: bool := true)
      requires Valid()
      modifies this
      ensures Valid()
      ensures loaded == val
      ensures val ==> loadedPromises == [] && released == old(released) + old(loadedPromises)
      ensures !val ==> loadedPromises == old(loadedPromises) && released == old(released)
      ensures queued == old(queued)
    {
      loaded := val;
      if val {
        var promises := loadedPromises;
        loadedPromises := [];
        for i := 0 to |promises|
          invariant released == old(released) + promises[..i]
          invariant queued == old(queued) && loadedPromises == [] && loaded == val
        {
          released := released + [promises[i]];
        }
        assert promises[..|promises|] == promises;
        assert released + loadedPromises == released;
      }
    }

    /** `addProjects(projects, finishedLoading)`: `addProject` does nothing,
        so only the latch is affected. */
    method AddProjects(projects: seq<ProjectConfig>, finishedLoading: bool := true)
      requires Valid()
      modifies this
      ensures Valid()
      ensures finishedLoading ==> loaded && loadedPromises == [] && released == old(released) + old(loadedPromises)
      ensures !finishedLoading ==> loaded == old(loaded) && loadedPromises == old(loadedPromises) && released == old(released)
      ensures queued == old(queued)
    {
      if finishedLoading {
        SetLoaded(true);
      }
    }
  }
}
