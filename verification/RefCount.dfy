/** The in-process reader counts that keep a file alive while it is being served: the refs map of
    streaming.Manager (internal/streaming/cache.go) and koboref.Registry, which have one shape.
    A release closure is an object that captures its id and its own released flag. */
module RefCount {

  class Release {
    const id: string
    var released: bool

    constructor (id: string)
      ensures this.id == id && !released
    {
      this.id := id;
      released := false;
    }
  }

  predicate Busy(refs: map<string, int>, id: string) {
    id in refs && refs[id] > 0
  }

  class Registry {
    var refs: map<string, int>
    ghost var handedOut: set<Release>

    /** The releases of id that have not been called yet. */
    ghost function Outstanding(id: string): set<Release>
      reads `handedOut, handedOut
    {
      set r | r in handedOut && r.id == id && !r.released
    }

    /** The counts are exactly the numbers of outstanding releases, and no zero count is stored. */
    ghost predicate Valid()
      reads this, handedOut
    {
      && (forall id {:trigger Outstanding(id)} :: (if id in refs then refs[id] else 0) == |Outstanding(id)|)
      && (forall id :: id in refs ==> refs[id] > 0)
    }

    constructor ()
      ensures Valid() && handedOut == {}
    {
      refs := map[];
      handedOut := {};
      new;
      assert forall id {:trigger Outstanding(id)} :: Outstanding(id) == {};
    }

    method Acquire(id: string) returns (release: Release)
      requires Valid()
      modifies this
      ensures Valid() && fresh(release) && release.id == id && !release.released
      ensures handedOut == old(handedOut) + {release}
      ensures Outstanding(id) == old(Outstanding(id)) + {release}
      ensures forall other {:trigger Outstanding(other)} :: other != id ==> Outstanding(other) == old(Outstanding(other))
    {
      refs := refs[id := (if id in refs then refs[id] else 0) + 1];
      release := new Release(id);
      handedOut := handedOut + {release};
      assert Outstanding(id) == old(Outstanding(id)) + {release};
      assert forall other {:trigger Outstanding(other)} :: other != id ==> Outstanding(other) == old(Outstanding(other));
    }

    /** The body of the closure: only the first call decrements. */
    method Call(release: Release)
      requires Valid() && release in handedOut
      modifies this`refs, release
      ensures Valid() && release.released && handedOut == old(handedOut)
      ensures Outstanding(release.id) == old(Outstanding(release.id)) - {release}
      ensures forall other {:trigger Outstanding(other)} :: other != release.id ==> Outstanding(other) == old(Outstanding(other))
      ensures old(release.released) ==> refs == old(refs)
    {
      if release.released { return; }
      var id := release.id;
      ghost var before := Outstanding(id);
      assert release in before && refs[id] == |before|;
      assert before == (before - {release}) + {release};
      refs := refs[id := (if id in refs then refs[id] else 0) - 1];
      if refs[id] <= 0 {
        refs := refs - {id};
      }
      release.released := true;
      forall r | r in handedOut
        ensures r in Outstanding(id) <==> r in before && r != release
      {
        assert r != release ==> r.released == old(r.released);
      }
      assert Outstanding(id) == before - {release};
      forall other | other != id
        ensures Outstanding(other) == old(Outstanding(other))
      {
      }
      forall any {:trigger Outstanding(any)}
        ensures (if any in refs then refs[any] else 0) == |Outstanding(any)|
      {
        assert (if any in old(refs) then old(refs)[any] else 0) == |old(Outstanding(any))|;
      }
    }

    method InUse(id: string) returns (busy: bool)
      requires Valid()
      ensures busy <==> Outstanding(id) != {}
      ensures busy == Busy(refs, id)
    {
      assert (if id in refs then refs[id] else 0) == |Outstanding(id)|;
      busy := (if id in refs then refs[id] else 0) > 0;
    }
  }
}
