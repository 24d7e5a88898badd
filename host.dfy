/**
 The agent's executor against a container host held in place: the host's
 state lives in the fields of a `Host` object, every call the agent makes
 updates those fields, and each batch loop of the executor is a method
 proved to perform exactly the step functions of `Runtime`.
 */
module Host {
  import opened Wrappers
  import opened Models
  import opened Diff
  import opened Runtime
  import opened Cycle

  class Host {
    var containers: map<string, Instance>
    var images: set<string>
    var credentialFile: bool
    var calls: seq<Call>

    /** The host's state as a value. */
    function State(): World
      reads this
    {
      World(containers, images, credentialFile, calls)
    }

    constructor (w: World)
      ensures State() == w
    {
      containers := w.containers;
      images := w.images;
      credentialFile := w.credentialFile;
      calls := w.calls;
    }

    /** `client.containers.list(all=True)`: every container once, in an
        order the host chooses. */
    method List() returns (listing: seq<Observed>)
      ensures IsListing(listing, containers)
    {
      listing := [];
      var rest := containers.Keys;
      while rest != {}
        invariant rest <= containers.Keys
        invariant forall i, j :: 0 <= i < j < |listing| ==> listing[i].name != listing[j].name
        invariant forall o :: o in listing ==> o.name in containers && o == Observe(o.name, containers[o.name])
        invariant Names(listing) == containers.Keys - rest
        decreases rest
      {
        var n :| n in rest;
        assert n !in Names(listing);
        listing := listing + [Observe(n, containers[n])];
        assert Names(listing) == Names(listing[..|listing| - 1]) + {n};
        rest := rest - {n};
      }
    }

    /** `client.containers.get(name).remove(force=True)`. */
    method RemoveContainer(name: string) returns (outcome: Outcome)
      modifies this
      ensures Step(State(), outcome) == Remove(old(State()), name)
    {
      calls := calls + [ContainerRemoval(name)];
      if name in containers {
        containers := containers - {name};
        outcome := Pass;
      } else {
        outcome := Fail(NotFound(name));
      }
    }

    /** `client.images.remove(image=image, force=True)`. */
    method RemoveImage(image: string) returns (outcome: Outcome)
      modifies this
      ensures Step(State(), outcome) == Runtime.RemoveImage(old(State()), image)
    {
      calls := calls + [ImageRemoval(image)];
      if image in images {
        images := images - {image};
        outcome := Pass;
      } else {
        outcome := Fail(ImageNotFound(image));
      }
    }

    /** `client.containers.run(**p, detach=True, restart_policy=always)`. */
    method Run(p: ContainerParameters) returns (outcome: Outcome)
      modifies this
      ensures Step(State(), outcome) == Runtime.Run(old(State()), p)
    {
      calls := calls + [ContainerRun(p, true, Always)];
      if p.name in containers {
        outcome := Fail(Conflict(p.name));
      } else {
        containers := containers[p.name := Launch(p)];
        images := images + {p.image};
        outcome := Pass;
      }
    }

    /** Write `auth` to the registry credential file. */
    method WriteCredential(auth: string)
      modifies this
      ensures State() == old(State()).(credentialFile := true, calls := old(calls) + [CredentialWrite(auth)])
    {
      credentialFile := true;
      calls := calls + [CredentialWrite(auth)];
    }

    /** Unlink the registry credential file; a missing file is not an error. */
    method UnlinkCredential()
      modifies this
      ensures State() == old(State()).(credentialFile := false, calls := old(calls) + [CredentialUnlink])
    {
      credentialFile := false;
      calls := calls + [CredentialUnlink];
    }

    /** `containers_remove`. */
    method ContainersRemove(names: seq<string>) returns (outcome: Outcome)
      modifies this
      ensures Step(State(), outcome) == RemoveAll(old(State()), names)
    {
      for i := 0 to |names|
        invariant RemoveAll(old(State()), names) == RemoveAll(State(), names[i..])
      {
        assert names[i..][1..] == names[i + 1..];
        outcome := RemoveContainer(names[i]);
        if outcome.Fail? {
          return;
        }
      }
      outcome := Pass;
    }

    /** `containers_start`. */
    method ContainersStart(specs: seq<Container>) returns (outcome: Outcome)
      modifies this
      ensures Step(State(), outcome) == StartAll(old(State()), specs)
    {
      for i := 0 to |specs|
        invariant StartAll(old(State()), specs) == StartAll(State(), specs[i..])
      {
        assert specs[i..][1..] == specs[i + 1..];
        var c := specs[i];
        ghost var before := State();
        if HasAuth(c) {
          WriteCredential(c.auth);
        }
        outcome := Run(c.parameters);
        if outcome.Fail? {
          return;
        }
        if HasAuth(c) {
          UnlinkCredential();
        }
        assert StartOne(before, c) == Step(State(), Pass);
      }
      outcome := Pass;
    }

    /** `containers_update`. */
    method ContainersUpdate(specs: seq<Container>) returns (outcome: Outcome)
      modifies this
      ensures Step(State(), outcome) == UpdateAll(old(State()), specs)
    {
      for i := 0 to |specs|
        invariant UpdateAll(old(State()), specs) == UpdateAll(State(), specs[i..])
      {
        assert specs[i..][1..] == specs[i + 1..];
        var c := specs[i];
        ghost var before := State();
        outcome := ContainersRemove([c.slug]);
        if outcome.Fail? {
          return;
        }
        outcome := RemoveImage(c.parameters.image);
        if outcome.Fail? {
          return;
        }
        outcome := ContainersStart([c]);
        if outcome.Fail? {
          return;
        }
        assert UpdateOne(before, c) == Step(State(), Pass);
      }
      outcome := Pass;
    }

    /** One pass of the agent's loop on the fetch result `fetched`: nothing
        happens when it is missing or empty; otherwise the listing the host
        gave, the plan `containers_check` computed from it, and the plan
        applied in the order remove, create, update. */
    method Cycle(fetched: Option<seq<Container>>, selfName: string)
      returns (listing: seq<Observed>, plan: Plan, outcome: Outcome)
      modifies this
      ensures !Fetched(fetched) ==> State() == old(State()) && outcome == Pass
      ensures Fetched(fetched) ==>
        && IsListing(listing, old(containers))
        && IsPlan(plan, fetched.value, listing, selfName)
        && Step(State(), outcome) == ApplyPlan(old(State()), plan)
    {
      listing, plan, outcome := [], Plan([], [], []), Pass;
      if !Fetched(fetched) {
        return;
      }
      listing := List();
      var create, update, remove := Check(fetched.value, listing, selfName);
      plan := Plan(create, update, remove);
      outcome := ContainersRemove(remove);
      if outcome.Fail? {
        return;
      }
      outcome := ContainersStart(create);
      if outcome.Fail? {
        return;
      }
      outcome := ContainersUpdate(update);
    }
  }
}
