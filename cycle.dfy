/**
 One poll cycle of the agent: if the fetch returned a non-empty list,
 compute the three action lists from the runtime's listing and apply them
 in the order remove, create, update.
 */
module Cycle {
  import opened Wrappers
  import opened Models
  import opened Diff
  import opened Runtime

  /** The three lists `containers_check` returns. */
  datatype Plan = Plan(create: seq<Container>, update: seq<Container>, remove: seq<string>)

  /** How the runtime's listing reports a container it knows. */
  function Observe(name: string, r: Instance): Observed {
    Observed(name, Some(r.image), r.env)
  }

  /** `listing` is a listing of `containers` in some order: every container
      once, as the runtime reports it. */
  predicate IsListing(listing: seq<Observed>, containers: map<string, Instance>) {
    && (forall i, j :: 0 <= i < j < |listing| ==> listing[i].name != listing[j].name)
    && (forall o :: o in listing ==> o.name in containers && o == Observe(o.name, containers[o.name]))
    && Names(listing) == containers.Keys
  }

  /** `plan` is what `containers_check` returns for `desired` on `listing`. */
  predicate IsPlan(plan: Plan, desired: seq<Container>, listing: seq<Observed>, selfName: string) {
    var running := Running(listing, selfName);
    && plan.create == CreateList(desired, Names(running))
    && plan.update == UpdateList(running, desired)
    && IsRemoveList(plan.remove, Names(running), RequestedNames(desired))
  }

  /** The fetch result is truthy: present and non-empty. */
  predicate Fetched(fetched: Option<seq<Container>>) {
    fetched.Some? && fetched.value != []
  }

  /** Apply a plan: remove, then start, then update; the first failure
      ends the cycle. */
  function ApplyPlan(w: World, plan: Plan): Step {
    var s1 := RemoveAll(w, plan.remove);
    if s1.outcome.Fail? then s1
    else
      var s2 := StartAll(s1.world, plan.create);
      if s2.outcome.Fail? then s2 else UpdateAll(s2.world, plan.update)
  }

  /** Every entry's `slug` is its `parameters.name`. */
  predicate SlugIsName(desired: seq<Container>) {
    forall c :: c in desired ==> c.slug == c.parameters.name
  }

  /** The host runs what `desired` asks for: apart from the agent itself,
      only requested names exist, and each requested name runs the digest
      as its image with every desired environment string. */
  ghost predicate Converged(containers: map<string, Instance>, desired: seq<Container>, selfName: string) {
    && (forall n :: n in containers ==> n == selfName || n in RequestedNames(desired))
    && (forall c :: c in desired ==> c.parameters.name in containers && Satisfies(containers[c.parameters.name], c))
  }

  /** A container satisfies an entry when its image is the digest and it
      has every desired environment string. */
  ghost predicate Satisfies(inst: Instance, c: Container) {
    inst.image == c.digest && forall e :: e in c.parameters.environment ==> e in inst.env
  }

  /** An entry's own launch satisfies it when its digest is its image. */
  lemma LaunchSatisfies(c: Container)
    requires c.digest == c.parameters.image
    ensures Satisfies(Launch(c.parameters), c)
  {
  }

  /** An observed container that has not drifted satisfies the entry. */
  lemma UndriftedSatisfies(name: string, inst: Instance, c: Container)
    requires !Drifted(Observe(name, inst), c)
    ensures Satisfies(inst, c)
  {
  }

  /** The names the diff sees are the host's names without the agent's. */
  lemma RunningNames(listing: seq<Observed>, containers: map<string, Instance>, selfName: string)
    requires IsListing(listing, containers)
    ensures Names(Running(listing, selfName)) == containers.Keys - {selfName}
  {
    forall n | n in containers.Keys - {selfName}
      ensures n in Names(Running(listing, selfName))
    {
      assert n in Names(listing);
      var o :| o in listing && o.name == n;
      assert o in Running(listing, selfName);
    }
  }

  /** The running container the listing reports under a name. */
  lemma ListedAs(listing: seq<Observed>, containers: map<string, Instance>, selfName: string, n: string)
    requires IsListing(listing, containers)
    requires n in containers && n != selfName
    ensures Observe(n, containers[n]) in Running(listing, selfName)
  {
    assert n in Names(listing);
    var o :| o in listing && o.name == n;
  }

  /** The remove phase of a cycle never fails: it removes only listed names,
      each once. */
  lemma RemovePhasePasses(w: World, desired: seq<Container>, listing: seq<Observed>, selfName: string, plan: Plan)
    requires IsListing(listing, w.containers)
    requires IsPlan(plan, desired, listing, selfName)
    ensures RemoveAll(w, plan.remove).outcome == Pass
    ensures RemoveAll(w, plan.remove).world.containers == w.containers - SetOf(plan.remove)
  {
    RunningNames(listing, w.containers, selfName);
    RemoveAllPassIff(w, plan.remove);
    RemoveAllEffect(w, plan.remove);
  }

  /** The three phases of a cycle that nothing aborts. */
  lemma PhasesPass(w: World, plan: Plan)
    requires ApplyPlan(w, plan).outcome == Pass
    ensures RemoveAll(w, plan.remove).outcome == Pass
    ensures StartAll(RemoveAll(w, plan.remove).world, plan.create).outcome == Pass
    ensures ApplyPlan(w, plan) == UpdateAll(StartAll(RemoveAll(w, plan.remove).world, plan.create).world, plan.update)
  {
  }

  /** The names `create` launches: the requested names not running. */
  lemma CreatedNames(desired: seq<Container>, runningNames: set<string>)
    ensures RequestedNames(CreateList(desired, runningNames)) == RequestedNames(desired) - runningNames
  {
    CreateListMembers(desired, runningNames);
  }

  /** A cycle that nothing aborts leaves exactly the requested names on the
      host, plus the agent's own container if it was there, provided every
      `slug` is its `parameters.name`. */
  lemma NamesAfterCycle(w: World, desired: seq<Container>, listing: seq<Observed>, selfName: string, plan: Plan)
    requires SlugIsName(desired)
    requires IsListing(listing, w.containers)
    requires IsPlan(plan, desired, listing, selfName)
    requires ApplyPlan(w, plan).outcome == Pass
    ensures ApplyPlan(w, plan).world.containers.Keys ==
      RequestedNames(desired) + ({selfName} * w.containers.Keys)
  {
    var k := w.containers.Keys;
    var q := RequestedNames(desired);
    PhasesPass(w, plan);
    RemovePhasePasses(w, desired, listing, selfName, plan);
    var s1 := RemoveAll(w, plan.remove);
    var s2 := StartAll(s1.world, plan.create);
    StartAllEffect(s1.world, plan.create);
    LaunchedKeys(plan.create);
    UpdateListMembers(Running(listing, selfName), desired);
    UpdateAllWhenSlugIsName(s2.world, plan.update);
    CycleNameAlgebra(k, q, selfName, SetOf(plan.remove), RequestedNames(plan.create),
                     s1.world.containers.Keys, s2.world.containers.Keys) by {
      RunningNames(listing, w.containers, selfName);
      CreatedNames(desired, k - {selfName});
    }
  }

  /** The set algebra behind `NamesAfterCycle`. */
  lemma CycleNameAlgebra(k: set<string>, q: set<string>, selfName: string,
                         removed: set<string>, created: set<string>, k1: set<string>, k2: set<string>)
    requires removed == (k - {selfName}) - q
    requires created == q - (k - {selfName})
    requires k1 == k - removed && k2 == k1 + created
    ensures k2 == q + ({selfName} * k)
  {
  }

  /** The names a batch launches are the batch's names, and each runs one
      of the entries that carry it. */
  lemma {:induction false} LaunchedKeys(specs: seq<Container>)
    ensures Launched(specs).Keys == RequestedNames(specs)
    ensures forall n :: n in Launched(specs) ==>
      exists c :: c in specs && c.parameters.name == n && Launched(specs)[n] == Launch(c.parameters)
  {
    if specs != [] {
      LaunchedKeys(specs[1..]);
      assert forall c :: c in specs <==> c == specs[0] || c in specs[1..];
      assert RequestedNames(specs) == {specs[0].parameters.name} + RequestedNames(specs[1..]);
    }
  }

  /** A name a batch launches runs the last entry that carries it: the
      entry at `i`, with no entry of that name after it. */
  lemma {:induction false} LaunchedByLast(specs: seq<Container>, n: string)
    requires n in Launched(specs)
    ensures exists i :: && 0 <= i < |specs| && specs[i].parameters.name == n
                        && Launched(specs)[n] == Launch(specs[i].parameters)
                        && forall j :: i < j < |specs| ==> specs[j].parameters.name != n
  {
    var rest := specs[1..];
    if n in Launched(rest) {
      LaunchedByLast(rest, n);
      var i :| && 0 <= i < |rest| && rest[i].parameters.name == n
               && Launched(rest)[n] == Launch(rest[i].parameters)
               && forall j :: i < j < |rest| ==> rest[j].parameters.name != n;
      assert specs[i + 1] == rest[i];
      forall j | i + 1 < j < |specs| ensures specs[j].parameters.name != n {
        assert specs[j] == rest[j - 1];
      }
    } else {
      LaunchedKeys(rest);
      forall j | 0 < j < |specs| ensures specs[j].parameters.name != n {
        assert specs[j] == rest[j - 1];
        assert rest[j - 1] in rest;
      }
    }
  }

  /** Reconciling a converged host plans nothing. */
  lemma QuietWhenConverged(w: World, desired: seq<Container>, listing: seq<Observed>, selfName: string, plan: Plan)
    requires SlugIsName(desired)
    requires selfName !in RequestedNames(desired)
    requires Converged(w.containers, desired, selfName)
    requires IsListing(listing, w.containers)
    requires IsPlan(plan, desired, listing, selfName)
    ensures plan == Plan([], [], [])
  {
    var running := Running(listing, selfName);
    RunningNames(listing, w.containers, selfName);
    CreateListMembers(desired, Names(running));
    forall c | c in desired ensures c.parameters.name in Names(running) {
      assert c.parameters.name in RequestedNames(desired);
    }
    NoMembersEmpty(plan.create);
    UpdateListMembers(running, desired);
    forall c | c in desired ensures c !in plan.update {
      forall o | o in running && o.name == c.slug ensures !Drifted(o, c) {
        assert o in listing;
      }
    }
    NoMembersEmpty(plan.update);
    NoMembersEmpty(plan.remove);
  }

  /** A cycle that nothing aborts converges the host, and so the next cycle
      on the same desired list plans nothing. This needs every `slug` to be
      its `parameters.name`, distinct names, the agent's own name not
      requested, and digests that equal the image a container reports. */
  lemma ConvergesAfterCycle(w: World, desired: seq<Container>, listing: seq<Observed>, selfName: string, plan: Plan)
    requires SlugIsName(desired) && DistinctNames(desired)
    requires forall c :: c in desired ==> c.digest == c.parameters.image
    requires selfName !in RequestedNames(desired)
    requires IsListing(listing, w.containers)
    requires IsPlan(plan, desired, listing, selfName)
    requires ApplyPlan(w, plan).outcome == Pass
    ensures Converged(ApplyPlan(w, plan).world.containers, desired, selfName)
  {
    var k := w.containers;
    var running := Running(listing, selfName);
    RunningNames(listing, k, selfName);
    NamesAfterCycle(w, desired, listing, selfName, plan);
    RemovePhasePasses(w, desired, listing, selfName, plan);
    var s1 := RemoveAll(w, plan.remove);
    var s2 := StartAll(s1.world, plan.create);
    assert s2.outcome == Pass && ApplyPlan(w, plan) == UpdateAll(s2.world, plan.update);
    StartAllEffect(s1.world, plan.create);
    UpdateListMembers(running, desired);
    UpdateAllWhenSlugIsName(s2.world, plan.update);
    var k3 := ApplyPlan(w, plan).world.containers;
    assert k3 == (s1.world.containers + Launched(plan.create)) + Launched(plan.update);
    LaunchedKeys(plan.create);
    LaunchedKeys(plan.update);
    CreateListMembers(desired, Names(running));
    forall c | c in desired
      ensures c.parameters.name in k3 && Satisfies(k3[c.parameters.name], c)
    {
      var n := c.parameters.name;
      assert n in RequestedNames(desired);
      if n in Launched(plan.update) {
        var c' :| c' in plan.update && c'.parameters.name == n && Launched(plan.update)[n] == Launch(c'.parameters);
        SameName(desired, c, c');
        assert k3[n] == Launch(c.parameters);
        LaunchSatisfies(c);
      } else if n in Launched(plan.create) {
        var c' :| c' in plan.create && c'.parameters.name == n && Launched(plan.create)[n] == Launch(c'.parameters);
        SameName(desired, c, c');
        assert k3[n] == Launch(c.parameters);
        LaunchSatisfies(c);
      } else {
        assert c !in plan.create;
        assert n in k && n != selfName;
        assert n !in SetOf(plan.remove);
        assert k3[n] == k[n];
        ListedAs(listing, k, selfName, n);
        assert c !in plan.update;
        assert !Drifted(Observe(n, k[n]), c);
        UndriftedSatisfies(n, k[n], c);
      }
    }
  }

  /** Reconciliation is idempotent: after a cycle that nothing aborts,
      the next cycle on the same desired list, on whatever listing the host
      then gives, plans nothing. */
  lemma NextCycleQuiet(w: World, desired: seq<Container>, listing: seq<Observed>, selfName: string, plan: Plan,
                       listing': seq<Observed>, plan': Plan)
    requires SlugIsName(desired) && DistinctNames(desired)
    requires forall c :: c in desired ==> c.digest == c.parameters.image
    requires selfName !in RequestedNames(desired)
    requires IsListing(listing, w.containers)
    requires IsPlan(plan, desired, listing, selfName)
    requires ApplyPlan(w, plan).outcome == Pass
    requires IsListing(listing', ApplyPlan(w, plan).world.containers)
    requires IsPlan(plan', desired, listing', selfName)
    ensures plan' == Plan([], [], [])
  {
    ConvergesAfterCycle(w, desired, listing, selfName, plan);
    QuietWhenConverged(ApplyPlan(w, plan).world, desired, listing', selfName, plan');
  }

  /** Distinct names identify an entry. */
  lemma SameName(desired: seq<Container>, c: Container, c': Container)
    requires DistinctNames(desired)
    requires c in desired && c' in desired && c.parameters.name == c'.parameters.name
    ensures c == c'
  {
    var i :| 0 <= i < |desired| && desired[i] == c;
    var j :| 0 <= j < |desired| && desired[j] == c';
    assert i == j;
  }

  /** The entry of the abort example: slug "web", parameters name "web-2". */
  function RenamedEntry(): Container {
    Container("", "web", "nginx:2", ContainerParameters("web-2", "nginx:2"))
  }

  lemma RenamedListing()
    ensures IsListing([Observed("web", Some("nginx:1"), [])], map["web" := Instance("nginx:1", [], Always)])
  {
    assert Names([Observed("web", Some("nginx:1"), [])]) == {"web"};
  }

  lemma RenamedPlan()
    ensures IsPlan(Plan([RenamedEntry()], [RenamedEntry()], ["web"]), [RenamedEntry()],
                   [Observed("web", Some("nginx:1"), [])], "agent")
  {
    var listing := [Observed("web", Some("nginx:1"), [])];
    assert Running(listing, "agent") == listing by {
      assert listing[..0] == [];
    }
    CreateUpdateOverlap();
    assert RequestedNames([RenamedEntry()]) == {"web-2"};
  }

  lemma RenamedAborts()
    ensures ApplyPlan(World(map["web" := Instance("nginx:1", [], Always)], {"nginx:1"}, false, []),
                      Plan([RenamedEntry()], [RenamedEntry()], ["web"])).outcome == Fail(NotFound("web"))
  {
    var c := RenamedEntry();
    var w := World(map["web" := Instance("nginx:1", [], Always)], {"nginx:1"}, false, []);
    var w1 := World(map[], {"nginx:1"}, false, [ContainerRemoval("web")]);
    assert RemoveAll(w, ["web"]) == Step(w1, Pass) by {
      assert ["web"][1..] == [];
      assert w.containers - {"web"} == map[];
    }
    var w2 := StartAll(w1, [c]).world;
    assert StartAll(w1, [c]).outcome == Pass && "web" !in w2.containers by {
      assert [c][1..] == [];
      assert StartAll(w1, [c]) == StartOne(w1, c);
      assert StartOne(w1, c) == Run(w1, c.parameters);
      assert Run(w1, c.parameters).world.containers == map["web-2" := Launch(c.parameters)];
      assert "web" != "web-2" by { assert "web"[3..] == "" != "web-2"[3..]; }
    }
    assert UpdateAll(w2, [c]).outcome == Fail(NotFound("web")) by {
      assert [c][1..] == [];
      assert RemoveAll(w2, [c.slug]).outcome == Fail(NotFound("web"));
    }
  }

  /** With `slug` and `parameters.name` apart, one cycle aborts: `web` is
      requested by no `parameters.name`, so the remove phase deletes it;
      the entry is also paired with `web` by its slug and has drifted, so
      the update phase looks `web` up again and fails. */
  lemma SlugRemovedBeforeUpdate()
    ensures var c := RenamedEntry();
            var w := World(map["web" := Instance("nginx:1", [], Always)], {"nginx:1"}, false, []);
            var listing := [Observed("web", Some("nginx:1"), [])];
            var plan := Plan([c], [c], ["web"]);
            && IsListing(listing, w.containers)
            && IsPlan(plan, [c], listing, "agent")
            && ApplyPlan(w, plan).outcome == Fail(NotFound("web"))
  {
    RenamedListing();
    RenamedPlan();
    RenamedAborts();
  }

  /** The agent's own container is hidden from the diff, so an entry that
      carries the agent's name is planned for creation and its `run`
      collides with the agent: the cycle aborts with a conflict. */
  lemma SelfNamedEntryConflicts()
    ensures var c := Container("", "agent", "agent:2", ContainerParameters("agent", "agent:2"));
            var w := World(map["agent" := Instance("agent:1", [], Always)], {"agent:1"}, false, []);
            var listing := [Observed("agent", Some("agent:1"), [])];
            var plan := Plan([c], [], []);
            && IsListing(listing, w.containers)
            && IsPlan(plan, [c], listing, "agent")
            && ApplyPlan(w, plan).outcome == Fail(Conflict("agent"))
  {
    var c := Container("", "agent", "agent:2", ContainerParameters("agent", "agent:2"));
    var w := World(map["agent" := Instance("agent:1", [], Always)], {"agent:1"}, false, []);
    var listing := [Observed("agent", Some("agent:1"), [])];
    assert Names(listing) == {"agent"};
    assert Running(listing, "agent") == [] by {
      assert listing[..0] == [];
    }
    assert Names([]) == {};
    assert CreateList([c], {}) == [c] by {
      assert [c][..0] == [];
    }
    assert UpdateList([], [c]) == [];
    assert [c][1..] == [];
    assert StartAll(w, [c]) == Run(w, c.parameters);
  }
}
