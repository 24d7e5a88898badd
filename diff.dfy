/**
 The reconciliation diff: from the desired containers and the runtime's
 listing, the three action lists `create`, `update` and `remove`.

 Two different keys are used, exactly as the agent does: `create` and
 `remove` compare `parameters.name` with the runtime names, while the drift
 pairing for `update` compares `slug` with the runtime names.
 */
module Diff {
  import opened Wrappers
  import opened Models

  /** A container as the runtime's listing reports it: its name, its
      `Image` attribute (which may be missing) and its `Config.Env` list. */
  datatype Observed = Observed(name: string, image: Option<string>, env: seq<string>)

  /** The `Image` attribute, read with `""` as the default. */
  function ImageAttr(actual: Observed): string {
    actual.image.GetOr("")
  }

  /** Whether some string of `wanted` does not occur in `have`: the `any`
      over the comprehension that tests each desired environment string. */
  function AnyMissing(wanted: seq<string>, have: seq<string>): (r: bool)
    ensures r <==> exists e :: e in wanted && e !in have
  {
    if wanted == [] then false
    else
      assert forall e :: e in wanted <==> e == wanted[0] || e in wanted[1..];
      wanted[0] !in have || AnyMissing(wanted[1..], have)
  }

  /** `containers_diff`: the observed container has drifted from the
      desired one. */
  predicate Drifted(actual: Observed, c: Container) {
    AnyMissing(c.parameters.environment, actual.env) || ImageAttr(actual) != c.digest
  }

  /** Drift holds exactly when a desired environment string is absent from
      the observed environment, or the observed image differs from the
      digest. */
  lemma DriftIff(actual: Observed, c: Container)
    ensures Drifted(actual, c) <==>
      (exists e :: e in c.parameters.environment && e !in actual.env)
      || actual.image.GetOr("") != c.digest
  {
  }

  /** The environment test is one-directional: entries present only in the
      observed environment never cause drift, so growing the observed
      environment can only remove drift, never add it. */
  lemma ExtraObservedEnvNeverDrifts(actual: Observed, bigger: Observed, c: Container)
    requires bigger.image == actual.image
    requires forall e :: e in actual.env ==> e in bigger.env
    ensures Drifted(bigger, c) ==> Drifted(actual, c)
  {
  }

  /** Three concrete cases of the drift test. */
  lemma DriftExamples()
    ensures !Drifted(Observed("web", Some("img"), ["A=1", "B=2", "C=3"]),
                     Container("", "web", "img", ContainerParameters("web", "img", ["A=1"])))
    ensures Drifted(Observed("web", Some("img"), ["A=1", "B=2", "C=3"]),
                    Container("", "web", "img", ContainerParameters("web", "img", ["A=1", "D=4"])))
    ensures Drifted(Observed("web", Some("img:sha256:aaa"), []),
                    Container("", "web", "img:sha256:bbb", ContainerParameters("web", "img")))
  {
    var have := ["A=1", "B=2", "C=3"];
    assert "D=4" !in have by {
      assert have[0] != "D=4" && have[1] != "D=4" && have[2] != "D=4";
    }
    assert "A=1" in have by { assert have[0] == "A=1"; }
  }

  /** The runtime listing without the agent's own container. */
  function Running(listing: seq<Observed>, selfName: string): (r: seq<Observed>)
    ensures forall o :: o in r <==> o in listing && o.name != selfName
  {
    if listing == [] then []
    else
      var last := listing[|listing| - 1];
      assert forall o :: o in listing <==> o in listing[..|listing| - 1] || o == last;
      Running(listing[..|listing| - 1], selfName) + (if last.name != selfName then [last] else [])
  }

  /** The set of names in a listing. */
  function Names(running: seq<Observed>): set<string> {
    set o | o in running :: o.name
  }

  /** The set of `parameters.name` of the desired containers. */
  function RequestedNames(desired: seq<Container>): set<string> {
    set c | c in desired :: c.parameters.name
  }

  /** The desired entries, in input order, whose `parameters.name` is not
      running. */
  function CreateList(desired: seq<Container>, runningNames: set<string>): seq<Container> {
    if desired == [] then []
    else
      var last := desired[|desired| - 1];
      CreateList(desired[..|desired| - 1], runningNames)
        + (if last.parameters.name !in runningNames then [last] else [])
  }

  /** The desired entries, in input order, that are paired with `actual`:
      their `slug` is its name and it has drifted from them. */
  function Matches(actual: Observed, desired: seq<Container>): seq<Container> {
    if desired == [] then []
    else
      var last := desired[|desired| - 1];
      Matches(actual, desired[..|desired| - 1])
        + (if actual.name == last.slug && Drifted(actual, last) then [last] else [])
  }

  /** The update list: for each running container in listing order, its
      matching desired entries. */
  function UpdateList(running: seq<Observed>, desired: seq<Container>): seq<Container> {
    if running == [] then []
    else UpdateList(running[..|running| - 1], desired) + Matches(running[|running| - 1], desired)
  }

  /** No string occurs twice. */
  predicate Distinct(names: seq<string>) {
    forall i, j :: 0 <= i < j < |names| ==> names[i] != names[j]
  }

  /** `remove` lists every running name that no desired entry requests,
      each once, in some order (it is drawn from a set). */
  predicate IsRemoveList(remove: seq<string>, runningNames: set<string>, requested: set<string>) {
    && Distinct(remove)
    && (forall n :: n in remove ==> n in runningNames && n !in requested)
    && (forall n :: n in runningNames && n !in requested ==> n in remove)
  }

  /** `containers_check` on the listing `listing` the runtime returned. */
  method Check(containers: seq<Container>, listing: seq<Observed>, selfName: string)
    returns (create: seq<Container>, update: seq<Container>, remove: seq<string>)
    ensures create == CreateList(containers, Names(Running(listing, selfName)))
    ensures update == UpdateList(Running(listing, selfName), containers)
    ensures IsRemoveList(remove, Names(Running(listing, selfName)), RequestedNames(containers))
  {
    var running := Running(listing, selfName);
    var requestedNames := RequestedNames(containers);
    var runningNames := Names(running);
    create, update, remove := [], [], [];

    for i := 0 to |containers|
      invariant create == CreateList(containers[..i], runningNames)
    {
      assert containers[..i + 1][..i] == containers[..i];
      if containers[i].parameters.name !in runningNames {
        create := create + [containers[i]];
      }
    }
    assert containers[..|containers|] == containers;

    var rest := runningNames;
    while rest != {}
      invariant rest <= runningNames
      invariant Distinct(remove)
      invariant forall n :: n in remove <==> n in runningNames && n !in rest && n !in requestedNames
      decreases rest
    {
      var rName :| rName in rest;
      if rName !in requestedNames {
        remove := remove + [rName];
      }
      rest := rest - {rName};
    }

    for i := 0 to |running|
      invariant update == UpdateList(running[..i], containers)
    {
      assert running[..i + 1][..i] == running[..i];
      for j := 0 to |containers|
        invariant update == UpdateList(running[..i], containers) + Matches(running[i], containers[..j])
      {
        assert containers[..j + 1][..j] == containers[..j];
        if running[i].name == containers[j].slug {
          if Drifted(running[i], containers[j]) {
            update := update + [containers[j]];
          }
        }
      }
      assert containers[..|containers|] == containers;
    }
    assert running[..|running|] == running;
  }

  /** `create` holds exactly the desired entries whose `parameters.name`
      is not running. */
  lemma {:induction false} CreateListMembers(desired: seq<Container>, runningNames: set<string>)
    ensures forall c :: c in CreateList(desired, runningNames) <==>
      c in desired && c.parameters.name !in runningNames
  {
    if desired != [] {
      var init := desired[..|desired| - 1];
      CreateListMembers(init, runningNames);
      assert desired == init + [desired[|desired| - 1]];
    }
  }

  /** `create` keeps every copy of a selected entry and drops every copy of
      the others. */
  lemma {:induction false} CreateListCount(desired: seq<Container>, runningNames: set<string>, c: Container)
    ensures multiset(CreateList(desired, runningNames))[c] ==
      if c.parameters.name in runningNames then 0 else multiset(desired)[c]
  {
    if desired != [] {
      var init := desired[..|desired| - 1];
      CreateListCount(init, runningNames, c);
      assert desired == init + [desired[|desired| - 1]];
    }
  }

  /** `create` keeps input order: filtering a concatenation is the
      concatenation of the filtered parts. */
  lemma {:induction false} CreateListAppend(a: seq<Container>, b: seq<Container>, runningNames: set<string>)
    ensures CreateList(a + b, runningNames) == CreateList(a, runningNames) + CreateList(b, runningNames)
  {
    if b == [] {
      assert a + b == a;
    } else {
      var init := b[..|b| - 1];
      CreateListAppend(a, init, runningNames);
      assert (a + b)[..|a + b| - 1] == a + init;
    }
  }

  /** The entries paired with one running container. */
  lemma {:induction false} MatchesMembers(actual: Observed, desired: seq<Container>)
    ensures forall c :: c in Matches(actual, desired) <==>
      c in desired && actual.name == c.slug && Drifted(actual, c)
  {
    if desired != [] {
      var init := desired[..|desired| - 1];
      MatchesMembers(actual, init);
      assert desired == init + [desired[|desired| - 1]];
    }
  }

  lemma {:induction false} MatchesCount(actual: Observed, desired: seq<Container>, c: Container)
    ensures multiset(Matches(actual, desired))[c] ==
      if actual.name == c.slug && Drifted(actual, c) then multiset(desired)[c] else 0
  {
    if desired != [] {
      var init := desired[..|desired| - 1];
      MatchesCount(actual, init, c);
      assert desired == init + [desired[|desired| - 1]];
    }
  }

  /** How many running containers are named `c.slug` and have drifted from
      `c`. */
  function DriftedPairs(running: seq<Observed>, c: Container): nat {
    if running == [] then 0
    else
      var last := running[|running| - 1];
      DriftedPairs(running[..|running| - 1], c) + (if last.name == c.slug && Drifted(last, c) then 1 else 0)
  }

  lemma Distribute(k: nat, m: nat)
    ensures (k + 1) * m == k * m + m
  {
  }

  /** `update` holds one copy of each desired entry for every running
      container paired with it, so repeated names or repeated entries give
      repeated updates. */
  lemma {:induction false} UpdateListCount(running: seq<Observed>, desired: seq<Container>, c: Container)
    ensures multiset(UpdateList(running, desired))[c] == DriftedPairs(running, c) * multiset(desired)[c]
  {
    if running != [] {
      var init := running[..|running| - 1];
      var last := running[|running| - 1];
      var k := DriftedPairs(init, c);
      var m := multiset(desired)[c];
      var before := UpdateList(init, desired);
      var row := Matches(last, desired);
      UpdateListCount(init, desired, c);
      MatchesCount(last, desired, c);
      assert UpdateList(running, desired) == before + row;
      assert multiset(before + row) == multiset(before) + multiset(row);
      if last.name == c.slug && Drifted(last, c) {
        assert DriftedPairs(running, c) == k + 1;
        assert multiset(row)[c] == m;
        Distribute(k, m);
      } else {
        assert DriftedPairs(running, c) == k;
        assert multiset(row)[c] == 0;
      }
    }
  }

  /** An entry is in `update` exactly when some running container is named
      after its `slug` and has drifted from it. */
  lemma {:induction false} UpdateListMembers(running: seq<Observed>, desired: seq<Container>)
    ensures forall c :: c in UpdateList(running, desired) <==>
      c in desired && exists o :: o in running && o.name == c.slug && Drifted(o, c)
  {
    if running != [] {
      var init := running[..|running| - 1];
      var last := running[|running| - 1];
      UpdateListMembers(init, desired);
      MatchesMembers(last, desired);
      assert running == init + [last];
    }
  }

  /** The agent's own container is filtered out before the diff: it is
      never removed and never paired for an update. */
  lemma AgentNeverRemovedOrUpdated(desired: seq<Container>, listing: seq<Observed>, selfName: string, remove: seq<string>)
    requires IsRemoveList(remove, Names(Running(listing, selfName)), RequestedNames(desired))
    ensures selfName !in remove
    ensures forall c :: c in UpdateList(Running(listing, selfName), desired) ==> c.slug != selfName
  {
    UpdateListMembers(Running(listing, selfName), desired);
  }

  /** When every entry's `slug` is its `parameters.name`, no entry is both
      created and updated. */
  lemma CreateUpdateDisjoint(desired: seq<Container>, running: seq<Observed>)
    requires forall c :: c in desired ==> c.slug == c.parameters.name
    ensures forall c :: c in CreateList(desired, Names(running)) ==> c !in UpdateList(running, desired)
  {
    CreateListMembers(desired, Names(running));
    UpdateListMembers(running, desired);
  }

  /** Without that hypothesis the two lists can share an entry: `web-2` is
      not running, so it is created, and its slug `web` is running with a
      different image, so it is also updated. */
  lemma CreateUpdateOverlap()
    ensures var c := Container("", "web", "nginx:2", ContainerParameters("web-2", "nginx:2"));
            var running := [Observed("web", Some("nginx:1"), [])];
            CreateList([c], Names(running)) == [c] && UpdateList(running, [c]) == [c]
  {
    var c := Container("", "web", "nginx:2", ContainerParameters("web-2", "nginx:2"));
    var running := [Observed("web", Some("nginx:1"), [])];
    assert Names(running) == {"web"};
    assert [c][..0] == [] && running[..0] == [];
    assert Drifted(running[0], c);
    assert Matches(running[0], [c]) == [c];
  }

  /** An empty desired list creates and updates nothing and removes every
      running name. */
  lemma {:induction false} EmptyDesired(running: seq<Observed>, remove: seq<string>)
    requires IsRemoveList(remove, Names(running), RequestedNames([]))
    ensures CreateList([], Names(running)) == []
    ensures UpdateList(running, []) == []
    ensures forall n :: n in remove <==> n in Names(running)
  {
    UpdateListWithoutDesired(running);
  }

  lemma {:induction false} UpdateListWithoutDesired(running: seq<Observed>)
    ensures UpdateList(running, []) == []
  {
    if running != [] {
      UpdateListWithoutDesired(running[..|running| - 1]);
    }
  }

  /** With nothing running, nothing is removed. */
  lemma NothingRunningNothingRemoved(remove: seq<string>, requested: set<string>)
    requires IsRemoveList(remove, Names([]), requested)
    ensures remove == []
  {
    assert Names([]) == {};
    if remove != [] {
      HeadIsMember(remove);
      assert false;
    }
  }

  lemma HeadIsMember<T>(s: seq<T>)
    requires s != []
    ensures s[0] in s
  {
  }

  /** A sequence without members is empty. */
  lemma NoMembersEmpty<T>(s: seq<T>)
    requires forall x :: x !in s
    ensures s == []
  {
    if s != [] {
      HeadIsMember(s);
      assert false;
    }
  }

  /** With nothing running, every desired entry is created, in order, and
      nothing is updated or removed. */
  lemma {:induction false} EmptyObserved(desired: seq<Container>)
    ensures CreateList(desired, Names([])) == desired
    ensures UpdateList([], desired) == []
  {
    if desired != [] {
      EmptyObserved(desired[..|desired| - 1]);
      assert desired == desired[..|desired| - 1] + [desired[|desired| - 1]];
    }
  }
}
