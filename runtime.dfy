/**
 An abstract container host: the containers it knows by name, the image
 references present on it, whether the registry credential file
 (`~/.docker/config.json`) exists, and the trace of the calls the agent has
 made to it. The step functions below give the effect of each call the
 agent's executor makes and of its batch loops; the `Host` class executes
 them in place.

 Nothing is caught: the first call that fails stops the batch, and the
 failure is passed up unchanged.
 */
module Runtime {
  import opened Models
  import opened Diff

  datatype RestartPolicy = No | Always | OnFailure | UnlessStopped

  /** What the host records about a container. */
  datatype Instance = Instance(image: string, env: seq<string>, restart: RestartPolicy)

  /** One call the agent makes, in the order it makes them.
      `ContainerRemoval` stands for the whole lookup-then-remove statement
      of `containers_remove`, and is recorded also when the lookup fails
      and nothing is removed. */
  datatype Call =
    | ContainerRemoval(name: string)
    | ImageRemoval(image: string)
    | CredentialWrite(auth: string)
    | ContainerRun(parameters: ContainerParameters, detach: bool, restart: RestartPolicy)
    | CredentialUnlink

  /** The exceptions the calls can raise. */
  datatype Error =
    | NotFound(name: string)        // no container by that name
    | ImageNotFound(image: string)  // no image by that reference
    | Conflict(name: string)        // a container by that name already exists

  datatype Outcome = Pass | Fail(error: Error)

  datatype World = World(
    containers: map<string, Instance>,
    images: set<string>,
    credentialFile: bool,
    calls: seq<Call>)

  datatype Step = Step(world: World, outcome: Outcome)

  /** How the host records a container launched from `p`. */
  function Launch(p: ContainerParameters): Instance {
    Instance(p.image, p.environment, Always)
  }

  /** `containers.get(name).remove(force=True)`. */
  function Remove(w: World, name: string): Step {
    var w' := w.(calls := w.calls + [ContainerRemoval(name)]);
    if name in w.containers then Step(w'.(containers := w.containers - {name}), Pass)
    else Step(w', Fail(NotFound(name)))
  }

  /** `images.remove(image=image, force=True)`. */
  function RemoveImage(w: World, image: string): Step {
    var w' := w.(calls := w.calls + [ImageRemoval(image)]);
    if image in w.images then Step(w'.(images := w.images - {image}), Pass)
    else Step(w', Fail(ImageNotFound(image)))
  }

  /** `containers.run(**parameters, detach=True, restart_policy=always)`;
      a missing image is pulled, so it is present afterwards. */
  function Run(w: World, p: ContainerParameters): Step {
    var w' := w.(calls := w.calls + [ContainerRun(p, true, Always)]);
    if p.name in w.containers then Step(w', Fail(Conflict(p.name)))
    else Step(w'.(containers := w.containers[p.name := Launch(p)], images := w.images + {p.image}), Pass)
  }

  /** One iteration of `containers_start`: write the credential file when
      `auth` is non-empty, run, and unlink the file only once `run` has
      returned normally. */
  function StartOne(w: World, c: Container): Step {
    var w1 := if HasAuth(c) then w.(credentialFile := true, calls := w.calls + [CredentialWrite(c.auth)]) else w;
    var s := Run(w1, c.parameters);
    if s.outcome.Fail? || !HasAuth(c) then s
    else Step(s.world.(credentialFile := false, calls := s.world.calls + [CredentialUnlink]), Pass)
  }

  /** `containers_remove`. */
  function RemoveAll(w: World, names: seq<string>): Step
    decreases |names|
  {
    if names == [] then Step(w, Pass)
    else
      var s := Remove(w, names[0]);
      if s.outcome.Fail? then s else RemoveAll(s.world, names[1..])
  }

  /** `containers_start`. */
  function StartAll(w: World, specs: seq<Container>): Step
    decreases |specs|
  {
    if specs == [] then Step(w, Pass)
    else
      var s := StartOne(w, specs[0]);
      if s.outcome.Fail? then s else StartAll(s.world, specs[1..])
  }

  /** One iteration of `containers_update`: remove the container named
      `slug`, force-remove the image `parameters.image`, start the entry. */
  function UpdateOne(w: World, c: Container): Step {
    var s1 := RemoveAll(w, [c.slug]);
    if s1.outcome.Fail? then s1
    else
      var s2 := RemoveImage(s1.world, c.parameters.image);
      if s2.outcome.Fail? then s2 else StartAll(s2.world, [c])
  }

  /** `containers_update`. */
  function UpdateAll(w: World, specs: seq<Container>): Step
    decreases |specs|
  {
    if specs == [] then Step(w, Pass)
    else
      var s := UpdateOne(w, specs[0]);
      if s.outcome.Fail? then s else UpdateAll(s.world, specs[1..])
  }

  /** The elements of a list of names, as a set. */
  function SetOf(names: seq<string>): set<string> {
    set n | n in names
  }

  /** The calls `containers_remove` makes for `names`. */
  function RemovalCalls(names: seq<string>): seq<Call>
  {
    if names == [] then [] else [ContainerRemoval(names[0])] + RemovalCalls(names[1..])
  }

  /** The calls one `containers_start` iteration makes when `run` returns. */
  function StartCalls(c: Container): seq<Call> {
    if HasAuth(c) then [CredentialWrite(c.auth), ContainerRun(c.parameters, true, Always), CredentialUnlink]
    else [ContainerRun(c.parameters, true, Always)]
  }

  /** The calls a whole `containers_start` batch makes when every `run`
      returns. */
  function StartAllCalls(specs: seq<Container>): seq<Call> {
    if specs == [] then [] else StartCalls(specs[0]) + StartAllCalls(specs[1..])
  }

  /** The containers a batch launches, keyed by `parameters.name`; a later
      entry overrides an earlier one with the same name. */
  function Launched(specs: seq<Container>): map<string, Instance> {
    if specs == [] then map[]
    else map[specs[0].parameters.name := Launch(specs[0].parameters)] + Launched(specs[1..])
  }

  function ImagesOf(specs: seq<Container>): set<string> {
    set c | c in specs :: c.parameters.image
  }

  predicate AnyAuth(specs: seq<Container>) {
    exists c :: c in specs && HasAuth(c)
  }

  /** No two entries share a `parameters.name`. */
  predicate DistinctNames(specs: seq<Container>) {
    forall i, j :: 0 <= i < j < |specs| ==> specs[i].parameters.name != specs[j].parameters.name
  }

  /** `w'` is `w` after more calls: the trace only grows. */
  predicate Extends(w: World, w': World) {
    |w.calls| <= |w'.calls| && w'.calls[..|w.calls|] == w.calls
  }

  /** `containers_remove` succeeds exactly when the names are distinct and
      all present: a repeated name fails the second time it is looked up. */
  lemma {:induction false} RemoveAllPassIff(w: World, names: seq<string>)
    ensures RemoveAll(w, names).outcome == Pass <==>
      Distinct(names) && forall n :: n in names ==> n in w.containers
    decreases |names|
  {
    if names != [] {
      var s := Remove(w, names[0]);
      RemoveAllPassIff(s.world, names[1..]);
      assert forall n :: n in names <==> n == names[0] || n in names[1..];
      if Distinct(names) {
        assert Distinct(names[1..]);
        assert names[0] !in names[1..];
      }
      if names[0] in w.containers && Distinct(names[1..]) && names[0] !in names[1..] {
        assert Distinct(names);
      }
    }
  }

  /** A successful `containers_remove` removes exactly the named containers
      and records one removal per name, in order. */
  lemma {:induction false} RemoveAllEffect(w: World, names: seq<string>)
    requires RemoveAll(w, names).outcome == Pass
    ensures RemoveAll(w, names).world ==
      w.(containers := w.containers - SetOf(names), calls := w.calls + RemovalCalls(names))
    decreases |names|
  {
    if names == [] {
      assert SetOf(names) == {};
      assert w.containers - SetOf(names) == w.containers;
      assert w.calls + RemovalCalls(names) == w.calls;
    } else {
      var n := names[0];
      var rest := names[1..];
      var s := Remove(w, n);
      assert RemoveAll(w, names) == RemoveAll(s.world, rest);
      RemoveAllEffect(s.world, rest);
      assert SetOf(names) == {n} + SetOf(rest);
      assert (w.containers - {n}) - SetOf(rest) == w.containers - SetOf(names);
      assert RemovalCalls(names) == [ContainerRemoval(n)] + RemovalCalls(rest);
      assert (w.calls + [ContainerRemoval(n)]) + RemovalCalls(rest) == w.calls + RemovalCalls(names);
    }
  }

  /** The first name that is missing (or repeated) aborts
      `containers_remove`: the names before it are removed, the names after
      it are never tried. */
  lemma {:induction false} RemoveAllAbortsAt(w: World, names: seq<string>, k: nat)
    requires k < |names|
    requires Distinct(names[..k]) && forall i :: 0 <= i < k ==> names[i] in w.containers
    requires names[k] !in w.containers || names[k] in names[..k]
    ensures RemoveAll(w, names) ==
      Step(w.(containers := w.containers - SetOf(names[..k]), calls := w.calls + RemovalCalls(names[..k + 1])),
           Fail(NotFound(names[k])))
    decreases k
  {
    var n := names[0];
    var s := Remove(w, n);
    if k == 0 {
      assert SetOf(names[..0]) == {};
      assert w.containers - SetOf(names[..0]) == w.containers;
      assert names[..1][1..] == [];
      assert RemovalCalls(names[..1]) == [ContainerRemoval(n)];
    } else {
      var rest := names[1..];
      var c1 := w.containers - {n};
      assert s.world == w.(containers := c1, calls := w.calls + [ContainerRemoval(n)]);
      assert RemoveAll(w, names) == RemoveAll(s.world, rest);
      assert names[..k] == [n] + rest[..k - 1];
      assert forall i :: 0 <= i < k - 1 ==> rest[i] == names[..k][i + 1];
      assert Distinct(rest[..k - 1]);
      assert forall i :: 0 <= i < k - 1 ==> rest[i] in c1;
      assert rest[k - 1] == names[k];
      assert names[k] !in c1 || names[k] in rest[..k - 1];
      RemoveAllAbortsAt(s.world, rest, k - 1);
      assert SetOf(names[..k]) == {n} + SetOf(rest[..k - 1]);
      assert c1 - SetOf(rest[..k - 1]) == w.containers - SetOf(names[..k]);
      assert names[..k + 1][1..] == rest[..k];
      assert RemovalCalls(names[..k + 1]) == [ContainerRemoval(n)] + RemovalCalls(rest[..k]);
      assert (w.calls + [ContainerRemoval(n)]) + RemovalCalls(rest[..k]) == w.calls + RemovalCalls(names[..k + 1]);
    }
  }

  /** `containers_start` succeeds exactly when no two entries share a name
      and none of the names is already taken. */
  lemma {:induction false} StartAllPassIff(w: World, specs: seq<Container>)
    ensures StartAll(w, specs).outcome == Pass <==>
      DistinctNames(specs) && forall c :: c in specs ==> c.parameters.name !in w.containers
    decreases |specs|
  {
    if specs != [] {
      var s := StartOne(w, specs[0]);
      StartAllPassIff(s.world, specs[1..]);
      assert forall c :: c in specs <==> c == specs[0] || c in specs[1..];
      if DistinctNames(specs) {
        assert DistinctNames(specs[1..]);
        assert forall c :: c in specs[1..] ==> c.parameters.name != specs[0].parameters.name;
      }
      if s.outcome == Pass && DistinctNames(specs[1..])
         && (forall c :: c in specs[1..] ==> c.parameters.name != specs[0].parameters.name) {
        forall i, j | 0 <= i < j < |specs|
          ensures specs[i].parameters.name != specs[j].parameters.name
        {
          if i > 0 {
            assert specs[i] == specs[1..][i - 1] && specs[j] == specs[1..][j - 1];
          } else {
            assert specs[j] in specs[1..];
          }
        }
      }
    }
  }

  /** A successful `containers_start` adds one restart-always container per
      entry, makes the entries' images present, leaves the credential file
      absent when some entry carried a credential and untouched otherwise,
      and records exactly the calls of each entry in order. */
  lemma {:induction false} StartAllEffect(w: World, specs: seq<Container>)
    requires StartAll(w, specs).outcome == Pass
    ensures StartAll(w, specs).world.containers == w.containers + Launched(specs)
    ensures StartAll(w, specs).world.images == w.images + ImagesOf(specs)
    ensures StartAll(w, specs).world.credentialFile == if AnyAuth(specs) then false else w.credentialFile
    ensures StartAll(w, specs).world.calls == w.calls + StartAllCalls(specs)
    decreases |specs|
  {
    if specs == [] {
      assert w.containers + map[] == w.containers;
      assert ImagesOf(specs) == {};
      assert w.calls + [] == w.calls;
    } else {
      var c := specs[0];
      var rest := specs[1..];
      var s := StartOne(w, c);
      var r := StartAll(w, specs);
      assert r == StartAll(s.world, rest);
      var c1 := w.containers[c.parameters.name := Launch(c.parameters)];
      var f1 := if HasAuth(c) then false else w.credentialFile;
      StartOneEffect(w, c);
      StartAllEffect(s.world, rest);
      assert r.world.containers == w.containers + Launched(specs) by {
        assert r.world.containers == c1 + Launched(rest);
        UpdateThenUnion(w.containers, c.parameters.name, Launch(c.parameters), Launched(rest));
      }
      assert r.world.images == w.images + ImagesOf(specs) by {
        assert r.world.images == w.images + {c.parameters.image} + ImagesOf(rest);
        assert ImagesOf(specs) == {c.parameters.image} + ImagesOf(rest);
      }
      assert r.world.credentialFile == if AnyAuth(specs) then false else w.credentialFile by {
        assert r.world.credentialFile == if AnyAuth(rest) then false else f1;
        assert forall x :: x in specs <==> x == c || x in rest;
        assert AnyAuth(specs) <==> HasAuth(c) || AnyAuth(rest);
      }
      assert r.world.calls == w.calls + StartAllCalls(specs) by {
        var t1 := w.calls + StartCalls(c);
        var later := StartAllCalls(rest);
        assert r.world.calls == t1 + later;
        assert StartAllCalls(specs) == StartCalls(c) + later;
        SeqAssoc(w.calls, StartCalls(c), later);
      }
    }
  }

  lemma SeqAssoc(a: seq<Call>, b: seq<Call>, c: seq<Call>)
    ensures (a + b) + c == a + (b + c)
  {
  }

  lemma UpdateThenUnion(m: map<string, Instance>, k: string, v: Instance, later: map<string, Instance>)
    ensures m[k := v] + later == m + (map[k := v] + later)
  {
  }

  /** One `containers_start` iteration whose `run` returns. */
  lemma StartOneEffect(w: World, c: Container)
    requires StartOne(w, c).outcome == Pass
    ensures StartOne(w, c).world == World(
      w.containers[c.parameters.name := Launch(c.parameters)],
      w.images + {c.parameters.image},
      if HasAuth(c) then false else w.credentialFile,
      w.calls + StartCalls(c))
  {
    if HasAuth(c) {
      assert w.calls + [CredentialWrite(c.auth)] + [ContainerRun(c.parameters, true, Always)] + [CredentialUnlink]
          == w.calls + StartCalls(c);
    }
  }

  /** When no entry carries a credential, `containers_start` never touches
      the credential file and makes nothing but `run` calls, whether or not
      the batch succeeds. */
  lemma {:induction false} StartWithoutAuth(w: World, specs: seq<Container>)
    requires forall c :: c in specs ==> !HasAuth(c)
    ensures var w' := StartAll(w, specs).world;
      && Extends(w, w')
      && w'.credentialFile == w.credentialFile
      && forall i :: |w.calls| <= i < |w'.calls| ==> w'.calls[i].ContainerRun?
    decreases |specs|
  {
    if specs != [] {
      var s := StartOne(w, specs[0]);
      assert s.world.calls == w.calls + [ContainerRun(specs[0].parameters, true, Always)];
      if s.outcome.Pass? {
        StartWithoutAuth(s.world, specs[1..]);
      }
    }
  }

  /** Every `run` a `containers_start` batch makes is detached, has the
      restart policy `always` and launches one of the batch's entries. */
  lemma {:induction false} RunsDetachedAlways(w: World, specs: seq<Container>)
    ensures var w' := StartAll(w, specs).world;
      && Extends(w, w')
      && forall i :: |w.calls| <= i < |w'.calls| && w'.calls[i].ContainerRun? ==>
           && w'.calls[i].detach
           && w'.calls[i].restart == Always
           && exists c :: c in specs && w'.calls[i].parameters == c.parameters
    decreases |specs|
  {
    if specs != [] {
      var c := specs[0];
      var s := StartOne(w, c);
      assert Extends(w, s.world);
      assert forall i :: |w.calls| <= i < |s.world.calls| && s.world.calls[i].ContainerRun? ==>
        s.world.calls[i] == ContainerRun(c.parameters, true, Always);
      if s.outcome.Pass? {
        RunsDetachedAlways(s.world, specs[1..]);
        var w' := StartAll(w, specs).world;
        forall i | |w.calls| <= i < |w'.calls| && w'.calls[i].ContainerRun?
          ensures w'.calls[i].detach && w'.calls[i].restart == Always
          ensures exists c :: c in specs && w'.calls[i].parameters == c.parameters
        {
          if i < |s.world.calls| {
            assert w'.calls[i] == s.world.calls[i];
          } else {
            var x :| x in specs[1..] && w'.calls[i].parameters == x.parameters;
            assert x in specs;
          }
        }
      }
    }
  }

  /** A failing `run` ends `containers_start`: the batch's result is that
      of the failing entry, so the entries after it are never started. */
  lemma {:induction false} StartAllStopsAt(w: World, specs: seq<Container>, k: nat)
    requires k < |specs|
    requires StartAll(w, specs[..k]).outcome == Pass
    requires StartOne(StartAll(w, specs[..k]).world, specs[k]).outcome.Fail?
    ensures StartAll(w, specs) == StartOne(StartAll(w, specs[..k]).world, specs[k])
    decreases k
  {
    if k == 0 {
      assert specs[..0] == [];
    } else {
      var s := StartOne(w, specs[0]);
      assert specs[..k][0] == specs[0];
      assert specs[..k][1..] == specs[1..][..k - 1];
      assert s.outcome == Pass;
      assert StartAll(w, specs[..k]) == StartAll(s.world, specs[1..][..k - 1]);
      assert specs[1..][k - 1] == specs[k];
      StartAllStopsAt(s.world, specs[1..], k - 1);
    }
  }

  /** There is no `finally`: when `run` fails for an entry with a
      credential, the credential file is left behind. */
  lemma CredentialLeftBehindOnFailedRun(w: World, c: Container)
    requires HasAuth(c) && c.parameters.name in w.containers
    ensures StartAll(w, [c]) == Step(
      w.(credentialFile := true,
         calls := w.calls + [CredentialWrite(c.auth), ContainerRun(c.parameters, true, Always)]),
      Fail(Conflict(c.parameters.name)))
  {
  }

  /** One `containers_update` iteration removes the container named `slug`,
      force-removes the image and starts the entry; it succeeds exactly when
      the slug's container and the image exist and the new name is free
      once the slug's container is gone. */
  lemma UpdateOneEffect(w: World, c: Container)
    ensures UpdateOne(w, c).outcome == Pass <==>
      && c.slug in w.containers
      && c.parameters.image in w.images
      && c.parameters.name !in w.containers - {c.slug}
    ensures UpdateOne(w, c).outcome == Pass ==> UpdateOne(w, c).world == World(
      (w.containers - {c.slug})[c.parameters.name := Launch(c.parameters)],
      w.images,
      if HasAuth(c) then false else w.credentialFile,
      w.calls + [ContainerRemoval(c.slug), ImageRemoval(c.parameters.image)] + StartCalls(c))
  {
    var s1 := RemoveAll(w, [c.slug]);
    assert s1 == Remove(w, c.slug) by {
      var r := Remove(w, c.slug);
      if r.outcome.Pass? {
        assert [c.slug][1..] == [];
        assert RemoveAll(r.world, []) == Step(r.world, Pass);
      }
    }
    if s1.outcome.Pass? {
      var s2 := RemoveImage(s1.world, c.parameters.image);
      if s2.outcome.Pass? {
        assert s1.world.images == w.images;
        assert (w.images - {c.parameters.image}) + {c.parameters.image} == w.images;
        var t := StartOne(s2.world, c);
        assert [c][1..] == [];
        assert StartAll(s2.world, [c]) == (if t.outcome.Fail? then t else StartAll(t.world, []));
        if t.outcome.Pass? {
          StartOneEffect(s2.world, c);
        }
      }
    }
  }

  /** An update whose image reference is not on the host (a new tag that
      was never pulled) removes the container named `slug` and then fails
      on the image removal: the cycle ends with that container gone and
      nothing started in its place. */
  lemma UpdateToAbsentImageFails(w: World, c: Container)
    requires c.slug in w.containers && c.parameters.image !in w.images
    ensures UpdateOne(w, c) == Step(
      w.(containers := w.containers - {c.slug},
         calls := w.calls + [ContainerRemoval(c.slug), ImageRemoval(c.parameters.image)]),
      Fail(ImageNotFound(c.parameters.image)))
  {
    assert [c.slug][1..] == [];
    assert RemoveAll(w, [c.slug]) == Remove(w, c.slug);
  }

  /** When every entry's `slug` is its `parameters.name`, a successful
      `containers_update` replaces each named container by a fresh launch
      of its entry and keeps the set of names. */
  lemma {:induction false} UpdateAllWhenSlugIsName(w: World, specs: seq<Container>)
    requires forall c :: c in specs ==> c.slug == c.parameters.name
    requires UpdateAll(w, specs).outcome == Pass
    ensures UpdateAll(w, specs).world.containers == w.containers + Launched(specs)
    ensures UpdateAll(w, specs).world.containers.Keys == w.containers.Keys
    decreases |specs|
  {
    if specs != [] {
      var c := specs[0];
      var s := UpdateOne(w, c);
      UpdateOneEffect(w, c);
      assert c in specs;
      var n := c.parameters.name;
      assert s.world.containers == w.containers[n := Launch(c.parameters)];
      UpdateAllWhenSlugIsName(s.world, specs[1..]);
      assert w.containers[n := Launch(c.parameters)] + Launched(specs[1..]) == w.containers + Launched(specs);
    } else {
      assert w.containers + map[] == w.containers;
    }
  }
}
