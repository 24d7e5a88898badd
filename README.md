# kapellmeister-agent reconciliation core, in Dafny

kapellmeister-agent is a host-side agent. In an endless loop it fetches the list of containers a
management server wants on the host. It compares that list with the containers the container
runtime reports, then removes, starts and recreates containers until the host matches.

This project models one pass of that loop and proves properties of it:

- `Models` (`src/models.py`): the desired-state records `ContainerParameters` (name, image, an
  ordered environment list that defaults to empty) and `Container` (auth, slug, digest,
  parameters). `HasAuth` is Python truthiness of `auth`: only the empty string means "no
  credential".
- `Diff` (`containers_diff`, `containers_check`): the drift test, and the computation of the three
  action lists.
  - The specification functions are `CreateList`, `UpdateList` and `IsRemoveList`.
  - `Check` is the imperative loop nest, proved to compute them.
  - Creation and removal compare `parameters.name` with the runtime names; update pairing
    compares `slug`. The model keeps the two keys apart.
- `Runtime`: an abstract container host as a value, `World`. It holds:
  - a map from container name to its image, environment and restart policy;
  - the set of image references present;
  - whether the registry credential file exists;
  - the trace of calls the agent made.

  The step functions give the effect of each call and of the loops of `containers_remove`,
  `containers_start` and `containers_update`. A failed call ends its batch and the failure
  propagates unchanged.
- `Cycle` (the body of the loop in `app_main`): `ApplyPlan` runs remove, then create, then
  update. The lemmas relate a plan to the host before and after the cycle, including
  convergence.
- `Host`: a class whose fields are the host state and whose methods are the agent's calls and
  batch loops. Each method changes the fields in place. The removal, image removal, `run` and
  batch methods are proved to do exactly what the matching `Runtime` step function does; `List`,
  `WriteCredential` and `UnlinkCredential` state their effect directly. `Host.Cycle` performs one
  whole pass.

The code differs from a more robust design in several places. The model follows the code:

- Creation and removal match on `parameters.name`, not on `slug`. Only the update pairing uses
  `slug`.
- Removing a container that is not there raises an error (`NotFound`); it is not an idempotent
  no-op.
- A failure of any call is not caught. It aborts the rest of its batch and the rest of the cycle,
  including the failure to remove an image during an update.
- The credential file is unlinked only after a `run` that returns. There is no guaranteed release.
- An empty or missing fetch result makes the cycle do nothing. It does not tear the host down.

## Model

| member | source | states |
|---|---|---|
| Diff.AnyMissing | kapellmeister-agent.py:24 | true exactly when some desired environment string is absent from the observed environment |
| Diff.DriftIff | kapellmeister-agent.py:22-30 | drift holds iff a desired environment string is missing from the observed env, or the `Image` attribute (default `""`) differs from `digest` |
| Diff.ExtraObservedEnvNeverDrifts | kapellmeister-agent.py:24 | with the same image, an observed env that contains another can only have less drift: extra observed entries never cause drift |
| Diff.DriftExamples | kapellmeister-agent.py:22-30 | a superset env with the same digest has not drifted; a missing desired string drifts; a different digest drifts |
| Diff.Running | kapellmeister-agent.py:41 | the filtered listing holds exactly the listed containers not named like the agent |
| Diff.Check | kapellmeister-agent.py:33-65 | the loops compute `create == CreateList`, `update == UpdateList` on the filtered listing, and a `remove` satisfying `IsRemoveList` |
| Diff.CreateListMembers | kapellmeister-agent.py:48-50 | an entry is in `create` iff it is desired and its `parameters.name` is not a running name |
| Diff.CreateListCount | kapellmeister-agent.py:48-50 | `create` keeps every copy of a selected entry and drops every copy of an unselected one |
| Diff.CreateListAppend | kapellmeister-agent.py:48-50 | `create` preserves input order: the filter distributes over concatenation |
| Diff.MatchesMembers | kapellmeister-agent.py:59-63 | the entries paired with one running container are the desired ones whose `slug` is its name and from which it has drifted |
| Diff.MatchesCount | kapellmeister-agent.py:59-63 | one running container contributes every copy of each paired entry, and nothing else |
| Diff.UpdateListCount | kapellmeister-agent.py:58-63 | the number of copies of an entry in `update` is the number of drifted running containers named after its slug times its number of copies in the desired list |
| Diff.UpdateListMembers | kapellmeister-agent.py:58-63 | an entry is in `update` iff it is desired and some running container named after its `slug` has drifted from it |
| Diff.AgentNeverRemovedOrUpdated | kapellmeister-agent.py:41 | the agent's name is never in `remove`, and no updated entry is paired through the agent's name |
| Diff.CreateUpdateDisjoint | kapellmeister-agent.py:48-63 | when every `slug` equals its `parameters.name`, no entry is both in `create` and in `update` |
| Diff.CreateUpdateOverlap | kapellmeister-agent.py:48-63 | without that hypothesis an entry (slug `web`, name `web-2`) is in both `create` and `update` |
| Diff.EmptyDesired | kapellmeister-agent.py:44-63 | an empty desired list creates and updates nothing and removes exactly the running names |
| Diff.UpdateListWithoutDesired | kapellmeister-agent.py:58-63 | with no desired entries, `update` is empty whatever is running |
| Diff.NothingRunningNothingRemoved | kapellmeister-agent.py:53-55 | with nothing running, `remove` is empty |
| Diff.EmptyObserved | kapellmeister-agent.py:48-63 | with nothing running, `create` is the whole desired list in order and `update` is empty |
| Runtime.RemoveAllPassIff | kapellmeister-agent.py:68-70 | `containers_remove` succeeds iff the names are distinct and all present |
| Runtime.RemoveAllEffect | kapellmeister-agent.py:68-70 | a successful `containers_remove` deletes exactly the named containers, changes nothing else and records one removal call per name, in order |
| Runtime.RemoveAllAbortsAt | kapellmeister-agent.py:68-70 | the first missing or repeated name aborts with `NotFound`: the names before it are removed, the calls stop after it |
| Runtime.StartAllPassIff | kapellmeister-agent.py:76-86 | `containers_start` succeeds iff the entries' names are distinct and none is taken |
| Runtime.StartAllEffect | kapellmeister-agent.py:76-86 | a successful `containers_start` adds each entry as a restart-always container from its image and env, makes the images present, leaves the credential file absent if any entry had credentials (unchanged otherwise), and records exactly each entry's calls in order |
| Runtime.StartOneEffect | kapellmeister-agent.py:78-86 | a start whose `run` returns writes the credential just before `run` and unlinks it just after, only when `auth` is non-empty |
| Runtime.StartWithoutAuth | kapellmeister-agent.py:78-86 | when no entry has credentials the file is never touched and only `run` calls are made, whether or not the batch succeeds |
| Runtime.RunsDetachedAlways | kapellmeister-agent.py:82 | every `run` of a batch is detached, has restart policy `always` and launches one of the batch's parameters |
| Runtime.StartAllStopsAt | kapellmeister-agent.py:76-86 | a failing `run` ends the batch with that entry's result, so no later entry is started |
| Runtime.CredentialLeftBehindOnFailedRun | kapellmeister-agent.py:78-86 | when `run` fails for an entry with credentials, the credential file is left present and no unlink is made |
| Runtime.UpdateOneEffect | kapellmeister-agent.py:89-98 | one update succeeds iff the slug's container and the image exist and the name is free afterwards; then it removes the slug's container, relaunches the entry, keeps the image set, and records removal, image removal and start calls in that order |
| Runtime.UpdateToAbsentImageFails | kapellmeister-agent.py:89-98 | an update whose image reference is not on the host removes the slug's container and then fails with `ImageNotFound`, starting nothing in its place |
| Runtime.UpdateAllWhenSlugIsName | kapellmeister-agent.py:89-98 | when slugs are names, a successful `containers_update` relaunches each entry under its name and keeps the set of names |
| Cycle.LaunchSatisfies | kapellmeister-agent.py:82 | a container launched from an entry whose digest is its image satisfies the entry |
| Cycle.UndriftedSatisfies | kapellmeister-agent.py:22-30 | a container that has not drifted from an entry satisfies it |
| Cycle.RunningNames | kapellmeister-agent.py:41-45 | the names the diff sees are the host's names minus the agent's |
| Cycle.ListedAs | kapellmeister-agent.py:41 | every host container other than the agent appears in the filtered listing as the host reports it |
| Cycle.RemovePhasePasses | kapellmeister-agent.py:124 | the remove phase of a cycle never fails and deletes exactly the planned names |
| Cycle.PhasesPass | kapellmeister-agent.py:124-130 | a cycle that succeeds runs each phase to success, in the order remove, create, update |
| Cycle.CreatedNames | kapellmeister-agent.py:44-50 | the names `create` launches are the requested names that are not running |
| Cycle.NamesAfterCycle | kapellmeister-agent.py:117-130 | with slugs equal to names, a successful cycle leaves exactly the requested names, plus the agent's own container if it was present |
| Cycle.LaunchedKeys | kapellmeister-agent.py:76-86 | a batch launches exactly its names, each from one of the entries that carry it |
| Cycle.LaunchedByLast | kapellmeister-agent.py:76-86 | a launched name runs the last entry that carries it: the entry at some index with no entry of that name after it |
| Cycle.QuietWhenConverged | kapellmeister-agent.py:33-65 | on a converged host (slugs equal names, agent name not requested) the plan is empty |
| Cycle.ConvergesAfterCycle | kapellmeister-agent.py:112-130 | a successful cycle (slugs equal names, distinct names, digest equal to image, agent name not requested) leaves the host converged |
| Cycle.NextCycleQuiet | kapellmeister-agent.py:112-130 | under the same hypotheses, the next cycle on the same desired list plans nothing, for any listing of the new host |
| Cycle.SlugRemovedBeforeUpdate | kapellmeister-agent.py:119-130 | an entry whose slug `web` differs from its name `web-2` gets `web` removed and is then updated through `web`, and the cycle fails with `NotFound` |
| Cycle.SelfNamedEntryConflicts | kapellmeister-agent.py:41 | an entry named like the agent is planned for creation, and its `run` collides with the agent's container (`Conflict`) |
| Host.Host.constructor | kapellmeister-agent.py:108 | a host object holds the given state |
| Host.Host.List | kapellmeister-agent.py:41 | the listing holds every container once, as the host reports it, in some order |
| Host.Host.RemoveContainer | kapellmeister-agent.py:70 | the fields change as `Runtime.Remove` says: the lookup fails with `NotFound` on a missing name |
| Host.Host.RemoveImage | kapellmeister-agent.py:95 | the fields change as `Runtime.RemoveImage` says |
| Host.Host.Run | kapellmeister-agent.py:82 | the fields change as `Runtime.Run` says: a name already taken fails with `Conflict` |
| Host.Host.WriteCredential | kapellmeister-agent.py:79-80 | the credential file exists afterwards and the write is recorded |
| Host.Host.UnlinkCredential | kapellmeister-agent.py:86 | the credential file is absent afterwards (missing is fine) and the unlink is recorded |
| Host.Host.ContainersRemove | kapellmeister-agent.py:68-70 | the loop leaves the host exactly as `RemoveAll` of the old state and returns its outcome |
| Host.Host.ContainersStart | kapellmeister-agent.py:73-86 | the loop leaves the host exactly as `StartAll` of the old state and returns its outcome |
| Host.Host.ContainersUpdate | kapellmeister-agent.py:89-98 | the loop leaves the host exactly as `UpdateAll` of the old state and returns its outcome |
| Host.Host.Cycle | kapellmeister-agent.py:112-130 | with no fetched entries nothing changes; otherwise the listing is a listing of the old host, the plan is what `containers_check` gives for it, and the host ends as `ApplyPlan` of the old state |

## Left out

- `http_get_containers` (`src/helpers.py`): the HTTP request and JSON parsing are network I/O. The fetch result is an `Option<seq<Container>>` parameter of `Host.Cycle`.
- The URL construction, `EnvYAML` configuration, logging, `sleep` and the endless `while True` loop are plumbing around one pass; only one pass is modelled. The agent's own name (`env["name"]`) is a parameter.
- Docker SDK internals: image pulls, registry authentication and the shape of `attrs` are not modelled. A `run` always succeeds unless the name is taken, and a missing image is treated as pulled. Bad images, registry failures and other runtime exceptions are not modelled.
- The runtime records a container's image as the reference it was run from. Docker reports an image ID in the `Image` attribute, so `Cycle.ConvergesAfterCycle` assumes each entry's `digest` equals its image reference.
- A container's environment is the desired environment list. Default environment entries from the image are not modelled.
- A `Config.Env` of `None` is not modelled; the observed environment is always a list.
- The credential file's path and contents are not modelled; only its existence is.
- Python's set iteration order is not modelled: `remove` comes in some order.
- The order of the runtime's listing is not modelled: the listing comes in some order.
- An uncaught failure ends the agent's process in the source. The model returns the failure as an `Outcome` and stops the cycle there.
- Diff.Check: the order of `remove` is stated as "some order", because it comes from iterating a Python set.
- Host.Host.List: the order of the listing is stated as "some order", because the runtime's order is not part of the model.
