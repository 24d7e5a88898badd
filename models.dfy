/**
 The desired-state records the management server sends: one `Container` per
 container the agent should keep running on the host.
 */
module Models {

  /** Launch parameters passed to the runtime's `run` call. `name` is the
      runtime name given to the container; `environment` is an ordered list
      of `KEY=VALUE` strings that keeps duplicates and is empty when the
      server leaves it out. */
  datatype ContainerParameters = ContainerParameters(
    name: string,
    image: string,
    environment: seq<string> := [])

  /** One desired container. `auth` is a required plain string (an empty
      string means "no registry credential"); `slug` is matched against the
      runtime names when looking for drift, and is not tied to
      `parameters.name` in any way. */
  datatype Container = Container(
    auth: string,
    slug: string,
    digest: string,
    parameters: ContainerParameters)

  /** Python truthiness of `auth`: only the empty string is false. */
  predicate HasAuth(c: Container) {
    c.auth != ""
  }
}
