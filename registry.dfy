/**
 * The prototype registry: a fixed table from slug to a deferred loader, and
 * the lookup that wraps a registered loader for lazy rendering or returns
 * `null`.
 *
 * A loader is an opaque token naming the module it would import; building the
 * wrapper does not run it.
 */
module Registry {
  import opened Opt

  /** `() => import(path)`: stored, never invoked by the registry. */
  datatype Loader = Loader(modulePath: string)

  /** `dynamic(loader, { ssr: false })`: a component that will run `loader` when it first renders. */
  datatype LazyComponent = LazyComponent(loader: Loader, ssr: bool)

  /** The `prototypes` table. */
  const Prototypes: map<string, Loader> := map[
    "bouncing-ball" := Loader("../../prototypes/bouncing-ball/index"),
    "counter" := Loader("../../prototypes/counter/index")
  ]

  /** `getPrototypeComponent(slug)`. */
  function GetPrototypeComponent(slug: string): (r: Option<LazyComponent>)
    ensures r.Some? <==> slug in Prototypes
    ensures r.Some? ==> r.value.loader == Prototypes[slug] && !r.value.ssr
  {
    if slug !in Prototypes then None else Some(LazyComponent(Prototypes[slug], false))
  }

  /** Exactly two slugs are registered. */
  lemma RegisteredSlugs()
    ensures Prototypes.Keys == {"bouncing-ball", "counter"}
    ensures |Prototypes| == 2
  {
  }

  /** Each registered slug resolves to the loader of its own directory. */
  lemma RegisteredLoaders()
    ensures GetPrototypeComponent("bouncing-ball") == Some(LazyComponent(Loader("../../prototypes/bouncing-ball/index"), false))
    ensures GetPrototypeComponent("counter") == Some(LazyComponent(Loader("../../prototypes/counter/index"), false))
  {
  }

  /** Matching is exact: no case folding and no trimming. */
  lemma ExactMatch()
    ensures GetPrototypeComponent("Counter") == None
    ensures GetPrototypeComponent("counter ") == None
    ensures GetPrototypeComponent("bouncing_ball") == None
    ensures GetPrototypeComponent("") == None
  {
    assert "Counter" != "counter" && "Counter" != "bouncing-ball";
    assert "counter " != "counter";
  }

  /** A slug outside the table resolves to `null`, whatever exists on disk. */
  lemma UnregisteredIsNull(slug: string)
    requires slug != "bouncing-ball" && slug != "counter"
    ensures GetPrototypeComponent(slug) == None
  {
  }
}
