/** The navigation library's view of one back-stack frame, reduced to what
    the transition logic reads of it. */
module Navigation {
  import opened Kotlin

  /** `Lifecycle.State`, in the library's declaration order. */
  datatype LifecycleState = Destroyed | Initialized | Created | Started | Resumed

  function Rank(s: LifecycleState): nat
  {
    match s
    case Destroyed => 0
    case Initialized => 1
    case Created => 2
    case Started => 3
    case Resumed => 4
  }

  /** `state.isAtLeast(other)`: compares by declaration order. */
  predicate IsAtLeast(state: LifecycleState, other: LifecycleState)
  {
    Rank(state) >= Rank(other)
  }

  /** A `NavBackStackEntry`: its identity, the route of its destination
      (`destination.route`, which may be null) and its current lifecycle
      state. The route is the pattern the destination was registered with
      (such as `Accounts/{name}`), not the concrete route navigated to. */
  datatype Entry = Entry(id: nat, route: Option<string>, state: LifecycleState)

  /** Entries are the same frame when their identities agree, whatever their
      lifecycle state has moved to since. */
  predicate SameEntry(a: Entry, b: Entry)
  {
    a.id == b.id
  }
}
