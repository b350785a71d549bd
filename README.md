# Rally directional navigation transitions, in Dafny

The Rally sample app replaces the navigation library's cross-fading host with
a patched `NavHost` that animates screen changes directionally. This project
models the logic behind that:

- **Routes** (`Route.kt`): the three screens Overview, Accounts and Bills in
  declaration order, `compareTo` by ordinal, and `Route.from`. `Route.from`
  cuts a back-stack entry's route at the first `/` and looks the prefix up
  with `valueOf`. A null entry, a missing route or an unknown name gives null.
- **Transition policy** (`ModdedNavHost.kt`): `NavTransition` with its two
  constructors and the three built-in policies (`fadeOutFadeIn`,
  `horizontalSlideFade`, `verticalSlideFade`). The `when` in `transitionSpec`
  picks forward, backward or default from the comparator's sign, and has an
  illegal-state trap.
- **Projection and completion** (`ModdedNavHost.kt`): the visible entry is the
  last started entry among the transitions in progress, else the last started
  entry of the back stack. There are two completion rules: the first-entry
  side effect, and the completions fired when a shown entry is disposed. The
  host is a class: its collected snapshots, the shown entry, and a log of
  `onTransitionComplete` calls.
- **Rally's policy** (`RallyActivity.kt`): the comparator
  `Route.from(initial)!!.compareTo(Route.from(target)!!)`, the vertical slide
  policy built on it, and the route strings the app registers and navigates
  to (`"Accounts/{name}"`, `"Accounts/" + accountName`, tab routes, the start
  destination).

Files: `kotlin.dfy` (module `Kotlin`: nullable values, exceptions,
`substringBefore`, `lastOrNull`), `navigation.dfy` (module `Navigation`:
lifecycle states and back-stack entries), `route.dfy` (`Routes`), `modded_nav_host.dfy` (`ModdedNavHost`),
`rally_activity.dfy` (`RallyActivity`).

Modelling choices:

- A `ContentTransform` is a descriptor: a cross-fade with its three tween
  durations, or a slide-and-fade along an axis. Each slide offset is a factor
  times the content's full size (`{ it }` is 1, `{ -it }` is -1).
- An exception is a `Thrown` result. `valueOf`'s `IllegalArgumentException`
  is caught by `Route.from`, as in the source.
- The comparator is a pure function. The `when` calls it up to three times
  (its branches short-circuit), so
  `Choose` takes the three observed results separately. `TransitionSpec`
  passes the same value three times.
- The keys of `transitionsInProgress` are an ordered sequence of entries in
  insertion order. Each completion is logged as the entry whose listener was
  called.
- Two entries are the same frame when their ids match. `AnimatedContent`
  calls `transitionSpec` only when its target changes, so `Compose` picks a
  transform only when the projected entry is a different frame from the shown
  one.
- A `SideEffect` runs only after a successful composition. So when
  `transitionSpec` throws, `Compose` returns the exception and leaves the host
  unchanged.

- An entry without a known screen does not fall back to the default
  transition: the Rally comparator applies `!!` to `Route.from` and throws
  `NullPointerException` (`RallyUnresolvedThrows`). Every route the app
  registers does resolve (`GraphRoutesResolve`).
- A back-stack entry's route is its destination's registered route. For the
  single-account destination that is the pattern `Accounts/{name}`, not the
  concrete `"Accounts/" + accountName`; the lemmas about single-account
  routes hold for every name, `{name}` included.

## Model

| member | source | states |
|---|---|---|
| Kotlin.SubstringBefore | app/src/main/java/com/example/compose/rally/Route.kt:48 | the result is a prefix of the route that holds no `/`; when it is shorter than the route, a `/` follows it there |
| Kotlin.SubstringBeforeAbsent | app/src/main/java/com/example/compose/rally/Route.kt:48 | a route without `/` is kept whole |
| Kotlin.SubstringBeforeCut | app/src/main/java/com/example/compose/rally/Route.kt:48 | `prefix + "/" + rest` is cut back to `prefix` whatever `rest` holds, more slashes included |
| Kotlin.LastOrNull | app/src/main/java/com/example/compose/rally/ModdedNavHost.kt:129-133 | null exactly when no element satisfies the predicate; otherwise an element that satisfies it and has no satisfying element after it |
| Routes.Values | app/src/main/java/com/example/compose/rally/Route.kt:29-33 | `values()` holds three constants, each at the index of its ordinal, and every constant appears |
| Routes.DeclarationOrder | app/src/main/java/com/example/compose/rally/Route.kt:31-33 | Overview < Accounts < Bills by ordinal, and ordinals are distinct |
| Routes.CompareTo | app/src/main/java/com/example/compose/rally/Route.kt:31-33 | `compareTo` is negative, zero or positive exactly as the first route is declared before, is, or is declared after the second |
| Routes.CompareToAntisymmetric | app/src/main/java/com/example/compose/rally/Route.kt:31-33 | swapping the operands of `compareTo` negates it |
| Routes.ValueOf | app/src/main/java/com/example/compose/rally/Route.kt:38-42 | `valueOf` returns the constant with exactly that name (case-sensitive); otherwise it throws `IllegalArgumentException`, and then no constant has that name |
| Routes.NameHasNoSlash | app/src/main/java/com/example/compose/rally/Route.kt:31-33 | no route name contains `/` |
| Routes.ValueOfName | app/src/main/java/com/example/compose/rally/Route.kt:39 | every constant is found by its own name |
| Routes.RouteName | app/src/main/java/com/example/compose/rally/Route.kt:45-50 | non-null exactly when the entry and its route are non-null; then it is the route up to its first `/`, or the whole route if there is none |
| Routes.From | app/src/main/java/com/example/compose/rally/Route.kt:36-43 | non-null exactly when the route name is some constant's name; the result's name then equals the route name |
| Routes.FromWithoutRoute | app/src/main/java/com/example/compose/rally/Route.kt:47-48 | a null entry, or an entry whose destination has no route, gives null |
| Routes.FromName | app/src/main/java/com/example/compose/rally/Route.kt:36-48 | an entry routed to `r.name` gives `r` |
| Routes.FromNameWithPath | app/src/main/java/com/example/compose/rally/Route.kt:36-48 | an entry routed to `r.name + "/" + s` gives `r` for every `s` |
| Routes.FromUnknownName | app/src/main/java/com/example/compose/rally/Route.kt:36-48 | a route whose part before the first `/` is no constant's name gives null, not an exception, whatever path follows it |
| Routes.FromIsCaseSensitive | app/src/main/java/com/example/compose/rally/Route.kt:38-42 | `overview`, and `overview/` followed by any path, give null: the lookup is case-sensitive and the exception is caught |
| ModdedNavHost.NewNavTransition | app/src/main/java/com/example/compose/rally/ModdedNavHost.kt:26-31 | the primary constructor keeps the given default; an omitted forward or backward equals the default; an omitted comparator returns 0 for every pair |
| ModdedNavHost.DirectionalNavTransition | app/src/main/java/com/example/compose/rally/ModdedNavHost.kt:32-36 | the secondary constructor makes the forward transform the default and keeps backward and the comparator |
| ModdedNavHost.FadeOutFadeIn | app/src/main/java/com/example/compose/rally/ModdedNavHost.kt:39-43 | the cross-fade fades in over 220 ms after 90 ms and fades out over 90 ms; forward and backward both equal it, and its comparator returns 0 for every pair |
| ModdedNavHost.HorizontalSlideFade | app/src/main/java/com/example/compose/rally/ModdedNavHost.kt:44-54 | keeps the comparator; default equals forward; forward slides horizontally in from `+size` and out to `-size`, backward the reverse |
| ModdedNavHost.VerticalSlideFade | app/src/main/java/com/example/compose/rally/ModdedNavHost.kt:56-66 | keeps the comparator; default equals forward; forward slides vertically in from `+size` and out to `-size`, backward the reverse |
| ModdedNavHost.SlidePoliciesMirror | app/src/main/java/com/example/compose/rally/ModdedNavHost.kt:44-66 | in `horizontalSlideFade` and `verticalSlideFade`, backward mirrors forward: the same axis, with both offsets negated |
| ModdedNavHost.Choose | app/src/main/java/com/example/compose/rally/ModdedNavHost.kt:153-158 | a negative first call gives forward; else a positive second call gives backward; else a zero third call gives default; the illegal-state trap fires exactly in the remaining case |
| ModdedNavHost.IllegalStateNeedsInconsistentComparator | app/src/main/java/com/example/compose/rally/ModdedNavHost.kt:153-158 | the trap fires only if the three calls disagree, and the calls 0, 0, 1 do reach it |
| ModdedNavHost.TransitionSpec | app/src/main/java/com/example/compose/rally/ModdedNavHost.kt:150-159 | with a pure comparator: < 0 selects forward, > 0 backward, 0 default; the result throws exactly when the comparator throws, with its exception, so the illegal-state trap is unreachable |
| ModdedNavHost.DefaultComparatorSelectsDefault | app/src/main/java/com/example/compose/rally/ModdedNavHost.kt:26-43 | a transition built with the default comparator selects its default in every case, whatever forward and backward transforms it was given; `fadeOutFadeIn` selects the same cross-fade in every direction |
| ModdedNavHost.EqualSelectsForward | app/src/main/java/com/example/compose/rally/ModdedNavHost.kt:32-36 | with the secondary constructor, a zero comparison selects the forward transform |
| ModdedNavHost.IsStarted | app/src/main/java/com/example/compose/rally/ModdedNavHost.kt:130 | `isAtLeast(STARTED)` holds exactly for the states STARTED and RESUMED |
| ModdedNavHost.Project | app/src/main/java/com/example/compose/rally/ModdedNavHost.kt:129-133 | if some in-progress entry has started, the result is the last such entry; otherwise it is the last started back-stack entry, and null when there is none |
| ModdedNavHost.ProjectionIsStarted | app/src/main/java/com/example/compose/rally/ModdedNavHost.kt:129-133 | a non-null projection has started and belongs to one of the two collections |
| ModdedNavHost.NavHost.constructor | app/src/main/java/com/example/compose/rally/ModdedNavHost.kt:121-128 | a new host has empty snapshots, shows nothing and has completed nothing |
| ModdedNavHost.NavHost.CompleteAllInProgress | app/src/main/java/com/example/compose/rally/ModdedNavHost.kt:139-141 | `forEach` over the in-progress transitions appends each of them to the completion log, in order |
| ModdedNavHost.NavHost.Compose | app/src/main/java/com/example/compose/rally/ModdedNavHost.kt:129-171 | shows the projection. Null renders nothing. For a first or unchanged entry no new transform is selected in this composition (an animation already running is not modelled further). A change of entry animates with the selected transform, or throws what the selection throws and leaves the host as it was. After success, a projection that turns null while an entry is shown disposes that content and completes every in-progress entry, and the first-entry rule completes the one in-progress entry exactly when both sizes are 1; otherwise nothing is completed |
| ModdedNavHost.NavHost.OnShownEntryDisposed | app/src/main/java/com/example/compose/rally/ModdedNavHost.kt:166-171 | disposing a shown entry's content completes every transition in progress |
| RallyActivity.RallyComparator | app/src/main/java/com/example/compose/rally/RallyActivity.kt:114-116 | throws `NullPointerException` exactly when either entry has no screen; otherwise its sign is the declaration order of the two screens |
| RallyActivity.RallyTransition | app/src/main/java/com/example/compose/rally/RallyActivity.kt:114-116 | Rally's policy uses its comparator, slides vertically forward by default and towards later screens, and backward towards earlier ones |
| RallyActivity.StartDestination | app/src/main/java/com/example/compose/rally/RallyActivity.kt:113 | the start route names a screen, and that screen is declared no later than any other |
| RallyActivity.TabRoute | app/src/main/java/com/example/compose/rally/RallyActivity.kt:94 | a tab navigates to a route with no `/` that `valueOf` maps back to the selected screen |
| RallyActivity.SingleAccountPattern | app/src/main/java/com/example/compose/rally/RallyActivity.kt:146-148 | the single-account pattern is `Accounts`, `/`, then `{name}`; its part before `/` is the Accounts name |
| RallyActivity.SingleAccountRoute | app/src/main/java/com/example/compose/rally/RallyActivity.kt:176 | the route is the Accounts name, `/`, then the account name unchanged; its part before `/` is the Accounts name whatever the account name holds |
| RallyActivity.GraphRoutes | app/src/main/java/com/example/compose/rally/RallyActivity.kt:119-148 | four destinations: each screen's name at the index of its ordinal, then the single-account pattern, whose part before `/` is found by `valueOf` as Accounts |
| RallyActivity.RallyDirection | app/src/main/java/com/example/compose/rally/RallyActivity.kt:114-116 | towards a later screen Rally slides forward (vertically), towards an earlier one backward, and to the same screen forward |
| RallyActivity.RallyUnresolvedThrows | app/src/main/java/com/example/compose/rally/RallyActivity.kt:115 | the transition throws a `NullPointerException` exactly when an entry has no screen |
| RallyActivity.GraphRoutesResolve | app/src/main/java/com/example/compose/rally/RallyActivity.kt:113-148 | every registered route (the three names and `"Accounts/{name}"`) resolves, the pattern to Accounts |
| RallyActivity.SingleAccountShowsAccounts | app/src/main/java/com/example/compose/rally/RallyActivity.kt:174-181 | `"Accounts/" + accountName` resolves to Accounts for every account name, so both the concrete route and the registered pattern `Accounts/{name}` that entries carry do |
| RallyActivity.AccountsMovesSlideForward | app/src/main/java/com/example/compose/rally/RallyActivity.kt:114-116 | moves between Accounts and single accounts compare 0 and take the default, the forward slide |
| RallyActivity.TabSelectionShowsScreen | app/src/main/java/com/example/compose/rally/RallyActivity.kt:93-113 | a tab selection's route resolves to the selected screen; the start destination resolves to Overview, the least screen |
| RallyActivity.TabSwitchDirection | app/src/main/java/com/example/compose/rally/RallyActivity.kt:93-116 | switching to a later tab slides forward, to an earlier tab backward |

## Left out

- Reflection (`getProperty`, `SuperReflect`): the back stack and the in-progress transitions it reads are parameters of `Compose`.
- Compose rendering: `AnimatedContent` internals, `LocalOwnersProvider`, saveable state, `DialogHost`, the scaffold, tab row and screen bodies. These are UI.
- Animation curves and timing beyond the integers the source writes (tween durations, slide offset signs). Alpha curves and easing are floating point and time.
- Navigation controller setup (lifecycle owner, view-model store, back dispatcher, assigning `graph`) and the early return when no compose navigator is registered. These go into a library that is not part of this model.
- What the library's `navigate`, `launchSingleTop` and `popUpTo` do to the back stack. The library is not part of this model; only the route strings passed to it are modelled.
- `RallyActivity` lifecycle, deep-link handling in `onNewIntent`, logging, the `lateinit` controller field, and the coroutine `launch`/`delay` demo. These are Android framework, I/O and timing.
- ModdedNavHost.NavHost.OnShownEntryDisposed: the framework decides when a shown entry's content leaves the composition. `Compose` covers the disposal caused by a null projection; a disposal for any other reason is offered as this separate operation, with no claim about when it happens.
- ModdedNavHost.NavHost.Compose: does not require that the keys of `transitionsInProgress` are distinct. The source's map guarantees it, and no modelled property depends on it.
- ModdedNavHost.NavHost.Compose: a `Still` frame means only that this composition selects no new transform. An `AnimatedContent` animation still running from an earlier composition goes on, and the model does not track it.
- Kotlin `Int` overflow: comparator results here are ordinal differences in -2..2.
