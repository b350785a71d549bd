/** Rally's use of the patched host: the comparator that orders screens by
    their declaration, the vertical slide policy built on it, and the route
    strings the app registers and navigates to. */
module RallyActivity {
  import opened Kotlin
  import opened Navigation
  import opened Routes
  import opened ModdedNavHost

  /** The comparator lambda of `RallyNavHost`:
      `Route.from(initial)!!.compareTo(Route.from(target)!!)`. Either entry
      without a screen makes its `!!` throw. */
  function RallyComparator(initial: Entry, target: Entry): (r: Result<int>)
    ensures r.Thrown? <==> From(Some(initial)).None? || From(Some(target)).None?
    ensures r.Thrown? ==> r.exception == NullPointerException
    ensures r.Ok? ==>
      var a, b := From(Some(initial)).value, From(Some(target)).value;
      && (r.value < 0 <==> Ordinal(a) < Ordinal(b))
      && (r.value == 0 <==> a == b)
      && (r.value > 0 <==> Ordinal(b) < Ordinal(a))
  {
    match From(Some(initial))
    case None => Thrown(NullPointerException)
    case Some(a) =>
      match From(Some(target))
      case None => Thrown(NullPointerException)
      case Some(b) => Ok(CompareTo(a, b))
  }

  /** The transition policy `RallyNavHost` hands to the host: the vertical
      slide, forward by default and towards a later screen, backward towards
      an earlier one, ordered by the Rally comparator. */
  function RallyTransition(): (t: NavTransition)
    ensures t.comparator == RallyComparator
    ensures t.default == t.forward == SlideForward(Vertical)
    ensures t.backward == SlideBackward(Vertical)
  {
    VerticalSlideFade(RallyComparator)
  }

  /** The start destination: the name of the first screen, the one every
      other screen is declared after. */
  function StartDestination(): (route: string)
    ensures ValueOf(route).Ok?
    ensures forall x: Route :: Ordinal(ValueOf(route).value) <= Ordinal(x)
  {
    Name(Overview)
  }

  /** The route pattern of the single-account destination; a back-stack
      entry of that destination carries this pattern as its route, with the
      account name held apart as an argument. Its part before `/` is the
      Accounts name. */
  function SingleAccountPattern(): (route: string)
    ensures SubstringBefore(route, '/') == Name(Accounts)
    ensures |route| == |Name(Accounts)| + 7 && route[|Name(Accounts)| + 1..] == "{name}"
  {
    SubstringBeforeCut(Name(Accounts), '/', "{name}");
    Name(Accounts) + "/" + "{name}"
  }

  /** The route `navigateToSingleAccount(accountName)` navigates to: the
      Accounts name, `/`, then the account name unchanged (any `/` in it
      included). */
  function SingleAccountRoute(accountName: string): (route: string)
    ensures SubstringBefore(route, '/') == Name(Accounts)
    ensures |route| == |Name(Accounts)| + 1 + |accountName|
    ensures route[|Name(Accounts)| + 1..] == accountName
  {
    SubstringBeforeCut(Name(Accounts), '/', accountName);
    Name(Accounts) + "/" + accountName
  }

  /** The route a tab selection navigates to: a name with no `/` that
      `valueOf` maps back to the selected screen. */
  function TabRoute(screen: Route): (route: string)
    ensures '/' !in route
    ensures ValueOf(route) == Ok(screen)
  {
    Name(screen)
  }

  /** The routes of the destinations `RallyNavHost` registers, in order:
      one per screen, at the index of its ordinal, then the single-account
      pattern, whose part before `/` names Accounts. */
  function GraphRoutes(): (routes: seq<string>)
    ensures |routes| == 4
    ensures forall r: Route :: routes[Ordinal(r)] == Name(r)
    ensures routes[3] == SingleAccountPattern()
    ensures ValueOf(SubstringBefore(routes[3], '/')) == Ok(Accounts)
  {
    [Name(Overview), Name(Accounts), Name(Bills), SingleAccountPattern()]
  }

  /** Between two entries that both have a screen, the policy slides
      forward towards a later screen, backward towards an earlier one, and
      takes the default, here the forward slide, for the same screen. */
  lemma RallyDirection(initial: Entry, target: Entry)
    requires From(Some(initial)).Some? && From(Some(target)).Some?
    ensures var a, b := From(Some(initial)).value, From(Some(target)).value;
      && (Ordinal(a) <= Ordinal(b) ==> TransitionSpec(RallyTransition(), initial, target) == Ok(SlideForward(Vertical)))
      && (Ordinal(b) < Ordinal(a) ==> TransitionSpec(RallyTransition(), initial, target) == Ok(SlideBackward(Vertical)))
  {
  }

  /** The policy throws a `NullPointerException` exactly when one of the two
      entries has no screen. */
  lemma RallyUnresolvedThrows(initial: Entry, target: Entry)
    ensures TransitionSpec(RallyTransition(), initial, target).Thrown? <==>
      From(Some(initial)).None? || From(Some(target)).None?
    ensures TransitionSpec(RallyTransition(), initial, target).Thrown? ==>
      TransitionSpec(RallyTransition(), initial, target).exception == NullPointerException
  {
  }

  /** Every destination the graph registers resolves to a screen, so the
      comparator's `!!` cannot fail on an entry of this graph; the
      single-account pattern resolves to Accounts. */
  lemma GraphRoutesResolve(entry: Entry)
    requires entry.route.Some? && entry.route.value in GraphRoutes()
    ensures From(Some(entry)).Some?
    ensures entry.route.value == SingleAccountPattern() ==> From(Some(entry)) == Some(Accounts)
  {
    var route := entry.route.value;
    if route == SingleAccountPattern() {
      assert route == Name(Accounts) + "/" + "{name}";
      FromNameWithPath(Accounts, "{name}", entry);
    } else if route == Name(Overview) {
      FromName(Overview, entry);
    } else if route == Name(Accounts) {
      FromName(Accounts, entry);
    } else {
      FromName(Bills, entry);
    }
  }

  /** A route of the form `Accounts/<name>` shows Accounts, whatever the
      name. An entry of the single-account destination carries the pattern
      `Accounts/{name}` (the case `accountName == "{name}"`); the concrete
      route `navigateToSingleAccount` builds resolves the same way. */
  lemma SingleAccountShowsAccounts(accountName: string, entry: Entry)
    requires entry.route == Some(SingleAccountRoute(accountName))
    ensures From(Some(entry)) == Some(Accounts)
  {
    FromNameWithPath(Accounts, accountName, entry);
  }

  /** Moving between Accounts and a single account, or between two single
      accounts, compares equal and takes the default: the forward slide.
      With `"{name}"` for the names this covers the registered pattern that
      the entries of the single-account destination carry. */
  lemma AccountsMovesSlideForward(initial: Entry, target: Entry, initialName: string, targetName: string)
    requires initial.route == Some(Name(Accounts)) || initial.route == Some(SingleAccountRoute(initialName))
    requires target.route == Some(Name(Accounts)) || target.route == Some(SingleAccountRoute(targetName))
    ensures RallyComparator(initial, target) == Ok(0)
    ensures TransitionSpec(RallyTransition(), initial, target) == Ok(SlideForward(Vertical))
  {
    if initial.route == Some(Name(Accounts)) {
      FromName(Accounts, initial);
    } else {
      SingleAccountShowsAccounts(initialName, initial);
    }
    if target.route == Some(Name(Accounts)) {
      FromName(Accounts, target);
    } else {
      SingleAccountShowsAccounts(targetName, target);
    }
  }

  /** A tab selection lands on an entry that shows the selected screen, and
      the start destination shows Overview, the least screen. */
  lemma TabSelectionShowsScreen(screen: Route, entry: Entry, start: Entry)
    requires entry.route == Some(TabRoute(screen))
    requires start.route == Some(StartDestination())
    ensures From(Some(entry)) == Some(screen)
    ensures From(Some(start)) == Some(Overview) && Ordinal(Overview) <= Ordinal(screen)
  {
    FromName(screen, entry);
    FromName(Overview, start);
  }

  /** Switching from tab `a` to tab `b` slides forward when `b` comes later,
      backward when it comes earlier. */
  lemma TabSwitchDirection(a: Route, b: Route, initial: Entry, target: Entry)
    requires initial.route == Some(TabRoute(a)) && target.route == Some(TabRoute(b))
    ensures Ordinal(a) < Ordinal(b) ==> TransitionSpec(RallyTransition(), initial, target) == Ok(SlideForward(Vertical))
    ensures Ordinal(b) < Ordinal(a) ==> TransitionSpec(RallyTransition(), initial, target) == Ok(SlideBackward(Vertical))
  {
    FromName(a, initial);
    FromName(b, target);
  }

  /** First launch, then a move to Accounts: the first entry is completed at
      once and shown still; the move slides forward and completes nothing
      until the Overview content is disposed. */
  method FirstLaunchThenAccounts()
  {
    var host := new NavHost(RallyTransition());
    var overview := Entry(0, Some(Name(Overview)), Started);
    assert IsStarted([overview][0]);
    assert Project([overview], [overview]) == Some(overview);
    var r := host.Compose([overview], [overview]);
    assert r == Ok(Still(overview));
    assert host.completed == [overview];

    var accounts := Entry(1, Some(Name(Accounts)), Started);
    assert TransitionSpec(RallyTransition(), overview, accounts) == Ok(SlideForward(Vertical)) by {
      FromName(Overview, overview);
      FromName(Accounts, accounts);
      RallyDirection(overview, accounts);
    }
    assert Project([overview, accounts], [overview, accounts]) == Some(accounts) by {
      assert IsStarted([overview, accounts][1]);
    }
    assert host.transition == RallyTransition() && host.shown == Some(overview);
    r := host.Compose([overview, accounts], [overview, accounts]);
    assert r == Ok(Animated(overview, accounts, SlideForward(Vertical)));
    assert host.completed == [overview] && host.inProgress == [overview, accounts];
  }
}
