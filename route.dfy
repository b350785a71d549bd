/** Rally's screens (`Route`), their declaration order, and the lookup of
    the screen a back-stack entry shows. */
module Routes {
  import opened Kotlin
  import opened Navigation

  /** The screens, in declaration order. */
  datatype Route = Overview | Accounts | Bills

  /** `Route.ordinal`: the position in the declaration. */
  function Ordinal(r: Route): nat
  {
    match r
    case Overview => 0
    case Accounts => 1
    case Bills => 2
  }

  /** `Route.name`: the constant's identifier. */
  function Name(r: Route): string
  {
    match r
    case Overview => "Overview"
    case Accounts => "Accounts"
    case Bills => "Bills"
  }

  /** `Route.values()`: every constant once, at the index of its ordinal. */
  function Values(): (rs: seq<Route>)
    ensures |rs| == 3
    ensures forall i :: 0 <= i < |rs| ==> Ordinal(rs[i]) == i
    ensures forall r: Route :: rs[Ordinal(r)] == r
  {
    [Overview, Accounts, Bills]
  }

  /** Declaration order is strict: Overview before Accounts before Bills,
      and distinct constants never share an ordinal. */
  lemma DeclarationOrder()
    ensures Ordinal(Overview) < Ordinal(Accounts) < Ordinal(Bills)
    ensures forall a: Route, b: Route :: Ordinal(a) == Ordinal(b) ==> a == b
  {
  }

  /** `a.compareTo(b)` on an enum: negative, zero or positive as `a` is
      declared before, is, or is declared after `b`. */
  function CompareTo(a: Route, b: Route): (c: int)
    ensures c < 0 <==> Ordinal(a) < Ordinal(b)
    ensures c == 0 <==> a == b
    ensures c > 0 <==> Ordinal(b) < Ordinal(a)
  {
    Ordinal(a) - Ordinal(b)
  }

  /** `compareTo` is antisymmetric: swapping the operands flips the sign. */
  lemma CompareToAntisymmetric(a: Route, b: Route)
    ensures CompareTo(a, b) == -CompareTo(b, a)
  {
  }

  /** `Route.valueOf(name)`: the constant whose name is exactly `name`
      (case-sensitive), or an `IllegalArgumentException`. */
  function ValueOf(name: string): (r: Result<Route>)
    ensures r.Ok? ==> Name(r.value) == name
    ensures r.Thrown? ==> r.exception == IllegalArgumentException && forall x: Route :: Name(x) != name
  {
    if name == "Overview" then Ok(Overview)
    else if name == "Accounts" then Ok(Accounts)
    else if name == "Bills" then Ok(Bills)
    else Thrown(IllegalArgumentException)
  }

  /** No route name contains the path separator. */
  lemma NameHasNoSlash(r: Route)
    ensures '/' !in Name(r)
  {
  }

  /** Every constant is found again by its own name. */
  lemma ValueOfName(r: Route)
    ensures ValueOf(Name(r)) == Ok(r)
  {
  }

  /** The private `routeName` extension: null for a null entry or a
      destination without a route, otherwise the route up to its first `/`. */
  function RouteName(entry: Option<Entry>): (name: Option<string>)
    ensures name.Some? <==> entry.Some? && entry.value.route.Some?
    ensures name.Some? ==>
      var route := entry.value.route.value;
      name.value <= route && '/' !in name.value &&
      (|name.value| < |route| ==> route[|name.value|] == '/')
  {
    match entry
    case None => None
    case Some(e) =>
      match e.route
      case None => None
      case Some(route) => Some(SubstringBefore(route, '/'))
  }

  /** `Route.from(entry)`: the screen whose name is the entry's route name;
      null when there is no route name or no constant of that name (the
      `IllegalArgumentException` of `valueOf` is caught). */
  function From(entry: Option<Entry>): (r: Option<Route>)
    ensures r.Some? <==> RouteName(entry).Some? && exists x: Route :: Name(x) == RouteName(entry).value
    ensures r.Some? ==> Name(r.value) == RouteName(entry).value
  {
    match RouteName(entry)
    case None => None
    case Some(name) =>
      match ValueOf(name)
      case Ok(route) => Some(route)
      case Thrown(_) => None
  }

  /** A null entry, and an entry whose destination has no route, have no
      screen. */
  lemma FromWithoutRoute(entry: Option<Entry>)
    requires entry.None? || entry.value.route.None?
    ensures From(entry) == None
  {
  }

  /** An entry whose route is exactly a screen's name shows that screen. */
  lemma FromName(r: Route, entry: Entry)
    requires entry.route == Some(Name(r))
    ensures From(Some(entry)) == Some(r)
  {
    NameHasNoSlash(r);
    SubstringBeforeAbsent(Name(r), '/');
    ValueOfName(r);
  }

  /** An entry whose route is a screen's name followed by `/` and any path
      (arguments included) shows that screen. */
  lemma FromNameWithPath(r: Route, path: string, entry: Entry)
    requires entry.route == Some(Name(r) + "/" + path)
    ensures From(Some(entry)) == Some(r)
  {
    NameHasNoSlash(r);
    SubstringBeforeCut(Name(r), '/', path);
    ValueOfName(r);
  }

  /** A route whose prefix before the first `/` is no constant's name gives
      null, not an exception, whatever follows the prefix. */
  lemma FromUnknownName(prefix: string, path: string, entry: Entry)
    requires '/' !in prefix && forall x: Route :: Name(x) != prefix
    requires entry.route == Some(prefix) || entry.route == Some(prefix + "/" + path)
    ensures From(Some(entry)) == None
  {
    if entry.route == Some(prefix) {
      SubstringBeforeAbsent(prefix, '/');
    } else {
      SubstringBeforeCut(prefix, '/', path);
    }
  }

  /** The lookup is case-sensitive: a prefix that differs from a name only
      in case, such as `overview`, gives null for any path after it. */
  lemma FromIsCaseSensitive(path: string, entry: Entry)
    requires entry.route == Some("overview") || entry.route == Some("overview/" + path)
    ensures From(Some(entry)) == None
  {
    assert "overview/" + path == "overview" + "/" + path;
    FromUnknownName("overview", path, entry);
  }
}
