/** The patched navigation host: the directional transition policy
    (`NavTransition`), the choice of transform for a change of screen, the
    projection of the back stack onto the one visible entry, and the host's
    completion signalling towards the navigator. */
module ModdedNavHost {
  import opened Kotlin
  import opened Navigation

  /** The axis a slide runs along. */
  datatype Axis = Horizontal | Vertical

  /** A `ContentTransform` (an enter spec `with` an exit spec), reduced to
      what distinguishes the ones the host builds. */
  datatype Transform =
      /** `fadeIn(tween(fadeInMillis, fadeInDelayMillis)) with fadeOut(tween(fadeOutMillis))` */
    | Fade(fadeInMillis: nat, fadeInDelayMillis: nat, fadeOutMillis: nat)
      /** `slideIn(initialOffset) + fadeIn() with slideOut(targetOffset) + fadeOut()`
          along `axis`, each offset being the given factor times the full size. */
    | SlideFade(axis: Axis, initialOffsetFactor: int, targetOffsetFactor: int)

  /** Where the entering content starts, for content of the given full size. */
  function InitialOffset(t: Transform, fullSize: int): int
  {
    match t
    case Fade(_, _, _) => 0
    case SlideFade(_, factor, _) => factor * fullSize
  }

  /** Where the leaving content ends, for content of the given full size. */
  function TargetOffset(t: Transform, fullSize: int): int
  {
    match t
    case Fade(_, _, _) => 0
    case SlideFade(_, _, factor) => factor * fullSize
  }

  /** Forward slide: in from `+it`, out to `-it`. */
  function SlideForward(axis: Axis): Transform
  {
    SlideFade(axis, 1, -1)
  }

  /** Backward slide: in from `-it`, out to `+it`. */
  function SlideBackward(axis: Axis): Transform
  {
    SlideFade(axis, -1, 1)
  }

  /** The comparator of a `NavTransition`, on (initial, target); it may throw. */
  type Comparator = (Entry, Entry) -> Result<int>

  /** `NavTransition`: the three transforms and the comparator. */
  datatype NavTransition = NavTransition(
    default: Transform,
    forward: Transform,
    backward: Transform,
    comparator: Comparator)

  /** The default comparator `{ _, _ -> 0 }`. */
  function AlwaysEqual(initial: Entry, target: Entry): Result<int>
  {
    Ok(0)
  }

  /** The primary constructor; an omitted (`None`) argument takes its
      default: `forward` and `backward` fall back to `default`, the
      comparator to `AlwaysEqual`. */
  function NewNavTransition(
    default: Transform,
    forward: Option<Transform>,
    backward: Option<Transform>,
    comparator: Option<Comparator>): (t: NavTransition)
    ensures t.default == default
    ensures forward.None? ==> t.forward == t.default
    ensures forward.Some? ==> t.forward == forward.value
    ensures backward.None? ==> t.backward == t.default
    ensures backward.Some? ==> t.backward == backward.value
    ensures comparator.None? ==> forall a, b :: t.comparator(a, b) == Ok(0)
    ensures comparator.Some? ==> t.comparator == comparator.value
  {
    NavTransition(
      default,
      match forward case Some(f) => f case None => default,
      match backward case Some(b) => b case None => default,
      match comparator case Some(c) => c case None => AlwaysEqual)
  }

  /** The secondary constructor `(forward, backward, comparator)`: the
      forward transform doubles as the default. */
  function DirectionalNavTransition(forward: Transform, backward: Transform, comparator: Comparator): (t: NavTransition)
    ensures t.default == forward && t.forward == forward && t.backward == backward
    ensures t.comparator == comparator
  {
    NewNavTransition(forward, Some(forward), Some(backward), Some(comparator))
  }

  /** `NavTransition.fadeOutFadeIn`: a cross-fade, the only argument given. */
  function FadeOutFadeIn(): (t: NavTransition)
    ensures t.default == Fade(220, 90, 90)
    ensures t.forward == t.default && t.backward == t.default
    ensures forall a, b :: t.comparator(a, b) == Ok(0)
  {
    NewNavTransition(Fade(220, 90, 90), None, None, None)
  }

  /** `NavTransition.horizontalSlideFade(comparator)`. */
  function HorizontalSlideFade(comparator: Comparator): (t: NavTransition)
    ensures t.comparator == comparator && t.default == t.forward
    ensures t.forward.SlideFade? && t.forward.axis == Horizontal
    ensures t.backward.SlideFade? && t.backward.axis == Horizontal
    ensures forall size :: InitialOffset(t.forward, size) == size && TargetOffset(t.forward, size) == -size
    ensures forall size :: InitialOffset(t.backward, size) == -size && TargetOffset(t.backward, size) == size
  {
    DirectionalNavTransition(SlideForward(Horizontal), SlideBackward(Horizontal), comparator)
  }

  /** `NavTransition.verticalSlideFade(comparator)`. */
  function VerticalSlideFade(comparator: Comparator): (t: NavTransition)
    ensures t.comparator == comparator && t.default == t.forward
    ensures t.forward.SlideFade? && t.forward.axis == Vertical
    ensures t.backward.SlideFade? && t.backward.axis == Vertical
    ensures forall size :: InitialOffset(t.forward, size) == size && TargetOffset(t.forward, size) == -size
    ensures forall size :: InitialOffset(t.backward, size) == -size && TargetOffset(t.backward, size) == size
  {
    DirectionalNavTransition(SlideForward(Vertical), SlideBackward(Vertical), comparator)
  }

  /** In both slide policies the backward transform mirrors the forward one:
      the same axis, with both offsets negated. */
  lemma SlidePoliciesMirror(comparator: Comparator, fullSize: int)
    ensures forall t :: t in {HorizontalSlideFade(comparator), VerticalSlideFade(comparator)} ==>
      && t.forward.SlideFade? && t.backward.SlideFade?
      && t.forward.axis == t.backward.axis
      && InitialOffset(t.backward, fullSize) == -InitialOffset(t.forward, fullSize)
      && TargetOffset(t.backward, fullSize) == -TargetOffset(t.forward, fullSize)
  {
  }

  /** The `when` in `transitionSpec`, over the three comparator results it
      observes in turn: negative first gives forward, else positive second
      gives backward, else zero third gives default, else the illegal-state
      trap. */
  function Choose(t: NavTransition, first: int, second: int, third: int): (r: Result<Transform>)
    ensures first < 0 ==> r == Ok(t.forward)
    ensures first >= 0 && second > 0 ==> r == Ok(t.backward)
    ensures first >= 0 && second <= 0 && third == 0 ==> r == Ok(t.default)
    ensures r == Thrown(IllegalStateException) <==> first >= 0 && second <= 0 && third != 0
  {
    if first < 0 then Ok(t.forward)
    else if second > 0 then Ok(t.backward)
    else if third == 0 then Ok(t.default)
    else Thrown(IllegalStateException)
  }

  /** The trap is reached only when the three calls do not all agree, and it
      is reached by a comparator answering `0`, then `0`, then `1`. */
  lemma IllegalStateNeedsInconsistentComparator(t: NavTransition, first: int, second: int, third: int)
    ensures Choose(t, first, second, third) == Thrown(IllegalStateException) ==> !(first == second == third)
    ensures Choose(t, 0, 0, 1) == Thrown(IllegalStateException)
  {
  }

  /** `transitionSpec` for a change from `initial` to `target`: the
      comparator is a pure function, so all three calls return the same
      value; an exception it throws propagates. The sign of the comparison
      picks the transform, and the illegal-state trap is never reached. */
  function TransitionSpec(t: NavTransition, initial: Entry, target: Entry): (r: Result<Transform>)
    ensures r.Thrown? <==> t.comparator(initial, target).Thrown?
    ensures r.Thrown? ==> r.exception == t.comparator(initial, target).exception
    ensures t.comparator(initial, target).Ok? ==>
      var c := t.comparator(initial, target).value;
      && (c < 0 ==> r == Ok(t.forward))
      && (c > 0 ==> r == Ok(t.backward))
      && (c == 0 ==> r == Ok(t.default))
  {
    match t.comparator(initial, target)
    case Thrown(e) => Thrown(e)
    case Ok(c) => Choose(t, c, c, c)
  }

  /** Built with the default comparator, a transition always takes its
      default transform, whatever forward and backward transforms it was
      given; for `fadeOutFadeIn` that is the cross-fade in every direction. */
  lemma DefaultComparatorSelectsDefault(d: Transform, forward: Option<Transform>, backward: Option<Transform>, initial: Entry, target: Entry)
    ensures TransitionSpec(NewNavTransition(d, forward, backward, None), initial, target) == Ok(d)
    ensures TransitionSpec(FadeOutFadeIn(), initial, target) == Ok(Fade(220, 90, 90))
  {
  }

  /** Built with the secondary constructor, an equal comparison takes the
      forward transform. */
  lemma EqualSelectsForward(forward: Transform, backward: Transform, comparator: Comparator, initial: Entry, target: Entry)
    requires comparator(initial, target) == Ok(0)
    ensures TransitionSpec(DirectionalNavTransition(forward, backward, comparator), initial, target) == Ok(forward)
  {
  }

  /** `isAtLeast(STARTED)`. */
  predicate IsStarted(e: Entry)
    ensures IsStarted(e) <==> e.state == Started || e.state == Resumed
  {
    IsAtLeast(e.state, Started)
  }

  /** `e` is the last entry of `s` that has started. */
  ghost predicate IsLastStarted(s: seq<Entry>, e: Entry)
  {
    exists i :: 0 <= i < |s| && s[i] == e && IsStarted(s[i]) &&
      forall j :: i < j < |s| ==> !IsStarted(s[j])
  }

  /** The visible entry: the last started entry among the transitions in
      progress, else the last started entry of the back stack, else none. */
  function Project(inProgress: seq<Entry>, backStack: seq<Entry>): (r: Option<Entry>)
    ensures (exists i :: 0 <= i < |inProgress| && IsStarted(inProgress[i])) ==>
      r.Some? && IsLastStarted(inProgress, r.value)
    ensures (forall i :: 0 <= i < |inProgress| ==> !IsStarted(inProgress[i])) ==>
      (r.Some? <==> exists i :: 0 <= i < |backStack| && IsStarted(backStack[i])) &&
      (r.Some? ==> IsLastStarted(backStack, r.value))
  {
    match LastOrNull(inProgress, IsStarted)
    case Some(e) => Some(e)
    case None => LastOrNull(backStack, IsStarted)
  }

  /** Whatever the projection shows has started and comes from one of the
      two collections. */
  lemma ProjectionIsStarted(inProgress: seq<Entry>, backStack: seq<Entry>)
    ensures var r := Project(inProgress, backStack);
      r.Some? ==> IsStarted(r.value) && (r.value in inProgress || r.value in backStack)
  {
  }

  /** What the host renders in one composition. */
  datatype Frame =
    | Blank                                               // no entry to show
    | Still(entry: Entry)                                 // the entry; no new transform selected
    | Animated(initial: Entry, target: Entry, transform: Transform)

  /** The navigation host: the snapshots it collects from the navigator
      (back stack and the keys of `transitionsInProgress`, in insertion
      order), the entry it shows, and the log of `onTransitionComplete`
      calls it has made, each recorded by its entry. */
  class NavHost {
    const transition: NavTransition
    var backStack: seq<Entry>
    var inProgress: seq<Entry>
    var shown: Option<Entry>
    var completed: seq<Entry>

    ghost predicate Valid()
      reads this
    {
      shown == Project(inProgress, backStack)
    }

    constructor (transition: NavTransition)
      ensures Valid() && this.transition == transition
      ensures backStack == [] && inProgress == [] && shown == None && completed == []
    {
      this.transition := transition;
      backStack, inProgress, shown, completed := [], [], None, [];
    }

    /** `transitionsInProgress.forEach { it.value.onTransitionComplete() }`. */
    method CompleteAllInProgress()
      modifies this`completed
      ensures completed == old(completed) + inProgress
    {
      for i := 0 to |inProgress|
        invariant completed == old(completed) + inProgress[..i]
      {
        completed := completed + [inProgress[i]];
      }
    }

    /** One composition with new snapshots: project the visible entry, pick
        the transform when it changed, and after a successful composition
        run the first-entry side effect. When the projection turns null
        while an entry is shown, the animated content leaves the composition
        and the shown entry's `onDispose` completes every transition in
        progress, before the side effect runs. A throwing `transitionSpec`
        aborts the composition and leaves the host as it was. */
    method Compose(newBackStack: seq<Entry>, newInProgress: seq<Entry>) returns (r: Result<Frame>)
      requires Valid()
      modifies this
      ensures Valid()
      ensures var target := Project(newInProgress, newBackStack);
        && (target.None? ==> r == Ok(Blank))
        && (target.Some? && (old(shown).None? || SameEntry(old(shown).value, target.value)) ==>
              r == Ok(Still(target.value)))
        && (target.Some? && old(shown).Some? && !SameEntry(old(shown).value, target.value) ==>
              match TransitionSpec(transition, old(shown).value, target.value)
              case Ok(tf) => r == Ok(Animated(old(shown).value, target.value, tf))
              case Thrown(e) => r == Thrown(e))
        && (r.Ok? ==> backStack == newBackStack && inProgress == newInProgress && shown == target)
      ensures r.Ok? ==>
        var disposes := old(shown).Some? && Project(newInProgress, newBackStack).None?;
        var firstEntry := |newBackStack| == 1 && |newInProgress| == 1;
        && (!disposes && !firstEntry ==> completed == old(completed))
        && (disposes != firstEntry ==> completed == old(completed) + newInProgress)
        && (disposes && firstEntry ==> completed == old(completed) + newInProgress + newInProgress)
      ensures r.Thrown? ==> unchanged(this)
    {
      var target := Project(newInProgress, newBackStack);
      var frame: Frame;
      if target.None? {
        frame := Blank;
      } else if shown.None? || SameEntry(shown.value, target.value) {
        frame := Still(target.value);
      } else {
        var spec := TransitionSpec(transition, shown.value, target.value);
        if spec.Thrown? {
          return Thrown(spec.exception);
        }
        frame := Animated(shown.value, target.value, spec.value);
      }
      var disposed := shown.Some? && target.None?;
      backStack, inProgress, shown := newBackStack, newInProgress, target;
      if disposed {
        CompleteAllInProgress();
      }
      if |backStack| == 1 && |inProgress| == 1 {
        CompleteAllInProgress();
      }
      r := Ok(frame);
    }

    /** `onDispose` of a shown entry's content: every transition in
        progress is completed. */
    method OnShownEntryDisposed()
      modifies this`completed
      ensures completed == old(completed) + inProgress
    {
      CompleteAllInProgress();
    }
  }

  /** A shown entry whose projection turns null: both entries fall back to
      CREATED, nothing is rendered, and disposing the shown content
      completes the transition still in progress. */
  method ProjectionTurnsNull(transition: NavTransition)
  {
    var host := new NavHost(transition);
    var a, b := Entry(0, None, Started), Entry(1, None, Started);
    assert IsStarted([b][0]);
    var r := host.Compose([a, b], [b]);
    assert r == Ok(Still(b)) && host.shown == Some(b) && host.completed == [];

    var a2, b2 := Entry(0, None, Created), Entry(1, None, Created);
    assert Project([b2], [a2, b2]) == None;
    r := host.Compose([a2, b2], [b2]);
    assert r == Ok(Blank) && host.completed == [b2];
  }
}
