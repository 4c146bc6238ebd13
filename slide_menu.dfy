/** The slide menu's transition state machine: which category is selected, which
    transition is recorded, and what each user action or completion does to the bar,
    the scroll view and the layers the categories animate. */
module SlideMenu {
  import opened Prelude
  import opened Animations
  import opened LayerStates
  import opened LayerAnimator
  import opened MenuRules

  /** The identity of a category's control. */
  type ControlId = nat

  /** A category of the menu: its control; the layers it animates, nil when the control
      does not describe animations at all; and its description of the groups to attach
      to one of those layers (for a reversed or forward, automatic or scrubbed
      transition), nil when it has none for that layer. */
  datatype Category = Category(
    control: ControlId,
    animatedLayers: Option<seq<Layer>>,
    describe: (Layer, bool, bool) -> Option<seq<GroupAnimation>>)

  /** The layers a category animates (none when it describes no animations). */
  function LayersOfCategory(c: Category): seq<Layer> {
    c.animatedLayers.GetOr([])
  }

  /** What the layout engine computes for a transition: the bar's centre and width once
      it is constrained to the target control, the widths of the scrolling container
      and of the menu, and the centres of the menu and of the target control. */
  datatype Layout = Layout(
    barCenterX: real,
    barWidth: real,
    containerWidth: real,
    menuWidth: real,
    menuCenterX: real,
    controlCenterX: real)

  /** The scroll offset that centres the target control. */
  function ScrollOffset(layout: Layout): (r: real)
    ensures r >= 0.0
    ensures layout.containerWidth >= layout.menuWidth ==> r <= layout.containerWidth - layout.menuWidth
  {
    ContentOffsetX(layout.containerWidth - layout.menuWidth, layout.controlCenterX - layout.menuCenterX)
  }

  /** The key path the scroll view's offset is animated at. */
  const ScrollKeyPath: string := "bounds.origin.x"

  /** The bar's transition: its centre and its width move to the target control's. */
  function BarGroup(layout: Layout, automatic: bool): (g: GroupAnimation)
    ensures g.duration == TransitionDuration(automatic) && g.children.Children?
  {
    Group(Children([Basic("position.x", None, Some(Number(layout.barCenterX)), 0.0, None),
                    Basic("bounds.size.width", None, Some(Number(layout.barWidth)), 0.0, None)]),
          TransitionDuration(automatic), None, false)
  }

  /** The scroll view's transition: its offset moves to centre the target control. */
  function ScrollGroup(layout: Layout, automatic: bool): (g: GroupAnimation)
    ensures g.duration == TransitionDuration(automatic) && g.children.Children?
  {
    Group(Children([Basic(ScrollKeyPath, None, Some(Number(ScrollOffset(layout))), 0.0, None)]),
          TransitionDuration(automatic), None, true)
  }

  /** Cancelling every explicit key of a layer. */
  function CancelledExplicit(s: LayerState): LayerState {
    CancelledForKeys(s, s.explicitKeys)
  }

  /** Cancelling a layer's explicit keys removes exactly the animations under them and
      keeps the key list; doing it twice is doing it once. */
  lemma CancelledExplicitPromises(s: LayerState)
    ensures CancelledExplicit(s).animations == s.animations - set k | k in s.explicitKeys.GetOr([])
    ensures CancelledExplicit(s).explicitKeys == s.explicitKeys
    ensures CancelledExplicit(CancelledExplicit(s)) == CancelledExplicit(s)
  {
    if s.explicitKeys.Some? {
      CancelledAllRemovesExactlyThoseKeys(s, s.explicitKeys.value);
      CancelledAllIsIdempotent(s, s.explicitKeys.value);
    }
  }

  /** The selected index with the two fields its setter maintains. */
  datatype Selection = Selection(current: int, previous: Option<int>, direction: Option<Direction>)

  /** The selection after assigning `value` to the current index: assigning the current
      value changes nothing; otherwise the old value becomes the previous one and the
      direction says which way the selection moved (never Static). */
  function Committed(sel: Selection, value: int): (r: Selection)
    ensures r.current == value
    ensures value == sel.current ==> r == sel
    ensures value != sel.current ==> r.previous == Some(sel.current)
    ensures value != sel.current ==> (r.direction == Some(Forward) <==> sel.current < value)
    ensures value != sel.current ==> (r.direction == Some(Backward) <==> sel.current > value)
    ensures value != sel.current ==> r.direction != Some(Static) && r.direction.Some?
  {
    if value == sel.current then sel
    else Selection(value, Some(sel.current), Some(DirectionOf(sel.current, value)))
  }

  /** Whether an animation named `name` (nil reads as the empty name) is still among the
      explicit keys of a layer. */
  function StillListed(keys: Option<seq<string>>, name: Option<string>): bool {
    keys.Some? && name.GetOr("") in keys.value
  }

  /** When the layer's stop handler has forgotten one occurrence of a name, the name is
      still listed exactly when the layer held it at least twice, i.e. when another
      animation under the same key was attached after it. */
  lemma StillListedAfterStopIffAttachedTwice(keys: seq<string>, name: string)
    ensures StillListed(WithKeyRemoved(Some(keys), Some(name)), Some(name)) <==> multiset(keys)[name] >= 2
  {
    var r := WithKeyRemoved(Some(keys), Some(name));
    if name in keys {
      assert multiset(r.value)[name] == multiset(keys)[name] - 1;
      assert name in r.value <==> multiset(r.value)[name] > 0;
    } else {
      assert multiset(keys)[name] == 0;
    }
  }

  /** The menu. `barTargetIndex` records which category the bar is constrained to;
      `selections` records, in order, the indices reported to the menu's delegate. */
  class SlideMenu {
    var currentIndex: int
    var previousIndex: Option<int>
    var direction: Option<Direction>
    var animationFromIndex: Option<int>
    var animationToIndex: Option<int>
    const categories: seq<Category>
    const barLayer: Layer
    const scrollLayer: Layer
    const animator: Animator
    ghost var barTargetIndex: int
    ghost var selections: seq<int>

    /** No category lists a layer twice, and a recorded target index is only valid
        together with a valid recorded source index. */
    ghost predicate Valid()
      reads this
    {
      (forall i :: 0 <= i < |categories| ==> NoDuplicates(LayersOfCategory(categories[i]))) &&
      (IsValidIndex(animationToIndex) ==> IsValidIndex(animationFromIndex))
    }

    constructor (categories: seq<Category>, barLayer: Layer, scrollLayer: Layer, animator: Animator)
      requires forall i :: 0 <= i < |categories| ==> NoDuplicates(LayersOfCategory(categories[i]))
      ensures this.categories == categories && this.barLayer == barLayer && this.scrollLayer == scrollLayer
      ensures this.animator == animator
      ensures SelectionState() == Selection(0, None, None)
      ensures animationFromIndex.None? && animationToIndex.None?
      ensures barTargetIndex == 0 && selections == []
      ensures Valid()
    {
      this.categories := categories;
      this.barLayer := barLayer;
      this.scrollLayer := scrollLayer;
      this.animator := animator;
      currentIndex := 0;
      previousIndex := None;
      direction := None;
      animationFromIndex := None;
      animationToIndex := None;
      barTargetIndex := 0;
      selections := [];
    }

    function SelectionState(): Selection
      reads this
    {
      Selection(currentIndex, previousIndex, direction)
    }

    /** An index is valid when it is present and names a category. */
    function IsValidIndex(index: Option<int>): (r: bool)
      ensures r <==> index.Some? && 0 <= index.value < |categories|
    {
      if index.None? then false else 0 <= index.value < |categories|
    }

    /** The layers of the category at `index` (none outside the list). */
    function LayersOf(index: Option<int>): seq<Layer> {
      if IsValidIndex(index) then LayersOfCategory(categories[index.value]) else []
    }

    /** Every layer the menu animates. */
    function Layers(): set<Layer> {
      {barLayer, scrollLayer} + set i, l | 0 <= i < |categories| && l in LayersOfCategory(categories[i]) :: l
    }

    /** The layers of any category are among the menu's layers. */
    lemma CategoryLayersAreLayers(index: Option<int>)
      ensures forall l :: l in LayersOf(index) ==> l in Layers()
    {
      if IsValidIndex(index) {
        forall l | l in LayersOf(index) ensures l in Layers() {
          var i := index.value;
          assert 0 <= i < |categories| && l in LayersOfCategory(categories[i]);
        }
      }
    }

    function Controls(): seq<ControlId> {
      seq(|categories|, i requires 0 <= i < |categories| => categories[i].control)
    }

    // -------------------------------------------------------------------------
    // What a transition does to one layer

    predicate Rule1Fires(oldFrom: Option<int>, oldTo: Option<int>, from: int) {
      IsValidIndex(oldTo) && Some(from) == oldFrom
    }

    predicate Rule2Fires(oldFrom: Option<int>, oldTo: Option<int>, to: int) {
      IsValidIndex(oldTo) && Some(to) != oldFrom
    }

    /** Layer `l` after the two reconciliation rules: when the new transition starts where
        the recorded one started, the recorded target's layers have their explicit
        animations cancelled; when the new transition does not go back to where the
        recorded one started, the recorded source's layers are resumed where they are. */
    function Reconciled(l: Layer, s: LayerState, oldFrom: Option<int>, oldTo: Option<int>, from: int, to: int): LayerState {
      var afterRule1 := if Rule1Fires(oldFrom, oldTo, from) && l in LayersOf(oldTo) then CancelledExplicit(s) else s;
      if Rule2Fires(oldFrom, oldTo, to) && l in LayersOf(oldFrom) then Resumed(afterRule1, true) else afterRule1
    }

    /** Layer `l` after the bar and the scroll view get their transitions: the scroll
        view's offset is set to its destination, then the bar's group and the scroll
        view's group are attached. */
    function Transitioned(l: Layer, s: LayerState, automatic: bool, layout: Layout): LayerState {
      var offsetSet := if l == scrollLayer then s.(modelValues := s.modelValues[ScrollKeyPath := Some(Number(ScrollOffset(layout)))]) else s;
      var barDone := if l == barLayer then Attached(offsetSet, BarGroup(layout, automatic), BarKey, automatic) else offsetSet;
      if l == scrollLayer then Attached(barDone, ScrollGroup(layout, automatic), ScrollKey, automatic) else barDone
    }

    /** Whether the category at `index` describes groups for each of its first `p + 1` layers. */
    predicate DescribedUpTo(index: int, p: nat, reversed: bool, automatic: bool)
      requires 0 <= index < |categories| && p < |LayersOfCategory(categories[index])|
    {
      var layers := LayersOfCategory(categories[index]);
      forall q :: 0 <= q <= p ==> categories[index].describe(layers[q], reversed, automatic).Some?
    }

    /** Layer `l` after the category at `index` is animated: a layer of the category gets
        its described groups, in order under KeyName(0), KeyName(1), ..., unless the
        description of that layer or of an earlier one was nil. */
    function CategoryAnimated(l: Layer, s: LayerState, index: int, reversed: bool, automatic: bool): LayerState {
      if !(0 <= index < |categories|) then s
      else
        var layers := LayersOfCategory(categories[index]);
        match IndexOf(layers, l)
        case None => s
        case Some(p) =>
          if DescribedUpTo(index, p, reversed, automatic)
          then AttachedAll(s, categories[index].describe(l, reversed, automatic).value, automatic)
          else s
    }

    /** Layer `l` after a transition from `from` to `to` is prepared, given the recorded
        transition: reconciled; then, only when `to` is valid, the bar and scroll view are
        given their transitions, the target category is animated forward and the source
        category reversed. */
    function PreparedState(l: Layer, s: LayerState, oldFrom: Option<int>, oldTo: Option<int>,
                           from: int, to: int, automatic: bool, layout: Layout): LayerState {
      var reconciled := Reconciled(l, s, oldFrom, oldTo, from, to);
      if !IsValidIndex(Some(to)) then reconciled
      else
        var forward := CategoryAnimated(l, Transitioned(l, reconciled, automatic, layout), to, false, automatic);
        CategoryAnimated(l, forward, from, true, automatic)
    }

    /** Layer `l` after a scrub of the recorded transition: nothing when the recorded
        target is not valid; otherwise the bar, the scroll view, the target's layers and
        the source's layers are scrubbed, in that order. */
    function Progressed(l: Layer, s: LayerState, from: Option<int>, to: Option<int>, progress: real): LayerState {
      if !IsValidIndex(to) then s
      else
        var bar := if l == barLayer then Scrubbed(s, progress) else s;
        var scroll := if l == scrollLayer then Scrubbed(bar, progress) else bar;
        var next := if l in LayersOf(to) then Scrubbed(scroll, progress) else scroll;
        if l in LayersOf(from) then Scrubbed(next, progress) else next
    }

    /** Layer `l` after every ongoing animation is cancelled on layout: the bar's and the
        scroll view's explicit keys, then those of the recorded source's and target's
        layers when those indices are valid. */
    function LaidOut(l: Layer, s: LayerState, from: Option<int>, to: Option<int>): LayerState {
      var bar := if l == barLayer then CancelledExplicit(s) else s;
      var scroll := if l == scrollLayer then CancelledExplicit(bar) else bar;
      var previous := if l in LayersOf(from) then CancelledExplicit(scroll) else scroll;
      if l in LayersOf(to) then CancelledExplicit(previous) else previous
    }

    // -------------------------------------------------------------------------
    // What the per-layer effects promise

    /** The two reconciliation rules are independent. A layer of the recorded target
        loses exactly its explicitly keyed animations when rule 1 fires for it, and keeps
        them all otherwise; a layer of the recorded source plays in real time from begin
        time 0 when rule 2 fires for it, keeping its scrub position unless rule 1 also
        cancelled something on it; explicit keys, model values of untouched layers and
        layers neither rule reaches are left alone. */
    lemma ReconciliationRules(l: Layer, s: LayerState, oldFrom: Option<int>, oldTo: Option<int>, from: int, to: int)
      ensures var r := Reconciled(l, s, oldFrom, oldTo, from, to);
              Rule1Fires(oldFrom, oldTo, from) && l in LayersOf(oldTo) ==>
                r.animations == s.animations - set k | k in s.explicitKeys.GetOr([])
      ensures var r := Reconciled(l, s, oldFrom, oldTo, from, to);
              !(Rule1Fires(oldFrom, oldTo, from) && l in LayersOf(oldTo)) ==>
                r.animations == s.animations && r.modelValues == s.modelValues
      ensures var r := Reconciled(l, s, oldFrom, oldTo, from, to);
              Rule2Fires(oldFrom, oldTo, to) && l in LayersOf(oldFrom) ==> r.speed == 1.0 && r.beginTime == 0.0
      ensures var r := Reconciled(l, s, oldFrom, oldTo, from, to);
              Rule2Fires(oldFrom, oldTo, to) && l in LayersOf(oldFrom) && !(Rule1Fires(oldFrom, oldTo, from) && l in LayersOf(oldTo)) ==>
                r.timeOffset == s.timeOffset
      ensures var r := Reconciled(l, s, oldFrom, oldTo, from, to);
              r.explicitKeys == s.explicitKeys && r.presentation == s.presentation
      ensures !(Rule1Fires(oldFrom, oldTo, from) && l in LayersOf(oldTo)) && !(Rule2Fires(oldFrom, oldTo, to) && l in LayersOf(oldFrom)) ==>
                Reconciled(l, s, oldFrom, oldTo, from, to) == s
    {
      CancelledExplicitPromises(s);
      if s.explicitKeys.Some? {
        CancelledAllRemovesExactlyThoseKeys(s, s.explicitKeys.value);
      }
    }

    /** For a valid target, the bar carries the bar group under "Bar Animation" and the
        scroll view the scroll group under "ScrollView Animation", each stamped with the
        start values the presentation shows and lasting 0.25 (automatic) or 0.90; the
        scroll view's offset is set to its destination. Category groups never displace
        them, since their keys differ. */
    lemma TransitionAttachesBarAndScroll(l: Layer, s: LayerState, oldFrom: Option<int>, oldTo: Option<int>,
                                         from: int, to: int, automatic: bool, layout: Layout)
      requires IsValidIndex(Some(to))
      ensures var r := PreparedState(l, s, oldFrom, oldTo, from, to, automatic, layout);
              l == barLayer ==>
                BarKey in r.animations && r.animations[BarKey] == Stamped(BarGroup(layout, automatic), s.presentation, BarKey) &&
                r.animations[BarKey].duration == TransitionDuration(automatic)
      ensures var r := PreparedState(l, s, oldFrom, oldTo, from, to, automatic, layout);
              l == scrollLayer ==>
                ScrollKey in r.animations && r.animations[ScrollKey] == Stamped(ScrollGroup(layout, automatic), s.presentation, ScrollKey) &&
                r.animations[ScrollKey].duration == TransitionDuration(automatic) &&
                ScrollKeyPath in r.modelValues && r.modelValues[ScrollKeyPath] == Some(Number(ScrollOffset(layout)))
    {
      var reconciled := Reconciled(l, s, oldFrom, oldTo, from, to);
      ReconciliationRules(l, s, oldFrom, oldTo, from, to);
      var t := Transitioned(l, reconciled, automatic, layout);
      TransitionedRegistersGroups(l, reconciled, automatic, layout);
      var forward := CategoryAnimated(l, t, to, false, automatic);
      CategoryAnimationKeepsTransitions(l, t, to, false, automatic);
      CategoryAnimationKeepsTransitions(l, forward, from, true, automatic);
    }

    /** The bar and scroll view steps alone: the bar's group under "Bar Animation", the
        scroll view's offset and group under "ScrollView Animation", nothing for any
        other layer. */
    lemma TransitionedRegistersGroups(l: Layer, s: LayerState, automatic: bool, layout: Layout)
      ensures Transitioned(l, s, automatic, layout).presentation == s.presentation
      ensures var r := Transitioned(l, s, automatic, layout);
              l == barLayer ==> BarKey in r.animations && r.animations[BarKey] == Stamped(BarGroup(layout, automatic), s.presentation, BarKey)
      ensures var r := Transitioned(l, s, automatic, layout);
              l == scrollLayer ==>
                ScrollKey in r.animations && r.animations[ScrollKey] == Stamped(ScrollGroup(layout, automatic), s.presentation, ScrollKey) &&
                ScrollKeyPath in r.modelValues && r.modelValues[ScrollKeyPath] == Some(Number(ScrollOffset(layout)))
      ensures l != barLayer && l != scrollLayer ==> Transitioned(l, s, automatic, layout) == s
    {
      var offsetSet := if l == scrollLayer then s.(modelValues := s.modelValues[ScrollKeyPath := Some(Number(ScrollOffset(layout)))]) else s;
      var barDone := if l == barLayer then Attached(offsetSet, BarGroup(layout, automatic), BarKey, automatic) else offsetSet;
      if l == barLayer {
        AttachedPromises(offsetSet, BarGroup(layout, automatic), BarKey, automatic);
      }
      if l == scrollLayer {
        AttachedPromises(barDone, ScrollGroup(layout, automatic), ScrollKey, automatic);
      }
    }

    /** Animating a category leaves the transition keys, the model values and the
        presentation of every layer as they were. */
    lemma CategoryAnimationKeepsTransitions(l: Layer, s: LayerState, index: int, reversed: bool, automatic: bool)
      ensures var r := CategoryAnimated(l, s, index, reversed, automatic);
              r.modelValues == s.modelValues && r.presentation == s.presentation
      ensures var r := CategoryAnimated(l, s, index, reversed, automatic);
              forall k :: k in s.animations && (k == BarKey || k == ScrollKey) ==> k in r.animations && r.animations[k] == s.animations[k]
    {
      if 0 <= index < |categories| {
        var layers := LayersOfCategory(categories[index]);
        match IndexOf(layers, l)
        case None =>
        case Some(p) =>
          if DescribedUpTo(index, p, reversed, automatic) {
            var groups := categories[index].describe(l, reversed, automatic).value;
            AttachedAllUnderKeyNames(s, groups, automatic);
            AttachedUnderKeepsValues(s, groups, KeyNames(|groups|), automatic);
            AttachedUnderKeepsOtherAnimations(s, groups, KeyNames(|groups|), automatic);
            forall k | k == BarKey || k == ScrollKey
              ensures k !in KeyNames(|groups|)
            {
              forall i | 0 <= i < |groups| ensures KeyNames(|groups|)[i] != k {
                KeyNameIsNoTransitionKey(i);
              }
            }
          }
      }
    }

    /** A layer of a category that is described, together with every layer before it,
        gets its `i`-th described group under KeyName(i); a layer at or after the first
        nil description gets nothing. */
    lemma CategoryGroupsAreKeyedByPosition(l: Layer, s: LayerState, index: int, reversed: bool, automatic: bool, p: nat)
      requires 0 <= index < |categories|
      requires NoDuplicates(LayersOfCategory(categories[index]))
      requires p < |LayersOfCategory(categories[index])| && LayersOfCategory(categories[index])[p] == l
      ensures var r := CategoryAnimated(l, s, index, reversed, automatic);
              DescribedUpTo(index, p, reversed, automatic) ==>
                var groups := categories[index].describe(l, reversed, automatic).value;
                forall i :: 0 <= i < |groups| ==>
                  KeyName(i) in r.animations && r.animations[KeyName(i)] == Stamped(groups[i], s.presentation, KeyName(i))
      ensures !DescribedUpTo(index, p, reversed, automatic) ==> CategoryAnimated(l, s, index, reversed, automatic) == s
    {
      var layers := LayersOfCategory(categories[index]);
      var found := IndexOf(layers, l);
      assert found.Some? && found.value == p;
      if DescribedUpTo(index, p, reversed, automatic) {
        AttachedAllRegistersEachGroup(s, categories[index].describe(l, reversed, automatic).value, automatic);
      }
    }

    /** A scrub reaches each touched layer as a single scrub, even when the layer is
        listed in several places (the bar in a category, a category that is both source
        and target); untouched layers are left alone. */
    lemma ProgressScrubsEachLayerOnce(l: Layer, s: LayerState, from: Option<int>, to: Option<int>, progress: real)
      ensures IsValidIndex(to) && (l == barLayer || l == scrollLayer || l in LayersOf(to) || l in LayersOf(from)) ==>
                Progressed(l, s, from, to, progress) == Scrubbed(s, progress)
      ensures !(IsValidIndex(to) && (l == barLayer || l == scrollLayer || l in LayersOf(to) || l in LayersOf(from))) ==>
                Progressed(l, s, from, to, progress) == s
    {
      ScrubIsIdempotent(s, progress);
      ScrubIsIdempotent(Scrubbed(s, progress), progress);
    }

    /** Cancelling on layout reaches each touched layer as a single cancellation of its
        explicit keys; untouched layers are left alone. */
    lemma LayoutCancelsEachLayerOnce(l: Layer, s: LayerState, from: Option<int>, to: Option<int>)
      ensures l == barLayer || l == scrollLayer || l in LayersOf(from) || l in LayersOf(to) ==>
                LaidOut(l, s, from, to) == CancelledExplicit(s)
      ensures !(l == barLayer || l == scrollLayer || l in LayersOf(from) || l in LayersOf(to)) ==>
                LaidOut(l, s, from, to) == s
    {
      CancelledExplicitPromises(s);
    }

    // -------------------------------------------------------------------------
    // Loops over layers

    /** Cancels every explicit key on each of `layers`, in order. */
    method CancelExplicitAnimations(layers: seq<Layer>)
      requires NoDuplicates(layers)
      modifies layers
      ensures forall l :: l in layers ==> l.State() == CancelledExplicit(old(l.State()))
    {
      var i := 0;
      while i < |layers|
        invariant 0 <= i <= |layers|
        invariant forall j :: 0 <= j < i ==> layers[j].State() == CancelledExplicit(old(layers[j].State()))
        invariant forall j :: i <= j < |layers| ==> layers[j].State() == old(layers[j].State())
      {
        var layer := layers[i];
        animator.CancelLayerAnimationForKeys(layer, layer.explicitKeys);
        i := i + 1;
      }
    }

    /** Resumes each of `layers` where it stands. */
    method ResumeKeepingOffsets(layers: seq<Layer>)
      requires NoDuplicates(layers)
      modifies layers
      ensures forall l :: l in layers ==> l.State() == Resumed(old(l.State()), true)
    {
      var i := 0;
      while i < |layers|
        invariant 0 <= i <= |layers|
        invariant forall j :: 0 <= j < i ==> layers[j].State() == Resumed(old(layers[j].State()), true)
        invariant forall j :: i <= j < |layers| ==> layers[j].State() == old(layers[j].State())
      {
        animator.ResumeLayer(layers[i], true);
        i := i + 1;
      }
    }

    /** Scrubs each of `layers` to `progress`. */
    method ScrubLayers(layers: seq<Layer>, progress: real)
      requires NoDuplicates(layers)
      modifies layers
      ensures forall l :: l in layers ==> l.State() == Scrubbed(old(l.State()), progress)
    {
      var i := 0;
      while i < |layers|
        invariant 0 <= i <= |layers|
        invariant forall j :: 0 <= j < i ==> layers[j].State() == Scrubbed(old(layers[j].State()), progress)
        invariant forall j :: i <= j < |layers| ==> layers[j].State() == old(layers[j].State())
      {
        animator.AnimateLayerProgressively(layers[i], progress);
        i := i + 1;
      }
    }

    /** Attaches `groups` to `layer` in order, the `i`-th under KeyName(i). */
    method AttachDescribedGroups(layer: Layer, groups: seq<GroupAnimation>, automatic: bool)
      modifies layer
      ensures layer.State() == AttachedAll(old(layer.State()), groups, automatic)
    {
      var index := 0;
      while index < |groups|
        invariant 0 <= index <= |groups|
        invariant layer.State() == AttachedAll(old(layer.State()), groups[..index], automatic)
      {
        animator.AddAnimation(groups[index], layer, KeyName(index), automatic);
        AttachedAllExtends(old(layer.State()), groups, index, automatic);
        index := index + 1;
      }
      assert groups[..|groups|] == groups;
    }

    // -------------------------------------------------------------------------
    // Operations

    /** The setter of the current index. */
    method SetCurrentIndex(value: int)
      modifies this
      ensures SelectionState() == Committed(old(SelectionState()), value)
      ensures animationFromIndex == old(animationFromIndex) && animationToIndex == old(animationToIndex)
      ensures barTargetIndex == old(barTargetIndex) && selections == old(selections)
    {
      var oldValue := currentIndex;
      currentIndex := value;
      if currentIndex == oldValue {
        return;
      }
      previousIndex := Some(oldValue);
      direction := Some(DirectionOf(oldValue, currentIndex));
    }

    /** Animates the category at `index`: each of its layers in order gets its described
        groups; the first nil description abandons the remaining layers. */
    method AnimateCategory(index: int, reversed: bool, automatic: bool)
      requires 0 <= index < |categories|
      requires NoDuplicates(LayersOfCategory(categories[index]))
      modifies LayersOfCategory(categories[index])
      ensures forall l :: l in Layers() ==> l.State() == CategoryAnimated(l, old(l.State()), index, reversed, automatic)
    {
      var category := categories[index];
      if category.animatedLayers.None? {
        return;
      }
      var layers := category.animatedLayers.value;
      var i := 0;
      while i < |layers|
        invariant 0 <= i <= |layers|
        invariant forall q :: 0 <= q < i ==> category.describe(layers[q], reversed, automatic).Some?
        invariant forall q :: 0 <= q < i ==>
          layers[q].State() == AttachedAll(old(layers[q].State()), category.describe(layers[q], reversed, automatic).value, automatic)
        invariant forall q :: i <= q < |layers| ==> layers[q].State() == old(layers[q].State())
      {
        var groups := category.describe(layers[i], reversed, automatic);
        if groups.None? {
          break;
        }
        AttachDescribedGroups(layers[i], groups.value, automatic);
        i := i + 1;
      }
      forall l | l in Layers()
        ensures l.State() == CategoryAnimated(l, old(l.State()), index, reversed, automatic)
      {
        if l in layers {
          var p := IndexOf(layers, l).value;
          if p >= i {
            assert !DescribedUpTo(index, p, reversed, automatic);
          }
        }
      }
    }

    /** Applies the two reconciliation rules against the recorded transition. */
    method Reconcile(from: int, to: int)
      requires Valid()
      requires Rule2Fires(animationFromIndex, animationToIndex, to) ==> IsValidIndex(animationFromIndex)
      modifies Layers()
      ensures forall l :: l in Layers() ==> l.State() == Reconciled(l, old(l.State()), animationFromIndex, animationToIndex, from, to)
    {
      CategoryLayersAreLayers(animationFromIndex);
      CategoryLayersAreLayers(animationToIndex);
      if Rule1Fires(animationFromIndex, animationToIndex, from) {
        CancelExplicitAnimations(LayersOfCategory(categories[animationToIndex.value]));
      }
      label AfterRule1:
      if Rule2Fires(animationFromIndex, animationToIndex, to) {
        ResumeKeepingOffsets(LayersOfCategory(categories[animationFromIndex.value]));
      }
      forall l | l in Layers()
        ensures l.State() == Reconciled(l, old(l.State()), animationFromIndex, animationToIndex, from, to)
      {
        assert old@AfterRule1(l.State()) ==
          if Rule1Fires(animationFromIndex, animationToIndex, from) && l in LayersOf(animationToIndex)
          then CancelledExplicit(old(l.State())) else old(l.State());
      }
    }

    /** Sets the scroll view's offset and attaches the bar's and the scroll view's groups. */
    method AttachTransition(automatic: bool, layout: Layout)
      modifies barLayer, scrollLayer
      ensures forall l :: l in Layers() ==> l.State() == Transitioned(l, old(l.State()), automatic, layout)
    {
      var offset := ScrollOffset(layout);
      scrollLayer.SetValueForKeyPath(ScrollKeyPath, Some(Number(offset)));
      label OffsetSet:
      animator.AddAnimation(BarGroup(layout, automatic), barLayer, BarKey, automatic);
      label BarDone:
      animator.AddAnimation(ScrollGroup(layout, automatic), scrollLayer, ScrollKey, automatic);
    }

    /** Prepares a transition from `from` to `to`: reconcile with the recorded transition,
        record the new one, and, only when `to` is valid, move the bar's target and
        attach the bar's, the scroll view's and both categories' animations. */
    method PrepareAnimation(from: int, to: int, automatic: bool, layout: Layout)
      requires Valid()
      requires IsValidIndex(Some(to)) ==> IsValidIndex(Some(from))
      modifies this, Layers()
      ensures Valid()
      ensures animationFromIndex == Some(from) && animationToIndex == Some(to)
      ensures SelectionState() == old(SelectionState()) && selections == old(selections)
      ensures barTargetIndex == if IsValidIndex(Some(to)) then to else old(barTargetIndex)
      ensures forall l :: l in Layers() ==>
        l.State() == PreparedState(l, old(l.State()), old(animationFromIndex), old(animationToIndex), from, to, automatic, layout)
    {
      Reconcile(from, to);
      label Reconciled:
      animationFromIndex := Some(from);
      animationToIndex := Some(to);
      if !IsValidIndex(Some(to)) {
        return;
      }
      barTargetIndex := to;
      CategoryLayersAreLayers(Some(from));
      CategoryLayersAreLayers(Some(to));
      AttachTransition(automatic, layout);
      label Transitioned:
      AnimateCategory(to, false, automatic);
      label Forward:
      AnimateCategory(from, true, automatic);
    }

    /** Moves to `index` from the current index (the `fromIndex` argument is not used),
        then commits the new current index. */
    method MoveToIndex(index: int, fromIndex: int, automatic: bool, layout: Layout)
      requires Valid()
      requires IsValidIndex(Some(index)) ==> IsValidIndex(Some(currentIndex))
      modifies this, Layers()
      ensures Valid()
      ensures SelectionState() == Committed(old(SelectionState()), index)
      ensures animationFromIndex == Some(old(currentIndex)) && animationToIndex == Some(index)
      ensures selections == old(selections)
      ensures barTargetIndex == if IsValidIndex(Some(index)) then index else old(barTargetIndex)
      ensures forall l :: l in Layers() ==>
        l.State() == PreparedState(l, old(l.State()), old(animationFromIndex), old(animationToIndex), old(currentIndex), index, automatic, layout)
    {
      PrepareAnimation(currentIndex, index, automatic, layout);
      SetCurrentIndex(index);
    }

    /** A control was pressed: nothing happens unless it is a category's control other
        than the current one; then the menu moves there, playing by itself, and reports
        the index to its delegate once. */
    method ControlPressed(control: ControlId, layout: Layout)
      requires Valid()
      requires var index := IndexOf(Controls(), control);
               index.Some? && index.value != currentIndex ==> IsValidIndex(Some(currentIndex))
      modifies this, Layers()
      ensures Valid()
      ensures var index := IndexOf(Controls(), control);
              index.None? || index.value == old(currentIndex) ==>
                SelectionState() == old(SelectionState()) && selections == old(selections) &&
                animationFromIndex == old(animationFromIndex) && animationToIndex == old(animationToIndex) &&
                barTargetIndex == old(barTargetIndex) &&
                forall l :: l in Layers() ==> l.State() == old(l.State())
      ensures var index := IndexOf(Controls(), control);
              index.Some? && index.value != old(currentIndex) ==>
                SelectionState() == Committed(old(SelectionState()), index.value) &&
                selections == old(selections) + [index.value] &&
                animationFromIndex == Some(old(currentIndex)) && animationToIndex == Some(index.value as int) &&
                barTargetIndex == index.value &&
                forall l :: l in Layers() ==>
                  l.State() == PreparedState(l, old(l.State()), old(animationFromIndex), old(animationToIndex),
                                             old(currentIndex), index.value, true, layout)
    {
      var index := IndexOf(Controls(), control);
      if index.None? {
        return;
      }
      if index.value == currentIndex {
        return;
      }
      MoveToIndex(index.value, currentIndex, true, layout);
      selections := selections + [index.value];
    }

    /** Scrubs the recorded transition to `progress`. */
    method MoveProgressively(progress: real)
      requires Valid()
      modifies Layers()
      ensures forall l :: l in Layers() ==> l.State() == Progressed(l, old(l.State()), animationFromIndex, animationToIndex, progress)
    {
      // A nil index compares below every number.
      if (animationToIndex.Some? && animationToIndex.value >= |categories|) || animationToIndex.None? || animationToIndex.value < 0 {
        return;
      }
      animator.AnimateLayerProgressively(barLayer, progress);
      label BarDone:
      animator.AnimateLayerProgressively(scrollLayer, progress);
      label ScrollDone:
      CategoryLayersAreLayers(animationFromIndex);
      CategoryLayersAreLayers(animationToIndex);
      var nextLayers := LayersOfCategory(categories[animationToIndex.value]);
      var previousLayers := LayersOfCategory(categories[animationFromIndex.value]);
      ScrubLayers(nextLayers, progress);
      label NextDone:
      ScrubLayers(previousLayers, progress);
      forall l | l in Layers()
        ensures l.State() == Progressed(l, old(l.State()), animationFromIndex, animationToIndex, progress)
      {
        assert old@BarDone(l.State()) == if l == barLayer then Scrubbed(old(l.State()), progress) else old(l.State());
        assert old@ScrollDone(l.State()) ==
          if l == scrollLayer then Scrubbed(old@BarDone(l.State()), progress) else old@BarDone(l.State());
        assert old@NextDone(l.State()) ==
          if l in nextLayers then Scrubbed(old@ScrollDone(l.State()), progress) else old@ScrollDone(l.State());
      }
    }

    /** Cancels every ongoing animation, as a layout pass does. */
    method CancelAnimations()
      requires Valid()
      modifies Layers()
      ensures forall l :: l in Layers() ==> l.State() == LaidOut(l, old(l.State()), animationFromIndex, animationToIndex)
    {
      CategoryLayersAreLayers(animationFromIndex);
      CategoryLayersAreLayers(animationToIndex);
      animator.CancelLayerAnimationForKeys(barLayer, barLayer.explicitKeys);
      label BarDone:
      animator.CancelLayerAnimationForKeys(scrollLayer, scrollLayer.explicitKeys);
      label ScrollDone:
      if IsValidIndex(animationFromIndex) {
        CancelExplicitAnimations(LayersOfCategory(categories[animationFromIndex.value]));
      }
      label PreviousDone:
      if IsValidIndex(animationToIndex) {
        CancelExplicitAnimations(LayersOfCategory(categories[animationToIndex.value]));
      }
      forall l | l in Layers()
        ensures l.State() == LaidOut(l, old(l.State()), animationFromIndex, animationToIndex)
      {
        assert old@BarDone(l.State()) == if l == barLayer then CancelledExplicit(old(l.State())) else old(l.State());
        assert old@ScrollDone(l.State()) ==
          if l == scrollLayer then CancelledExplicit(old@BarDone(l.State())) else old@BarDone(l.State());
        assert old@PreviousDone(l.State()) ==
          if l in LayersOf(animationFromIndex) then CancelledExplicit(old@ScrollDone(l.State())) else old@ScrollDone(l.State());
      }
    }

    /** Whether a stop sends the bar back to the recorded source: the layer is the bar,
        the animation did not finish, and its name is no longer an explicit key of the bar. */
    predicate ShouldResetBar(animation: Animation, layer: Layer, finished: bool)
      reads layer
    {
      layer == barLayer && !finished && !StillListed(layer.explicitKeys, animation.name)
    }

    /** The menu's handling of a stop reported by the animator. */
    method AnimationDidStop(animation: Animation, layer: Layer, finished: bool)
      requires ShouldResetBar(animation, layer, finished) ==> IsValidIndex(animationFromIndex)
      requires finished ==> animationToIndex.Some?
      modifies this
      ensures barTargetIndex == if ShouldResetBar(animation, layer, finished) then old(animationFromIndex).value else old(barTargetIndex)
      ensures SelectionState() == if finished then Committed(old(SelectionState()), old(animationToIndex).value) else old(SelectionState())
      ensures animationFromIndex == old(animationFromIndex) && animationToIndex == old(animationToIndex)
      ensures selections == old(selections)
    {
      var shouldSetBarConstraints := ShouldResetBar(animation, layer, finished);
      if shouldSetBarConstraints {
        barTargetIndex := animationFromIndex.value;
      }
      if finished {
        SetCurrentIndex(animationToIndex.value);
      }
    }

    /** The platform reports that `animation` on `layer` stopped: the layer's handler runs,
        the animator reports to its delegate, and this menu, as that delegate, reacts. */
    method DeliverCompletion(layer: Layer, animation: Animation, finished: bool)
      requires layer == barLayer && !finished && !StillListed(WithKeyRemoved(layer.explicitKeys, animation.name), animation.name) ==>
        IsValidIndex(animationFromIndex)
      requires finished ==> animationToIndex.Some?
      modifies this, layer, animator
      ensures IsMaxOfDurations(layer.animations, layer.maxOfAnimationsDurations)
      ensures layer.State() == old(layer.State()).(explicitKeys := WithKeyRemoved(old(layer.explicitKeys), animation.name),
                                                   maxDuration := layer.maxOfAnimationsDurations,
                                                   timeOffset := 0.0)
      ensures animator.notifications == old(animator.notifications) + [StopNotice(animation, layer, finished)]
      ensures barTargetIndex ==
        if layer == barLayer && !finished && !StillListed(WithKeyRemoved(old(layer.explicitKeys), animation.name), animation.name)
        then old(animationFromIndex).value else old(barTargetIndex)
      ensures SelectionState() == if finished then Committed(old(SelectionState()), old(animationToIndex).value) else old(SelectionState())
      ensures animationFromIndex == old(animationFromIndex) && animationToIndex == old(animationToIndex)
      ensures selections == old(selections)
    {
      layer.AnimationDidStop(animation, finished, animator);
      AnimationDidStop(animation, layer, finished);
    }
  }
}
