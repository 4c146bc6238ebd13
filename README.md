# SBSlideMenu animation core in Dafny

This project models the animation coordination core of SBSlideMenu, a horizontally
scrolling category menu with an animated selection bar. It covers three parts:

- **The animator** (`Animator.swift`). It attaches animation groups to render layers
  under explicit keys. It captures each step's start value from what the layer shows on
  screen. It pauses, resumes and scrubs layers by progress, and it cancels animations by
  writing their start values back as model values.
- **The layer extensions** (`Extensions.swift`). These are the flattening of nested
  animation groups into basic steps, the per-layer list of explicit keys, the longest
  attached duration, and the layer's completion handler.
- **The menu's transition state machine** (`SBSlideMenu.swift`). It covers the selected,
  previous and direction fields, and the recorded transition
  (`animationFromIndex`/`animationToIndex`). It covers the two reconciliation rules that
  run when a new transition starts before the last one settled, and the attaching of the
  bar's, scroll view's and categories' animations. It also covers progressive scrubbing,
  cancellation on layout, and the reaction to completions.

Modules, in dependency order:

- `Prelude` (`prelude.dfy`): Swift optionals, the first-occurrence search of `indexOf`,
  and "no duplicates".
- `Animations` (`animations.dfy`): animations as values (basic step, group, any other
  kind). It defines the depth-first flattening of a group into its basic steps, and the
  capture of start values from the presentation layer.
- `LayerStates` (`layer_states.dfy`): a layer's state as a value, and one function per
  animator operation on it (attach, pause, resume, cancel, scrub). The properties the
  animator promises are proved here about those functions.
- `LayerAnimator` (`layer_animator.dfy`): class `Layer`, with the fields the platform and
  the extensions update in place, and class `Animator`. Every method is proved to leave
  the layer's state equal to the matching `LayerStates` function of the old state.
- `MenuRules` (`menu_rules.dfy`): the menu's pure rules. These are the direction of a
  move, the category keys `"Animation"`, `"Animation-1"`, ..., the clamp of the scroll
  offset, the transition duration, and attaching a whole list of groups to one layer.
- `SlideMenu` (`slide_menu.dfy`): class `SlideMenu`. For each operation, a per-layer
  function says what it does to every layer. The method is proved against that function
  for all layers at once, and lemmas state what those functions promise.

A category is given as a value: its control, the layers it animates (nil when it does not
describe animations), and a pure function describing the groups for one of those layers.
The layout engine's results are an input record (`Layout`): the bar's centre and width
once constrained, the container and menu widths, and the centres of the menu and the
target control. Each layer's on-screen presentation values are an input map kept on the
layer.

Behaviour of the code worth noting, all of it modelled as written:

- Scrubbing to progress 0 cancels every animation under an explicit key
  (SBSlideMenu/Animator.swift:85-89), but it does not touch the layer's explicit-key
  list. The keys leave that list one at a time, when the layer's completion handler runs
  (SBSlideMenu/Extensions.swift:88). `LayerStates.ScrubToZeroCancelsExplicitAnimations`
  proves the list is kept.
- Every finished completion sets the current index to the recorded target
  (SBSlideMenu/SBSlideMenu.swift:565). This includes a completion that arrives after a
  transition to an invalid target was recorded (`SlideMenu.SlideMenu.AnimationDidStop`).
- Reconciliation rule 1 fires only when the new source equals the recorded source
  (SBSlideMenu/SBSlideMenu.swift:436).
  - The scenario in the source's own comment (SBSlideMenu/SBSlideMenu.swift:416-434) is
    1 → 2, then 2 → 3, then back from 3 to 1 before each transition settles.
  - In the third move the new source (3) is the recorded target, not the recorded source
    (2). So rule 1 does not fire, and category 3's animations are not cancelled by it.
  - Rule 2 fires instead, because the new target differs from the recorded source. It
    resumes category 2's layers where they stand (`SlideMenu.SlideMenu.ReconciliationRules`).
- The comment at SBSlideMenu/SBSlideMenu.swift:557-560 gives three conditions for
  resetting the bar, and the code checks them as follows:
  - The bar is sent back to the recorded source index (`animationFromIndex`), not to the
    committed selection.
  - "No ongoing animation with the same name" is tested against the bar's explicit-key
    list, as the layer's handler has just left it (SBSlideMenu/SBSlideMenu.swift:561). The
    animations actually attached to the bar are not consulted.

## Model

| member | source | states |
|---|---|---|
| Prelude.IndexOf | SBSlideMenu/Extensions.swift:80 | nil exactly when the element is absent; otherwise an index holding it, with no earlier occurrence |
| Animations.BasicAnimations | SBSlideMenu/Extensions.swift:17-39 | the flattening is nil exactly when the group's own children are nil, and every step it yields is a basic animation |
| Animations.StepsOfChild | SBSlideMenu/Extensions.swift:28-33 | whatever a child contributes to its parent's flattening is basic steps only |
| Animations.BasicAnimationsOfSingleChild | SBSlideMenu/Extensions.swift:26-35 | a group with one child flattens to exactly what that child contributes |
| Animations.BasicAnimationsAround | SBSlideMenu/Extensions.swift:26-35 | a child's contribution stands in its place: the children `a`, `c`, `b` flatten to the steps of `a`, then `c`'s, then those of `b` |
| Animations.FlatteningKeepsBasicChild | SBSlideMenu/Extensions.swift:29-30 | a basic child is kept as itself, in its place |
| Animations.FlatteningInlinesNestedGroup | SBSlideMenu/Extensions.swift:31-32 | a nested group is replaced, in place, by its own flattened steps, or by nothing when its children are nil |
| Animations.FlatteningDropsOtherKinds | SBSlideMenu/Extensions.swift:26-35 | an animation of any other kind is dropped: the flattening is as if it were not there |
| Animations.BasicAnimationsOfBasicChildren | SBSlideMenu/Extensions.swift:26-31 | a group whose children are all basic flattens to exactly those children, in order |
| Animations.BasicAnimationsOfConcatenation | SBSlideMenu/Extensions.swift:26-35 | flattening is compositional: the children `a + b` flatten to the flattening of `a` followed by that of `b` |
| Animations.CaptureFromValues | SBSlideMenu/Animator.swift:53-57 | capture keeps the kind, duration, name, key path, target value and fill of an animation, and sets a basic step's start value to the presentation value at its key path |
| Animations.CapturedBasicAnimations | SBSlideMenu/Animator.swift:54-56 | capturing a group changes none of its flattened steps except their start values: step `i` of the captured group is step `i` of the original, captured |
| Animations.CapturedStepsStartFromPresentation | SBSlideMenu/Animator.swift:54-56 | after capture, every flattened step starts from what the presentation shows at its key path, or from nil |
| LayerStates.WithKeyAdded | SBSlideMenu/Extensions.swift:70-75 | a nil key changes nothing; otherwise the key is appended once to the old list (nil counts as empty), even when already present, and the old keys stay in order |
| LayerStates.WithKeyRemoved | SBSlideMenu/Extensions.swift:77-83 | a nil or absent key leaves the list as it is; otherwise exactly the first occurrence is removed (the multiset loses one copy) and the rest keep their order |
| LayerStates.AddThenRemoveRestores | SBSlideMenu/Extensions.swift:70-83 | recording a new key and then forgetting it gives back the original list |
| LayerStates.ResumeKeepsOnlyWhenAsked | SBSlideMenu/Animator.swift:154-158 | a resumed layer plays at speed 1 from begin time 0, keeps its time offset only when asked, and nothing else changes |
| LayerStates.LastStepAt | SBSlideMenu/Animator.swift:143-147 | the position of the last basic step animating a key path, with no later one; nil when no step animates it |
| LayerStates.RolledBackLastStepWins | SBSlideMenu/Animator.swift:139-147 | writing back a group's steps in order leaves, at each key path, the start value of the last step animating it; other key paths are untouched |
| LayerStates.CancelRestoresStartValues | SBSlideMenu/Animator.swift:104-125 | after a group is cancelled, each key path its steps animate holds the start value of the last step (in flattening order) animating it; all other model values are unchanged |
| LayerStates.CancelIsIdempotent | SBSlideMenu/Animator.swift:104-125 | cancelling a key a second time changes nothing |
| LayerStates.CancelledAllRemovesExactlyThoseKeys | SBSlideMenu/Animator.swift:127-137 | cancelling a list of keys removes exactly the animations under those keys; the explicit keys, longest duration and presentation stay; the layer is resumed from offset 0 if anything was cancelled, and is untouched if nothing was |
| LayerStates.CancelledAllIsIdempotent | SBSlideMenu/Animator.swift:127-137 | cancelling the same list twice is cancelling it once |
| LayerStates.StampedKeepsCapturedSteps | SBSlideMenu/Animator.swift:59-62 | naming the group after its key and filling it backwards leaves its captured steps as they are |
| LayerStates.AttachedPromises | SBSlideMenu/Animator.swift:43-73 | attaching appends the key once, and registers under it exactly `g` with its start values captured, named after the key and filled backwards: its flattened steps are `g`'s, one for one, each starting from the presentation value at its key path. Other animations and model values stay. The longest duration becomes the larger of the old one and the group's. The layer ends paused at offset 0, or playing from offset 0 and begin time 0 |
| LayerStates.AttachThenCancelRestoresPresentation | SBSlideMenu/Animator.swift:53-57 | attaching a group and then cancelling it writes back, at each key path the group animates, what the presentation showed at attach time; every other model value is as it was before the attach |
| LayerStates.ScrubBetweenMovesOnlyTheOffset | SBSlideMenu/Animator.swift:78-81 | strictly between 0 and 1, a scrub only sets the time offset to progress times the longest duration |
| LayerStates.ScrubToOneResumes | SBSlideMenu/Animator.swift:83-84 | a scrub to 1 leaves the layer playing from offset 0 and begin time 0, with nothing else changed |
| LayerStates.ScrubToZeroCancelsExplicitAnimations | SBSlideMenu/Animator.swift:85-90 | a scrub to 0 removes exactly the animations under explicit keys, keeps the key list and the longest duration, and leaves the offset at 0 |
| LayerStates.ScrubIsIdempotent | SBSlideMenu/Animator.swift:75-93 | scrubbing twice to the same progress is scrubbing once |
| LayerAnimator.Layer.constructor | SBSlideMenu/Extensions.swift:57-68 | a fresh layer plays in real time, has nothing attached, no explicit keys yet, and reads -1 as its longest duration |
| LayerAnimator.Layer.SetValueForKeyPath | SBSlideMenu/Animator.swift:140 | only the model value at that key path changes |
| LayerAnimator.Layer.AddAnimationForKey | SBSlideMenu/Animator.swift:68 | only the animation under that key changes |
| LayerAnimator.Layer.RemoveAnimationForKey | SBSlideMenu/Animator.swift:123 | only the animation under that key is gone |
| LayerAnimator.Layer.AddExplicitAnimationKey | SBSlideMenu/Extensions.swift:70-75 | the key list becomes `WithKeyAdded` of the old one; nothing else changes |
| LayerAnimator.Layer.RemoveExplicitAnimationKey | SBSlideMenu/Extensions.swift:77-83 | the key list becomes `WithKeyRemoved` of the old one; nothing else changes |
| LayerAnimator.Layer.AnimationDidStop | SBSlideMenu/Extensions.swift:85-98 | the stopped animation's name leaves the key list once; the longest duration becomes the maximum over what is still attached (-1 if nothing); the offset is 0; the delegate is notified exactly once |
| LayerAnimator.MaxOfDurations | SBSlideMenu/Extensions.swift:91-93 | the result is the duration of some attached animation and at least every other one's, or -1 when none is attached |
| LayerAnimator.Animator.constructor | SBSlideMenu/Animator.swift:37-39 | a new animator has notified nothing |
| LayerAnimator.Animator.AddAnimation | SBSlideMenu/Animator.swift:43-73 | the layer ends exactly in `Attached` of its old state, whose properties `AttachedPromises` states |
| LayerAnimator.Animator.AnimateLayerProgressively | SBSlideMenu/Animator.swift:75-93 | the layer ends exactly in `Scrubbed` of its old state (see the Scrub lemmas) |
| LayerAnimator.Animator.LayerAnimationDidStop | SBSlideMenu/Animator.swift:97-100 | only the layer's time offset changes, to 0, and one notice is appended to the delegate's |
| LayerAnimator.Animator.CancelLayerAnimationForKey | SBSlideMenu/Animator.swift:104-125 | the layer ends exactly in `Cancelled` of its old state (see CancelRestoresStartValues, CancelIsIdempotent) |
| LayerAnimator.Animator.CancelLayerAnimationForKeys | SBSlideMenu/Animator.swift:127-137 | the layer ends in the old state with each listed key cancelled in order; a nil list cancels nothing |
| LayerAnimator.Animator.SetLayerValueFromBasicAnimation | SBSlideMenu/Animator.swift:139-141 | only the model value at the step's key path changes, to the step's start value |
| LayerAnimator.Animator.SetLayerValueFromAnimationGroup | SBSlideMenu/Animator.swift:143-147 | only the model values change, each flattened step's start value written in order (see RolledBackLastStepWins) |
| LayerAnimator.Animator.PauseLayer | SBSlideMenu/Animator.swift:149-152 | the layer stops (speed 0) at offset 0; nothing else changes |
| LayerAnimator.Animator.ResumeLayer | SBSlideMenu/Animator.swift:154-158 | the layer ends exactly in `Resumed` of its old state (see ResumeKeepsOnlyWhenAsked) |
| MenuRules.DirectionOf | SBSlideMenu/SBSlideMenu.swift:30-37 | forward exactly when the index grew, backward exactly when it shrank, static exactly when it stayed |
| MenuRules.Digit | SBSlideMenu/SBSlideMenu.swift:612 | a decimal digit character whose numeric value is the digit |
| MenuRules.DecimalString | SBSlideMenu/SBSlideMenu.swift:612 | the interpolation of a number is a non-empty string of decimal digits |
| MenuRules.DecimalRoundTrip | SBSlideMenu/SBSlideMenu.swift:612 | reading back the interpolated digits gives the number |
| MenuRules.KeyName | SBSlideMenu/SBSlideMenu.swift:612 | every category key is at least 9 characters long and starts with 'A', which sets it apart from the transition keys |
| MenuRules.KeyNameInjective | SBSlideMenu/SBSlideMenu.swift:609-615 | different positions give different keys |
| MenuRules.KeyNameIsNoTransitionKey | SBSlideMenu/SBSlideMenu.swift:523-524 | no category key is "Bar Animation" or "ScrollView Animation" |
| MenuRules.KeyNames | SBSlideMenu/SBSlideMenu.swift:609-612 | the first `n` keys, the `i`-th being KeyName(i) |
| MenuRules.KeyNamesDistinct | SBSlideMenu/SBSlideMenu.swift:609-615 | the keys of one layer's groups are pairwise different |
| MenuRules.TransitionDuration | SBSlideMenu/SBSlideMenu.swift:490 | the duration is positive and shorter for a transition that plays by itself than for a scrubbed one |
| MenuRules.ContentOffsetX | SBSlideMenu/SBSlideMenu.swift:367-384 | the offset is the distance clamped to [0, max]: never negative, never beyond a non-negative max, equal to the distance inside the range |
| MenuRules.AttachedAllUnderKeyNames | SBSlideMenu/SBSlideMenu.swift:605-619 | attaching a layer's groups one by one is attaching them under KeyName(0), KeyName(1), ... |
| MenuRules.AttachedUnderKeepsValues | SBSlideMenu/SBSlideMenu.swift:605-619 | attaching groups never touches model values or the presentation, and leaves the layer as the last attach leaves it (playing from 0, or paused at 0) |
| MenuRules.AttachedUnderRegistersEachGroup | SBSlideMenu/SBSlideMenu.swift:605-619 | with pairwise different keys, each group ends registered, captured, filled and named, under its own key |
| MenuRules.AttachedUnderKeepsOtherAnimations | SBSlideMenu/SBSlideMenu.swift:605-619 | animations under other keys are kept, and no key other than the given ones appears |
| MenuRules.AttachedUnderRecordsKeys | SBSlideMenu/SBSlideMenu.swift:605-619 | the keys are appended to the explicit list in order; no groups change nothing |
| MenuRules.AttachedUnderCoversDurations | SBSlideMenu/SBSlideMenu.swift:605-619 | the longest duration afterwards is the maximum of the old one and the groups' durations |
| MenuRules.AttachedAllRegistersEachGroup | SBSlideMenu/SBSlideMenu.swift:609-615 | a category layer's `i`-th group ends registered under KeyName(i), so no group of a layer displaces another |
| SlideMenu.ScrollOffset | SBSlideMenu/SBSlideMenu.swift:367-384 | the scroll destination is never negative and never beyond the container's overhang |
| SlideMenu.BarGroup | SBSlideMenu/SBSlideMenu.swift:496-506 | the bar's group lasts the transition duration and has a (non-nil) list of steps |
| SlideMenu.ScrollGroup | SBSlideMenu/SBSlideMenu.swift:510-520 | the scroll view's group lasts the transition duration and has a (non-nil) list of steps |
| SlideMenu.CancelledExplicitPromises | SBSlideMenu/SBSlideMenu.swift:439-441 | cancelling a layer's own explicit keys removes exactly their animations, keeps the list, and is idempotent |
| SlideMenu.Committed | SBSlideMenu/SBSlideMenu.swift:19-40 | assigning the current value changes nothing; otherwise the old value becomes the previous one and the direction is forward iff the index grew, backward iff it shrank, never static |
| SlideMenu.StillListedAfterStopIffAttachedTwice | SBSlideMenu/SBSlideMenu.swift:561 | after the layer's handler has run, the stopped name is still an explicit key of the bar exactly when it had been recorded at least twice |
| SlideMenu.SlideMenu.constructor | SBSlideMenu/SBSlideMenu.swift:19-46 | index 0 selected, no previous index or direction, no recorded transition |
| SlideMenu.SlideMenu.IsValidIndex | SBSlideMenu/SBSlideMenu.swift:386-394 | valid exactly when present and inside the category list |
| SlideMenu.SlideMenu.ReconciliationRules | SBSlideMenu/SBSlideMenu.swift:436-475 | rule 1 removes exactly the explicitly keyed animations of the recorded target's layers; rule 2 sets the recorded source's layers playing from begin time 0 at their current offset; neither touches explicit keys; layers neither rule reaches are unchanged |
| SlideMenu.SlideMenu.TransitionAttachesBarAndScroll | SBSlideMenu/SBSlideMenu.swift:481-528 | for a valid target the bar ends with its group under "Bar Animation" and the scroll view with its group under "ScrollView Animation", both captured and lasting 0.25 or 0.90, and the scroll view's offset set to its destination, whatever the categories attach |
| SlideMenu.SlideMenu.TransitionedRegistersGroups | SBSlideMenu/SBSlideMenu.swift:494-524 | the bar and scroll steps register their groups and set the scroll offset; no other layer changes |
| SlideMenu.SlideMenu.CategoryAnimationKeepsTransitions | SBSlideMenu/SBSlideMenu.swift:526-528 | animating a category never displaces the bar's or scroll view's group and never touches model values |
| SlideMenu.SlideMenu.CategoryGroupsAreKeyedByPosition | SBSlideMenu/SBSlideMenu.swift:599-621 | a layer described, like every layer before it, gets its `i`-th group under KeyName(i); a layer at or after the first nil description is untouched |
| SlideMenu.SlideMenu.ProgressScrubsEachLayerOnce | SBSlideMenu/SBSlideMenu.swift:532-551 | for a valid target, each layer the scrub reaches is scrubbed exactly once in effect, even when listed twice; all others are unchanged |
| SlideMenu.SlideMenu.LayoutCancelsEachLayerOnce | SBSlideMenu/SBSlideMenu.swift:571-597 | each layer the layout reaches loses exactly its explicitly keyed animations; all others are unchanged |
| SlideMenu.SlideMenu.CancelExplicitAnimations | SBSlideMenu/SBSlideMenu.swift:439-441 | each listed layer has its own explicit keys cancelled |
| SlideMenu.SlideMenu.ResumeKeepingOffsets | SBSlideMenu/SBSlideMenu.swift:471-474 | each listed layer is resumed at its current offset |
| SlideMenu.SlideMenu.ScrubLayers | SBSlideMenu/SBSlideMenu.swift:544-549 | each listed layer is scrubbed to the progress |
| SlideMenu.SlideMenu.AttachDescribedGroups | SBSlideMenu/SBSlideMenu.swift:609-617 | the layer ends with the groups attached in order under KeyName(0), KeyName(1), ... |
| SlideMenu.SlideMenu.SetCurrentIndex | SBSlideMenu/SBSlideMenu.swift:19-40 | the selection becomes `Committed` of the old one (see Committed); the recorded transition is untouched |
| SlideMenu.SlideMenu.AnimateCategory | SBSlideMenu/SBSlideMenu.swift:599-621 | each of the category's layers is animated as `CategoryAnimated` says (see CategoryGroupsAreKeyedByPosition); no other layer changes |
| SlideMenu.SlideMenu.Reconcile | SBSlideMenu/SBSlideMenu.swift:436-475 | every layer ends as the two rules say (see ReconciliationRules) |
| SlideMenu.SlideMenu.AttachTransition | SBSlideMenu/SBSlideMenu.swift:510-524 | the scroll offset is set and the bar's and scroll view's groups are attached; no category layer changes |
| SlideMenu.SlideMenu.PrepareAnimation | SBSlideMenu/SBSlideMenu.swift:403-530 | the transition is recorded; the bar moves to a valid target only; every layer ends as reconciled, then, for a valid target, transitioned and animated (see TransitionAttachesBarAndScroll); the selection is untouched and the recorded endpoints stay consistent |
| SlideMenu.SlideMenu.MoveToIndex | SBSlideMenu/SBSlideMenu.swift:196-204 | a transition from the current index is prepared, then the index is committed |
| SlideMenu.SlideMenu.ControlPressed | SBSlideMenu/SBSlideMenu.swift:206-220 | an unknown control or the current one changes nothing; any other moves there, playing by itself, and reports its index once |
| SlideMenu.SlideMenu.MoveProgressively | SBSlideMenu/SBSlideMenu.swift:532-551 | nothing happens unless the recorded target is valid; then every reached layer is scrubbed once (see ProgressScrubsEachLayerOnce) |
| SlideMenu.SlideMenu.CancelAnimations | SBSlideMenu/SBSlideMenu.swift:571-597 | the bar, the scroll view and the recorded categories' layers lose their explicitly keyed animations (see LayoutCancelsEachLayerOnce) |
| SlideMenu.SlideMenu.AnimationDidStop | SBSlideMenu/SBSlideMenu.swift:555-567 | the bar goes back to the recorded source exactly when an unfinished stop on the bar leaves its name unlisted; a finished stop commits the recorded target |
| SlideMenu.SlideMenu.DeliverCompletion | SBSlideMenu/Extensions.swift:85-98 | a platform completion runs the layer's handler, notifies once, and the menu reacts to the key list as the handler left it |

## Left out

- Layout: Auto Layout constraints (Cartography), view construction, styling and `recalculateContainerSize` are not modelled. The geometry a transition needs is a `Layout` input. The bar's new constraints are recorded only as `barTargetIndex`, not as model values of the bar's layer.
- Rendering: Core Animation's interpolation, its timing and when completions fire are not modelled. The presentation values are an input map, and a completion is an explicit call (`DeliverCompletion`). The platform's removal of a finished animation from the layer happens outside the model.
- Replacing an animation: attaching under a key that is already in use simply overwrites it in the model. Core Animation's own replacement (which stops the old animation, with a completion) is not modelled.
- Key-value coding: the extra metadata Core Animation stores by key-value coding (the name, the explicit keys, the longest duration) are plain fields.
- Delegates: the shared animator's weak delegate and the menu's delegate are not modelled as objects. The animator's delegate is resolved statically to the menu in `DeliverCompletion`. Reports to the menu's delegate are recorded in `selections`, and the animator's notifications in `notifications`.
- `animation.delegate = layer`: this routing is implied by `DeliverCompletion` rather than stored.
- LayerAnimator.Animator.AddAnimation: a nil key is not accepted. No caller in the core passes one.
- LayerAnimator.Animator.AddAnimation: the platform animation objects that the source mutates in place are rebuilt as values. Aliasing of one animation object between several layers is not captured.
- SlideMenu.SlideMenu.Valid: a category that lists the same layer twice is excluded. The per-layer state functions describe each layer as appearing once in each list.
- SlideMenu.Category: the animated layers and the description of a category are pure and stable. A description with side effects, or one that differs between calls, is not modelled.
- LayerAnimator.Animator.SetLayerValueFromBasicAnimation: the source's unused `value` parameter is dropped.
- Initialisation: filtering the controls down to the categories, the views, and the `CategoryControl`/`SBAnimator` protocols (`Protocols.swift`) are not part of this model. A control that does not animate is a category with nil layers.
- `Static` direction: the setter's `.Static` branch cannot be reached, because an equal value returns early. The model computes the direction with `DirectionOf`, and `Committed` proves that `Static` is never stored.
- Index preconditions: the source indexes `categories[...]` without a check in several places: rule 2 (SBSlideMenu/SBSlideMenu.swift:470-471), scrubbing (:541-542), resetting the bar (:562, through :335) and animating a category (:601). It also force-unwraps `animationToIndex` when a finished completion commits it (:565). The model requires what keeps those steps from crashing: `Valid()`, the requires of `PrepareAnimation`, `MoveToIndex` and `ControlPressed`, and, for completions, a valid recorded source when the bar is reset and a non-nil recorded target when the animation finished (the requires of `AnimationDidStop` and `DeliverCompletion`).
- MenuRules.KeyName: its contract states only the length and the first letter of a key, not the whole "Animation" prefix; that is all the distinctness proofs need.
- Floating point: durations, offsets and progress are reals. `progress == 1.0` and `progress == 0.0` are exact comparisons, as in the source.
