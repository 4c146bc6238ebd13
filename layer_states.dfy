/** The animator's view of one render layer as a value, and what each animator
    operation does to it. The imperative layer and animator (module LayerAnimator)
    are proved to change a layer exactly as these functions say; the properties the
    animator promises are proved here, once, about the functions. */
module LayerStates {
  import opened Prelude
  import opened Animations

  /** Everything the animator reads or writes on a layer: its timing (speed, time
      offset, begin time), the animations attached to it by key, its model values by
      key path, what its presentation layer currently shows (an input: the platform
      interpolates it), the list of keys the animator attached (nil until the first
      one; duplicates kept) and the longest duration attached (-1 when none). */
  datatype LayerState = LayerState(
    speed: real,
    timeOffset: real,
    beginTime: real,
    animations: map<string, Animation>,
    modelValues: map<string, Option<Value>>,
    presentation: map<string, Value>,
    explicitKeys: Option<seq<string>>,
    maxDuration: real)

  function Max(a: real, b: real): real {
    if a >= b then a else b
  }

  // ---------------------------------------------------------------------------
  // Explicit animation keys

  /** The key list after recording `key`: a nil key changes nothing; otherwise the key is
      appended to the old list (a nil list counts as empty), even when already present. */
  function WithKeyAdded(keys: Option<seq<string>>, key: Option<string>): (r: Option<seq<string>>)
    ensures key.None? ==> r == keys
    ensures key.Some? ==> r.Some? && |r.value| == |keys.GetOr([])| + 1
    ensures key.Some? ==> r.value[..|keys.GetOr([])|] == keys.GetOr([]) && r.value[|r.value| - 1] == key.value
    ensures key.Some? ==> multiset(r.value) == multiset(keys.GetOr([])) + multiset{key.value}
  {
    if key.None? then keys else Some(keys.GetOr([]) + [key.value])
  }

  /** The key list after forgetting `key`: a nil key, or a key that is not in the list,
      leaves the list (even a nil one) as it is; otherwise exactly one occurrence, the
      first, is taken out and the rest keep their order. */
  function WithKeyRemoved(keys: Option<seq<string>>, key: Option<string>): (r: Option<seq<string>>)
    ensures key.None? || key.value !in keys.GetOr([]) ==> r == keys
    ensures key.Some? && key.value in keys.GetOr([]) ==>
      r.Some? && keys.Some? &&
      |r.value| == |keys.value| - 1 &&
      multiset(r.value) == multiset(keys.value) - multiset{key.value} &&
      exists i :: 0 <= i < |keys.value| && keys.value[i] == key.value &&
        (forall j :: 0 <= j < i ==> keys.value[j] != key.value) &&
        r.value == keys.value[..i] + keys.value[i + 1..]
  {
    if key.None? then keys
    else
      var list := keys.GetOr([]);
      match IndexOf(list, key.value)
      case None => keys
      case Some(i) =>
        assert list == list[..i] + [list[i]] + list[i + 1..];
        Some(list[..i] + list[i + 1..])
  }

  /** Recording a key that a non-nil list does not hold and then forgetting it gives the
      original list back. */
  lemma AddThenRemoveRestores(keys: seq<string>, key: string)
    requires key !in keys
    ensures WithKeyRemoved(WithKeyAdded(Some(keys), Some(key)), Some(key)) == Some(keys)
  {
    var added := keys + [key];
    assert WithKeyAdded(Some(keys), Some(key)) == Some(added);
    assert added[|keys|] == key;
    assert IndexOf(added, key) == Some(|keys|);
    assert added[..|keys|] + added[|keys| + 1..] == keys;
  }

  // ---------------------------------------------------------------------------
  // Pause and resume

  /** A paused layer: stopped (speed 0) at the start of its animations (offset 0). */
  function Paused(s: LayerState): LayerState {
    s.(speed := 0.0, timeOffset := 0.0)
  }

  /** A resumed layer plays in real time from begin time 0; it keeps its time offset
      (the scrub position) only when asked to. */
  function Resumed(s: LayerState, keepOffset: bool): LayerState {
    s.(speed := 1.0, timeOffset := if keepOffset then s.timeOffset else 0.0, beginTime := 0.0)
  }

  lemma ResumeKeepsOnlyWhenAsked(s: LayerState, keepOffset: bool)
    ensures Resumed(s, keepOffset).speed == 1.0 && Resumed(s, keepOffset).beginTime == 0.0
    ensures Resumed(s, keepOffset).timeOffset == (if keepOffset then s.timeOffset else 0.0)
    ensures Resumed(s, keepOffset).(speed := s.speed, timeOffset := s.timeOffset, beginTime := s.beginTime) == s
  {
  }

  // ---------------------------------------------------------------------------
  // Cancellation with rollback

  /** Model values after writing each basic step's start value at its key path, in order. */
  function RolledBack(values: map<string, Option<Value>>, steps: seq<Animation>): map<string, Option<Value>> {
    if steps == [] then values
    else
      var last := steps[|steps| - 1];
      var earlier := RolledBack(values, steps[..|steps| - 1]);
      if last.Basic? then earlier[last.keyPath := last.fromValue] else earlier
  }

  /** Model values after rolling back animation `a`: a basic step writes its start value;
      a group writes the start values of its flattened steps (none when its children are
      nil); any other kind of animation writes nothing. */
  function RollbackOf(values: map<string, Option<Value>>, a: Animation): map<string, Option<Value>> {
    match a
    case Basic(keyPath, fromValue, _, _, _) => values[keyPath := fromValue]
    case Group(_, _, _, _) => RolledBack(values, BasicAnimations(a).GetOr([]))
    case Other(_, _) => values
  }

  /** The position of the last basic step at `keyPath`, if any. */
  function LastStepAt(steps: seq<Animation>, keyPath: string): (r: Option<nat>)
    ensures r.Some? ==> r.value < |steps| && steps[r.value].Basic? && steps[r.value].keyPath == keyPath
    ensures r.Some? ==> forall j :: r.value < j < |steps| ==> !(steps[j].Basic? && steps[j].keyPath == keyPath)
    ensures r.None? ==> forall j :: 0 <= j < |steps| ==> !(steps[j].Basic? && steps[j].keyPath == keyPath)
  {
    if steps == [] then None
    else
      var last := steps[|steps| - 1];
      if last.Basic? && last.keyPath == keyPath then Some(|steps| - 1)
      else LastStepAt(steps[..|steps| - 1], keyPath)
  }

  /** Rollback writes, at each key path, the start value of the LAST step animating it;
      key paths no step animates keep their model value (or stay absent). */
  lemma {:induction false} RolledBackLastStepWins(values: map<string, Option<Value>>, steps: seq<Animation>, keyPath: string)
    ensures var r := RolledBack(values, steps);
            match LastStepAt(steps, keyPath)
            case Some(i) => keyPath in r && r[keyPath] == steps[i].fromValue
            case None => (keyPath in r <==> keyPath in values) && (keyPath in values ==> r[keyPath] == values[keyPath])
  {
    if steps != [] {
      var init := steps[..|steps| - 1];
      RolledBackLastStepWins(values, init, keyPath);
      var last := steps[|steps| - 1];
      if !(last.Basic? && last.keyPath == keyPath) {
        assert LastStepAt(steps, keyPath) == LastStepAt(init, keyPath);
        match LastStepAt(init, keyPath)
        case Some(i) => assert steps[i] == init[i];
        case None =>
      }
    }
  }

  /** Cancelling `key`: nothing when no animation is attached under it; otherwise the
      animation's start values are written back as model values, the layer is resumed
      from offset 0, and the animation is removed. The key stays in the explicit list. */
  function Cancelled(s: LayerState, key: string): LayerState {
    if key !in s.animations then s
    else
      var rolledBack := s.(modelValues := RollbackOf(s.modelValues, s.animations[key]));
      Resumed(rolledBack, false).(animations := s.animations - {key})
  }

  /** After cancelling a group, the model value at each key path that one of its steps
      animates is the start value captured by the last such step in flattening order. */
  lemma CancelRestoresStartValues(s: LayerState, key: string, keyPath: string)
    requires key in s.animations && s.animations[key].Group?
    requires s.animations[key].children.Children?
    ensures var steps := BasicAnimations(s.animations[key]).value;
            var r := Cancelled(s, key);
            LastStepAt(steps, keyPath).Some? ==>
              keyPath in r.modelValues && r.modelValues[keyPath] == steps[LastStepAt(steps, keyPath).value].fromValue
    ensures var steps := BasicAnimations(s.animations[key]).value;
            var r := Cancelled(s, key);
            LastStepAt(steps, keyPath).None? ==>
              (keyPath in r.modelValues <==> keyPath in s.modelValues) &&
              (keyPath in s.modelValues ==> r.modelValues[keyPath] == s.modelValues[keyPath])
  {
    RolledBackLastStepWins(s.modelValues, BasicAnimations(s.animations[key]).value, keyPath);
  }

  /** Cancelling the same key twice is the same as cancelling it once. */
  lemma CancelIsIdempotent(s: LayerState, key: string)
    ensures Cancelled(Cancelled(s, key), key) == Cancelled(s, key)
  {
  }

  /** Cancelling every key of a list, in list order. */
  function CancelledAll(s: LayerState, keys: seq<string>): LayerState {
    if keys == [] then s
    else Cancelled(CancelledAll(s, keys[..|keys| - 1]), keys[|keys| - 1])
  }

  /** Cancelling for a possibly nil key list: nil cancels nothing. */
  function CancelledForKeys(s: LayerState, keys: Option<seq<string>>): LayerState {
    match keys
    case None => s
    case Some(list) => CancelledAll(s, list)
  }

  /** Cancelling a list of keys removes exactly the animations under those keys, touches
      neither the explicit keys, the durations nor the presentation, and leaves the
      timing alone unless at least one animation was actually cancelled, in which case
      the layer is resumed from offset 0. */
  lemma {:induction false} CancelledAllRemovesExactlyThoseKeys(s: LayerState, keys: seq<string>)
    ensures var r := CancelledAll(s, keys);
            r.animations == s.animations - set k | k in keys
    ensures var r := CancelledAll(s, keys);
            r.explicitKeys == s.explicitKeys && r.maxDuration == s.maxDuration && r.presentation == s.presentation
    ensures var r := CancelledAll(s, keys);
            (exists k :: k in keys && k in s.animations) ==> r.speed == 1.0 && r.timeOffset == 0.0 && r.beginTime == 0.0
    ensures (forall k :: k in keys ==> k !in s.animations) ==> CancelledAll(s, keys) == s
  {
    if keys != [] {
      var init := keys[..|keys| - 1];
      var last := keys[|keys| - 1];
      CancelledAllRemovesExactlyThoseKeys(s, init);
      assert forall k :: k in keys <==> k in init || k == last;
      var before := CancelledAll(s, init);
      if exists k :: k in keys && k in s.animations {
        if !(exists k :: k in init && k in s.animations) {
          assert last in s.animations;
          assert before.animations == s.animations;
        }
      }
    }
  }

  /** Cancelling a list of keys a second time changes nothing more. */
  lemma CancelledAllIsIdempotent(s: LayerState, keys: seq<string>)
    ensures CancelledAll(CancelledAll(s, keys), keys) == CancelledAll(s, keys)
  {
    CancelledAllRemovesExactlyThoseKeys(s, keys);
    CancelledAllRemovesExactlyThoseKeys(CancelledAll(s, keys), keys);
  }

  // ---------------------------------------------------------------------------
  // Attaching a group

  /** The group as it is attached under `key`: its steps start from what the
      presentation shows, it fills backwards, and it is named after the key. */
  function Stamped(g: GroupAnimation, presentation: map<string, Value>, key: string): GroupAnimation {
    var captured: GroupAnimation := CaptureFromValues(g, presentation);
    captured.(name := Some(key), fillsBackwards := true)
  }

  /** A layer after `g` is attached under `key`: the key is recorded, the longest
      duration is updated, the stamped group is registered, and the layer is resumed
      from offset 0 (automatic) or paused at its start (not automatic). */
  function Attached(s: LayerState, g: GroupAnimation, key: string, automatic: bool): LayerState {
    var recorded := s.(explicitKeys := WithKeyAdded(s.explicitKeys, Some(key)),
                       maxDuration := Max(s.maxDuration, g.duration),
                       animations := s.animations[key := Stamped(g, s.presentation, key)]);
    if automatic then Resumed(recorded, false) else Paused(recorded)
  }

  /** Naming a captured group and filling it backwards keeps its flattened steps. */
  lemma StampedKeepsCapturedSteps(g: GroupAnimation, presentation: map<string, Value>, key: string)
    ensures BasicAnimations(Stamped(g, presentation, key)) == BasicAnimations(CaptureFromValues(g, presentation))
  {
    var stamped := Stamped(g, presentation, key);
    var captured: GroupAnimation := CaptureFromValues(g, presentation);
    if captured.children.Children? {
      assert stamped.children == captured.children;
      var n := |captured.children.items|;
      var k := 0;
      while k < n
        invariant 0 <= k <= n
        invariant BasicAnimationsOfFirst(stamped, k) == BasicAnimationsOfFirst(captured, k)
      {
        k := k + 1;
      }
    }
  }

  /** What attaching promises: the key is appended once (even if already present); the
      group registered under it is `g` with its start values captured, named after the
      key and filled backwards, so its flattened steps are those of `g`, one for one,
      each starting from the presentation value at its key path; other animations stay;
      the longest duration never decreases and covers the new group; model values are
      untouched; and the layer ends paused at offset 0 or playing from offset 0 and
      begin time 0. */
  lemma AttachedPromises(s: LayerState, g: GroupAnimation, key: string, automatic: bool)
    ensures var r := Attached(s, g, key, automatic);
            r.explicitKeys == Some(s.explicitKeys.GetOr([]) + [key])
    ensures var r := Attached(s, g, key, automatic);
            key in r.animations && r.animations[key] == Stamped(g, s.presentation, key) &&
            r.animations[key].Group? &&
            r.animations[key].name == Some(key) && r.animations[key].fillsBackwards &&
            r.animations[key].duration == g.duration
    ensures var r := Attached(s, g, key, automatic);
            forall k :: k in s.animations && k != key ==> k in r.animations && r.animations[k] == s.animations[k]
    ensures var r := Attached(s, g, key, automatic);
            var steps := BasicAnimations(r.animations[key]);
            steps.Some? == g.children.Children? &&
            (steps.Some? ==>
               |steps.value| == |BasicAnimations(g).value| &&
               (forall i :: 0 <= i < |steps.value| ==>
                  steps.value[i] == CaptureFromValues(BasicAnimations(g).value[i], s.presentation)) &&
               (forall i :: 0 <= i < |steps.value| ==>
                  steps.value[i].fromValue == PresentationValue(s.presentation, steps.value[i].keyPath)))
    ensures var r := Attached(s, g, key, automatic);
            r.maxDuration >= s.maxDuration && r.maxDuration >= g.duration &&
            (r.maxDuration == s.maxDuration || r.maxDuration == g.duration)
    ensures var r := Attached(s, g, key, automatic);
            r.modelValues == s.modelValues && r.presentation == s.presentation
    ensures var r := Attached(s, g, key, automatic);
            !automatic ==> r.speed == 0.0 && r.timeOffset == 0.0 && r.beginTime == s.beginTime
    ensures var r := Attached(s, g, key, automatic);
            automatic ==> r.speed == 1.0 && r.timeOffset == 0.0 && r.beginTime == 0.0
  {
    StampedKeepsCapturedSteps(g, s.presentation, key);
    CapturedBasicAnimations(g, s.presentation);
    if g.children.Children? {
      CapturedStepsStartFromPresentation(g, s.presentation);
    }
  }

  /** Attaching a group and then cancelling it writes back, at every key path one of the
      group's steps animates, what the presentation showed when it was attached; every
      other model value is as it was before the attach. */
  lemma AttachThenCancelRestoresPresentation(s: LayerState, g: GroupAnimation, key: string, automatic: bool, keyPath: string)
    requires g.children.Children?
    ensures var steps := BasicAnimations(g).value;
            var r := Cancelled(Attached(s, g, key, automatic), key);
            (exists i :: 0 <= i < |steps| && steps[i].keyPath == keyPath) ==>
              keyPath in r.modelValues && r.modelValues[keyPath] == PresentationValue(s.presentation, keyPath)
    ensures var steps := BasicAnimations(g).value;
            var r := Cancelled(Attached(s, g, key, automatic), key);
            (forall i :: 0 <= i < |steps| ==> steps[i].keyPath != keyPath) ==>
              (keyPath in r.modelValues <==> keyPath in s.modelValues) &&
              (keyPath in s.modelValues ==> r.modelValues[keyPath] == s.modelValues[keyPath])
  {
    var attached := Attached(s, g, key, automatic);
    AttachedPromises(s, g, key, automatic);
    CancelRestoresStartValues(attached, key, keyPath);
    var steps := BasicAnimations(g).value;
    var stampedSteps := BasicAnimations(attached.animations[key]).value;
    if exists i :: 0 <= i < |steps| && steps[i].keyPath == keyPath {
      var i :| 0 <= i < |steps| && steps[i].keyPath == keyPath;
      assert stampedSteps[i].Basic? && stampedSteps[i].keyPath == keyPath;
    } else {
      forall j | 0 <= j < |stampedSteps|
        ensures !(stampedSteps[j].Basic? && stampedSteps[j].keyPath == keyPath)
      {
        assert stampedSteps[j].keyPath == steps[j].keyPath;
      }
    }
  }

  // ---------------------------------------------------------------------------
  // Scrubbing

  /** A layer scrubbed to `progress`: its time offset becomes that fraction of its
      longest duration; at exactly 1 it is then resumed from offset 0; at exactly 0 every
      explicitly keyed animation is then cancelled (nothing when the key list is nil). */
  function Scrubbed(s: LayerState, progress: real): LayerState {
    var moved := s.(timeOffset := progress * s.maxDuration);
    if progress == 1.0 then Resumed(moved, false)
    else if progress == 0.0 then CancelledForKeys(moved, moved.explicitKeys)
    else moved
  }

  /** Away from 0 and 1, scrubbing only moves the time offset. */
  lemma ScrubBetweenMovesOnlyTheOffset(s: LayerState, progress: real)
    requires progress != 0.0 && progress != 1.0
    ensures Scrubbed(s, progress) == s.(timeOffset := progress * s.maxDuration)
  {
  }

  /** Scrubbing to 1 leaves the layer playing from offset 0 and begin time 0, with
      nothing else changed. */
  lemma ScrubToOneResumes(s: LayerState)
    ensures Scrubbed(s, 1.0) == s.(speed := 1.0, timeOffset := 0.0, beginTime := 0.0)
  {
  }

  /** Scrubbing to 0 removes every animation attached under an explicit key (and only
      those), keeps the key list itself, and leaves the time offset at 0. */
  lemma ScrubToZeroCancelsExplicitAnimations(s: LayerState)
    ensures var r := Scrubbed(s, 0.0);
            r.animations == s.animations - set k | k in s.explicitKeys.GetOr([])
    ensures var r := Scrubbed(s, 0.0);
            r.explicitKeys == s.explicitKeys && r.maxDuration == s.maxDuration && r.timeOffset == 0.0
  {
    var moved := s.(timeOffset := 0.0 * s.maxDuration);
    if s.explicitKeys.Some? {
      CancelledAllRemovesExactlyThoseKeys(moved, s.explicitKeys.value);
    }
  }

  /** Scrubbing twice to the same progress is the same as scrubbing once. */
  lemma ScrubIsIdempotent(s: LayerState, progress: real)
    ensures Scrubbed(Scrubbed(s, progress), progress) == Scrubbed(s, progress)
  {
    if progress == 0.0 && s.explicitKeys.Some? {
      var moved := s.(timeOffset := 0.0);
      var keys := s.explicitKeys.value;
      CancelledAllRemovesExactlyThoseKeys(moved, keys);
      var once := CancelledAll(moved, keys);
      CancelledAllRemovesExactlyThoseKeys(once.(timeOffset := 0.0), keys);
      assert once.timeOffset == 0.0;
      assert once.(timeOffset := 0.0) == once;
    }
  }

  // ---------------------------------------------------------------------------
  // Completion

  /** `r` is what the longest-duration bookkeeping must hold after a completion: the
      largest duration among the attached animations, or -1 when none is attached. */
  ghost predicate IsMaxOfDurations(animations: map<string, Animation>, r: real) {
    (animations == map[] ==> r == -1.0) &&
    (animations != map[] ==>
       (exists k :: k in animations && animations[k].duration == r) &&
       (forall k :: k in animations ==> animations[k].duration <= r))
  }
}
