/** The render layer with the metadata the animator keeps on it, and the animator
    itself. Every operation updates a layer in place; each is proved to leave the
    layer's state exactly as the matching function of module LayerStates says. */
module LayerAnimator {
  import opened Prelude
  import opened Animations
  import opened LayerStates

  /** What the animator reports to its delegate when an animation stops. */
  datatype StopNotice = StopNotice(animation: Animation, layer: Layer, finished: bool)

  /** A render layer: timing, attached animations, model values, the values its
      presentation layer shows (maintained by the platform), and the two pieces of
      metadata the animator attaches to it. */
  class Layer {
    var speed: real
    var timeOffset: real
    var beginTime: real
    var animations: map<string, Animation>
    var modelValues: map<string, Option<Value>>
    var presentation: map<string, Value>
    var explicitKeys: Option<seq<string>>
    var maxOfAnimationsDurations: real

    /** The layer's state as a value. */
    function State(): LayerState
      reads this
    {
      LayerState(speed, timeOffset, beginTime, animations, modelValues, presentation, explicitKeys, maxOfAnimationsDurations)
    }

    /** A fresh layer plays in real time, has nothing attached, no explicit keys yet, and
        reads -1 as its longest duration until one is recorded. */
    constructor (modelValues: map<string, Option<Value>>, presentation: map<string, Value>)
      ensures State() == LayerState(1.0, 0.0, 0.0, map[], modelValues, presentation, None, -1.0)
    {
      speed, timeOffset, beginTime := 1.0, 0.0, 0.0;
      animations := map[];
      this.modelValues := modelValues;
      this.presentation := presentation;
      explicitKeys := None;
      maxOfAnimationsDurations := -1.0;
    }

    /** The platform's key-value write of a model value. */
    method SetValueForKeyPath(keyPath: string, value: Option<Value>)
      modifies this
      ensures State() == old(State()).(modelValues := old(modelValues)[keyPath := value])
    {
      modelValues := modelValues[keyPath := value];
    }

    /** The platform's attach: the animation is registered under `key`. */
    method AddAnimationForKey(animation: Animation, key: string)
      modifies this
      ensures State() == old(State()).(animations := old(animations)[key := animation])
    {
      animations := animations[key := animation];
    }

    /** The platform's detach of whatever is registered under `key`. */
    method RemoveAnimationForKey(key: string)
      modifies this
      ensures State() == old(State()).(animations := old(animations) - {key})
    {
      animations := animations - {key};
    }

    /** Records `key` as an explicit key: appended even when already present; nil changes nothing. */
    method AddExplicitAnimationKey(key: Option<string>)
      modifies this
      ensures State() == old(State()).(explicitKeys := WithKeyAdded(old(explicitKeys), key))
    {
      if key.None? {
        return;
      }
      var keys := explicitKeys.GetOr([]);
      keys := keys + [key.value];
      explicitKeys := Some(keys);
    }

    /** Forgets the first occurrence of `key`; a nil or absent key leaves the list untouched. */
    method RemoveExplicitAnimationKey(key: Option<string>)
      modifies this
      ensures State() == old(State()).(explicitKeys := WithKeyRemoved(old(explicitKeys), key))
    {
      if key.None? {
        return;
      }
      var keys := explicitKeys.GetOr([]);
      var index := IndexOf(keys, key.value);
      if index.None? {
        return;
      }
      keys := keys[..index.value] + keys[index.value + 1..];
      explicitKeys := Some(keys);
    }

    /** The layer's handler for the platform's notification that `animation` stopped:
        forgets the animation's name as an explicit key, recomputes the longest duration
        over what is still attached, and hands over to the animator, which rewinds the
        layer's time offset and notifies its delegate. */
    method AnimationDidStop(animation: Animation, finished: bool, animator: Animator)
      modifies this, animator
      ensures IsMaxOfDurations(animations, maxOfAnimationsDurations)
      ensures State() == old(State()).(explicitKeys := WithKeyRemoved(old(explicitKeys), animation.name),
                                       maxDuration := maxOfAnimationsDurations,
                                       timeOffset := 0.0)
      ensures animator.notifications == old(animator.notifications) + [StopNotice(animation, this, finished)]
    {
      RemoveExplicitAnimationKey(animation.name);
      var longest := MaxOfDurations(animations);
      maxOfAnimationsDurations := longest;
      animator.LayerAnimationDidStop(this, animation, finished);
    }
  }

  /** The largest duration among `animations`, or -1 when there is none. */
  method MaxOfDurations(animations: map<string, Animation>) returns (r: real)
    ensures IsMaxOfDurations(animations, r)
  {
    r := -1.0;
    var seen: set<string> := {};
    var rest := animations.Keys;
    while rest != {}
      invariant rest == animations.Keys - seen
      invariant seen <= animations.Keys
      invariant seen == {} ==> r == -1.0
      invariant seen != {} ==> exists k :: k in seen && animations[k].duration == r
      invariant forall k :: k in seen ==> animations[k].duration <= r
      decreases rest
    {
      var key :| key in rest;
      if seen == {} || animations[key].duration > r {
        r := animations[key].duration;
      }
      seen := seen + {key};
      rest := rest - {key};
    }
    assert seen == animations.Keys;
  }

  /** The process-wide coordinator of layer animations. Its delegate's notifications are
      recorded, in order, in `notifications`. */
  class Animator {
    ghost var notifications: seq<StopNotice>

    constructor ()
      ensures notifications == []
    {
      notifications := [];
    }

    /** Attaches `animation` to `layer` under `key`: start values captured from the
        presentation, fill backwards, key recorded, name stamped, longest duration
        updated, group registered, then the layer resumed (automatic) or paused. */
    method AddAnimation(animation: GroupAnimation, layer: Layer, key: string, automatic: bool)
      modifies layer
      ensures layer.State() == Attached(old(layer.State()), animation, key, automatic)
    {
      var prepared: GroupAnimation := Group(animation.children, animation.duration, animation.name, true);
      prepared := CaptureFromValues(prepared, layer.presentation);
      layer.AddExplicitAnimationKey(Some(key));
      prepared := Group(prepared.children, prepared.duration, Some(key), prepared.fillsBackwards);
      layer.maxOfAnimationsDurations := Max(layer.maxOfAnimationsDurations, animation.duration);
      layer.AddAnimationForKey(prepared, key);
      if automatic {
        ResumeLayer(layer, false);
      } else {
        PauseLayer(layer);
      }
    }

    /** Scrubs `layer` to `progress` of its longest duration; resumes it at exactly 1 and
        cancels each of its explicit keys at exactly 0. */
    method AnimateLayerProgressively(layer: Layer, progress: real)
      modifies layer
      ensures layer.State() == Scrubbed(old(layer.State()), progress)
    {
      var duration := layer.maxOfAnimationsDurations;
      layer.timeOffset := progress * duration;
      if progress == 1.0 {
        ResumeLayer(layer, false);
      } else if progress == 0.0 {
        if layer.explicitKeys.None? {
          return;
        }
        var keys := layer.explicitKeys.value;
        ghost var moved := layer.State();
        var i := 0;
        while i < |keys|
          invariant 0 <= i <= |keys|
          invariant layer.State() == CancelledAll(moved, keys[..i])
        {
          CancelLayerAnimationForKey(layer, keys[i]);
          assert keys[..i + 1][..i] == keys[..i];
          i := i + 1;
        }
        assert keys[..|keys|] == keys;
      }
    }

    /** The animator's part of a completion: rewind the layer's time offset and notify
        the delegate once. */
    method LayerAnimationDidStop(layer: Layer, animation: Animation, finished: bool)
      modifies layer, this
      ensures layer.State() == old(layer.State()).(timeOffset := 0.0)
      ensures notifications == old(notifications) + [StopNotice(animation, layer, finished)]
    {
      layer.timeOffset := 0.0;
      notifications := notifications + [StopNotice(animation, layer, finished)];
    }

    /** Cancels the animation under `key`, if any: start values written back, layer
        resumed from offset 0, animation removed. */
    method CancelLayerAnimationForKey(layer: Layer, key: string)
      modifies layer
      ensures layer.State() == Cancelled(old(layer.State()), key)
    {
      if key !in layer.animations {
        return;
      }
      var animation := layer.animations[key];
      if animation.Basic? {
        SetLayerValueFromBasicAnimation(layer, animation);
      } else if animation.Group? {
        SetLayerValueFromAnimationGroup(layer, animation);
      }
      ResumeLayer(layer, false);
      layer.RemoveAnimationForKey(key);
    }

    /** Cancels each key of `keys` in order; nil cancels nothing. */
    method CancelLayerAnimationForKeys(layer: Layer, keys: Option<seq<string>>)
      modifies layer
      ensures layer.State() == CancelledForKeys(old(layer.State()), keys)
    {
      if keys.None? {
        return;
      }
      var list := keys.value;
      var i := 0;
      while i < |list|
        invariant 0 <= i <= |list|
        invariant layer.State() == CancelledAll(old(layer.State()), list[..i])
      {
        CancelLayerAnimationForKey(layer, list[i]);
        assert list[..i + 1][..i] == list[..i];
        i := i + 1;
      }
      assert list[..|list|] == list;
    }

    /** Writes a basic step's start value as the model value at its key path. */
    method SetLayerValueFromBasicAnimation(layer: Layer, step: Animation)
      requires step.Basic?
      modifies layer
      ensures layer.State() == old(layer.State()).(modelValues := old(layer.modelValues)[step.keyPath := step.fromValue])
    {
      layer.SetValueForKeyPath(step.keyPath, step.fromValue);
    }

    /** Writes the start value of each flattened step of `group`, in order. */
    method SetLayerValueFromAnimationGroup(layer: Layer, group: GroupAnimation)
      modifies layer
      ensures layer.State() == old(layer.State()).(modelValues := RollbackOf(old(layer.modelValues), group))
    {
      var steps := BasicAnimations(group).GetOr([]);
      var i := 0;
      while i < |steps|
        invariant 0 <= i <= |steps|
        invariant layer.State() == old(layer.State()).(modelValues := RolledBack(old(layer.modelValues), steps[..i]))
      {
        SetLayerValueFromBasicAnimation(layer, steps[i]);
        assert steps[..i + 1][..i] == steps[..i];
        i := i + 1;
      }
      assert steps[..|steps|] == steps;
    }

    /** Freezes the layer at the start of its animations. */
    method PauseLayer(layer: Layer)
      modifies layer
      ensures layer.State() == Paused(old(layer.State()))
    {
      layer.speed := 0.0;
      layer.timeOffset := 0.0;
    }

    /** Lets the layer play in real time from begin time 0, from its current scrub position
        or from the start. */
    method ResumeLayer(layer: Layer, useCurrentTimeOffset: bool)
      modifies layer
      ensures layer.State() == Resumed(old(layer.State()), useCurrentTimeOffset)
    {
      layer.speed := 1.0;
      if !useCurrentTimeOffset {
        layer.timeOffset := 0.0;
      }
      layer.beginTime := 0.0;
    }
  }
}
