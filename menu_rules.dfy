/** The pure rules of the slide menu: the direction of a move, the keys under which a
    category's animation groups are attached, the clamp of the scroll offset, the
    transition duration, and what attaching a whole list of groups does to a layer. */
module MenuRules {
  import opened Prelude
  import opened Animations
  import opened LayerStates

  /** Which way the selection moved. */
  datatype Direction = Forward | Static | Backward

  /** The direction of a move from `previous` to `current`. */
  function DirectionOf(previous: int, current: int): (r: Direction)
    ensures r == Forward <==> previous < current
    ensures r == Backward <==> previous > current
    ensures r == Static <==> previous == current
  {
    if previous < current then Forward
    else if previous == current then Static
    else Backward
  }

  // ---------------------------------------------------------------------------
  // Animation keys

  /** The character of a decimal digit. */
  function Digit(d: nat): (c: char)
    requires d < 10
    ensures '0' <= c <= '9' && c as int - '0' as int == d
  {
    ('0' as int + d) as char
  }

  /** String interpolation of a natural number: its decimal digits, most significant
      first, without leading zeros. */
  function DecimalString(n: nat): (r: string)
    ensures |r| >= 1
    ensures forall i :: 0 <= i < |r| ==> '0' <= r[i] <= '9'
  {
    if n < 10 then [Digit(n)] else DecimalString(n / 10) + [Digit(n % 10)]
  }

  /** The number a string of decimal digits denotes. */
  function DecimalValue(s: string): int {
    if s == [] then 0 else DecimalValue(s[..|s| - 1]) * 10 + (s[|s| - 1] as int - '0' as int)
  }

  /** Reading back the decimal digits of `n` gives `n`. */
  lemma {:induction false} DecimalRoundTrip(n: nat)
    ensures DecimalValue(DecimalString(n)) == n
  {
    var s := DecimalString(n);
    if n < 10 {
      assert s[..0] == [];
    } else {
      DecimalRoundTrip(n / 10);
      assert s[..|s| - 1] == DecimalString(n / 10);
    }
  }

  /** The key of the `index`-th group attached to one category layer. */
  function KeyName(index: nat): (r: string)
    ensures |r| >= 9 && r[0] == 'A'
  {
    if index == 0 then "Animation" else "Animation-" + DecimalString(index)
  }

  /** Different positions get different keys, so no group of a category overwrites
      another one of the same layer. */
  lemma KeyNameInjective(i: nat, j: nat)
    ensures KeyName(i) == KeyName(j) ==> i == j
  {
    if KeyName(i) == KeyName(j) && i != 0 && j != 0 {
      var prefix := "Animation-";
      assert KeyName(i)[10..] == DecimalString(i);
      assert KeyName(j)[10..] == DecimalString(j);
      DecimalRoundTrip(i);
      DecimalRoundTrip(j);
    }
  }

  /** The key of the bar's transition group. */
  const BarKey: string := "Bar Animation"

  /** The key of the scroll view's transition group. */
  const ScrollKey: string := "ScrollView Animation"

  /** Category keys never collide with the two transition keys. */
  lemma KeyNameIsNoTransitionKey(i: nat)
    ensures KeyName(i) != BarKey && KeyName(i) != ScrollKey
  {
    assert KeyName(i)[0] == 'A';
    assert BarKey[0] == 'B' && ScrollKey[0] == 'S';
  }

  /** The keys of the first `n` groups, in order. */
  function KeyNames(n: nat): (r: seq<string>)
    ensures |r| == n && forall i :: 0 <= i < n ==> r[i] == KeyName(i)
  {
    seq(n, i requires 0 <= i => KeyName(i))
  }

  lemma KeyNamesGrow(n: nat)
    ensures KeyNames(n + 1) == KeyNames(n) + [KeyName(n)]
  {
    assert KeyNames(n + 1)[..n] == KeyNames(n);
  }

  // ---------------------------------------------------------------------------
  // Transition parameters

  /** A transition lasts 0.25 when it plays by itself and 0.90 when it is scrubbed. */
  function TransitionDuration(automatic: bool): (r: real)
    ensures r > 0.0
    ensures automatic ==> r < TransitionDuration(false)
  {
    if automatic then 0.25 else 0.90
  }

  /** The scroll offset that brings a control to the middle of the menu: the distance
      between the control's centre and the menu's centre, clamped to [0, maxOffset]. */
  function ContentOffsetX(maxOffset: real, distance: real): (r: real)
    ensures r >= 0.0
    ensures maxOffset >= 0.0 ==> r <= maxOffset
    ensures 0.0 <= distance <= maxOffset ==> r == distance
    ensures distance <= 0.0 || maxOffset <= 0.0 ==> r == 0.0
    ensures maxOffset >= 0.0 && distance >= maxOffset ==> r == maxOffset
  {
    var nearest := if maxOffset <= distance then maxOffset else distance;
    if nearest >= 0.0 then nearest else 0.0
  }

  // ---------------------------------------------------------------------------
  // Attaching the groups of one category layer

  /** A layer after attaching `groups` in order, the `i`-th under `keys[i]`. The
      properties of attaching a list of groups are proved once for any keys here, so
      the proofs never have to unfold how a category key is spelled; AttachedAll below
      is the fold the menu performs, and AttachedAllUnderKeyNames ties the two. */
  function AttachedUnder(s: LayerState, groups: seq<GroupAnimation>, keys: seq<string>, automatic: bool): LayerState
    requires |keys| == |groups|
  {
    if groups == [] then s
    else
      var n := |groups| - 1;
      Attached(AttachedUnder(s, groups[..n], keys[..n], automatic), groups[n], keys[n], automatic)
  }

  /** A layer after attaching a category's `groups` in order, the `i`-th under KeyName(i):
      the loop of animateCategoryForIndex over one layer, one attach per step. It is
      AttachedUnder with the keys KeyNames(|groups|) (AttachedAllUnderKeyNames), written
      as its own fold so that the loop's one-step extension (AttachedAllExtends) stays a
      single unfolding. */
  function AttachedAll(s: LayerState, groups: seq<GroupAnimation>, automatic: bool): LayerState {
    if groups == [] then s
    else
      var n := |groups| - 1;
      Attached(AttachedAll(s, groups[..n], automatic), groups[n], KeyName(n), automatic)
  }

  /** Attaching one more group of a category attaches it after the ones before it. */
  lemma AttachedAllExtends(s: LayerState, groups: seq<GroupAnimation>, i: nat, automatic: bool)
    requires i < |groups|
    ensures AttachedAll(s, groups[..i + 1], automatic) == Attached(AttachedAll(s, groups[..i], automatic), groups[i], KeyName(i), automatic)
  {
    assert groups[..i + 1][..i] == groups[..i];
  }

  /** Attaching a category's groups is attaching them under the keys KeyName(0), KeyName(1), .... */
  lemma {:induction false} AttachedAllUnderKeyNames(s: LayerState, groups: seq<GroupAnimation>, automatic: bool)
    ensures AttachedAll(s, groups, automatic) == AttachedUnder(s, groups, KeyNames(|groups|), automatic)
  {
    if groups != [] {
      var n := |groups| - 1;
      AttachedAllUnderKeyNames(s, groups[..n], automatic);
      KeyNamesGrow(n);
      assert KeyNames(n + 1)[..n] == KeyNames(n);
    }
  }

  /** The category keys of one layer are pairwise different. */
  lemma KeyNamesDistinct(n: nat)
    ensures NoDuplicates(KeyNames(n))
  {
    forall i, j | 0 <= i < j < n
      ensures KeyNames(n)[i] != KeyNames(n)[j]
    {
      KeyNameInjective(i, j);
    }
  }

  /** One attach, field by field. */
  lemma AttachedStep(s: LayerState, g: GroupAnimation, key: string, automatic: bool)
    ensures var r := Attached(s, g, key, automatic);
            r.animations == s.animations[key := Stamped(g, s.presentation, key)] &&
            r.explicitKeys == Some(s.explicitKeys.GetOr([]) + [key]) &&
            r.maxDuration == Max(s.maxDuration, g.duration) && r.modelValues == s.modelValues && r.presentation == s.presentation &&
            r.timeOffset == 0.0 && r.speed == (if automatic then 1.0 else 0.0) && (automatic ==> r.beginTime == 0.0)
  {
  }

  /** Model values and the presentation are untouched, and the layer ends as the last
      attach leaves it. */
  lemma {:induction false} AttachedUnderKeepsValues(s: LayerState, groups: seq<GroupAnimation>, keys: seq<string>, automatic: bool)
    requires |keys| == |groups|
    ensures var r := AttachedUnder(s, groups, keys, automatic);
            r.modelValues == s.modelValues && r.presentation == s.presentation
    ensures var r := AttachedUnder(s, groups, keys, automatic);
            groups != [] && automatic ==> r.speed == 1.0 && r.timeOffset == 0.0 && r.beginTime == 0.0
    ensures var r := AttachedUnder(s, groups, keys, automatic);
            groups != [] && !automatic ==> r.speed == 0.0 && r.timeOffset == 0.0
  {
    if groups != [] {
      var n := |groups| - 1;
      AttachedUnderKeepsValues(s, groups[..n], keys[..n], automatic);
      AttachedStep(AttachedUnder(s, groups[..n], keys[..n], automatic), groups[n], keys[n], automatic);
    }
  }

  /** With pairwise different keys, the `i`-th group is registered, stamped, under `keys[i]`. */
  lemma {:induction false} AttachedUnderRegistersEachGroup(s: LayerState, groups: seq<GroupAnimation>, keys: seq<string>, automatic: bool)
    requires |keys| == |groups| && NoDuplicates(keys)
    ensures var r := AttachedUnder(s, groups, keys, automatic);
            forall i :: 0 <= i < |groups| ==>
              keys[i] in r.animations && r.animations[keys[i]] == Stamped(groups[i], s.presentation, keys[i])
  {
    if groups != [] {
      var n := |groups| - 1;
      var init, initKeys := groups[..n], keys[..n];
      AttachedUnderRegistersEachGroup(s, init, initKeys, automatic);
      AttachedUnderKeepsValues(s, init, initKeys, automatic);
      var before := AttachedUnder(s, init, initKeys, automatic);
      var r := AttachedUnder(s, groups, keys, automatic);
      AttachedStep(before, groups[n], keys[n], automatic);
      forall i | 0 <= i < |groups|
        ensures keys[i] in r.animations && r.animations[keys[i]] == Stamped(groups[i], s.presentation, keys[i])
      {
        if i < n {
          assert init[i] == groups[i] && initKeys[i] == keys[i] && keys[i] != keys[n];
        }
      }
    }
  }

  /** Animations under keys other than `keys` stay as they were, and no key other than
      those of `keys` appears. */
  lemma {:induction false} AttachedUnderKeepsOtherAnimations(s: LayerState, groups: seq<GroupAnimation>, keys: seq<string>, automatic: bool)
    requires |keys| == |groups|
    ensures var r := AttachedUnder(s, groups, keys, automatic);
            forall k :: k in s.animations && k !in keys ==> k in r.animations && r.animations[k] == s.animations[k]
    ensures var r := AttachedUnder(s, groups, keys, automatic);
            forall k :: k in r.animations ==> k in s.animations || k in keys
  {
    if groups != [] {
      var n := |groups| - 1;
      var initKeys := keys[..n];
      AttachedUnderKeepsOtherAnimations(s, groups[..n], initKeys, automatic);
      var before := AttachedUnder(s, groups[..n], initKeys, automatic);
      var r := AttachedUnder(s, groups, keys, automatic);
      AttachedStep(before, groups[n], keys[n], automatic);
      assert keys == initKeys + [keys[n]];
      forall k | k in s.animations && k !in keys
        ensures k in r.animations && r.animations[k] == s.animations[k]
      {
        assert k !in initKeys && k != keys[n];
      }
      forall k | k in r.animations
        ensures k in s.animations || k in keys
      {
      }
    }
  }

  /** The keys are appended to the explicit list in order; no groups change nothing. */
  lemma {:induction false} AttachedUnderRecordsKeys(s: LayerState, groups: seq<GroupAnimation>, keys: seq<string>, automatic: bool)
    requires |keys| == |groups|
    ensures groups == [] ==> AttachedUnder(s, groups, keys, automatic) == s
    ensures groups != [] ==> AttachedUnder(s, groups, keys, automatic).explicitKeys == Some(s.explicitKeys.GetOr([]) + keys)
  {
    if groups != [] {
      var n := |groups| - 1;
      var initKeys := keys[..n];
      AttachedUnderRecordsKeys(s, groups[..n], initKeys, automatic);
      var before := AttachedUnder(s, groups[..n], initKeys, automatic);
      var prior := s.explicitKeys.GetOr([]);
      if n == 0 {
        assert prior + initKeys == prior;
      }
      assert before.explicitKeys.GetOr([]) == prior + initKeys;
      AttachedStep(before, groups[n], keys[n], automatic);
      assert keys == initKeys + [keys[n]];
      assert prior + initKeys + [keys[n]] == prior + keys;
    }
  }

  /** The recorded longest duration is the largest of the old one and the durations of
      the attached groups: it covers each of them and is one of them. */
  lemma {:induction false} AttachedUnderCoversDurations(s: LayerState, groups: seq<GroupAnimation>, keys: seq<string>, automatic: bool)
    requires |keys| == |groups|
    ensures var longest := AttachedUnder(s, groups, keys, automatic).maxDuration;
            longest >= s.maxDuration && forall i :: 0 <= i < |groups| ==> groups[i].duration <= longest
    ensures var longest := AttachedUnder(s, groups, keys, automatic).maxDuration;
            longest == s.maxDuration || exists i :: 0 <= i < |groups| && groups[i].duration == longest
  {
    if groups != [] {
      var n := |groups| - 1;
      var init := groups[..n];
      AttachedUnderCoversDurations(s, init, keys[..n], automatic);
      var before := AttachedUnder(s, init, keys[..n], automatic);
      var longest := AttachedUnder(s, groups, keys, automatic).maxDuration;
      AttachedStep(before, groups[n], keys[n], automatic);
      forall i | 0 <= i < |groups|
        ensures groups[i].duration <= longest
      {
        if i < n {
          assert init[i] == groups[i];
        }
      }
      if longest != s.maxDuration {
        if longest == before.maxDuration {
          var i :| 0 <= i < n && init[i].duration == longest;
          assert groups[i] == init[i];
        } else {
          assert groups[n].duration == longest;
        }
      }
    }
  }

  /** A category's `i`-th group is registered, stamped, under KeyName(i). */
  lemma AttachedAllRegistersEachGroup(s: LayerState, groups: seq<GroupAnimation>, automatic: bool)
    ensures var r := AttachedAll(s, groups, automatic);
            forall i :: 0 <= i < |groups| ==>
              KeyName(i) in r.animations && r.animations[KeyName(i)] == Stamped(groups[i], s.presentation, KeyName(i))
  {
    KeyNamesDistinct(|groups|);
    AttachedAllUnderKeyNames(s, groups, automatic);
    AttachedUnderRegistersEachGroup(s, groups, KeyNames(|groups|), automatic);
  }
}
