/** Animation values as the animator sees them (Core Animation's CABasicAnimation,
    CAAnimationGroup and every other CAAnimation), the flattening of nested groups
    into their basic steps (the `basicAnimations` extension of CAAnimationGroup), and
    the capture of each step's start value from what a layer currently shows. */
module Animations {
  import opened Prelude

  /** A property value carried by an animation or stored on a layer: a number, or any
      other boxed value (a point, a colour, ...) told apart by a tag. */
  datatype Value = Number(n: real) | Boxed(tag: string)

  /** A group's `animations` array, which may be nil. */
  datatype ChildList = NilChildren | Children(items: seq<Animation>)

  /** Every animation has a duration and an optional name (the name is extra metadata
      the animator attaches to correlate completions with keys). A basic step animates
      one key path from a value to a value; a group runs its children together and may
      be filled backwards (shows its start values before it begins); every other kind
      of animation is opaque here. */
  datatype Animation =
    | Basic(keyPath: string, fromValue: Option<Value>, toValue: Option<Value>, duration: real, name: Option<string>)
    | Group(children: ChildList, duration: real, name: Option<string>, fillsBackwards: bool)
    | Other(duration: real, name: Option<string>)

  type GroupAnimation = a: Animation | a.Group? witness Group(NilChildren, 0.0, None, false)

  /** The depth-first, in-order basic steps of a group: nil when the group's own
      children are nil; a nested group contributes its own steps (nothing when its
      children are nil); animations of any other kind are dropped. */
  function BasicAnimations(g: GroupAnimation): (r: Option<seq<Animation>>)
    ensures r.None? <==> g.children.NilChildren?
    ensures r.Some? ==> forall i :: 0 <= i < |r.value| ==> r.value[i].Basic?
    decreases g, 1
  {
    if g.children.NilChildren? then None else Some(BasicAnimationsOfFirst(g, |g.children.items|))
  }

  /** The basic steps contributed by the first `k` children of `g`: the accumulator of
      the flattening loop after `k` iterations. */
  function BasicAnimationsOfFirst(g: GroupAnimation, k: nat): (r: seq<Animation>)
    requires g.children.Children? && k <= |g.children.items|
    ensures forall i :: 0 <= i < |r| ==> r[i].Basic?
    decreases g, 0, k
  {
    if k == 0 then []
    else
      var child := g.children.items[k - 1];
      assert child in g.children.items;
      BasicAnimationsOfFirst(g, k - 1) + StepsOfChild(child)
  }

  /** What one child adds to its parent's flattening. */
  function StepsOfChild(child: Animation): (r: seq<Animation>)
    ensures forall i :: 0 <= i < |r| ==> r[i].Basic?
    decreases child, 2
  {
    match child
    case Basic(_, _, _, _, _) => [child]
    case Group(_, _, _, _) => BasicAnimations(child).GetOr([])
    case Other(_, _) => []
  }

  /** The value the presentation (on-screen, interpolated) layer shows at `keyPath`, if any. */
  function PresentationValue(presentation: map<string, Value>, keyPath: string): Option<Value> {
    if keyPath in presentation then Some(presentation[keyPath]) else None
  }

  /** `a` with the start value of every basic step reachable through groups replaced by
      what the presentation shows at that step's key path. */
  function CaptureFromValues(a: Animation, presentation: map<string, Value>): (r: Animation)
    ensures r.Basic? == a.Basic? && r.Group? == a.Group? && r.Other? == a.Other?
    ensures r.duration == a.duration && r.name == a.name
    ensures r.Basic? ==> r.keyPath == a.keyPath && r.toValue == a.toValue
    ensures r.Basic? ==> r.fromValue == PresentationValue(presentation, r.keyPath)
    ensures r.Group? ==> r.fillsBackwards == a.fillsBackwards && r.children.NilChildren? == a.children.NilChildren?
    decreases a
  {
    match a
    case Basic(keyPath, _, toValue, duration, name) =>
      Basic(keyPath, PresentationValue(presentation, keyPath), toValue, duration, name)
    case Group(children, duration, name, fill) =>
      (match children
       case NilChildren => a
       case Children(items) =>
         Group(Children(seq(|items|, i requires 0 <= i < |items| => CaptureFromValues(items[i], presentation))),
               duration, name, fill))
    case Other(_, _) => a
  }

  /** The flattening of a group whose children are all basic steps is those steps, in order. */
  lemma {:induction false} BasicAnimationsOfBasicChildren(g: GroupAnimation)
    requires g.children.Children?
    requires forall i :: 0 <= i < |g.children.items| ==> g.children.items[i].Basic?
    ensures BasicAnimations(g) == Some(g.children.items)
  {
    var items := g.children.items;
    var k := 0;
    while k < |items|
      invariant 0 <= k <= |items|
      invariant BasicAnimationsOfFirst(g, k) == items[..k]
    {
      assert items[..k + 1] == items[..k] + [items[k]];
      k := k + 1;
    }
    assert items[..|items|] == items;
  }

  /** Flattening is compositional: the steps of a group whose children are `a + b` are
      the steps of `a` followed by those of `b` (depth-first, in order). */
  lemma {:induction false} BasicAnimationsOfConcatenation(a: seq<Animation>, b: seq<Animation>, d: real, n: Option<string>, fill: bool)
    ensures BasicAnimations(Group(Children(a + b), d, n, fill)).value
         == BasicAnimations(Group(Children(a), d, n, fill)).value + BasicAnimations(Group(Children(b), d, n, fill)).value
  {
    var gab: GroupAnimation := Group(Children(a + b), d, n, fill);
    var ga: GroupAnimation := Group(Children(a), d, n, fill);
    var gb: GroupAnimation := Group(Children(b), d, n, fill);
    var k := 0;
    while k < |a|
      invariant 0 <= k <= |a|
      invariant BasicAnimationsOfFirst(gab, k) == BasicAnimationsOfFirst(ga, k)
    {
      k := k + 1;
    }
    var j := 0;
    while j < |b|
      invariant 0 <= j <= |b|
      invariant BasicAnimationsOfFirst(gab, |a| + j) == BasicAnimationsOfFirst(ga, |a|) + BasicAnimationsOfFirst(gb, j)
    {
      assert (a + b)[|a| + j] == b[j];
      j := j + 1;
    }
  }

  /** A group with a single child flattens to what that child contributes. */
  lemma BasicAnimationsOfSingleChild(c: Animation, d: real, n: Option<string>, fill: bool)
    ensures BasicAnimations(Group(Children([c]), d, n, fill)).value == StepsOfChild(c)
  {
    var g: GroupAnimation := Group(Children([c]), d, n, fill);
    assert BasicAnimationsOfFirst(g, 1) == BasicAnimationsOfFirst(g, 0) + StepsOfChild(c);
  }

  /** Flattening a group whose children are `a`, then `c`, then `b`: the steps of `a`,
      then what `c` contributes, then the steps of `b`. */
  lemma BasicAnimationsAround(a: seq<Animation>, c: Animation, b: seq<Animation>, d: real, n: Option<string>, fill: bool)
    ensures BasicAnimations(Group(Children(a + [c] + b), d, n, fill)).value
         == BasicAnimations(Group(Children(a), d, n, fill)).value + StepsOfChild(c) + BasicAnimations(Group(Children(b), d, n, fill)).value
  {
    BasicAnimationsOfConcatenation(a + [c], b, d, n, fill);
    BasicAnimationsOfConcatenation(a, [c], d, n, fill);
    BasicAnimationsOfSingleChild(c, d, n, fill);
  }

  /** A basic child is kept, as itself, in its place. */
  lemma FlatteningKeepsBasicChild(a: seq<Animation>, c: Animation, b: seq<Animation>, d: real, n: Option<string>, fill: bool)
    requires c.Basic?
    ensures BasicAnimations(Group(Children(a + [c] + b), d, n, fill)).value
         == BasicAnimations(Group(Children(a), d, n, fill)).value + [c] + BasicAnimations(Group(Children(b), d, n, fill)).value
  {
    BasicAnimationsAround(a, c, b, d, n, fill);
  }

  /** A nested group is flattened in place: its own steps (none when its children are nil)
      stand where it stood. */
  lemma FlatteningInlinesNestedGroup(a: seq<Animation>, inner: GroupAnimation, b: seq<Animation>, d: real, n: Option<string>, fill: bool)
    ensures BasicAnimations(Group(Children(a + [inner] + b), d, n, fill)).value
         == BasicAnimations(Group(Children(a), d, n, fill)).value + BasicAnimations(inner).GetOr([]) +
            BasicAnimations(Group(Children(b), d, n, fill)).value
  {
    BasicAnimationsAround(a, inner, b, d, n, fill);
  }

  /** An animation that is neither a basic step nor a group is dropped. */
  lemma FlatteningDropsOtherKinds(a: seq<Animation>, other: Animation, b: seq<Animation>, d: real, n: Option<string>, fill: bool)
    requires other.Other?
    ensures BasicAnimations(Group(Children(a + [other] + b), d, n, fill)).value
         == BasicAnimations(Group(Children(a + b), d, n, fill)).value
  {
    BasicAnimationsAround(a, other, b, d, n, fill);
    BasicAnimationsOfConcatenation(a, b, d, n, fill);
  }

  /** Capturing start values does not change which steps a group flattens to, only their
      start values: step `i` of the captured group is step `i` of the original, captured. */
  lemma {:induction false} CapturedBasicAnimations(g: GroupAnimation, presentation: map<string, Value>)
    ensures var c: GroupAnimation := CaptureFromValues(g, presentation);
            BasicAnimations(c).Some? == BasicAnimations(g).Some?
    ensures var c: GroupAnimation := CaptureFromValues(g, presentation);
            BasicAnimations(g).Some? ==>
              |BasicAnimations(c).value| == |BasicAnimations(g).value| &&
              forall i :: 0 <= i < |BasicAnimations(g).value| ==>
                BasicAnimations(c).value[i] == CaptureFromValues(BasicAnimations(g).value[i], presentation)
    decreases g, 1
  {
    if g.children.Children? {
      CapturedPrefix(g, presentation, |g.children.items|);
    }
  }

  lemma {:induction false} CapturedPrefix(g: GroupAnimation, presentation: map<string, Value>, k: nat)
    requires g.children.Children? && k <= |g.children.items|
    ensures var c: GroupAnimation := CaptureFromValues(g, presentation);
            c.children.Children? && k <= |c.children.items| &&
            |BasicAnimationsOfFirst(c, k)| == |BasicAnimationsOfFirst(g, k)| &&
            forall i :: 0 <= i < |BasicAnimationsOfFirst(g, k)| ==>
              BasicAnimationsOfFirst(c, k)[i] == CaptureFromValues(BasicAnimationsOfFirst(g, k)[i], presentation)
    decreases g, 0, k
  {
    var c: GroupAnimation := CaptureFromValues(g, presentation);
    if k > 0 {
      CapturedPrefix(g, presentation, k - 1);
      var child := g.children.items[k - 1];
      assert child in g.children.items;
      var captured := c.children.items[k - 1];
      assert captured == CaptureFromValues(child, presentation);
      if child.Group? {
        CapturedBasicAnimations(child, presentation);
      }
      var before, steps := BasicAnimationsOfFirst(g, k - 1), StepsOfChild(child);
      var before', steps' := BasicAnimationsOfFirst(c, k - 1), StepsOfChild(captured);
      assert |steps'| == |steps|;
      forall i | 0 <= i < |before| + |steps|
        ensures (before' + steps')[i] == CaptureFromValues((before + steps)[i], presentation)
      {
        if i >= |before| {
          assert (before' + steps')[i] == steps'[i - |before|];
          assert (before + steps)[i] == steps[i - |before|];
        }
      }
    }
  }

  /** After capture, every flattened step starts from what the presentation shows at its
      key path (nil where the presentation shows nothing). */
  lemma CapturedStepsStartFromPresentation(g: GroupAnimation, presentation: map<string, Value>)
    requires g.children.Children?
    ensures var steps := BasicAnimations(CaptureFromValues(g, presentation));
            steps.Some? &&
            forall i :: 0 <= i < |steps.value| ==>
              steps.value[i].Basic? && steps.value[i].fromValue == PresentationValue(presentation, steps.value[i].keyPath)
  {
    CapturedBasicAnimations(g, presentation);
  }
}
