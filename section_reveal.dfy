/**
 * `SectionReveal`: a wrapper that slides its children in from one side the
 * first time it scrolls into view. The choice of animation variants from the
 * `direction` prop, the prop defaults and the hidden/visible choice are pure.
 */
module SectionReveal {

  import opened Wrappers

  /** The axis an offset moves along (`x` or `y` in the variant objects). */
  datatype Axis = X | Y

  /** One animation target: an opacity and an offset in pixels along one axis. */
  datatype Pose = Pose(opacity: int, axis: Axis, offset: int)

  /** The two named variants the component animates between. */
  datatype Variants = Variants(hidden: Pose, visible: Pose)

  datatype VariantName = Hidden | Visible

  /**
   * `getVariants`: each direction starts 50 pixels away on its own axis and
   * fully transparent; "up" starts below (y 50), "down" above (y -50), "left"
   * to the right (x 50), "right" to the left (x -50). Any other value falls to
   * the default branch, which is the same as "up".
   */
  function GetVariants(direction: string): (v: Variants)
    ensures v.hidden.opacity == 0 && v.visible.opacity == 1
    ensures v.visible.axis == v.hidden.axis && v.visible.offset == 0
    ensures v.hidden.offset == 50 || v.hidden.offset == -50
    ensures v.hidden.axis == X <==> direction == "left" || direction == "right"
    ensures v.hidden.offset == 50 <==> direction != "down" && direction != "right"
  {
    match direction
    case "up" => Variants(Pose(0, Y, 50), Pose(1, Y, 0))
    case "down" => Variants(Pose(0, Y, -50), Pose(1, Y, 0))
    case "left" => Variants(Pose(0, X, 50), Pose(1, X, 0))
    case "right" => Variants(Pose(0, X, -50), Pose(1, X, 0))
    case _ => Variants(Pose(0, Y, 50), Pose(1, Y, 0))
  }

  /** The exact variants of the four named directions. */
  lemma NamedDirections()
    ensures GetVariants("up").hidden == Pose(0, Y, 50)
    ensures GetVariants("down").hidden == Pose(0, Y, -50)
    ensures GetVariants("left").hidden == Pose(0, X, 50)
    ensures GetVariants("right").hidden == Pose(0, X, -50)
  {
  }

  /** An unrecognised direction behaves as "up". */
  lemma UnknownIsUp(direction: string)
    requires direction !in {"up", "down", "left", "right"}
    ensures GetVariants(direction) == GetVariants("up")
  {
  }

  /** Opposite directions start on the same axis at opposite offsets. */
  lemma OppositeDirections()
    ensures GetVariants("down").hidden.offset == -GetVariants("up").hidden.offset
    ensures GetVariants("right").hidden.offset == -GetVariants("left").hidden.offset
    ensures GetVariants("down").hidden.axis == GetVariants("up").hidden.axis
    ensures GetVariants("right").hidden.axis == GetVariants("left").hidden.axis
  {
  }

  /** The props after defaults: `delay` (seconds) and `direction`. */
  datatype Props = Props(delay: real, direction: string)

  /** Omitted props default to a delay of 0 and the direction "up". */
  function WithDefaults(delay: Option<real>, direction: Option<string>): (p: Props)
    ensures delay == None ==> p.delay == 0.0
    ensures delay.Some? ==> p.delay == delay.value
    ensures direction == None ==> p.direction == "up"
    ensures direction.Some? ==> p.direction == direction.value
  {
    Props(if delay.Some? then delay.value else 0.0,
          if direction.Some? then direction.value else "up")
  }

  /** `isInView ? "visible" : "hidden"`. */
  function AnimateTarget(isInView: bool): (n: VariantName)
    ensures n == Visible <==> isInView
  {
    if isInView then Visible else Hidden
  }

  /**
   * The value the in-view hook reports with `once: true`, after a sequence of
   * observations of whether enough of the element (a fifth) is on screen:
   * it latches on the first true observation.
   */
  function InViewOnce(observations: seq<bool>): bool
  {
    if observations == [] then false
    else InViewOnce(observations[..|observations| - 1]) || observations[|observations| - 1]
  }

  /** The hook reports in view exactly when some observation saw the element. */
  lemma {:induction false} InViewOnceSomeObservation(observations: seq<bool>)
    ensures InViewOnce(observations) <==> exists i :: 0 <= i < |observations| && observations[i]
    decreases |observations|
  {
    if observations != [] {
      var init := observations[..|observations| - 1];
      InViewOnceSomeObservation(init);
      if InViewOnce(init) {
        var i :| 0 <= i < |init| && init[i];
        assert observations[i];
      }
      if exists i :: 0 <= i < |observations| && observations[i] {
        var i :| 0 <= i < |observations| && observations[i];
        if i < |init| { assert init[i]; }
      }
    }
  }

  /** Once revealed, a section stays revealed whatever is observed later. */
  lemma {:induction false} StaysRevealed(before: seq<bool>, after: seq<bool>)
    requires AnimateTarget(InViewOnce(before)) == Visible
    ensures AnimateTarget(InViewOnce(before + after)) == Visible
    decreases |after|
  {
    if after != [] {
      var init := after[..|after| - 1];
      StaysRevealed(before, init);
      assert (before + after)[..|before + after| - 1] == before + init;
    } else {
      assert before + after == before;
    }
  }

  /** The motion settings one render of the component produces. */
  datatype Motion = Motion(variants: Variants, initial: VariantName, animate: VariantName,
                           duration: real, delay: real)

  /**
   * The component's render: variants from the direction, starting hidden,
   * animating to visible once in view, over 0.6 seconds after the prop's delay.
   */
  function Render(props: Props, isInView: bool): Motion
  {
    Motion(GetVariants(props.direction), Hidden, AnimateTarget(isInView), 0.6, props.delay)
  }

  /**
   * Rendered over the hook's observations: before any observation the section
   * animates to hidden, and it animates to visible exactly when some
   * observation so far saw it.
   */
  lemma {:induction false} RevealOnScroll(props: Props, observations: seq<bool>)
    ensures Render(props, InViewOnce([])).animate == Hidden
    ensures Render(props, InViewOnce(observations)).animate == Visible
        <==> exists i :: 0 <= i < |observations| && observations[i]
  {
    InViewOnceSomeObservation(observations);
  }

  /** Once a render animates to visible, every later render is the same. */
  lemma {:induction false} RenderStaysRevealed(props: Props, before: seq<bool>, after: seq<bool>)
    requires Render(props, InViewOnce(before)).animate == Visible
    ensures Render(props, InViewOnce(before + after)) == Render(props, InViewOnce(before))
  {
    StaysRevealed(before, after);
  }
}
