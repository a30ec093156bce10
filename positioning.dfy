/**
 * The buffer positioning strategy: where the standby video is parked before a
 * transition, the translation that brings it into view, and the resting state
 * of the active video. Pure functions of the transition mode, the container's
 * page offset and the slider's width and height.
 */
module Positioning {
  import opened Wrappers

  /** The transition mode; `Other` stands for any mode name the slider does not know. */
  datatype Mode = Right | Left | Top | Bottom | Fade | Other

  /** The four sliding modes, which move the incoming video by a translation. */
  predicate Directional(m: Mode) {
    m.Right? || m.Left? || m.Top? || m.Bottom?
  }

  /**
   * What the page reports about the container at the moment of a call: its
   * page offset and its measured width and height.
   */
  datatype Env = Env(top: int, left: int, width: nat, height: nat)

  /**
   * A video's position: `PageOffset` is set through jQuery's `.offset()`
   * (page coordinates), `Css` through the `top`/`left` style properties.
   */
  datatype Placement = Css(top: int, left: int) | PageOffset(top: int, left: int)

  /** The CSS `transform` of a video; the empty string is `Untransformed`. */
  datatype Transform = Untransformed | TranslateX(dx: int) | TranslateY(dy: int)

  /** The CSS `transition` of a video: `''`, `'none'`, or the timed transform transition. */
  datatype Transition = Inherit | Disabled | Animated

  /**
   * The state of one of the two video elements that matters to the slider.
   * Opacity is 0 or 1, the only values the slider writes.
   */
  datatype Surface = Surface(src: Option<string>, at: Placement, opacity: int, zIndex: int,
                             transform: Transform, transition: Transition)

  /**
   * A configured width or height of 0 means "measure the container". Sizes
   * are non-negative: the slider's translations are built by string
   * concatenation and are only valid CSS for non-negative sizes.
   */
  function Extent(configured: nat, measured: nat): (r: nat)
    ensures configured == 0 ==> r == measured
    ensures configured != 0 ==> r == configured
  {
    if configured == 0 then measured else configured
  }

  /**
   * `setNextCss` applied to the standby video `s`: a sliding mode puts it one
   * width or height beyond the container's page offset, on the side the mode
   * names; any other mode puts it at style position (0, 0) and hides it.
   */
  function Park(s: Surface, mode: Mode, env: Env, w: nat, h: nat): (r: Surface)
    ensures r.src == s.src && r.zIndex == s.zIndex
    ensures r.transform == s.transform && r.transition == s.transition
    ensures Directional(mode) ==> r.opacity == s.opacity
    ensures mode == Right ==> r.at == PageOffset(env.top, env.left + w)
    ensures mode == Left ==> r.at == PageOffset(env.top, env.left - w)
    ensures mode == Top ==> r.at == PageOffset(env.top - h, env.left)
    ensures mode == Bottom ==> r.at == PageOffset(env.top + h, env.left)
    ensures !Directional(mode) ==> r.at == Css(0, 0) && r.opacity == 0
  {
    match mode
    case Right => s.(at := PageOffset(env.top, env.left + w))
    case Left => s.(at := PageOffset(env.top, env.left - w))
    case Top => s.(at := PageOffset(env.top - h, env.left))
    case Bottom => s.(at := PageOffset(env.top + h, env.left))
    case _ => s.(at := Css(0, 0), opacity := 0)
  }

  /** `transformValue`: the translation applied to the incoming video. */
  function TransformFor(mode: Mode, w: nat, h: nat): (t: Transform)
    ensures Directional(mode) <==> t != Untransformed
    ensures mode.Right? || mode.Left? ==> t.TranslateX?
    ensures mode.Top? || mode.Bottom? ==> t.TranslateY?
  {
    match mode
    case Right => TranslateX(-(w as int))
    case Left => TranslateX(w)
    case Top => TranslateY(h)
    case Bottom => TranslateY(-(h as int))
    case _ => Untransformed
  }

  /** Where a translation moves a placement to, in the same coordinates. */
  function Shifted(p: Placement, t: Transform): Placement
  {
    match t
    case Untransformed => p
    case TranslateX(dx) => p.(left := p.left + dx)
    case TranslateY(dy) => p.(top := p.top + dy)
  }

  /**
   * The translation undoes the parking displacement exactly: a parked standby,
   * once translated, sits on the container's page offset. Fade and unknown
   * modes neither translate nor park off-view; they hide the standby instead.
   */
  lemma TransformCancelsPark(s: Surface, mode: Mode, env: Env, w: nat, h: nat)
    ensures Directional(mode) ==>
              Shifted(Park(s, mode, env, w, h).at, TransformFor(mode, w, h)) == PageOffset(env.top, env.left)
    ensures !Directional(mode) ==>
              TransformFor(mode, w, h) == Untransformed && Park(s, mode, env, w, h).opacity == 0
  {
  }

  /** The canonical resting state of the visible video. */
  predicate Resting(s: Surface) {
    s.at == Css(0, 0) && s.opacity == 1 && s.transform == Untransformed && s.transition == Inherit
  }

  /** `css({top: 0, left: 0, opacity: 1.0, transition: '', transform: ''})`. */
  function AtRest(s: Surface): (r: Surface)
    ensures Resting(r)
    ensures r.src == s.src && r.zIndex == s.zIndex
  {
    s.(at := Css(0, 0), opacity := 1, transform := Untransformed, transition := Inherit)
  }

  /** The first step of `killTranslation`: animation switched off and translation dropped. */
  function Halted(s: Surface): (r: Surface)
    ensures r.transition == Disabled && r.transform == Untransformed
    ensures r.src == s.src && r.at == s.at && r.opacity == s.opacity && r.zIndex == s.zIndex
  {
    s.(transition := Disabled, transform := Untransformed)
  }

  /**
   * The incoming video as `play()` leaves it: stacked on top; in fade mode
   * nothing else changes (jQuery's `animate` then brings it in), otherwise the
   * timed transition and the mode's translation are set.
   */
  function Launch(s: Surface, mode: Mode, w: nat, h: nat): (r: Surface)
    ensures r.zIndex == 10
    ensures r.src == s.src && r.at == s.at && r.opacity == s.opacity
    ensures mode == Fade ==> r.transform == s.transform && r.transition == s.transition
    ensures mode != Fade ==> r.transition == Animated && r.transform == TransformFor(mode, w, h)
  {
    if mode == Fade then s.(zIndex := 10)
    else s.(zIndex := 10, transition := Animated, transform := TransformFor(mode, w, h))
  }

  /**
   * A standby parked for a sliding mode and then launched ends its transition
   * on the container's page offset, at its original opacity; in fade mode the
   * launch sets no translation at all.
   */
  lemma LaunchLandsOnContainer(s: Surface, mode: Mode, env: Env, w: nat, h: nat)
    ensures var l := Launch(Park(s, mode, env, w, h), mode, w, h);
            Directional(mode) ==>
              Shifted(l.at, l.transform) == PageOffset(env.top, env.left) && l.opacity == s.opacity
    ensures mode == Fade ==> Launch(Park(s, mode, env, w, h), mode, w, h).transform == s.transform
  {
    TransformCancelsPark(s, mode, env, w, h);
  }
}
