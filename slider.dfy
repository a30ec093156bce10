/**
 * The carousel controller: a playlist with a wrapping cursor, two video
 * buffers of which `flag` names the active one, and the `worker` flag that
 * says whether the slider is subscribed to the videos' `ended` events.
 *
 * What the page would report at the time of a call (the container's offset
 * and measured size, whether the active video has ended or is paused) is
 * passed in; playing, pausing and loading videos are effects left out.
 */
module Slider {
  import opened Wrappers
  import opened Playlist
  import opened Positioning

  /** A buffer index: 0 or 1. */
  type Index = i: int | 0 <= i < 2

  /** What `play()` did: resumed the paused active video, found no items, or flipped the buffers. */
  datatype PlayOutcome = Resumed | Idle | Flipped

  /** `attr("src", item)`: an absent item (`undefined`) leaves the attribute as it was. */
  function Loaded(s: Surface, item: Option<string>): (r: Surface)
    ensures item.Some? ==> r == s.(src := item)
    ensures item.None? ==> r == s
  {
    match item
    case Some(_) => s.(src := item)
    case None => s
  }

  /** A video as `build` styles it: at style position (0, 0), untransformed, at stacking order `z`. */
  function Styled(s: Surface, z: int): (r: Surface)
    ensures r.at == Css(0, 0) && r.transform == Untransformed && r.transition == Inherit
    ensures r.zIndex == z && r.src == s.src && r.opacity == s.opacity
  {
    s.(at := Css(0, 0), transition := Inherit, transform := Untransformed, zIndex := z)
  }

  /** A freshly created video element: no source, default style. */
  const Blank := Surface(None, Css(0, 0), 1, 0, Untransformed, Inherit)

  class SnackSliderV {
    var children: seq<string>
    var cursor: nat      // `_current`
    var flag: Index      // the active buffer
    var worker: bool     // subscribed to `ended`
    var mode: Mode
    var width: nat       // `_width`; 0 means "measure the container"
    var height: nat      // `_height`; 0 means "measure the container"
    const video: array<Surface>

    /** The active video is always stacked above the standby one. */
    ghost predicate Valid()
      reads this, video
    {
      video.Length == 2 && video[flag].zIndex == 10 && video[1 - flag].zIndex == 9
    }

    /** The `width` getter: measured afresh when the configured width is 0. */
    function Width(env: Env): (r: nat)
      reads this
      ensures width == 0 ==> r == env.width
      ensures width != 0 ==> r == width
    {
      Extent(width, env.width)
    }

    /** The `height` getter: measured afresh when the configured height is 0. */
    function Height(env: Env): (r: nat)
      reads this
      ensures height == 0 ==> r == env.height
      ensures height != 0 ==> r == height
    {
      Extent(height, env.height)
    }

    /** The constructor, followed by `build`. */
    constructor (items: seq<string>, mode: Mode, width: nat, height: nat, env: Env)
      ensures Valid() && fresh(video)
      ensures children == items && this.mode == mode && this.width == width && this.height == height
      ensures flag == 0 && !worker
      ensures cursor == CursorAfter(|items|, 0, 2)
      ensures video[0] == Loaded(Styled(Blank, 10), ItemAt(items, 0))
      ensures video[1] == Park(Loaded(Styled(Blank, 9), ItemAt(items, CursorAfter(|items|, 0, 1))),
                               mode, env, Extent(width, env.width), Extent(height, env.height))
    {
      children := items;
      this.mode := mode;
      this.width := width;
      this.height := height;
      cursor := 0;
      flag := 0;
      worker := false;
      video := new Surface[2](_ => Blank);
      new;
      Build(env);
    }

    /**
     * `build`: style each video, give it stacking order `10 - i` and load the
     * next playlist item into it; then park the standby.
     */
    method Build(env: Env)
      requires video.Length == 2 && flag == 0
      modifies this`cursor, video
      ensures Valid()
      ensures cursor == CursorAfter(|children|, old(cursor), 2)
      ensures video[0] == Loaded(Styled(old(video[0]), 10), ItemAt(children, old(cursor)))
      ensures video[1] == Park(Loaded(Styled(old(video[1]), 9), ItemAt(children, CursorAfter(|children|, old(cursor), 1))),
                               mode, env, Width(env), Height(env))
    {
      for i := 0 to 2
        invariant cursor == CursorAfter(|children|, old(cursor), i)
        invariant forall j :: 0 <= j < i ==>
                    video[j] == Loaded(Styled(old(video[j]), 10 - j), ItemAt(children, CursorAfter(|children|, old(cursor), j)))
        invariant forall j :: i <= j < 2 ==> video[j] == old(video[j])
      {
        video[i] := Styled(video[i], 10 - i);
        var item := Current();
        video[i] := Loaded(video[i], item);
      }
      SetNextCss(env);
    }

    /** The `current` getter: read the item at the cursor and move the cursor on, wrapping. */
    method Current() returns (item: Option<string>)
      modifies this`cursor
      ensures item == ItemAt(children, old(cursor))
      ensures cursor == NextCursor(|children|, old(cursor))
    {
      if cursor >= |children| {
        cursor := 0;
      }
      item := if cursor < |children| then Some(children[cursor]) else None;
      cursor := cursor + 1;
      if cursor >= |children| {
        cursor := 0;
      }
    }

    /** `set(idx, url)`. */
    method Set(idx: nat, url: string)
      requires idx < |children|
      modifies this`children
      ensures children == Replace(old(children), idx, url)
      ensures cursor == old(cursor) && flag == old(flag)
    {
      children := children[idx := url];
    }

    /** `add(idx, url)`: the index is ignored and `url` goes at the end. */
    method Add(idx: int, url: string)
      modifies this`children
      ensures children == Append(old(children), url)
      ensures cursor == old(cursor) && flag == old(flag)
    {
      children := children + [url];
    }

    /** `insert(idx, url)`. */
    method Insert(idx: nat, url: string)
      requires idx <= |children|
      modifies this`children
      ensures children == Playlist.Insert(old(children), idx, url)
      ensures cursor == old(cursor) && flag == old(flag)
    {
      children := children[..idx] + [url] + children[idx..];
    }

    /** `delete(idx)`. */
    method Delete(idx: nat)
      requires idx < |children|
      modifies this`children
      ensures children == Remove(old(children), idx)
      ensures cursor == old(cursor) && flag == old(flag)
    {
      children := children[..idx] + children[idx + 1..];
    }

    /** The `width` setter, without its restyling of the page. */
    method SetWidth(value: nat)
      modifies this`width
      ensures width == value
      ensures forall env: Env :: Width(env) == (if value == 0 then env.width else value)
    {
      width := value;
    }

    /** The `height` setter, without its restyling of the page. */
    method SetHeight(value: nat)
      modifies this`height
      ensures height == value
      ensures forall env: Env :: Height(env) == (if value == 0 then env.height else value)
    {
      height := value;
    }

    /** `setNextCss`: park the standby video for the current mode. */
    method SetNextCss(env: Env)
      requires video.Length == 2
      modifies video
      ensures video[1 - flag] == Park(old(video[1 - flag]), mode, env, Width(env), Height(env))
      ensures video[flag] == old(video[flag])
    {
      var w, h := Width(env), Height(env);
      video[1 - flag] := Park(video[1 - flag], mode, env, w, h);
    }

    /** The `mode` setter: the standby is re-parked for the new mode at once. */
    method SetMode(value: Mode, env: Env)
      requires Valid()
      modifies this`mode, video
      ensures Valid() && mode == value
      ensures video[1 - flag] == Park(old(video[1 - flag]), value, env, Width(env), Height(env))
      ensures video[flag] == old(video[flag])
    {
      mode := value;
      SetNextCss(env);
    }

    /**
     * `killTranslation(i)`: switch off animation and translation on video
     * `i`, then put it at rest if it is the active one, or re-park the standby.
     */
    method KillTranslation(i: Index, env: Env)
      requires Valid()
      modifies video
      ensures Valid()
      ensures i == flag ==> video[i] == AtRest(old(video[i]))
      ensures i != flag ==> video[i] == Park(Halted(old(video[i])), mode, env, Width(env), Height(env))
      ensures video[1 - i] == old(video[1 - i])
    {
      video[i] := Halted(video[i]);
      if i == flag {
        video[i] := AtRest(video[i]);
      } else {
        SetNextCss(env);
      }
    }

    /**
     * `play()`, up to the start of the animation. A paused, unfinished active
     * video is only resumed; an empty playlist leaves everything as it is;
     * otherwise the buffers swap roles and the incoming one is launched.
     */
    method Play(env: Env, ended: bool, paused: bool) returns (outcome: PlayOutcome)
      requires Valid()
      modifies this`flag, video
      ensures Valid()
      ensures outcome == if !ended && paused then Resumed else if |children| == 0 then Idle else Flipped
      ensures outcome != Flipped ==> flag == old(flag) && video[..] == old(video[..])
      ensures outcome == Flipped ==> flag == 1 - old(flag)
      ensures outcome == Flipped ==> video[1 - flag] == old(video[flag]).(zIndex := 9)
      ensures outcome == Flipped ==> video[flag] == Launch(old(video[1 - flag]), mode, Width(env), Height(env))
    {
      if !ended && paused {
        return Resumed;
      }
      if |children| == 0 {
        return Idle;
      }
      var f := flag;
      video[f] := video[f].(zIndex := 9);
      f := 1 - f;
      flag := f;
      if mode == Fade {
        video[f] := video[f].(zIndex := 10);
      } else {
        video[f] := video[f].(zIndex := 10, transition := Animated, transform := TransformFor(mode, Width(env), Height(env)));
      }
      outcome := Flipped;
    }

    /**
     * The animation-completion callback of `play()`, for the buffer
     * `captured` that was made active: put it at rest, load the next playlist
     * item into the other buffer, then park the standby of the moment.
     */
    method CompleteTransition(captured: Index, env: Env)
      requires Valid()
      modifies this`cursor, video
      ensures Valid()
      ensures cursor == NextCursor(|children|, old(cursor))
      ensures var rested := AtRest(old(video[captured]));
              var loaded := Loaded(old(video[1 - captured]), ItemAt(children, old(cursor)));
              if captured == flag then
                video[flag] == rested && video[1 - flag] == Park(loaded, mode, env, Width(env), Height(env))
              else
                video[flag] == loaded && video[captured] == Park(rested, mode, env, Width(env), Height(env))
    {
      video[captured] := AtRest(video[captured]);
      var item := Current();
      video[1 - captured] := Loaded(video[1 - captured], item);
      SetNextCss(env);
    }

    /** `start()`: on a non-empty playlist, play the active video and subscribe to `ended`. */
    method Start()
      modifies this`worker
      ensures worker == (old(worker) || |children| > 0)
    {
      if |children| == 0 {
        return;
      }
      worker := true;
    }

    /** `destroy()`: unsubscribe, then kill the translation of both videos. */
    method Destroy(env: Env)
      requires Valid()
      modifies this`worker, video
      ensures Valid() && !worker
      ensures video[flag] == AtRest(old(video[flag]))
      ensures video[1 - flag] == Park(Halted(old(video[1 - flag])), mode, env, Width(env), Height(env))
    {
      worker := false;
      KillTranslation(0, env);
      KillTranslation(1, env);
    }

    /** `stop()`: `destroy()`, then pause both videos. */
    method Stop(env: Env)
      requires Valid()
      modifies this`worker, video
      ensures Valid() && !worker
      ensures video[flag] == AtRest(old(video[flag]))
      ensures video[1 - flag] == Park(Halted(old(video[1 - flag])), mode, env, Width(env), Height(env))
    {
      Destroy(env);
    }

    /**
     * The `selector` setter, without the moving of page elements: a running
     * slider is stopped (measured against the old container `env`) and
     * started again.
     */
    method SetSelector(env: Env)
      requires Valid()
      modifies this`worker, video
      ensures Valid()
      ensures worker == (old(worker) && |children| > 0)
      ensures !old(worker) ==> video[..] == old(video[..])
      ensures old(worker) ==> video[flag] == AtRest(old(video[flag]))
      ensures old(worker) ==> video[1 - flag] == Park(Halted(old(video[1 - flag])), mode, env, Width(env), Height(env))
    {
      var wasRunning := worker;
      if wasRunning {
        Stop(env);
      }
      if wasRunning {
        Start();
      }
    }
  }
}

/**
 * A three-item right-sliding carousel, 800 pixels wide, through one complete
 * transition: construction loads items 0 and 1, the flip makes buffer 1
 * active, and the completion loads item 2 (the cursor stood at 2 after
 * construction) into buffer 0 and parks it one width to the right.
 */
module WalkThrough {
  import opened Wrappers
  import opened Playlist
  import opened Positioning
  import opened Slider

  method ThreeItems()
  {
    var env := Env(20, 30, 1024, 768);
    var s := new SnackSliderV(["a", "b", "c"], Right, 800, 450, env);
    assert s.video[0].src == Some("a") && s.video[1].src == Some("b");
    assert Resting(s.video[0]) && s.video[1].at == PageOffset(20, 830);
    s.Start();
    assert s.worker;
    var outcome := s.Play(env, true, false);
    assert outcome == Flipped && s.flag == 1;
    assert s.video[1].transform == TranslateX(-800);
    s.CompleteTransition(1, env);
    assert s.video[0].src == Some("c") && s.video[0].at == PageOffset(20, 830);
    assert Resting(s.video[1]) && s.video[1].src == Some("b");
    s.Stop(env);
    assert !s.worker && Resting(s.video[1]);
  }

  /**
   * The preload schedule on a running slider whose playlist is not edited:
   * after construction, the `k`-th completed transition loads item
   * `(k + 1) mod n` into the standby.
   */
  method Transitions(items: seq<string>, k: nat, env: Env) returns (loaded: Option<string>)
    requires |items| > 0 && k >= 1
    ensures loaded == Some(items[(k + 1) % |items|])
  {
    var s := new SnackSliderV(items, Right, 800, 450, env);
    loaded := None;
    var j := 0;
    while j < k
      invariant 0 <= j <= k
      invariant s.Valid() && s.children == items
      invariant s.cursor == CursorAfter(|items|, 0, j + 2)
      invariant j > 0 ==> loaded == Some(items[(j + 1) % |items|])
    {
      var outcome := s.Play(env, true, false);
      s.CompleteTransition(s.flag, env);
      PreloadSchedule(items, j + 1);
      loaded := s.video[1 - s.flag].src;
      j := j + 1;
    }
  }
}
