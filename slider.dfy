/**
 * The `JBSlider` object: its slides and nav items as arrays whose elements
 * the methods rewrite in place, its `activeSlide` index, the wrapper's inline
 * height and the log of dispatched `slideChange` events. Every method is
 * proved against the matching function of `SliderSpec`.
 */
module JBSlider {
  import opened Wrappers
  import opened SliderOptions
  import opened SliderSpec

  class Slider {
    const config: Config
    const slides: array<Slide>
    const navItems: array<set<NavTag>>
    var activeSlide: int
    var wrapperHeight: Option<int>
    var dispatched: seq<SlideChange>

    /** The abstract page this object holds. */
    ghost function State(): View
      reads this, slides, navItems
    {
      View(slides[..], navItems[..], activeSlide, wrapperHeight)
    }

    ghost predicate Valid()
      reads this, slides, navItems
    {
      Consistent(config, State())
    }

    /**
     * The `JBSlider` constructor as written: resolve the options, look up
     * the page, install the nav-click handlers and move to slide 0. When
     * the nav wrapper selector is set but the nav item selector is not, the
     * nav items are never looked up and installing the handlers reads
     * `navItems.length` of `undefined`: construction throws (`None`).
     */
    static method Create(userSettings: Option<map<string, OptionValue>>, slideElements: seq<Slide>, navElements: seq<set<NavTag>>)
      returns (made: Option<Slider>)
      ensures made.None? <==> NavSetupRunsAsWritten(Resolve(userSettings)) && !NavItemsQueried(Resolve(userSettings))
      ensures made.Some? ==>
        && fresh(made.value) && fresh(made.value.slides) && fresh(made.value.navItems)
        && made.value.config == ConfigOf(Resolve(userSettings))
        && made.value.State() == GoTo(made.value.config, View(slideElements, if made.value.config.navEnabled then navElements else [], 0, None), 0)
        && made.value.dispatched == ChangeEvents(made.value.config, 0, 0)
        && made.value.Valid()
    {
      var opts := Defaults();
      if userSettings.Some? {
        opts := ExtendDefaults(opts, userSettings.value);
      }
      assert opts == Resolve(userSettings);
      if NavSetupRunsAsWritten(opts) && !NavItemsQueried(opts) {
        return None;
      }
      var slider := new Slider(opts, slideElements, navElements);
      return Some(slider);
    }

    /**
     * Builds a slider from resolved options and the slides (and, when nav
     * is enabled, the nav items) found in the page, and moves to slide 0.
     * It never fails: without both nav selectors there is simply no nav.
     */
    constructor (opts: map<string, OptionValue>, slideElements: seq<Slide>, navElements: seq<set<NavTag>>)
      ensures config == ConfigOf(opts)
      ensures fresh(slides) && fresh(navItems)
      ensures !NavItemsQueried(opts) ==> navItems.Length == 0
      ensures State() == GoTo(config, View(slideElements, if config.navEnabled then navElements else [], 0, None), 0)
      ensures dispatched == ChangeEvents(config, 0, 0)
      ensures Valid()
    {
      config := ConfigOf(opts);
      slides := new Slide[|slideElements|](i requires 0 <= i < |slideElements| => slideElements[i]);
      var found := if ConfigOf(opts).navEnabled then navElements else [];
      navItems := new set<NavTag>[|found|](i requires 0 <= i < |found| => found[i]);
      activeSlide := 0;
      wrapperHeight := None;
      dispatched := [];
      new;
      assert slides[..] == slideElements;
      assert navItems[..] == found;
      GoToSlide(0);
    }

    /** `goToSlide`: reclassify everything for `toIndex` (not range-checked), record it, dispatch the event. */
    method GoToSlide(toIndex: int)
      modifies this, slides, navItems
      ensures State() == GoTo(config, old(State()), toIndex)
      ensures dispatched == old(dispatched) + ChangeEvents(config, old(activeSlide), toIndex)
      ensures Valid()
    {
      var prevSlideIndex := activeSlide;
      PrivateGoToSlide(toIndex);
      UpdateSliderNav(toIndex);
      activeSlide := toIndex;
      if config.eventsOnSlideChange {
        dispatched := dispatched + [SlideChange(prevSlideIndex, toIndex)];
      }
      GoToEstablishes(config, old(State()), toIndex);
    }

    /** `advanceSlide`: move to the next slide if there is one. */
    method AdvanceSlide()
      requires Valid()
      modifies this, slides, navItems
      ensures State() == Advance(config, old(State()))
      ensures activeSlide == if old(activeSlide) + 1 < slides.Length then old(activeSlide) + 1 else old(activeSlide)
      ensures dispatched == old(dispatched) + if old(activeSlide) + 1 < slides.Length then ChangeEvents(config, old(activeSlide), old(activeSlide) + 1) else []
      ensures Valid()
    {
      var toIndex := activeSlide + 1;
      if toIndex < slides.Length {
        GoToSlide(toIndex);
      }
    }

    /** `retreatSlide`: move to the previous slide if there is one. */
    method RetreatSlide()
      requires Valid()
      modifies this, slides, navItems
      ensures State() == Retreat(config, old(State()))
      ensures activeSlide == if old(activeSlide) - 1 >= 0 then old(activeSlide) - 1 else old(activeSlide)
      ensures dispatched == old(dispatched) + if old(activeSlide) - 1 >= 0 then ChangeEvents(config, old(activeSlide), old(activeSlide) - 1) else []
      ensures Valid()
    {
      var toIndex := activeSlide - 1;
      if toIndex >= 0 {
        GoToSlide(toIndex);
      }
    }

    /** `privateGoToSlide`: sort every slide into before, active or after `toIndex`. */
    method PrivateGoToSlide(toIndex: int)
      modifies slides, this`wrapperHeight
      ensures slides[..] == GoTo(config, old(State()), toIndex).slides
      ensures wrapperHeight == GoTo(config, old(State()), toIndex).height
    {
      var i := 0;
      while i < slides.Length
        invariant 0 <= i <= slides.Length
        invariant forall j :: 0 <= j < i ==> slides[j] == SlideAfter(old(slides[j]), j, toIndex)
        invariant forall j :: i <= j < slides.Length ==> slides[j] == old(slides[j])
        invariant wrapperHeight == if 0 <= toIndex < i then Some(BoxHeight(old(slides[toIndex]).box)) else old(wrapperHeight)
      {
        var currentSlide := slides[i];
        if i < toIndex {
          slides[i] := currentSlide.(classes := currentSlide.classes - {Active, Next} + {Inactive, Prev});
          SetTabIndex(i, -1);
        } else if i == toIndex {
          UpdateHeight(currentSlide.box);
          slides[i] := currentSlide.(classes := currentSlide.classes - {Inactive, Prev, Next} + {Active});
          SetTabIndex(i, 0);
        } else if i > toIndex {
          slides[i] := currentSlide.(classes := currentSlide.classes - {Active, Prev} + {Inactive, Next});
          SetTabIndex(i, -1);
        }
        i := i + 1;
      }
    }

    /** `setTabIndex`: give every tabbable element of slide `i` the tab index `value`. */
    method SetTabIndex(i: int, value: int)
      requires 0 <= i < slides.Length
      modifies slides
      ensures slides[..] == old(slides[..])[i := old(slides[i]).(tabIndex := Filled(old(slides[i]).tabIndex, value))]
    {
      var n := |slides[i].tabIndex|;
      var j := 0;
      while j < n
        invariant 0 <= j <= n
        invariant |slides[i].tabIndex| == n
        invariant slides[i].classes == old(slides[i]).classes && slides[i].box == old(slides[i]).box
        invariant forall m :: 0 <= m < j ==> slides[i].tabIndex[m] == value
        invariant forall m :: j <= m < n ==> slides[i].tabIndex[m] == old(slides[i]).tabIndex[m]
        invariant forall p :: 0 <= p < slides.Length && p != i ==> slides[p] == old(slides[p])
      {
        slides[i] := slides[i].(tabIndex := slides[i].tabIndex[j := value]);
        j := j + 1;
      }
      assert slides[i].tabIndex == Filled(old(slides[i]).tabIndex, value);
    }

    /** `updateSliderNav`: mirror the before/active/after split onto the nav items, if there is a nav. */
    method UpdateSliderNav(toIndex: int)
      modifies navItems
      ensures navItems[..] == GoTo(config, old(State()), toIndex).nav
    {
      if !config.navEnabled {
        return;
      }
      var i := 0;
      while i < navItems.Length
        invariant 0 <= i <= navItems.Length
        invariant forall j :: 0 <= j < i ==> navItems[j] == NavClassesAfter(old(navItems[j]), j, toIndex)
        invariant forall j :: i <= j < navItems.Length ==> navItems[j] == old(navItems[j])
      {
        var currentNavItem := navItems[i];
        if i < toIndex {
          navItems[i] := currentNavItem - {NavActive} + {NavVisited};
        } else if i == toIndex {
          navItems[i] := currentNavItem + {NavActive, NavVisited};
        } else if i > toIndex {
          navItems[i] := currentNavItem - {NavActive};
        }
        i := i + 1;
      }
    }

    /**
     * The click handler of nav item `i`, whose `data-slide-step` reads
     * `linkedSlide`: it moves there unless clicks are limited to visited
     * items and this one is not visited.
     */
    method NavClick(i: int, linkedSlide: int)
      requires Valid()
      requires config.navEnabled && 0 <= i < navItems.Length
      modifies this, slides, navItems
      ensures State() == SliderSpec.NavClick(config, old(State()), i, linkedSlide)
      ensures dispatched == old(dispatched) + if NavClickMoves(config, old(State()), i) then ChangeEvents(config, old(activeSlide), linkedSlide) else []
      ensures Valid()
    {
      if config.navForVisitedSlidesOnly {
        if NavVisited in navItems[i] {
          GoToSlide(linkedSlide);
        }
      } else {
        GoToSlide(linkedSlide);
      }
    }

    /** The page resizes slide `j` to box `b`; when heights are monitored, the resize callback runs. */
    method SlideResized(j: int, b: Box) returns (thrown: bool)
      requires Valid()
      requires 0 <= j < slides.Length
      modifies this`wrapperHeight, slides
      ensures State() == Resized(config, old(State()), j, b)
      ensures thrown == ResizeThrows(config, old(State()))
      ensures Valid()
    {
      slides[j] := slides[j].(box := b);
      thrown := false;
      if config.monitorHeightChanges {
        thrown := HeightChanged();
      }
      ResizePreserves(config, old(State()), j, b);
    }

    /**
     * The resize callback: re-measure the active slide. With the index out
     * of range `slides[activeSlide]` is undefined, the call throws, and
     * nothing changes.
     */
    method HeightChanged() returns (thrown: bool)
      modifies this`wrapperHeight
      ensures thrown == !(0 <= activeSlide < slides.Length)
      ensures !thrown ==> wrapperHeight == Some(BoxHeight(slides[activeSlide].box))
      ensures thrown ==> wrapperHeight == old(wrapperHeight)
    {
      if 0 <= activeSlide < slides.Length {
        UpdateHeight(slides[activeSlide].box);
        thrown := false;
      } else {
        thrown := true;
      }
    }

    /** `updateHeight`: the wrapper takes the slide's offsetHeight plus its top and bottom margins. */
    method UpdateHeight(b: Box)
      modifies this`wrapperHeight
      ensures wrapperHeight == Some(b.offsetHeight + b.marginTop + b.marginBottom)
    {
      var slideHeight := b.offsetHeight;
      slideHeight := slideHeight + b.marginTop + b.marginBottom;
      wrapperHeight := Some(slideHeight);
    }
  }

  /**
   * Three slides with default options: the index after construction and
   * after each of advance, advance, advance (ignored at the last slide)
   * and retreat.
   */
  method ThreeSlideScenario(s0: Slide, s1: Slide, s2: Slide) returns (walk: seq<int>)
    ensures walk == [0, 1, 2, 2, 1]
  {
    var made := Slider.Create(None, [s0, s1, s2], []);
    var slider := made.value;
    walk := [slider.activeSlide];
    slider.AdvanceSlide();
    walk := walk + [slider.activeSlide];
    slider.AdvanceSlide();
    walk := walk + [slider.activeSlide];
    slider.AdvanceSlide();
    walk := walk + [slider.activeSlide];
    slider.RetreatSlide();
    walk := walk + [slider.activeSlide];
    assert slider.slides[1].classes == {Active};
  }
}
