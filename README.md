# JB Slider: the slide/index state machine in Dafny

JB Slider is a small vanilla-JavaScript slider. A `JBSlider` object holds a
list of slides, an `activeSlide` index and, optionally, a parallel list of nav
items. On every `goToSlide(k)` it does four things:

- It gives each slide a class: *prev* if it comes before `k`, *active* if it is `k`, *next* if it comes after.
- It turns off tabbing (`tabIndex = -1`) on the inactive slides and turns it back on (`tabIndex = 0`) on the active one.
- It sets the wrapper's height to the active slide's height plus its top and bottom margins.
- It copies the split onto the nav items: items up to `k` get *visited*, and only item `k` gets *active*.

`advanceSlide` moves one step forward only when the new index is below the slide count. `retreatSlide` moves one step back only when the new index is at least 0. Each checks only that one bound, so from an index below 0, advancing still moves up by one. A resize callback re-measures the active slide.

The model has four modules:

- `Wrappers` (`wrappers.dfy`): `Option`.
- `SliderOptions` (`slider_options.dfy`): the option values and their JavaScript truthiness, and the constructor's defaults. It also holds `ExtendDefaults`, the shallow last-write-wins merge written as the source's key-by-key loop, and the `Config` the state machine reads.
- `SliderSpec` (`slider_spec.dfy`): the state machine as pure functions over a `View`. A `View` holds each slide's classes, the tab indices of its tabbable elements, its box (`offsetHeight`, `marginTop`, `marginBottom`), the nav items' classes, the active index and the wrapper height. The module also has the invariant `Consistent` and the lemmas about all of these.
- `JBSlider` (`slider.dfy`): the class `Slider`. Its slides and nav items are arrays whose elements change in place. It also has `activeSlide`, the wrapper height and a log of dispatched `slideChange` payloads. Each method's `ensures` ties the new state to the matching `SliderSpec` function of the old state. Each public method also keeps `Valid()`, which is `Consistent`. A static `Create` models the source constructor, including the case where it throws.

Two consequences of the code are worth stating:

- **Out-of-range index.** `goToSlide` does not range-check its argument. `activeSlide` can leave `0 .. N-1`, and then no slide is active (`SliderSpec.ActiveSlides`).
- **What visited means.** A nav item after the active one loses *active* but keeps *visited* if it had it. So *visited* means "was at or before the active index at some point" (`SliderSpec.GoToMirrorsNav`, `SliderSpec.GoToKeepsVisited`).

## Model

| member | source | states |
|---|---|---|
| `SliderOptions.ExtendDefaults` | jbSlider.js:125-133 | The result's keys are the default keys plus the user keys. A user key maps to the user's value. Every other default key keeps its default value. |
| `SliderOptions.ResolveLastWriteWins` | jbSlider.js:32-34 | In the resolved options, a key that was passed reads as the user's value, and a key that was not passed reads as its default. |
| `SliderOptions.DefaultConfig` | jbSlider.js:15-29 | With no settings: no nav, clicks not gated, heights monitored, no events. |
| `SliderOptions.ResolvedConfig` | jbSlider.js:22-28 | Nav sync is on exactly when the user passes both nav selectors truthy. Heights are monitored unless the user passes a falsy `monitorHeightChanges`. Click gating and events are on exactly when the user passes them truthy. The as-written nav guard passes exactly when the user passes a truthy nav wrapper selector. |
| `SliderOptions.NavGuardMismatch` | jbSlider.js:239 | As written: setting only the nav wrapper selector passes the nav-setup guard, but the nav items were never looked up. |
| `SliderSpec.GoToClassifies` | jbSlider.js:143-177 | After `goToSlide(k)`, the index is `k`. Every slide before `k` carries inactive and prev, not active or next, and has tab index -1. Slide `k` carries exactly {active} and has tab index 0. Slides after `k` carry inactive and next, not active or prev, and have tab index -1. Boxes and element counts are unchanged. |
| `SliderSpec.OnlyActiveLeft` | jbSlider.js:162-163 | Removing inactive, prev and next and then adding active leaves exactly {active}. |
| `SliderSpec.ActiveSlides` | jbSlider.js:143-177 | On a classified page, the set of slides carrying active is {k}, or empty when `k` is out of range. |
| `SliderSpec.GoToMirrorsNav` | jbSlider.js:206-228 | With nav: items at or before `k` are visited, only item `k` is active, and items after `k` keep their visited state. Without nav, the nav is untouched. |
| `SliderSpec.GoToKeepsVisited` | jbSlider.js:216-226 | The set of visited nav items only grows. |
| `SliderSpec.GoToSetsHeight` | jbSlider.js:156-159 | An in-range `goToSlide(k)` sets the height to slide `k`'s offsetHeight plus marginTop plus marginBottom. Out of range, the height is unchanged. |
| `SliderSpec.GoToIdempotent` | jbSlider.js:141-228 | `goToSlide(k)` twice in a row gives the same slides, tab indices, nav, index and height as once. |
| `SliderSpec.GoToEstablishes` | jbSlider.js:68-74 | `goToSlide` always leaves the page consistent with the new index. |
| `SliderSpec.AdvanceStep` | jbSlider.js:97-103 | From an in-range index, advancing moves one step forward, stays in range, and changes nothing at the last slide. |
| `SliderSpec.RetreatStep` | jbSlider.js:109-115 | From an in-range index, retreating moves one step back, stays in range, and changes nothing at the first slide. |
| `SliderSpec.AdvancePreserves` | jbSlider.js:97-103 | Advancing preserves consistency. |
| `SliderSpec.RetreatPreserves` | jbSlider.js:109-115 | Retreating preserves consistency. |
| `SliderSpec.ThreeSlideWalk` | jbSlider.js:97-115 | With three slides, starting at 0: advance reaches 1, then 2. A third advance changes nothing. A retreat returns to 1 with slide 1 active. |
| `SliderSpec.NavClickGate` | jbSlider.js:248-257 | A gated click on an unvisited item changes nothing. Any other click is `goToSlide(target)`. |
| `SliderSpec.NavClickOnEarlierItemMoves` | jbSlider.js:251-253 | On a consistent page, a gated click on an item at or before the active one always moves. |
| `SliderSpec.NavClickPreserves` | jbSlider.js:246-258 | A nav click preserves consistency. |
| `SliderSpec.ResizeMeasuresActive` | jbSlider.js:273-275 | A resize re-measures the active slide. Resizing another slide leaves the height as it was. Resizing the active slide takes its new box. |
| `SliderSpec.ResizeUnmonitored` | jbSlider.js:54-56 | Without height monitoring, a resize changes only that slide's box. |
| `SliderSpec.ResizePreserves` | jbSlider.js:269-276 | A resize preserves consistency. |
| `JBSlider.Slider.Create` | jbSlider.js:12-57 | Construction fails exactly when the nav wrapper selector is set but the nav item selector is not. Otherwise the config comes from the resolved options, the state is `goToSlide(0)` of the page found, its event is logged, and the object is valid. |
| `JBSlider.Slider.constructor` | jbSlider.js:36-51 | From resolved options it never fails. Nav items are kept only when both nav selectors are set, and there are none otherwise. The state is `goToSlide(0)` of the page found, its event is logged, and the object is valid. |
| `JBSlider.Slider.GoToSlide` | jbSlider.js:68-91 | New state is `GoTo` of the old state. `activeSlide == toIndex` even out of range. The logged payload is (old index, `toIndex`) when events are on. |
| `JBSlider.Slider.AdvanceSlide` | jbSlider.js:97-103 | The index goes up by one if that is less than the slide count. Otherwise nothing changes. Events are logged accordingly. |
| `JBSlider.Slider.RetreatSlide` | jbSlider.js:109-115 | The index goes down by one if that is at least 0. Otherwise nothing changes. Events are logged accordingly. |
| `JBSlider.Slider.PrivateGoToSlide` | jbSlider.js:141-178 | Every slide gets the class edits and tab index for its position relative to `toIndex`. Only the target slide sets the height. |
| `JBSlider.Slider.SetTabIndex` | jbSlider.js:188-198 | Every tabbable element of the slide gets the value. Nothing else changes. |
| `JBSlider.Slider.UpdateSliderNav` | jbSlider.js:206-228 | Nav items get the class edits for their position. Without nav, they are untouched. |
| `JBSlider.Slider.NavClick` | jbSlider.js:246-258 | When gated and the item is not visited, nothing changes and nothing is logged. Otherwise the click does `goToSlide(linkedSlide)`. |
| `JBSlider.Slider.SlideResized` | jbSlider.js:269-276 | The slide's box changes. With monitoring on, the height becomes the active slide's. The callback throws exactly when the index is out of range. |
| `JBSlider.Slider.HeightChanged` | jbSlider.js:273-275 | It measures `slides[activeSlide]`. It throws, changing nothing, when `activeSlide` is out of range. |
| `JBSlider.ThreeSlideScenario` | jbSlider.js:51 | With three slides and default options, the index goes 0, 1, 2, stays 2 on a third advance, and returns to 1 on a retreat. |
| `JBSlider.Slider.UpdateHeight` | jbSlider.js:286-293 | The wrapper height becomes offsetHeight + marginTop + marginBottom. |

## Left out

- DOM lookup. `querySelector` and `querySelectorAll` are not modelled. The constructor takes the slides and nav items found in the page as inputs. An unmatched slide or nav item selector gives an empty list, which the model covers. An unmatched wrapper or nav wrapper selector makes the source throw at construction; that is not modelled.
- Measurement. `offsetHeight`, `getComputedStyle` and the `parseInt` of margin strings are not modelled. A slide's box is given as three integers. A margin that parses to NaN is not modelled.
- The `'px'` suffix. The wrapper height is kept as the integer before the suffix is appended.
- Class names. The four slide classes and two nav classes are distinct tags. Class names that the user configures to coincide, the `null` default nav class names (which the DOM turns into the class `"null"`), and classes other than the slider's own are not modelled.
- Event plumbing. `CustomEvent`, `dispatchEvent`, bubbling and cancelation are not modelled. Only the payloads, in dispatch order, are kept.
- Listener registration. `addEventListener`, `preventDefault` and the `addResizeListener` registration are not modelled. The click handler body and the resize callback body are the only parts modelled. `SlideResized` stands for the page changing a slide's box and the registered callback then firing.
- `data-slide-step`. The value is taken as an integer argument of `NavClick`; a value that parses to NaN is not modelled.
- Options. Option values are limited to undefined, null, booleans, integers and strings. The user settings are the own enumerable properties of the argument, which is why `hasOwnProperty` has no counterpart. `extendDefaults` writes into the defaults object it is given. That object is a fresh literal, so the model merges values instead.
- Selector and class-name strings. The model keeps them in `Defaults` but does not read them.

## Findings

| source | as written | input that shows it | evidently intended | confidence | as-written member | corrected member |
|---|---|---|---|---|---|---|
| jbSlider.js:42-45, 208, 239-242 | The constructor looks up `navItems` only when both `navWrapperSelector` and `navItemSelector` are set, but `moveSliderOnNavClick` and `updateSliderNav` test only `navWrapperSelector` before reading `this.navItems.length` | options `{navWrapperSelector: '.slider-nav'}` without `navItemSelector`: `navItems` is undefined and construction throws in `moveSliderOnNavClick`; `JBSlider.Slider.Create` returns `None` on it | nav handling runs only when the nav items were looked up: the slider is built without nav and construction does not fail | high, not executed | `SliderOptions.NavGuardMismatch` | `JBSlider.Slider.constructor` |
