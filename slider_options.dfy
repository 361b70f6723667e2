/**
 * The slider's option bag: the defaults set by the `JBSlider` constructor,
 * the shallow last-write-wins merge done by `extendDefaults`, and the few
 * option values that the slide/index state machine consults.
 */
module SliderOptions {
  import opened Wrappers

  /** The JavaScript values an option can hold. */
  datatype OptionValue = Undefined | Null | Flag(b: bool) | Num(n: int) | Str(s: string)

  /** JavaScript truthiness, as used by the `if (this.options.x)` tests. */
  predicate Truthy(v: OptionValue) {
    match v
    case Undefined => false
    case Null => false
    case Flag(b) => b
    case Num(n) => n != 0
    case Str(s) => s != ""
  }

  /** Property lookup: a missing key reads as `undefined`. */
  function Get(opts: map<string, OptionValue>, key: string): OptionValue {
    if key in opts then opts[key] else Undefined
  }

  /** The option defaults the constructor starts from. */
  function Defaults(): map<string, OptionValue> {
    map[
      "wrapperSelector" := Str(".slider"),
      "slideSelector" := Str(".slider__slide"),
      "activeClass" := Str("slider__slide--active"),
      "inactiveClass" := Str("slider__slide--inactive"),
      "prevClass" := Str("slider__slide--prev"),
      "nextClass" := Str("slider__slide--next"),
      "navWrapperSelector" := Null,
      "navItemSelector" := Null,
      "navActiveClass" := Null,
      "navVisitedClass" := Null,
      "navForVisitedSlidesOnly" := Flag(false),
      "monitorHeightChanges" := Flag(true),
      "eventsOnSlideChange" := Flag(false)
    ]
  }

  /**
   * Overrides default options with the user's own settings, one key at a
   * time, as the `for … in` loop does: a user key always wins, every other
   * default key keeps its default value, and no other key appears.
   */
  method ExtendDefaults<V>(defaults: map<string, V>, userSettings: map<string, V>) returns (r: map<string, V>)
    ensures r.Keys == defaults.Keys + userSettings.Keys
    ensures forall setting :: setting in userSettings ==> r[setting] == userSettings[setting]
    ensures forall setting :: setting in defaults && setting !in userSettings ==> r[setting] == defaults[setting]
  {
    r := defaults;
    var pending := userSettings.Keys;
    while pending != {}
      invariant pending <= userSettings.Keys
      invariant r.Keys == defaults.Keys + (userSettings.Keys - pending)
      invariant forall setting :: setting in userSettings && setting !in pending ==> r[setting] == userSettings[setting]
      invariant forall setting :: setting in defaults && (setting !in userSettings || setting in pending) ==> r[setting] == defaults[setting]
      decreases pending
    {
      var setting :| setting in pending;
      r := r[setting := userSettings[setting]];
      pending := pending - {setting};
    }
  }

  /**
   * The options the constructor ends up with: the defaults, overlaid with
   * the argument when an object was passed.
   */
  function Resolve(userSettings: Option<map<string, OptionValue>>): map<string, OptionValue> {
    if userSettings.Some? then Defaults() + userSettings.value else Defaults()
  }

  /** The resolved options that steer the state machine. */
  datatype Config = Config(
    navEnabled: bool,
    navForVisitedSlidesOnly: bool,
    monitorHeightChanges: bool,
    eventsOnSlideChange: bool)

  /**
   * Nav synchronisation is on only when both nav selectors are set: that
   * is when the constructor queries the nav items.
   */
  function ConfigOf(opts: map<string, OptionValue>): Config {
    Config(
      Truthy(Get(opts, "navWrapperSelector")) && Truthy(Get(opts, "navItemSelector")),
      Truthy(Get(opts, "navForVisitedSlidesOnly")),
      Truthy(Get(opts, "monitorHeightChanges")),
      Truthy(Get(opts, "eventsOnSlideChange")))
  }

  /** With no settings passed, there is no nav, clicks are not gated, heights are monitored and no events fire. */
  lemma DefaultConfig()
    ensures ConfigOf(Resolve(None)) == Config(false, false, true, false)
  {
  }

  /**
   * What the passed settings decide. Every nav default is `null`, so nav
   * synchronisation is on exactly when the user passes both nav selectors;
   * heights are monitored unless the user passes a falsy value; clicks are
   * gated and events fire only when the user turns them on.
   */
  lemma ResolvedConfig(userSettings: map<string, OptionValue>)
    ensures var c := ConfigOf(Resolve(Some(userSettings)));
      && (c.navEnabled <==> Truthy(Get(userSettings, "navWrapperSelector")) && Truthy(Get(userSettings, "navItemSelector")))
      && (c.navForVisitedSlidesOnly <==> Truthy(Get(userSettings, "navForVisitedSlidesOnly")))
      && (c.monitorHeightChanges <==> "monitorHeightChanges" !in userSettings || Truthy(userSettings["monitorHeightChanges"]))
      && (c.eventsOnSlideChange <==> Truthy(Get(userSettings, "eventsOnSlideChange")))
    ensures NavSetupRunsAsWritten(Resolve(Some(userSettings))) <==> Truthy(Get(userSettings, "navWrapperSelector"))
  {
  }

  /** A user setting overrides the default; an unset option keeps its default. */
  lemma ResolveLastWriteWins(userSettings: map<string, OptionValue>, key: string)
    ensures key in userSettings ==> Get(Resolve(Some(userSettings)), key) == userSettings[key]
    ensures key !in userSettings ==> Get(Resolve(Some(userSettings)), key) == Get(Defaults(), key)
  {
  }

  // The constructor queries the nav items only when both nav selectors are
  // set, but the nav-click setup and the nav update test the wrapper
  // selector alone.

  /** The test that guards the nav-click setup and the nav update in the source. */
  predicate NavSetupRunsAsWritten(opts: map<string, OptionValue>) {
    Truthy(Get(opts, "navWrapperSelector"))
  }

  /** The test under which the constructor looks up the nav items. */
  predicate NavItemsQueried(opts: map<string, OptionValue>) {
    Truthy(Get(opts, "navWrapperSelector")) && Truthy(Get(opts, "navItemSelector"))
  }

  /**
   * Setting only the nav wrapper selector makes the nav-click setup walk
   * nav items that were never looked up, so construction fails.
   */
  lemma NavGuardMismatch()
    ensures var opts := Resolve(Some(map["navWrapperSelector" := Str(".slider-nav")]));
      NavSetupRunsAsWritten(opts) && !NavItemsQueried(opts)
  {
    var opts := Resolve(Some(map["navWrapperSelector" := Str(".slider-nav")]));
    assert Get(opts, "navItemSelector") == Null;
  }
}
