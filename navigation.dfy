/** The appearance rules of `NavigationController.swift`: the bar style option
    set, the per-controller configuration and its derived flags, what applying a
    configuration does to the navigation bar and to the fake toolbars, the
    choice of configuration around a push or pop, and the admission rule of the
    full-screen pop gesture. Colours and images are opaque tokens. */
module Navigation {
  import opened Wrappers

  // ---------------------------------------------------------------------------
  // Tokens
  // ---------------------------------------------------------------------------

  /** A `UIColor`: the three system colours the rules name, or any other. */
  datatype Color = White | Black | DarkGray | Custom(id: nat)

  /** A `UIImage`: the empty image `UIImage()`, an image filled with one colour
      (`UIImage(color:size:)`, its size not modelled), or a caller's picture. */
  datatype Image = Blank | Fill(color: Color) | Picture(id: nat)

  /** `UIBarStyle`, the two values the rules produce. */
  datatype BarStyle = DefaultBar | BlackBar

  /** Title text attributes: attribute keys to opaque values. */
  type Attributes = map<string, nat>

  /** A `CGRect`. */
  datatype Rect = Rect(x: real, y: real, width: real, height: real)

  // ---------------------------------------------------------------------------
  // `UINavigationBar.Style`
  // ---------------------------------------------------------------------------

  /** An option set over a 64-bit `UInt`. */
  datatype Style = Style(rawValue: bv64)
  {
    /** `contains(_:)`: every bit of `member` is set here. */
    predicate Contains(member: Style)
    {
      rawValue & member.rawValue == member.rawValue
    }

    /** Array-literal construction `[a, b]` of an option set. */
    function Union(other: Style): (u: Style)
      ensures u.Contains(this) && u.Contains(other)
    {
      Style(rawValue | other.rawValue)
    }
  }

  /** The union is the least set containing both operands: every set holding
      both holds the union, so the union has no option neither operand has. */
  lemma UnionIsLeast(a: Style, b: Style)
    ensures forall m: Style :: m.Contains(a) && m.Contains(b) ==> m.Contains(a.Union(b))
  {
    forall m: Style | m.Contains(a) && m.Contains(b)
      ensures m.Contains(a.Union(b))
    {
      CoversUnion(m, a, b);
    }
  }

  lemma CoversUnion(m: Style, a: Style, b: Style)
    requires m.Contains(a) && m.Contains(b)
    ensures m.Contains(a.Union(b))
  {
    MaskCoversUnion(m, a, b);
  }

  /** A mask covering two masks covers their union. */
  lemma MaskCoversUnion(m: Style, a: Style, b: Style)
    requires m.rawValue & a.rawValue == a.rawValue && m.rawValue & b.rawValue == b.rawValue
    ensures m.rawValue & (a.rawValue | b.rawValue) == a.rawValue | b.rawValue
  {
  }

  // The source writes these as 1 << 1 up to 1 << 7.
  const Show: Style := Style(0x02)
  const Hidden: Style := Style(0x04)
  const LightContent: Style := Style(0x08)
  const DarkContent: Style := Style(0x10)
  const Translucent: Style := Style(0x20)
  const Transparent: Style := Style(0x40)
  const ShadowHidden: Style := Style(0x80)

  /** `.default`: `[.show, .darkContent, .translucent]`. */
  const DefaultStyle: Style := Show.Union(DarkContent).Union(Translucent)

  /** The named options, in declaration order. */
  const Options: seq<Style> := [Show, Hidden, LightContent, DarkContent, Translucent, Transparent, ShadowHidden]

  /** The named options are the single bits 1 to 7, no two alike, and the
      default style holds exactly show, darkContent and translucent. */
  lemma StyleOptionsAreSingleBits()
    ensures forall i :: 0 <= i < |Options| ==> Options[i].rawValue == 1 << (i + 1)
    ensures forall i, j :: 0 <= i < j < |Options| ==> Options[i].rawValue & Options[j].rawValue == 0
    ensures DefaultStyle.rawValue == 0x32
    ensures DefaultStyle.Contains(Show) && DefaultStyle.Contains(DarkContent) && DefaultStyle.Contains(Translucent)
    ensures !DefaultStyle.Contains(Hidden) && !DefaultStyle.Contains(LightContent)
    ensures !DefaultStyle.Contains(Transparent) && !DefaultStyle.Contains(ShadowHidden)
  {
  }

  // ---------------------------------------------------------------------------
  // `UINavigationBar.Configure`
  // ---------------------------------------------------------------------------

  datatype Configure = Configure(
    style: Style,
    tintColor: Color,
    backgroundColor: Option<Color>,
    backgroundImage: Option<Image>,
    shadowImage: Option<Image>,
    textAttributes: Option<Attributes>)
  {
    predicate IsHidden()
    {
      style.Contains(Hidden)
    }

    /** `barStyle`: black for light content, default otherwise. */
    function BarStyle(): BarStyle
    {
      if style.Contains(LightContent) then BlackBar else DefaultBar
    }

    predicate IsTranslucent()
    {
      style.Contains(Translucent)
    }

    predicate IsTransparent()
    {
      style.Contains(Transparent)
    }

    predicate IsShadowHidden()
    {
      style.Contains(ShadowHidden) || IsTransparent()
    }

    /** `isVisiable` in the source. */
    predicate IsVisible()
    {
      !IsHidden() && !IsTransparent()
    }

    predicate UsingSystemBarStyle()
    {
      backgroundColor == None && backgroundImage == None
    }
  }

  /** Each derived flag as a formula over the style bits. */
  lemma DerivedFlagsAreBitFormulas(c: Configure)
    ensures c.IsHidden() <==> c.style.rawValue & 0x04 != 0
    ensures c.BarStyle() == BlackBar <==> c.style.rawValue & 0x08 != 0
    ensures c.IsTranslucent() <==> c.style.rawValue & 0x20 != 0
    ensures c.IsShadowHidden() <==> c.style.rawValue & 0xC0 != 0
    ensures c.IsVisible() <==> c.style.rawValue & 0x44 == 0
  {
    SingleBitFlags(c);
    ShadowHiddenBits(c);
    VisibleBits(c);
  }

  lemma SingleBitFlags(c: Configure)
    ensures c.IsHidden() <==> c.style.rawValue & 0x04 != 0
    ensures c.BarStyle() == BlackBar <==> c.style.rawValue & 0x08 != 0
    ensures c.IsTranslucent() <==> c.style.rawValue & 0x20 != 0
  {
    SingleBitMasks(c.style.rawValue);
  }

  lemma ShadowHiddenBits(c: Configure)
    ensures c.IsShadowHidden() <==> c.style.rawValue & 0xC0 != 0
  {
    var r := c.style.rawValue;
    TwoBitMasks(r);
    assert c.style.Contains(ShadowHidden) <==> r & 0x80 == 0x80;
    assert c.IsTransparent() <==> r & 0x40 == 0x40;
  }

  lemma VisibleBits(c: Configure)
    ensures c.IsVisible() <==> c.style.rawValue & 0x44 == 0
  {
    var r := c.style.rawValue;
    TwoBitMasks(r);
    assert c.IsHidden() <==> r & 0x04 == 0x04;
    assert c.IsTransparent() <==> r & 0x40 == 0x40;
  }

  /** For a single bit, containing it and overlapping it agree. */
  lemma SingleBitMasks(r: bv64)
    ensures r & 0x04 == 0x04 <==> r & 0x04 != 0
    ensures r & 0x08 == 0x08 <==> r & 0x08 != 0
    ensures r & 0x20 == 0x20 <==> r & 0x20 != 0
  {
  }

  lemma TwoBitMasks(r: bv64)
    ensures r & 0xC0 != 0 <==> r & 0x80 == 0x80 || r & 0x40 == 0x40
    ensures r & 0x44 == 0 <==> r & 0x04 != 0x04 && r & 0x40 != 0x40
  {
  }

  /** A transparent bar hides its shadow and is not visible. */
  lemma TransparentHidesShadow(c: Configure)
    ensures c.IsTransparent() ==> c.IsShadowHidden() && !c.IsVisible()
  {
  }

  /** `Configure(style:tintColor:backgroundColor:backgroundImage:)`. */
  function MakeConfigure(style: Style, tintColor: Option<Color>, backgroundColor: Option<Color>,
                         backgroundImage: Option<Image>): (c: Configure)
    ensures c.style == style && c.backgroundColor == backgroundColor && c.backgroundImage == backgroundImage
    ensures c.shadowImage == None && c.textAttributes == None
    ensures tintColor.Some? ==> c.tintColor == tintColor.value
    ensures tintColor.None? ==> (c.tintColor == White <==> style.Contains(LightContent))
    ensures tintColor.None? ==> (c.tintColor == Black <==> !style.Contains(LightContent))
  {
    var tint := match tintColor
      case Some(color) => color
      case None => if style.Contains(LightContent) then White else Black;
    Configure(style, tint, backgroundColor, backgroundImage, None, None)
  }

  /** `NavigationController.defaultConfigure`, `.init(style: .default)`. */
  function DefaultConfigure(): Configure
  {
    MakeConfigure(DefaultStyle, None, None, None)
  }

  /** The default configuration shows a translucent default-style bar with a
      black tint, its shadow and the system background. */
  lemma DefaultConfigureFlags()
    ensures DefaultConfigure().IsVisible() && DefaultConfigure().IsTranslucent()
    ensures !DefaultConfigure().IsShadowHidden() && DefaultConfigure().UsingSystemBarStyle()
    ensures DefaultConfigure().BarStyle() == DefaultBar && DefaultConfigure().tintColor == Black
  {
    StyleOptionsAreSingleBits();
  }

  /** A property a `ConfigureProtocol` conformer may leave to the protocol's
      default implementation, or provide itself. */
  datatype Declared<T> = Inherit | Own(value: T)
  {
    function Or(fallback: T): (r: T)
      ensures Own? ==> r == value
      ensures Inherit? ==> r == fallback
    {
      match this
      case Own(v) => v
      case Inherit => fallback
    }
  }

  /** The `UINavigationBar.appearance()` values the protocol defaults read. */
  datatype Appearance = Appearance(
    titleTextAttributes: Option<Attributes>,
    shadowImage: Option<Image>,
    backgroundColor: Option<Color>,
    backgroundImage: Option<Image>)

  /** A view controller's `ConfigureProtocol` conformance. */
  datatype ControllerConfigure = ControllerConfigure(
    style: Style,
    tintColor: Color,
    textAttributes: Declared<Option<Attributes>>,
    shadowImage: Declared<Option<Image>>,
    backgroundColor: Declared<Option<Color>>,
    backgroundImage: Declared<Option<Image>>)

  /** `Configure(configure:)`: copies the six protocol properties, those left
      to the protocol taken from the bar appearance. */
  function FromProtocol(p: ControllerConfigure, appearance: Appearance): (c: Configure)
    ensures c.style == p.style && c.tintColor == p.tintColor
    ensures p.textAttributes.Own? ==> c.textAttributes == p.textAttributes.value
    ensures p.textAttributes.Inherit? ==> c.textAttributes == appearance.titleTextAttributes
    ensures p.shadowImage.Own? ==> c.shadowImage == p.shadowImage.value
    ensures p.shadowImage.Inherit? ==> c.shadowImage == appearance.shadowImage
    ensures p.backgroundColor.Own? ==> c.backgroundColor == p.backgroundColor.value
    ensures p.backgroundColor.Inherit? ==> c.backgroundColor == appearance.backgroundColor
    ensures p.backgroundImage.Own? ==> c.backgroundImage == p.backgroundImage.value
    ensures p.backgroundImage.Inherit? ==> c.backgroundImage == appearance.backgroundImage
  {
    Configure(p.style, p.tintColor,
              p.backgroundColor.Or(appearance.backgroundColor),
              p.backgroundImage.Or(appearance.backgroundImage),
              p.shadowImage.Or(appearance.shadowImage),
              p.textAttributes.Or(appearance.titleTextAttributes))
  }

  // ---------------------------------------------------------------------------
  // What `apply` decides, field by field
  // ---------------------------------------------------------------------------

  /** The background image: nothing for a hidden or transparent bar, else the
      configured image, else a fill of the configured colour, else a fill of
      dark gray under a black bar style and of white otherwise. */
  function BarBackground(c: Configure, transparent: bool): Image
  {
    if !c.IsVisible() || transparent then Blank
    else match c.backgroundImage
      case Some(image) => image
      case None =>
        match c.backgroundColor
        case Some(color) => Fill(color)
        case None => Fill(if c.BarStyle() == BlackBar then DarkGray else White)
  }

  /** The shadow image: the empty image when transparent, shadow-hidden or not
      visible, else the configured one. */
  function BarShadow(c: Configure, transparent: bool): Option<Image>
  {
    if transparent || c.IsShadowHidden() || !c.IsVisible() then Some(Blank) else c.shadowImage
  }

  function BarTranslucent(c: Configure, transparent: bool): bool
  {
    transparent || c.IsTranslucent() || !c.IsVisible()
  }

  /** The title attributes after merging in `incoming`: unchanged without
      incoming attributes; with them, the union, the incoming value winning on
      a key both have. */
  function MergeTitle(existing: Option<Attributes>, incoming: Option<Attributes>): (r: Option<Attributes>)
    ensures incoming.None? ==> r == existing
    ensures incoming.Some? ==> r.Some?
    ensures incoming.Some? ==> r.value.Keys == incoming.value.Keys + existing.GetOr(map[]).Keys
    ensures incoming.Some? ==> forall k :: k in incoming.value ==> r.value[k] == incoming.value[k]
    ensures incoming.Some? && existing.Some? ==>
              forall k :: k in existing.value && k !in incoming.value ==> r.value[k] == existing.value[k]
  {
    match incoming
    case None => existing
    case Some(attributes) =>
      match existing
      case Some(present) => Some(present + attributes)
      case None => Some(attributes)
  }

  /** Merging the same attributes a second time changes nothing. */
  lemma MergeTitleIsIdempotent(existing: Option<Attributes>, incoming: Option<Attributes>)
    ensures MergeTitle(MergeTitle(existing, incoming), incoming) == MergeTitle(existing, incoming)
  {
    if incoming.Some? {
      var a := incoming.value;
      var once := MergeTitle(existing, incoming).value;
      assert MergeTitle(MergeTitle(existing, incoming), incoming) == Some(once + a);
      assert (once + a).Keys == once.Keys;
      assert forall k :: k in once ==> (once + a)[k] == once[k];
      assert once + a == once;
    }
  }

  /** For a visible, opaque bar without its own background, the fill follows
      the content style; for a transparent pass everything is cleared. */
  lemma BackgroundFallbacks(c: Configure, transparent: bool)
    ensures c.IsVisible() && !transparent && c.UsingSystemBarStyle() ==>
              BarBackground(c, transparent) == Fill(if c.style.Contains(LightContent) then DarkGray else White)
    ensures transparent ==>
              BarBackground(c, transparent) == Blank && BarShadow(c, transparent) == Some(Blank)
              && BarTranslucent(c, transparent)
    ensures c.IsTransparent() ==> BarShadow(c, transparent) == Some(Blank) && BarTranslucent(c, transparent)
  {
  }

  /** The background image step of both `apply`s, run after the bar style has
      been set: the preferred image (the configured one when visible and
      opaque, the empty one otherwise), else a fill of the background colour,
      else a fill chosen by the bar style just set. */
  method BackgroundFor(c: Configure, transparent: bool, barStyle: BarStyle) returns (image: Image)
    requires barStyle == c.BarStyle()
    ensures image == BarBackground(c, transparent)
  {
    var preferred: Option<Image> := if c.IsVisible() && !transparent then c.backgroundImage else Some(Blank);
    if preferred == None && c.backgroundColor.Some? {
      preferred := Some(Fill(c.backgroundColor.value));
    } else if preferred == None {
      preferred := Some(Fill(if barStyle == BlackBar then DarkGray else White));
    }
    image := preferred.value;
  }

  /** The navigation bar's state as the rules see it. */
  datatype BarState = BarState(
    barStyle: BarStyle,
    tintColor: Color,
    backgroundAlpha: Option<real>,
    titleTextAttributes: Option<Attributes>,
    backgroundImage: Option<Image>,
    shadowImage: Option<Image>,
    isTranslucent: bool,
    configure: Option<Configure>)

  /** The state after `apply(c, isTransparent: transparent)`. */
  function Applied(s: BarState, c: Configure, transparent: bool): BarState
  {
    BarState(
      c.BarStyle(),
      c.tintColor,
      if s.backgroundAlpha.Some? then Some(if transparent then 0.0 else 1.0) else None,
      MergeTitle(s.titleTextAttributes, c.textAttributes),
      Some(BarBackground(c, transparent)),
      BarShadow(c, transparent),
      BarTranslucent(c, transparent),
      Some(c))
  }

  /** Applying a configuration twice is applying it once, and an opaque apply
      after a transparent one with the same configuration leaves no trace of
      the transparent pass. */
  lemma ApplyIsIdempotent(s: BarState, c: Configure, transparent: bool)
    ensures Applied(Applied(s, c, transparent), c, transparent) == Applied(s, c, transparent)
    ensures Applied(Applied(s, c, true), c, false) == Applied(s, c, false)
  {
    MergeTitleIsIdempotent(s.titleTextAttributes, c.textAttributes);
  }

  // ---------------------------------------------------------------------------
  // The bar and the fake toolbars
  // ---------------------------------------------------------------------------

  /** The fields of a `UINavigationBar` that `apply` writes. */
  class NavigationBar {
    var barStyle: BarStyle
    var tintColor: Color
    /** The alpha of the private background view; `None` when there is no such view. */
    var backgroundAlpha: Option<real>
    var titleTextAttributes: Option<Attributes>
    var backgroundImage: Option<Image>
    var shadowImage: Option<Image>
    var isTranslucent: bool
    /** The configuration last applied, kept as an associated object. */
    var configure: Option<Configure>

    function State(): BarState
      reads this
    {
      BarState(barStyle, tintColor, backgroundAlpha, titleTextAttributes, backgroundImage,
               shadowImage, isTranslucent, configure)
    }

    /** `apply(_:tintColor:)`. */
    method ApplyStyle(style: BarStyle, tint: Color)
      modifies this`barStyle, this`tintColor
      ensures barStyle == style && tintColor == tint
    {
      barStyle := style;
      tintColor := tint;
    }

    /** `apply(_:isTransparent:)`. */
    method Apply(c: Configure, transparent: bool)
      modifies this
      ensures barStyle == c.BarStyle() && tintColor == c.tintColor
      ensures backgroundAlpha == (if old(backgroundAlpha).Some? then Some(if transparent then 0.0 else 1.0) else None)
      ensures titleTextAttributes == MergeTitle(old(titleTextAttributes), c.textAttributes)
      ensures backgroundImage == Some(BarBackground(c, transparent))
      ensures shadowImage == BarShadow(c, transparent)
      ensures isTranslucent == BarTranslucent(c, transparent)
      ensures configure == Some(c)
      ensures State() == Applied(old(State()), c, transparent)
    {
      ApplyStyle(c.BarStyle(), c.tintColor);
      if backgroundAlpha.Some? {
        backgroundAlpha := Some(if transparent then 0.0 else 1.0);
      }
      if c.textAttributes.Some? {
        if titleTextAttributes.Some? {
          titleTextAttributes := Some(titleTextAttributes.value + c.textAttributes.value);
        } else {
          titleTextAttributes := c.textAttributes;
        }
      }
      var image := BackgroundFor(c, transparent, barStyle);
      backgroundImage := Some(image);
      shadowImage := BarShadow(c, transparent);
      isTranslucent := BarTranslucent(c, transparent);
      configure := Some(c);
    }
  }

  /** The fields of a fake toolbar that `apply` writes. */
  datatype ToolbarState = ToolbarState(
    frame: Rect,
    tintColor: Color,
    barStyle: BarStyle,
    isTranslucent: bool,
    shadowImage: Option<Image>,
    backgroundImage: Option<Image>)

  /** The state of a toolbar after `apply(frame, config: c)`; nothing of the
      previous state survives. */
  function ToolbarApplied(frame: Rect, c: Configure): ToolbarState
  {
    ToolbarState(frame, c.tintColor, c.BarStyle(), BarTranslucent(c, false), BarShadow(c, false),
                 Some(BarBackground(c, false)))
  }

  /** A fake toolbar looks like the navigation bar after an opaque apply of the
      same configuration: same style, tint, translucency, shadow and background. */
  lemma ToolbarMatchesOpaqueBar(frame: Rect, s: BarState, c: Configure)
    ensures var t := ToolbarApplied(frame, c);
      var b := Applied(s, c, false);
      t.barStyle == b.barStyle && t.tintColor == b.tintColor && t.isTranslucent == b.isTranslucent
      && t.shadowImage == b.shadowImage && t.backgroundImage == b.backgroundImage
  {
  }

  /** One of the two fake `UIToolbar`s drawn during a transition. */
  class Toolbar {
    var frame: Rect
    var tintColor: Color
    var barStyle: BarStyle
    var isTranslucent: bool
    var shadowImage: Option<Image>
    var backgroundImage: Option<Image>

    constructor()
      ensures frame == Rect(0.0, 0.0, 0.0, 0.0) && backgroundImage == None && shadowImage == None
    {
      frame := Rect(0.0, 0.0, 0.0, 0.0);
      // Placeholders, not UIKit's defaults: `Apply` sets these three before
      // anything reads them.
      tintColor := Black;
      barStyle := DefaultBar;
      isTranslucent := true;
      shadowImage := None;
      backgroundImage := None;
    }

    function State(): ToolbarState
      reads this
    {
      ToolbarState(frame, tintColor, barStyle, isTranslucent, shadowImage, backgroundImage)
    }

    /** `UIToolbar.apply(_:config:)`: the navigation bar's rules for an opaque
        pass, on a toolbar placed at `frame`. */
    method Apply(frame: Rect, c: Configure)
      modifies this
      ensures this.frame == frame && tintColor == c.tintColor && barStyle == c.BarStyle()
      ensures isTranslucent == BarTranslucent(c, false)
      ensures shadowImage == BarShadow(c, false)
      ensures backgroundImage == Some(BarBackground(c, false))
      ensures State() == ToolbarApplied(frame, c)
    {
      this.frame := frame;
      tintColor := c.tintColor;
      barStyle := c.BarStyle();
      isTranslucent := BarTranslucent(c, false);
      shadowImage := BarShadow(c, false);
      var image := BackgroundFor(c, false, barStyle);
      backgroundImage := Some(image);
    }
  }

  // ---------------------------------------------------------------------------
  // The controller: configuration around a transition
  // ---------------------------------------------------------------------------

  /** The configuration shown for a controller: its own, when it conforms to
      `ConfigureProtocol`; otherwise the bar's current one, or the default. */
  function ShownConfigure(current: Option<Configure>, default: Configure,
                          incoming: Option<ControllerConfigure>, appearance: Appearance): (c: Configure)
    ensures incoming.Some? ==> c == FromProtocol(incoming.value, appearance)
    ensures incoming.None? && current.Some? ==> c == current.value
    ensures incoming.None? && current.None? ==> c == default
  {
    match incoming
    case Some(p) => FromProtocol(p, appearance)
    case None => current.GetOr(default)
  }

  /** After `willShow` applied the target (transparently, when animated),
      `didShow` chooses the same target and leaves the bar exactly as an opaque
      apply of it would. */
  lemma TransitionSettlesOnTarget(s: BarState, default: Configure, incoming: Option<ControllerConfigure>,
                                  appearance: Appearance, animated: bool)
    ensures var target := ShownConfigure(s.configure, default, incoming, appearance);
      var during := Applied(s, target, animated);
      ShownConfigure(during.configure, default, incoming, appearance) == target
      && Applied(during, target, false) == Applied(s, target, false)
  {
    var target := ShownConfigure(s.configure, default, incoming, appearance);
    ApplyIsIdempotent(s, target, animated);
  }

  class NavigationController {
    const bar: NavigationBar
    const fakeFrom: Toolbar
    const fakeTo: Toolbar
    var isNavigationBarHidden: bool
    var inTransition: bool
    var defaultConfigure: Configure

    predicate Valid()
      reads this
    {
      fakeFrom != fakeTo
    }

    constructor(navigationBar: NavigationBar)
      ensures Valid() && bar == navigationBar && fresh(fakeFrom) && fresh(fakeTo)
      ensures !isNavigationBarHidden && !inTransition && defaultConfigure == DefaultConfigure()
    {
      bar := navigationBar;
      fakeFrom := new Toolbar();
      fakeTo := new Toolbar();
      isNavigationBarHidden := false;
      inTransition := false;
      defaultConfigure := DefaultConfigure();
    }

    /** `viewDidLoad`: the fake bars and the bar take the default configuration. */
    method ViewDidLoad(bounds: Rect)
      requires Valid()
      modifies bar, fakeFrom, fakeTo
      ensures bar.State() == Applied(old(bar.State()), defaultConfigure, false)
      ensures fakeTo.State() == ToolbarApplied(bounds, defaultConfigure)
      ensures fakeFrom.State() == ToolbarApplied(bounds, defaultConfigure)
    {
      fakeTo.Apply(bounds, defaultConfigure);
      fakeFrom.Apply(bounds, defaultConfigure);
      bar.Apply(defaultConfigure, false);
    }

    /** `willShow(viewController:animated:)`, up to the transition coordinator:
        the target is shown hidden or not, and applied transparently when
        animated, which starts a transition. */
    method WillShow(incoming: Option<ControllerConfigure>, appearance: Appearance, animated: bool)
      modifies this, bar
      ensures var target := ShownConfigure(old(bar.configure), defaultConfigure, incoming, appearance);
        isNavigationBarHidden == target.IsHidden()
        && bar.State() == Applied(old(bar.State()), target, animated)
        && inTransition == (old(inTransition) || animated)
      ensures defaultConfigure == old(defaultConfigure)
    {
      var from := bar.configure.GetOr(defaultConfigure);
      var to := from;
      if incoming.Some? {
        to := FromProtocol(incoming.value, appearance);
      }
      if to.IsHidden() != isNavigationBarHidden {
        isNavigationBarHidden := to.IsHidden();
      }
      if !animated {
        bar.Apply(to, false);
        return;
      }
      bar.Apply(to, true);
      inTransition := true;
    }

    /** `didShow(viewController:animated:)`: the controller's configuration, or
        the bar's current one, or the default, applied opaquely; the
        transition is over. */
    method DidShow(incoming: Option<ControllerConfigure>, appearance: Appearance)
      modifies this, bar
      ensures var target := ShownConfigure(old(bar.configure), defaultConfigure, incoming, appearance);
        bar.State() == Applied(old(bar.State()), target, false)
      ensures !inTransition
      ensures isNavigationBarHidden == old(isNavigationBarHidden) && defaultConfigure == old(defaultConfigure)
    {
      if incoming.Some? {
        bar.Apply(FromProtocol(incoming.value, appearance), false);
      } else {
        bar.Apply(bar.configure.GetOr(defaultConfigure), false);
      }
      inTransition := false;
    }
  }

  // ---------------------------------------------------------------------------
  // The full-screen pop gesture
  // ---------------------------------------------------------------------------

  /** The top controller's `InteractiveFullScreenPopProtocol` conformance. */
  datatype PopPolicy = PopPolicy(isInteractivePopDisabled: bool, maxAllowedDistance: real)

  /** `gestureRecognizerShouldBegin(_:)`. `top` is the last controller's
      conformance, if it conforms; `isTransitioning` the private flag read by
      key, if it reads as a Boolean; `leftToRight` the layout direction. */
  function GestureShouldBegin(isPan: bool, controllerCount: nat, top: Option<PopPolicy>,
                              locationX: real, isTransitioning: Option<bool>,
                              translationX: real, leftToRight: bool): (begin: bool)
    ensures begin <==>
      && isPan
      && controllerCount >= 2
      && (top.Some? ==> !top.value.isInteractivePopDisabled)
      && (top.Some? ==> !(top.value.maxAllowedDistance > 0.0 && locationX > top.value.maxAllowedDistance))
      && isTransitioning != Some(true)
      && (if leftToRight then translationX > 0.0 else translationX < 0.0)
  {
    if !isPan then false
    else if controllerCount < 2 then false
    else if top.Some? && top.value.isInteractivePopDisabled then false
    else if top.Some? && top.value.maxAllowedDistance > 0.0 && locationX > top.value.maxAllowedDistance then false
    else if isTransitioning == Some(true) then false
    else
      var multiplier := if leftToRight then 1.0 else -1.0;
      if translationX * multiplier <= 0.0 then false
      else true
  }

  /** Mirroring the layout direction and the pan together does not change the answer. */
  lemma GestureIsDirectionSymmetric(isPan: bool, controllerCount: nat, top: Option<PopPolicy>,
                                    locationX: real, isTransitioning: Option<bool>, translationX: real)
    ensures GestureShouldBegin(isPan, controllerCount, top, locationX, isTransitioning, translationX, true)
         == GestureShouldBegin(isPan, controllerCount, top, locationX, isTransitioning, -translationX, false)
  {
  }
}
