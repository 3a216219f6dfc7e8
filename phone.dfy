/** Device classification by screen size (`Phone.swift`). The screen's point
    size and scale, and the "current" phone, are parameters here instead of
    reads of the main screen. */
module Phones {

  /** A width and a height, in points or in pixels. */
  datatype Size = Size(width: real, height: real)

  /** The seven known screen classes plus `unknown`. */
  datatype Phone = Unknown | I35 | I40 | I47 | I55 | I58Full | I61Full | I65Full
  {
    /** The enum's raw value: -1 for `unknown`, then 0 to 6 in declaration order. */
    function RawValue(): (r: int)
      ensures -1 <= r <= 6
      ensures r == -1 <==> this == Unknown
    {
      match this
      case Unknown => -1
      case I35 => 0
      case I40 => 1
      case I47 => 2
      case I55 => 3
      case I58Full => 4
      case I61Full => 5
      case I65Full => 6
    }

    /** Logical width in points: 320, 375 or 414 for a known class. */
    function Width(): (w: real)
      ensures w == 0.0 <==> this == Unknown
      ensures this != Unknown ==> w == 320.0 || w == 375.0 || w == 414.0
    {
      match this
      case Unknown => 0.0
      case I35 => 320.0
      case I40 => 320.0
      case I47 => 375.0
      case I55 => 414.0
      case I58Full => 375.0
      case I61Full => 414.0
      case I65Full => 414.0
    }

    /** Logical height in points, longer than the width for a known class. */
    function Height(): (h: real)
      ensures h == 0.0 <==> this == Unknown
      ensures this != Unknown ==> Width() < h
    {
      match this
      case Unknown => 0.0
      case I35 => 480.0
      case I40 => 568.0
      case I47 => 667.0
      case I55 => 736.0
      case I58Full => 812.0
      case I61Full => 896.0
      case I65Full => 896.0
    }

    /** Pixels per point: 2 or 3 for a known class. */
    function Scale(): (s: real)
      ensures s == 0.0 <==> this == Unknown
      ensures this != Unknown ==> s == 2.0 || s == 3.0
    {
      match this
      case Unknown => 0.0
      case I35 => 2.0
      case I40 => 2.0
      case I47 => 2.0
      case I55 => 3.0
      case I58Full => 3.0
      case I61Full => 2.0
      case I65Full => 3.0
    }

    /** `size`: the logical size, portrait. */
    function PointSize(): Size
    {
      Size(Width(), Height())
    }

    /** `native`: the size in pixels, portrait. */
    function Native(): (n: Size)
      ensures n.width <= n.height
      ensures n == Size(0.0, 0.0) <==> this == Unknown
    {
      Size(Width() * Scale(), Height() * Scale())
    }

    /** `isXMode`: one of the full-screen classes. */
    predicate IsXMode()
    {
      this in [I58Full, I61Full, I65Full]
    }

    /** `isPlusMode`: the 5.5-inch class. */
    predicate IsPlusMode()
    {
      this == I55
    }
  }

  function Min(a: real, b: real): real
  {
    if a <= b then a else b
  }

  function Max(a: real, b: real): real
  {
    if a <= b then b else a
  }

  /** The size `get(of:scale:)` looks up: shorter side first, both sides in pixels. */
  function Normalised(size: Size, scale: real): (n: Size)
    ensures n == Size(size.width * scale, size.height * scale) || n == Size(size.height * scale, size.width * scale)
    ensures scale >= 0.0 ==> n.width <= n.height
  {
    Size(Min(size.width, size.height) * scale, Max(size.width, size.height) * scale)
  }

  /** Both orientations of a size normalise alike. */
  lemma NormalisedIgnoresOrientation(size: Size, scale: real)
    ensures Normalised(Size(size.height, size.width), scale) == Normalised(size, scale)
  {
  }

  /** `Phone.get(of:scale:)`: the first class, in switch order, whose native
      size is the normalised size; `unknown` when there is none. */
  function Get(size: Size, scale: real): (p: Phone)
    ensures p != Unknown ==> p.Native() == Normalised(size, scale)
    ensures p == Unknown <==> forall q: Phone :: q != Unknown ==> q.Native() != Normalised(size, scale)
  {
    var n := Normalised(size, scale);
    if n == I35.Native() then I35
    else if n == I40.Native() then I40
    else if n == I47.Native() then I47
    else if n == I55.Native() then I55
    else if n == I58Full.Native() then I58Full
    else if n == I61Full.Native() then I61Full
    else if n == I65Full.Native() then I65Full
    else Unknown
  }

  /** The seven native sizes are pairwise distinct, so the order of the switch
      in `get` never matters; `unknown`'s is 0 x 0. */
  lemma NativeIsInjective(p: Phone, q: Phone)
    requires p != Unknown && q != Unknown
    ensures p.Native() == q.Native() <==> p == q
    ensures Unknown.Native() == Size(0.0, 0.0)
  {
  }

  /** i61Full and i65Full share the logical size 414 x 896 and differ only by scale. */
  lemma SameLogicalSizeDifferentClass()
    ensures I61Full.PointSize() == I65Full.PointSize()
    ensures Get(I61Full.PointSize(), 2.0) == I61Full
    ensures Get(I65Full.PointSize(), 3.0) == I65Full
  {
    NativeIsInjective(I61Full, I65Full);
  }

  /** Turning the device does not change the class. */
  lemma GetIgnoresOrientation(width: real, height: real, scale: real)
    ensures Get(Size(width, height), scale) == Get(Size(height, width), scale)
  {
    NormalisedIgnoresOrientation(Size(width, height), scale);
  }

  /** Each known class is recognised from its own logical size and scale,
      held in either orientation; `get` classifies exactly by native size. */
  lemma GetRecognisesEachClass(p: Phone)
    requires p != Unknown
    ensures Get(p.PointSize(), p.Scale()) == p
    ensures Get(Size(p.Height(), p.Width()), p.Scale()) == p
  {
    var n := Normalised(p.PointSize(), p.Scale());
    assert n == p.Native();
    var q := Get(p.PointSize(), p.Scale());
    assert q != Unknown;
    NativeIsInjective(p, q);
    GetIgnoresOrientation(p.Width(), p.Height(), p.Scale());
  }

  /** `get` answers `p` for a size exactly when that size, normalised, is `p`'s native size. */
  lemma GetIsNativeLookup(size: Size, scale: real, p: Phone)
    requires p != Unknown
    ensures Get(size, scale) == p <==> Normalised(size, scale) == p.Native()
  {
    var q := Get(size, scale);
    if Normalised(size, scale) == p.Native() {
      assert q != Unknown;
      NativeIsInjective(p, q);
    }
  }

  /** The raw values number the known classes 0 to 6 and tell all classes apart. */
  lemma RawValueIsInjective(p: Phone, q: Phone)
    ensures p.RawValue() == q.RawValue() <==> p == q
    ensures p != Unknown ==> 0 <= p.RawValue() <= 6
  {
  }

  /** The full-screen classes are exactly the tall ones, and the plus class is
      the only other one drawn at scale 3. */
  lemma ModesByGeometry(p: Phone)
    ensures p.IsXMode() <==> p.Height() >= 812.0
    ensures p.IsPlusMode() <==> p.Scale() == 3.0 && !p.IsXMode()
    ensures !(p.IsXMode() && p.IsPlusMode())
  {
  }

  // ---------------------------------------------------------------------------
  // `PhoneVariable`
  // ---------------------------------------------------------------------------

  /** The selector methods of `PhoneVariable`. */
  datatype Selector =
    | PickI35 | PickI40 | PickI47 | PickI55
    | PickFull | PickI58Full | PickI61Full | PickI65Full
    | PickW320 | PickW375 | PickW414

  /** `matching(phone:_:)`. */
  function MatchingPhone<T>(receiver: T, phone: Phone, value: T, current: Phone): T
  {
    if phone == current then value else receiver
  }

  /** `matching(phones:_:)`. */
  function MatchingPhones<T>(receiver: T, phones: seq<Phone>, value: T, current: Phone): T
  {
    if current in phones then value else receiver
  }

  /** `matching(width:_:)`. */
  function MatchingWidth<T>(receiver: T, width: real, value: T, current: Phone): T
  {
    if current.Width() == width then value else receiver
  }

  /** `receiver.sel(value)` on a device whose class is `current`. */
  function Select<T>(sel: Selector, receiver: T, value: T, current: Phone): (r: T)
    ensures r == receiver || r == value
  {
    match sel
    case PickI35 => MatchingPhone(receiver, I35, value, current)
    case PickI40 => MatchingPhone(receiver, I40, value, current)
    case PickI47 => MatchingPhone(receiver, I47, value, current)
    case PickI55 => MatchingPhone(receiver, I55, value, current)
    case PickFull => MatchingPhones(receiver, [I58Full, I61Full, I65Full], value, current)
    case PickI58Full => MatchingPhone(receiver, I58Full, value, current)
    case PickI61Full => MatchingPhone(receiver, I61Full, value, current)
    case PickI65Full => MatchingPhone(receiver, I65Full, value, current)
    case PickW320 => MatchingWidth(receiver, 320.0, value, current)
    case PickW375 => MatchingWidth(receiver, 375.0, value, current)
    case PickW414 => MatchingWidth(receiver, 414.0, value, current)
  }

  /** The classes on which each selector picks its argument, listed by hand. */
  function Picks(sel: Selector): set<Phone>
  {
    match sel
    case PickI35 => {I35}
    case PickI40 => {I40}
    case PickI47 => {I47}
    case PickI55 => {I55}
    case PickFull => {I58Full, I61Full, I65Full}
    case PickI58Full => {I58Full}
    case PickI61Full => {I61Full}
    case PickI65Full => {I65Full}
    case PickW320 => {I35, I40}
    case PickW375 => {I47, I58Full}
    case PickW414 => {I55, I61Full, I65Full}
  }

  /** A selector returns its argument on the classes it picks and the receiver
      unchanged on all others; `ifull` picks exactly the `isXMode` classes, and
      no selector picks `unknown`. */
  lemma SelectPicks<T>(sel: Selector, receiver: T, value: T, current: Phone)
    ensures Select(sel, receiver, value, current) == (if current in Picks(sel) then value else receiver)
    ensures current in Picks(PickFull) <==> current.IsXMode()
    ensures Unknown !in Picks(sel)
  {
    match sel
    case PickW320 =>
      assert current.Width() == 320.0 <==> current in {I35, I40};
    case PickW375 =>
      assert current.Width() == 375.0 <==> current in {I47, I58Full};
    case PickW414 =>
      assert current.Width() == 414.0 <==> current in {I55, I61Full, I65Full};
    case _ =>
  }

  /** The width selectors split the known classes: each is picked by exactly one of them. */
  lemma WidthSelectorsPartition(p: Phone)
    requires p != Unknown
    ensures (if p in Picks(PickW320) then 1 else 0) + (if p in Picks(PickW375) then 1 else 0)
      + (if p in Picks(PickW414) then 1 else 0) == 1
  {
  }
}
