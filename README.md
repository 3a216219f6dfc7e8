# EasySwift core, modelled in Dafny

This project models three parts of the EasySwift Swift library and proves
properties of them.

- **Hex colours** (`color.dfy`, module `ColorExtension`).
  - The channel extractors `hex3`, `hex4`, `hex6` and `hex8` mask and shift an
    unsigned integer into nibbles or bytes.
  - The string front end `hex(_:)` trims and lowercases, removes every `#`
    when the string starts with one, then every `0x` when it starts with one,
    parses in radix 16 and dispatches on the length.
  - The Flat UI palette is built from `hex6` constants.
  - A colour is the white sentinel or integer channels over a divisor (15 or
    255). The components the library computes from them are modelled as exact
    reals, both as written and as evidently intended (see Findings).
  - Two quirks are kept exactly as written and proved as lemmas. In `hex4`,
    blue is read from the low nibble. Once triggered by a leading `#` or `0x`,
    removal deletes every non-overlapping occurrence in a single left-to-right
    pass, not only the leading one (`RemoveAllSingle`, `RemoveAllDropsInner0x`);
    what the pass leaves behind is not rescanned (`RemoveAllIsOnePass`).
  - A leading sign, which `Int(_:radix:)` accepts, is modelled. A negative
    value reaching `UInt16(_)`/`UInt32(_)` is the outcome `Traps`.
- **Device classes** (`phone.dfy`, module `Phones`).
  - The `Phone` table of seven screen classes plus `unknown`.
  - `get(of:scale:)`, `isXMode` and `isPlusMode`.
  - The `PhoneVariable` selectors. The screen size, the scale and the current
    phone are parameters.
- **Navigation-bar appearance** (`navigation.dfy`, module `Navigation`).
  - The `UINavigationBar.Style` option set as a 64-bit mask.
  - `Configure`: its two initialisers, its derived flags and the protocol
    defaults it falls back on.
  - The navigation bar and the fake toolbar as classes whose fields the two
    `apply` methods assign.
  - The controller's `viewDidLoad`, `willShow` and `didShow` as methods that
    change the bar and the controller's own fields.
  - The admission rule of the full-screen pop gesture.
  - Colours and images are opaque tokens.
- `wrappers.dfy` (module `Wrappers`) holds `Option`, standing for Swift's
  optionals.

## Model

| member | source | states |
|---|---|---|
| ColorExtension.Hex3 | Sources/Core/ColorExtension.swift:188-194 | red, green and blue are nibbles 8-11, 4-7 and 0-3. Recomposed, they give back the low twelve bits. Alpha is the default (channel equal to the divisor 15). |
| ColorExtension.Hex4 | Sources/Core/ColorExtension.swift:202-209 | The channels are nibbles. Blue always equals alpha. Red, green and alpha recompose to the input with its third nibble cleared. |
| ColorExtension.Hex6 | Sources/Core/ColorExtension.swift:219-225 | red, green and blue are bytes 16-23, 8-15 and 0-7. Recomposed, they give `hex6 & 0xFFFFFF`. Alpha is the default. |
| ColorExtension.Hex8 | Sources/Core/ColorExtension.swift:234-242 | The four bytes, high to low, recompose to exactly the input. |
| ColorExtension.ExtractionInvertsPacking | Sources/Core/ColorExtension.swift:188-242 | Packing channels as 0xRGB, 0xRRGGBB or 0xRRGGBBAA, then extracting with hex3/hex6/hex8, returns the same channels. |
| ColorExtension.InitRgb | Sources/Core/ColorExtension.swift:165-167 | The initialiser takes red, green and blue on the 0-255 scale: inputs in [0, 255] give components in [0, 1], and inputs in [0, 1] give components of at most 1/255. Alpha is passed through. |
| ColorExtension.ComponentsAsWritten | Sources/Core/ColorExtension.swift:189-193 | No contract of its own. It is `InitRgb` applied to channel / divisor, as hex3, hex4, hex6 and hex8 do (also lines 203-208, 220-224, 236-241). ExtractorsDivideTwice states what that gives. |
| ColorExtension.Components | Sources/Core/ColorExtension.swift:189-193 | No contract of its own. It is the intended channel / divisor. ExtractedComponentsInUnitRange and IntendedComponentsOfBytes state its range and values. |
| ColorExtension.ExtractorsDivideTwice | Sources/Core/ColorExtension.swift:188-242 | As written, every extractor's red, green and blue are the intended component divided by 255 once more; alpha is not. hex6(0xFFFFFF) and hex3(0xFFF) come out at 1/255 per colour channel, and turquoise at 26/65025, 188/65025, 156/65025. |
| ColorExtension.ExtractedComponentsInUnitRange | Sources/Core/ColorExtension.swift:188-242 | With the intended components, every colour from hex3, hex4, hex6 and hex8 has all four components in [0, 1]. |
| ColorExtension.IntendedComponentsOfBytes | Sources/Core/ColorExtension.swift:219-242 | With the intended components, full intensity is 1 and each byte b of 0xRRGGBBAA given to hex8 becomes the component b / 255. |
| ColorExtension.Hex4DropsBlue | Sources/Core/ColorExtension.swift:204-207 | For 0xRGBA, hex4 yields (R, G, A, A). Two inputs that differ only in the blue nibble give the same colour. |
| ColorExtension.TrimLeadingRemovesPrefix | Sources/Core/ColorExtension.swift:253 | Trimming the front removes a whitespace-only prefix. What is left does not start with whitespace. |
| ColorExtension.TrimTrailingRemovesSuffix | Sources/Core/ColorExtension.swift:253 | Trimming the back removes a whitespace-only suffix. What is left does not end with whitespace. |
| ColorExtension.TrimRemovesSurroundingWhitespace | Sources/Core/ColorExtension.swift:253 | The trimmed string is a slice of the input with only whitespace on either side. Neither of its ends is whitespace. |
| ColorExtension.TrimLeading | Sources/Core/ColorExtension.swift:253 | No contract of its own. TrimLeadingRemovesPrefix states what it removes. |
| ColorExtension.TrimTrailing | Sources/Core/ColorExtension.swift:253 | No contract of its own. TrimTrailingRemovesSuffix states what it removes. |
| ColorExtension.Trim | Sources/Core/ColorExtension.swift:253 | No contract of its own. TrimRemovesSurroundingWhitespace states its result. |
| ColorExtension.Lowercased | Sources/Core/ColorExtension.swift:253 | No contract of its own. HexValueLowercased states that it keeps the value of hex digits. CleanOfDigits states that it maps uppercase digits to lowercase ones. |
| ColorExtension.RemoveAll | Sources/Core/ColorExtension.swift:254-255 | Removing occurrences never lengthens the string. |
| ColorExtension.Without | Sources/Core/ColorExtension.swift:254 | The reference filter for one character. Its multiset is the input's with every copy of the character removed. |
| ColorExtension.RemoveAllOfCharIsFilter | Sources/Core/ColorExtension.swift:254 | Removing a one-character pattern equals the reference filter `Without`, so every "#" goes and everything else stays in order. |
| ColorExtension.RemoveAllSkipsLeading | Sources/Core/ColorExtension.swift:254-255 | An occurrence at the front is dropped and the scan carries on with the rest: RemoveAll(p + s, p) == RemoveAll(s, p). |
| ColorExtension.RemoveAllSingle | Sources/Core/ColorExtension.swift:254 | Removing "#" leaves no "#" anywhere, not only at the front. |
| ColorExtension.RemoveAllWithoutMatch | Sources/Core/ColorExtension.swift:254-255 | A string lacking a character of the pattern is left unchanged. |
| ColorExtension.RemoveAllDropsInner0x | Sources/Core/ColorExtension.swift:255 | An occurrence of "0x" anywhere is deleted, and the two sides are cleaned independently: RemoveAll(a + "0x" + b) == RemoveAll(a) + RemoveAll(b). |
| ColorExtension.RemoveAllIsOnePass | Sources/Core/ColorExtension.swift:255 | Removal is a single left-to-right scan. "00xx" becomes "0x", which still contains the pattern. |
| ColorExtension.HexValue | Sources/Core/ColorExtension.swift:256 | The value of n hex digits is below 16^n. |
| ColorExtension.ParseHex | Sources/Core/ColorExtension.swift:256 | A successful parse is a 64-bit Int. A non-negative result is below 16^length. A negative result needs a leading "-". |
| ColorExtension.ParseDigits | Sources/Core/ColorExtension.swift:256 | The same bounds for the digits after the optional sign. Only a "-" sign can produce a negative value. |
| ColorExtension.ParseHexDigits | Sources/Core/ColorExtension.swift:256 | One to eight digits parse to their value. So do they with a "+" prefix. With a "-" prefix they parse to the negated value. |
| ColorExtension.HexValueLowercased | Sources/Core/ColorExtension.swift:253-256 | Lowercasing hex digits does not change the value they denote. |
| ColorExtension.Dispatch | Sources/Core/ColorExtension.swift:256-264 | The result is white exactly when the parse fails or the length is not 3, 4, 6 or 8. A trap needs a leading "-". |
| ColorExtension.Clean | Sources/Core/ColorExtension.swift:253-255 | No contract of its own. CleanOfDigits, HexRemovesInnerHashes and CleanOfInnerHashes state what it gives. |
| ColorExtension.Hex | Sources/Core/ColorExtension.swift:251-265 | No contract of its own. HexOfDigits, HexIgnoresDecoration and HexOfSignedDigits state its result; Dispatch states when it is white. |
| ColorExtension.CleanOfDigits | Sources/Core/ColorExtension.swift:253-255 | These all clean to the same lowercase digits: d, "#"+d, "0x"+d, "0X"+d, d between whitespace, and d uppercased. |
| ColorExtension.HexOfDigits | Sources/Core/ColorExtension.swift:256-264 | For 3/4/6/8 hex digits, hex(_:) is hex3/hex4/hex6/hex8 of their value. For any other length it is white. |
| ColorExtension.HexIgnoresDecoration | Sources/Core/ColorExtension.swift:253-255 | hex(_:) gives the same result for d, "#"+d, "0x"+d, "0X"+d, d with surrounding whitespace, and d uppercased. |
| ColorExtension.HexOfSignedDigits | Sources/Core/ColorExtension.swift:256-262 | A "+" sign counts towards the length: "+" plus 2, 3, 5 or 7 digits is hex3, hex4, hex6 or hex8 of their value. "-" before a nonzero value traps; "-" before a zero value gives what "+" gives. |
| ColorExtension.HexRemovesInnerHashes | Sources/Core/ColorExtension.swift:254 | "#1#2#3" is read as "123". "1#2#3" is not cleaned, because it does not start with "#", and it gives white. |
| ColorExtension.Code | Sources/Core/ColorExtension.swift:367-425 | No contract of its own. CodeBelow states that each code fits in 24 bits; DocumentedDigitsDenoteCode ties it to the documented digits. |
| ColorExtension.FlatUIColor | Sources/Core/ColorExtension.swift:367-425 | No contract of its own. FlatUIMatchesDocumentation and FlatUITurquoise state which colour each entry is. |
| ColorExtension.CodeBelow | Sources/Core/ColorExtension.swift:367-425 | Every palette code fits in 24 bits. |
| ColorExtension.DocumentedDigitsDenoteCode | Sources/Core/ColorExtension.swift:367-425 | The "#RRGGBB" digits written in each entry's doc comment are six hex digits whose value is the code the entry passes to hex6. |
| ColorExtension.FlatUIMatchesDocumentation | Sources/Core/ColorExtension.swift:367-425 | hex(_:) of the "#RRGGBB" string written in each entry's doc comment is the palette colour. |
| ColorExtension.HexOfDocumented6 | Sources/Core/ColorExtension.swift:219-225 | For any 24-bit value, hex(_:) of "#" plus its six uppercase digits is hex6 of that value. Formatting and parsing are inverse. |
| ColorExtension.FlatUITurquoise | Sources/Core/ColorExtension.swift:367-368 | turquoise has channels 26, 188, 156 and is opaque. |
| Phones.Phone.RawValue | Sources/Core/Phone.swift:95-102 | Raw values lie in -1..6, and -1 is exactly `unknown`. |
| Phones.Phone.Width | Sources/Core/Phone.swift:33-46 | 0 exactly for `unknown`, otherwise 320, 375 or 414 points. |
| Phones.Phone.Height | Sources/Core/Phone.swift:48-61 | 0 exactly for `unknown`, otherwise longer than the width. |
| Phones.Phone.Scale | Sources/Core/Phone.swift:63-76 | 0 exactly for `unknown`, otherwise 2 or 3. |
| Phones.Phone.PointSize | Sources/Core/Phone.swift:78 | No contract of its own. SameLogicalSizeDifferentClass and GetRecognisesEachClass use it. |
| Phones.Phone.Native | Sources/Core/Phone.swift:80 | Portrait: the width is at most the height. It is 0×0 exactly for `unknown`. |
| Phones.Phone.IsXMode | Sources/Core/Phone.swift:82-88 | No contract of its own. ModesByGeometry states which classes it holds for. |
| Phones.Phone.IsPlusMode | Sources/Core/Phone.swift:90-93 | No contract of its own. ModesByGeometry states which classes it holds for. |
| Phones.Normalised | Sources/Core/Phone.swift:16-18 | The scaled size in one of its two orientations. With a non-negative scale the width is at most the height. |
| Phones.NormalisedIgnoresOrientation | Sources/Core/Phone.swift:16-18 | Swapping width and height gives the same normalised size. |
| Phones.Get | Sources/Core/Phone.swift:14-30 | A known answer's native size is the normalised size. `unknown` comes back exactly when no known class has that native size. |
| Phones.NativeIsInjective | Sources/Core/Phone.swift:33-80 | The seven native sizes are pairwise distinct, so switch order is irrelevant. `unknown`'s native size is 0×0. |
| Phones.SameLogicalSizeDifferentClass | Sources/Core/Phone.swift:33-80 | i61Full and i65Full share 414×896 and are told apart by scale. |
| Phones.GetIgnoresOrientation | Sources/Core/Phone.swift:16-17 | Swapping width and height gives the same class. |
| Phones.GetRecognisesEachClass | Sources/Core/Phone.swift:14-80 | Each known class is recognised from its own size and scale, in both orientations. |
| Phones.GetIsNativeLookup | Sources/Core/Phone.swift:20-28 | get answers p exactly when the normalised size is p's native size. |
| Phones.RawValueIsInjective | Sources/Core/Phone.swift:95-102 | Raw values tell all classes apart. Known classes have raw values 0..6. |
| Phones.ModesByGeometry | Sources/Core/Phone.swift:82-93 | isXMode holds exactly for heights ≥ 812. isPlusMode holds exactly for the other scale-3 class. The two never hold together. |
| Phones.MatchingPhone | Sources/Core/Phone.swift:138 | No contract of its own. SelectPicks states when it returns its argument. |
| Phones.MatchingPhones | Sources/Core/Phone.swift:140 | No contract of its own. SelectPicks states when it returns its argument. |
| Phones.MatchingWidth | Sources/Core/Phone.swift:139 | No contract of its own. SelectPicks and WidthSelectorsPartition state when it returns its argument. |
| Phones.Select | Sources/Core/Phone.swift:123-140 | A selector returns either its argument or the receiver. |
| Phones.SelectPicks | Sources/Core/Phone.swift:123-140 | A selector returns its argument exactly on the classes it picks, and the receiver otherwise. ifull picks exactly the isXMode classes. No selector picks `unknown`. |
| Phones.WidthSelectorsPartition | Sources/Core/Phone.swift:134-136 | Each known class is picked by exactly one of w320, w375 and w414. |
| Navigation.Style.Union | Sources/Navigation/NavigationController.swift:83-105 | An option-set literal contains each of its members. |
| Navigation.UnionIsLeast | Sources/Navigation/NavigationController.swift:83-105 | Every set containing both operands contains their union, so the union holds no option that neither operand has. |
| Navigation.StyleOptionsAreSingleBits | Sources/Navigation/NavigationController.swift:90-105 | The options are the bits 1<<1 … 1<<7 and pairwise disjoint. `.default` is 0x32: show, darkContent and translucent, and nothing else. |
| Navigation.DerivedFlagsAreBitFormulas | Sources/Navigation/NavigationController.swift:53-59 | isHidden, barStyle == black, isTranslucent, isShadowHidden and isVisiable, each as a formula over the style bits. |
| Navigation.Configure.IsHidden | Sources/Navigation/NavigationController.swift:53 | No contract of its own. DerivedFlagsAreBitFormulas states it as a bit test. |
| Navigation.Configure.BarStyle | Sources/Navigation/NavigationController.swift:54 | No contract of its own. DerivedFlagsAreBitFormulas states it as a bit test. |
| Navigation.Configure.IsTranslucent | Sources/Navigation/NavigationController.swift:55 | No contract of its own. DerivedFlagsAreBitFormulas states it as a bit test. |
| Navigation.Configure.IsTransparent | Sources/Navigation/NavigationController.swift:56 | No contract of its own. TransparentHidesShadow states what it implies. |
| Navigation.Configure.IsShadowHidden | Sources/Navigation/NavigationController.swift:57 | No contract of its own. DerivedFlagsAreBitFormulas states it as a bit test. |
| Navigation.Configure.IsVisible | Sources/Navigation/NavigationController.swift:59 | No contract of its own. DerivedFlagsAreBitFormulas states it as a bit test. |
| Navigation.Configure.UsingSystemBarStyle | Sources/Navigation/NavigationController.swift:60 | No contract of its own. BackgroundFallbacks uses it for the fill fallback. |
| Navigation.TransparentHidesShadow | Sources/Navigation/NavigationController.swift:56-59 | A transparent configuration hides its shadow and is not visible. |
| Navigation.MakeConfigure | Sources/Navigation/NavigationController.swift:62-70 | The fields are copied. With no tint, the tint is white iff lightContent is set, black otherwise. Shadow and text attributes are nil. |
| Navigation.DefaultConfigure | Sources/Navigation/NavigationController.swift:181 | No contract of its own. DefaultConfigureFlags states its flags. |
| Navigation.DefaultConfigureFlags | Sources/Navigation/NavigationController.swift:181 | The default configuration is visible, translucent, shadowed, uses the system background, has the default bar style and a black tint. |
| Navigation.FromProtocol | Sources/Navigation/NavigationController.swift:72-80 | Each of the six properties is the controller's own value, or the bar appearance's when left to the defaults at lines 28-34. |
| Navigation.MergeTitle | Sources/Navigation/NavigationController.swift:411-417 | With no incoming attributes, nothing changes. Otherwise the keys are the union, incoming values win, and other existing values are kept. |
| Navigation.MergeTitleIsIdempotent | Sources/Navigation/NavigationController.swift:411-417 | Merging the same attributes twice equals merging them once. |
| Navigation.BarBackground | Sources/Navigation/NavigationController.swift:421-424 | No contract of its own. BackgroundFallbacks states its fallbacks. |
| Navigation.BarShadow | Sources/Navigation/NavigationController.swift:426 | No contract of its own. BackgroundFallbacks and TransparentHidesShadow state when it is empty. |
| Navigation.BarTranslucent | Sources/Navigation/NavigationController.swift:428 | No contract of its own. BackgroundFallbacks states that a transparent pass is translucent. |
| Navigation.BackgroundFor | Sources/Navigation/NavigationController.swift:420-423 | The fallback chain as the source computes it, step by step, yields exactly `BarBackground`. |
| Navigation.BackgroundFallbacks | Sources/Navigation/NavigationController.swift:421-428 | A visible, opaque bar with the system style is filled dark gray (lightContent) or white. A transparent pass clears background and shadow and is translucent. |
| Navigation.Applied | Sources/Navigation/NavigationController.swift:406-430 | No contract of its own. ApplyIsIdempotent states its idempotence; NavigationBar.Apply states that it is the new bar state. |
| Navigation.ApplyIsIdempotent | Sources/Navigation/NavigationController.swift:406-430 | Applying a configuration twice equals applying it once. An opaque apply after a transparent one leaves no trace of the transparent pass. |
| Navigation.NavigationBar.ApplyStyle | Sources/Navigation/NavigationController.swift:400-404 | barStyle and tintColor take the given values, and nothing else changes. |
| Navigation.NavigationBar.Apply | Sources/Navigation/NavigationController.swift:406-430 | Every written field, as listed below. |
| Navigation.ToolbarApplied | Sources/Navigation/NavigationController.swift:435-452 | No contract of its own. ToolbarMatchesOpaqueBar relates it to the bar. |
| Navigation.ToolbarMatchesOpaqueBar | Sources/Navigation/NavigationController.swift:406-452 | A fake toolbar after apply shows the same bar style, tint, translucency, shadow and background as the navigation bar after an opaque apply of the same configuration. |
| Navigation.Toolbar.constructor | Sources/Navigation/NavigationController.swift:111-112 | `UIToolbar(frame: .zero)`: the frame is zero, and no background or shadow image is set. |
| Navigation.Toolbar.Apply | Sources/Navigation/NavigationController.swift:435-452 | Frame, tint and bar style are set. Translucency, shadow and background follow the bar's rules for an opaque pass. The whole written state is `ToolbarApplied(frame, c)`. |
| Navigation.ShownConfigure | Sources/Navigation/NavigationController.swift:272-274 | The controller's own configuration if it conforms; else the bar's current one; else the default. |
| Navigation.TransitionSettlesOnTarget | Sources/Navigation/NavigationController.swift:337-344 | After willShow's apply, didShow picks the same target and leaves the bar as one opaque apply of it. |
| Navigation.NavigationController.constructor | Sources/Navigation/NavigationController.swift:131-132 | Two distinct fresh fake toolbars. Not in transition. The default configuration is `.init(style: .default)` (line 181). |
| Navigation.NavigationController.ViewDidLoad | Sources/Navigation/NavigationController.swift:136-145 | The whole written state of each fake toolbar is `ToolbarApplied(bar bounds, default configuration)`. The bar is an opaque apply of the default. |
| Navigation.NavigationController.WillShow | Sources/Navigation/NavigationController.swift:268-282 | Hidden becomes the target's isHidden. The bar is the target applied (transparently when animated). An animated show starts a transition. |
| Navigation.NavigationController.DidShow | Sources/Navigation/NavigationController.swift:337-351 | The bar is an opaque apply of the shown configuration. The transition is over. Hidden is untouched. |
| Navigation.GestureShouldBegin | Sources/Navigation/NavigationController.swift:186-215 | True iff all of these hold: a pan; at least two controllers; pop not disabled; not (max distance > 0 and x beyond it); not transitioning; translation in the layout direction. |
| Navigation.GestureIsDirectionSymmetric | Sources/Navigation/NavigationController.swift:209-212 | Mirroring the layout direction and the translation together does not change the answer. |

What `Navigation.NavigationBar.Apply` writes:
- bar style and tint from the configuration;
- background alpha 0 when transparent and 1 otherwise, if a background view exists;
- title attributes as merged by `MergeTitle`;
- background from the fallback chain;
- shadow;
- translucency;
- the stored configuration.

The whole new state is `Applied(old state, c, t)`.

## Left out

- Floating point in `ColorExtension.swift` is not modelled: `hexString`, `rgbComponents`, `hsbaComponents`, `blend`, `lighten`, `darken`. All of them are `CGFloat` arithmetic on `CGColor` components. The components the extractors compute, and the RGB/P3 initialiser's division (lines 165-167), are modelled as exact reals; rounding and the colour space are not.
- `Color.random` is left out: it is nondeterministic.
- The `Social` colour table is left out: it is built with the floating-point RGB initialiser.
- The `alpha` and `p3` parameters of the extractors are left out. `hex(_:)` never passes an alpha, so its colours always carry the default. `p3` selects a colour space, which is floating point.
- ColorExtension.Lowercased: lowercases ASCII letters only. Any other character that survives trimming makes the radix-16 parse fail, whatever its case mapping: Unicode case mappings never produce an ASCII hex digit, "x" or "#" from a non-ASCII character. So `hex(_:)` returns white either way.
- ColorExtension.Dispatch: uses the number of Unicode scalars where Swift's `count` counts grapheme clusters. The two agree whenever the parse succeeds, because every character is then ASCII. When the parse fails, the result is white regardless.
- `Phone.current` and every read of `UIScreen.main` are device I/O. They are parameters (the size, the scale, the current class).
- `CGFloat` sizes are exact reals. All table values are integral, so the comparisons are exact.
- The list of `PhoneVariable` conformers (`Int`, `UIColor`, …) is not modelled. The selectors are generic over any type.
- Navigation.NavigationController.WillShow: models only what happens before the transition coordinator. Left out:
  - the animation block that lays out the fake toolbars;
  - the completion, which on cancel re-applies the previous configuration and hidden state, and clears `inTransition`;
  - the interaction-change handler that restores bar style and tint on a cancelled pop.
  
  All of these are UIKit callbacks whose timing the model cannot see.
- Navigation.NavigationController.DidShow: does not model removing the fake toolbars from their superviews, which is view-hierarchy work.
- Hiding the bar is `isNavigationBarHidden` being set; the animation of `setNavigationBarHidden` is not modelled.
- Navigation.NavigationBar.Apply: the image size passed to `UIImage(color:size:)` is not modelled. A fill is a colour token. `setNeedsDisplay` is not modelled.
- Left out of `NavigationController.swift` because they are framework plumbing:
  - the delegate forwarding (lines 147-153, 220-264);
  - the gesture-target hijacking in `pushViewController` and the gesture's `didSet`;
  - the KVO frame tracking (lines 354-364);
  - `convertFrameOnView` and the `FakeBar` delegate.
- Navigation.GestureShouldBegin: the dynamic casts and KVC reads become caller-supplied values:
  - whether the recognizer is a pan;
  - whether the top controller conforms to `InteractiveFullScreenPopProtocol`, as an `Option`;
  - the private `_isTransitioning` flag, as an `Option<bool>`.
- Title text attribute values are opaque numbers, keyed by attribute name.
- `Auto.swift` and the reusable, storyboard and identifiable helpers are not part of this model.

## Findings

| source | as written | input that shows it | evidently intended | confidence | as-written member | corrected member |
|---|---|---|---|---|---|---|
| Sources/Core/ColorExtension.swift:165-167, 188-242 | `hex3`, `hex4`, `hex6` and `hex8` divide each channel by 15 or 255 and pass the result to `init(red:green:blue:alpha:p3:)`, which divides red, green and blue by 255 again; alpha passes through once. | `hex6(0xFFFFFF)` gives red, green and blue 1/255 (near black, opaque) instead of white; `hex3(0xFFF)` likewise. | Components channel / divisor, in [0, 1], full intensity 1 (as the doc comments promise, e.g. `0xfff`). | high, not executed | ColorExtension.ExtractorsDivideTwice, ColorExtension.InitRgb | ColorExtension.IntendedComponentsOfBytes, ColorExtension.ExtractedComponentsInUnitRange |
