/**
 * Adaptive sizing: window, panel and button sizes computed from the screen
 * size read once at start-up, and the screen's size category.
 */
module ScreenAdapter {
  import opened Wrappers
  import opened PyNum

  /** The screen as the adapter saw it at construction. */
  datatype Screen = Screen(width: int, height: int, dpiScale: real)

  /** What tkinter reported: the size, and the scaling when `tk scaling` answered. */
  datatype Detected = Detected(width: int, height: int, scaling: Option<real>)

  /** `_detect_screen_size`: a failed detection falls back to 1920×1080 at scale 1. */
  function DetectScreen(d: Option<Detected>): Screen
  {
    match d
    case None => Screen(1920, 1080, 1.0)
    case Some(x) => Screen(x.width, x.height, x.scaling.GetOr(1.0))
  }

  /** Python `if limit:` on an optional int: `None` and `0` both mean no limit. */
  predicate Truthy(limit: Option<int>)
  {
    limit.Some? && limit.value != 0
  }

  /**
   * One side of `get_window_dimensions`: the desired size, capped at the
   * screen fraction and at the limit if one is set, then raised to the
   * minimum.
   */
  function WindowSide(desired: int, screenSide: int, percent: real, minimum: int, limit: Option<int>): (r: int)
    ensures r >= minimum
    ensures r > minimum ==>
      && r <= desired && r <= Trunc(screenSide as real * percent)
      && (Truthy(limit) ==> r <= limit.value)
      && (r == desired || r == Trunc(screenSide as real * percent) || (Truthy(limit) && r == limit.value))
  {
    var capped := Min(desired, Trunc(screenSide as real * percent));
    var limited := if Truthy(limit) then Min(capped, limit.value) else capped;
    Max(limited, minimum)
  }

  /** A limit of 0 is read as no limit at all. */
  lemma ZeroLimitIsNoLimit(desired: int, screenSide: int, percent: real, minimum: int)
    ensures WindowSide(desired, screenSide, percent, minimum, Some(0))
         == WindowSide(desired, screenSide, percent, minimum, None)
  {
  }

  /** A desired size that fits every bound is granted as is. */
  lemma WindowSideFits(desired: int, screenSide: int, percent: real, minimum: int, limit: Option<int>)
    requires minimum <= desired <= Trunc(screenSide as real * percent)
    requires Truthy(limit) ==> desired <= limit.value
    ensures WindowSide(desired, screenSide, percent, minimum, limit) == desired
  {
  }

  /** Asking for more never gives less. */
  lemma WindowSideMonotone(d1: int, d2: int, screenSide: int, percent: real, minimum: int, limit: Option<int>)
    requires d1 <= d2
    ensures WindowSide(d1, screenSide, percent, minimum, limit) <= WindowSide(d2, screenSide, percent, minimum, limit)
  {
  }

  /** `get_window_dimensions`: width and height computed side by side. */
  function WindowDimensions(s: Screen, desiredWidth: int, desiredHeight: int,
                            widthPercent: real, heightPercent: real, minWidth: int, minHeight: int,
                            maxWidth: Option<int>, maxHeight: Option<int>): (r: (int, int))
    ensures r.0 == WindowSide(desiredWidth, s.width, widthPercent, minWidth, maxWidth)
    ensures r.1 == WindowSide(desiredHeight, s.height, heightPercent, minHeight, maxHeight)
  {
    (WindowSide(desiredWidth, s.width, widthPercent, minWidth, maxWidth),
     WindowSide(desiredHeight, s.height, heightPercent, minHeight, maxHeight))
  }

  /**
   * `get_panel_width`: a fraction of the parent (the screen when no parent
   * is given) clamped to [minimum, maximum]; the desired width plays no part.
   */
  function PanelWidth(s: Screen, desired: int, parentWidth: Option<int>, percent: real,
                      minimum: int, maximum: int): (r: int)
    ensures r >= minimum
    ensures minimum <= maximum ==> r <= maximum
    ensures var c := Trunc(parentWidth.GetOr(s.width) as real * percent);
      minimum <= c <= maximum ==> r == c
  {
    var parent := parentWidth.GetOr(s.width);
    var calculated := Trunc(parent as real * percent);
    Max(minimum, Min(calculated, maximum))
  }

  lemma PanelIgnoresDesired(s: Screen, d1: int, d2: int, parentWidth: Option<int>, percent: real,
                            minimum: int, maximum: int)
    ensures PanelWidth(s, d1, parentWidth, percent, minimum, maximum)
         == PanelWidth(s, d2, parentWidth, percent, minimum, maximum)
  {
  }

  /** `base_widths.get(button_type, 120)`. */
  function BaseWidth(buttonType: string): nat
  {
    if buttonType == "small" then 100
    else if buttonType == "normal" then 120
    else if buttonType == "large" then 150
    else if buttonType == "wide" then 200
    else 120
  }

  /** The multiplier for the screen width, in tenths: 12, 11, 10 or 9. */
  function Multiplier(width: int): (m: real)
    ensures width >= 1920 ==> m == 1.2
    ensures 1600 <= width < 1920 ==> m == 1.1
    ensures 1366 <= width < 1600 ==> m == 1.0
    ensures width < 1366 ==> m == 0.9
  {
    if width >= 1920 then 1.2
    else if width >= 1600 then 1.1
    else if width >= 1366 then 1.0
    else 0.9
  }

  /** `get_button_width`: `int(base * multiplier)`. */
  function ButtonWidth(s: Screen, buttonType: string): int
  {
    Trunc(BaseWidth(buttonType) as real * Multiplier(s.width))
  }

  /** Every product is a whole number, so the width is exactly `base * tenths / 10`. */
  lemma ButtonWidthExact(s: Screen, buttonType: string)
    ensures var tenths := if s.width >= 1920 then 12 else if s.width >= 1600 then 11
                          else if s.width >= 1366 then 10 else 9;
      ButtonWidth(s, buttonType) == BaseWidth(buttonType) * tenths / 10
  {
    var b := BaseWidth(buttonType);
    var tenths := if s.width >= 1920 then 12 else if s.width >= 1600 then 11
                  else if s.width >= 1366 then 10 else 9;
    assert b % 10 == 0;
    var w := b * tenths / 10;
    assert w * 10 == b * tenths;
    assert b as real * Multiplier(s.width) == w as real;
    TruncOfInteger(w);
  }

  /** A wider screen never gets narrower buttons. */
  lemma ButtonWidthMonotone(s1: Screen, s2: Screen, buttonType: string)
    requires s1.width <= s2.width
    ensures ButtonWidth(s1, buttonType) <= ButtonWidth(s2, buttonType)
  {
    ButtonWidthExact(s1, buttonType);
    ButtonWidthExact(s2, buttonType);
  }

  lemma ButtonWidthExamples()
    ensures ButtonWidth(Screen(1920, 1080, 1.0), "normal") == 144
    ensures ButtonWidth(Screen(1600, 900, 1.0), "small") == 110
    ensures ButtonWidth(Screen(1280, 720, 1.0), "wide") == 180
    ensures ButtonWidth(Screen(1366, 768, 1.0), "other") == 120
  {
    ButtonWidthExact(Screen(1920, 1080, 1.0), "normal");
    ButtonWidthExact(Screen(1600, 900, 1.0), "small");
    ButtonWidthExact(Screen(1280, 720, 1.0), "wide");
    ButtonWidthExact(Screen(1366, 768, 1.0), "other");
  }

  predicate IsSmallScreen(s: Screen)
  {
    s.width < 1366 || s.height < 768
  }

  predicate IsLargeScreen(s: Screen)
  {
    s.width >= 1920 && s.height >= 1080
  }

  datatype Category = Small | Medium | Large | XLarge

  /** `get_screen_category`: the first of small, medium, large whose bounds the screen falls short of, else xlarge. */
  function ScreenCategory(s: Screen): (c: Category)
    ensures c == Small <==> IsSmallScreen(s)
    ensures c == XLarge <==> s.width >= 2560 && s.height >= 1440
    ensures c == Medium <==> !IsSmallScreen(s) && (s.width < 1600 || s.height < 900)
  {
    if s.width < 1366 || s.height < 768 then Small
    else if s.width < 1600 || s.height < 900 then Medium
    else if s.width < 2560 || s.height < 1440 then Large
    else XLarge
  }

  function CategoryRank(c: Category): nat
  {
    match c
    case Small => 0
    case Medium => 1
    case Large => 2
    case XLarge => 3
  }

  /** A screen at least as large on both sides is in the same or a larger category. */
  lemma CategoryMonotone(s1: Screen, s2: Screen)
    requires s1.width <= s2.width && s1.height <= s2.height
    ensures CategoryRank(ScreenCategory(s1)) <= CategoryRank(ScreenCategory(s2))
  {
  }

  /** A large screen is never categorised below large. */
  lemma LargeScreenCategory(s: Screen)
    requires IsLargeScreen(s)
    ensures ScreenCategory(s) == Large || ScreenCategory(s) == XLarge
  {
  }
}
