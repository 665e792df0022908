/** The SoundCloud banner measurer: from the banner element's box and
    computed background styles, and the avatar element's box, it works out
    where the avatar sits in the banner image's natural pixels and which
    square of the image to crop. The DOM side (finding the two elements,
    loading the image, the clipboard) is left to its inputs: two rectangles,
    three style strings, the outcome of the image load and parseFloat. */
module Measurer {
  import opened Wrappers
  import opened Text
  import opened JsNumber

  // ----- takeFirst -----------------------------------------------------------

  /** takeFirst: the first comma-separated layer of a style value, trimmed;
      null or undefined reads as ''. */
  function TakeFirst(s: Option<string>): (r: string)
    ensures s.None? ==> r == ""
  {
    Trim(BeforeFirst(s.GetOr(""), ','))
  }

  /** What takeFirst keeps: the text before the first comma without the
      white space around it, so no comma and no white space at either end. */
  lemma TakeFirstLayer(s: Option<string>)
    ensures var r := TakeFirst(s);
            var p := BeforeFirst(s.GetOr(""), ',');
            && (forall k :: 0 <= k < |r| ==> r[k] != ',')
            && (r != [] ==> !IsJsSpace(r[0]) && !IsJsSpace(r[|r| - 1]))
            && exists i, j :: 0 <= i <= j <= |p| && r == p[i..j] && StrippedAround(p, i, j)
  {
    var p := BeforeFirst(s.GetOr(""), ',');
    BeforeFirstSpec(s.GetOr(""), ',');
    var b := TrimBounds(p);
    TrimBoundsSpec(p);
    var r := p[b.0..b.1];
    forall k | 0 <= k < |r| ensures r[k] != ',' {
      assert r[k] == p[b.0 + k] && p[b.0 + k] in p;
    }
    assert r == p[b.0..b.1] && StrippedAround(p, b.0, b.1);
  }

  /** A layer taken once is taken for good. */
  lemma TakeFirstIdempotent(s: Option<string>)
    ensures TakeFirst(Some(TakeFirst(s))) == TakeFirst(s)
  {
    var r := TakeFirst(s);
    TakeFirstLayer(s);
    BeforeFirstSpec(r, ',');
    assert ',' !in r;
    assert BeforeFirst(r, ',') == r;
    TrimTrimmed(r);
  }

  // ----- keywordToPercent ----------------------------------------------------

  datatype Axis = X | Y

  /** The keyword objects mapX and mapY. */
  function KeywordTable(axis: Axis): map<string, nat> {
    if axis == X then map["left" := 0, "center" := 50, "right" := 100]
    else map["top" := 0, "center" := 50, "bottom" := 100]
  }

  /** t is a decimal integer of value n followed by '%'. */
  predicate PercentText(t: string, n: nat) {
    EndsWith(t, "%") && AllDigits(t[..|t| - 1]) && DecimalValue(t[..|t| - 1]) == n
  }

  lemma PercentTextOf(n: nat)
    ensures PercentText(DecimalString(n) + "%", n)
  {
    var d := DecimalString(n);
    assert (d + "%")[..|d|] == d;
    DecimalRoundTrip(n);
  }

  /** keywordToPercent: a keyword of the axis becomes its table value
      followed by '%'; any other token, undefined included, is returned as
      it is. */
  function KeywordToPercent(kw: Option<string>, axis: Axis): (r: Option<string>)
    ensures kw.None? ==> r.None?
    ensures kw.Some? && kw.value !in KeywordTable(axis) ==> r == kw
  {
    match kw
    case None => None
    case Some(k) =>
      var table := KeywordTable(axis);
      if k in table then Some(DecimalString(table[k]) + "%") else kw
  }

  /** A keyword becomes a percentage whose number is its table value. */
  lemma KeywordToPercentValue(k: string, axis: Axis)
    requires k in KeywordTable(axis)
    ensures KeywordToPercent(Some(k), axis).Some? &&
            PercentText(KeywordToPercent(Some(k), axis).value, KeywordTable(axis)[k])
  {
    PercentTextOf(KeywordTable(axis)[k]);
  }

  // ----- parseLenOrPercent ---------------------------------------------------

  datatype Unit = Percent | Auto | Px

  /** The {type, v} object of parseLenOrPercent. */
  datatype Token = Token(unit: Unit, v: Num)

  /** parseFloat, left abstract: any map from text to a number. */
  type ParseFloat = string -> Num

  /** parseLenOrPercent: the trimmed token is a percentage when it ends
      with '%', 'auto' when it is exactly that, and a length otherwise; the
      number is parseFloat of the trimmed text (NaN for 'auto'). The
      undefined token reads as ''. */
  function ParseLenOrPercent(token: Option<string>, parseFloat: ParseFloat): (r: Token)
    ensures var t := Trim(token.GetOr(""));
            && (r.unit == Percent <==> EndsWith(t, "%"))
            && (r.unit == Auto <==> t == "auto")
            && (r.unit == Auto ==> r.v == NaN)
            && (r.unit != Auto ==> r.v == parseFloat(t))
  {
    var t := Trim(token.GetOr(""));
    if EndsWith(t, "%") then Token(Percent, parseFloat(t))
    else if t == "auto" then Token(Auto, NaN)
    else
      var n := parseFloat(t);
      Token(Px, if n.NaN? then NaN else n)
  }

  /** White space around a token does not change how it parses. */
  lemma ParseIgnoresSpace(token: string, parseFloat: ParseFloat)
    ensures ParseLenOrPercent(Some(Trim(token)), parseFloat) == ParseLenOrPercent(Some(token), parseFloat)
  {
    TrimBoundsSpec(token);
    TrimTrimmed(Trim(token));
  }

  /** parseFloat reads a decimal integer followed by '%' as that integer. */
  ghost predicate ReadsPercentIntegers(parseFloat: ParseFloat) {
    forall n: nat :: parseFloat(DecimalString(n) + "%") == Fin(n as real)
  }

  /** A position keyword parses as the percentage of its table. */
  lemma KeywordIsPercent(k: string, axis: Axis, parseFloat: ParseFloat)
    requires k in KeywordTable(axis)
    requires ReadsPercentIntegers(parseFloat)
    ensures ParseLenOrPercent(KeywordToPercent(Some(k), axis), parseFloat) ==
              Token(Percent, Fin(KeywordTable(axis)[k] as real))
  {
    var n := KeywordTable(axis)[k];
    var t := DecimalString(n) + "%";
    assert KeywordToPercent(Some(k), axis) == Some(t);
    assert t[0] == DecimalString(n)[0] && t[|t| - 1] == '%';
    TrimTrimmed(t);
    assert t[|t| - 1..] == "%";
  }

  // ----- resolveBackgroundSize -----------------------------------------------

  datatype Size = Size(w: Num, h: Num)

  datatype Fit = Cover | Contain

  /** coverContain: the natural size scaled by one factor, the larger of
      the two axis ratios for cover and the smaller for contain. */
  function CoverContain(mode: Fit, natW: Num, natH: Num, elW: Num, elH: Num): Size {
    var sx := Div(elW, natW);
    var sy := Div(elH, natH);
    var s := if mode == Cover then Max(sx, sy) else Min(sx, sy);
    Size(Mul(natW, s), Mul(natH, s))
  }

  function Percent100(p: Num, base: Num): Num {
    Mul(Div(p, Fin(100.0)), base)
  }

  /** The explicit width/height cases of resolveBackgroundSize; any other
      pair of tokens falls back to cover. */
  function SizeFromTokens(x: Token, y: Token, natW: Num, natH: Num, elW: Num, elH: Num): Size {
    if x.unit == Px && y.unit == Px then Size(x.v, y.v)
    else if x.unit == Px && y.unit == Auto then Size(x.v, Mul(Div(x.v, natW), natH))
    else if y.unit == Px && x.unit == Auto then Size(Mul(Div(y.v, natH), natW), y.v)
    else if x.unit == Percent && y.unit == Percent then Size(Percent100(x.v, elW), Percent100(y.v, elH))
    else if x.unit == Percent && y.unit == Auto then
      var w := Percent100(x.v, elW);
      Size(w, Mul(Div(w, natW), natH))
    else if y.unit == Percent && x.unit == Auto then
      var h := Percent100(y.v, elH);
      Size(Mul(Div(h, natH), natW), h)
    else CoverContain(Cover, natW, natH, elW, elH)
  }

  /** resolveBackgroundSize: 'cover' and 'contain', else up to two
      white-space separated tokens, a missing one read as 'auto'. */
  function ResolveBackgroundSize(natW: Num, natH: Num, elW: Num, elH: Num,
                                 backgroundSize: Option<string>, parseFloat: ParseFloat): Size
  {
    var bs := TakeFirst(backgroundSize);
    if bs == "cover" then CoverContain(Cover, natW, natH, elW, elH)
    else if bs == "contain" then CoverContain(Contain, natW, natH, elW, elH)
    else
      var (x, y) := SizeTokens(bs);
      SizeFromTokens(ParseLenOrPercent(Some(x), parseFloat), ParseLenOrPercent(Some(y), parseFloat),
                     natW, natH, elW, elH)
  }

  /** The width and height words of a background-size, 'auto' for a
      missing one. */
  function SizeTokens(bs: string): (string, string) {
    var parts := Words(bs);
    (if |parts| > 0 then parts[0] else AutoWord, if |parts| > 1 then parts[1] else AutoWord)
  }

  const AutoWord: string := "auto"

  /** The drawn size has the natural aspect ratio. */
  predicate KeepsAspect(r: Size, natW: real, natH: real) {
    r.w.Fin? && r.h.Fin? && r.w.v * natH == r.h.v * natW
  }

  /** cover scales the image just enough to cover the element: both sides
      reach the element's, one of them exactly, and the aspect ratio is
      kept. */
  lemma CoverFillsElement(natW: real, natH: real, elW: real, elH: real)
    requires natW > 0.0 && natH > 0.0 && elW > 0.0 && elH > 0.0
    ensures var r := CoverContain(Cover, Fin(natW), Fin(natH), Fin(elW), Fin(elH));
            && KeepsAspect(r, natW, natH)
            && r.w.v >= elW && r.h.v >= elH && (r.w.v == elW || r.h.v == elH)
  {
    var sx, sy := elW / natW, elH / natH;
    assert natW * sx == elW && natH * sy == elH;
    var s := if sx >= sy then sx else sy;
    assert natW * s >= natW * sx && natH * s >= natH * sy;
  }

  /** contain scales the image as far as it fits inside the element: both
      sides stay within the element's, one of them exactly, and the aspect
      ratio is kept. */
  lemma ContainFitsElement(natW: real, natH: real, elW: real, elH: real)
    requires natW > 0.0 && natH > 0.0 && elW > 0.0 && elH > 0.0
    ensures var r := CoverContain(Contain, Fin(natW), Fin(natH), Fin(elW), Fin(elH));
            && KeepsAspect(r, natW, natH)
            && r.w.v <= elW && r.h.v <= elH && (r.w.v == elW || r.h.v == elH)
  {
    var sx, sy := elW / natW, elH / natH;
    assert natW * sx == elW && natH * sy == elH;
    var s := if sx <= sy then sx else sy;
    assert natW * s <= natW * sx && natH * s <= natH * sy;
  }

  /** A length or percentage on one axis with 'auto' on the other keeps
      the natural aspect ratio. */
  lemma OneAutoKeepsAspect(x: Token, y: Token, natW: real, natH: real, elW: real, elH: real)
    requires natW > 0.0 && natH > 0.0
    requires (x.unit != Auto && y.unit == Auto && x.v.Fin?) || (x.unit == Auto && y.unit != Auto && y.v.Fin?)
    ensures KeepsAspect(SizeFromTokens(x, y, Fin(natW), Fin(natH), Fin(elW), Fin(elH)), natW, natH)
  {
    if x.unit != Auto {
      var w := if x.unit == Px then x.v.v else x.v.v / 100.0 * elW;
      assert w / natW * natH * natW == w * natH;
    } else {
      var h := if y.unit == Px then y.v.v else y.v.v / 100.0 * elH;
      assert h / natH * natW * natH == h * natW;
    }
  }

  /** Pairs not listed (auto with auto, a length with a percentage) are
      drawn as cover, so they cover the element. */
  lemma UnlistedPairCovers(x: Token, y: Token, natW: real, natH: real, elW: real, elH: real)
    requires natW > 0.0 && natH > 0.0 && elW > 0.0 && elH > 0.0
    requires (x.unit == Auto && y.unit == Auto) || (x.unit == Px && y.unit == Percent) ||
             (x.unit == Percent && y.unit == Px)
    ensures var r := SizeFromTokens(x, y, Fin(natW), Fin(natH), Fin(elW), Fin(elH));
            KeepsAspect(r, natW, natH) && r.w.v >= elW && r.h.v >= elH
  {
    CoverFillsElement(natW, natH, elW, elH);
  }

  /** 'auto' parses as auto. */
  lemma AutoParses(parseFloat: ParseFloat)
    ensures ParseLenOrPercent(Some(AutoWord), parseFloat) == Token(Auto, NaN)
  {
    TrimTrimmed(AutoWord);
  }

  /** A token ending in '%' with no white space at its ends parses as a
      percentage of parseFloat's reading. */
  lemma PercentParses(t: string, parseFloat: ParseFloat)
    requires t != [] && !IsJsSpace(t[0]) && t[|t| - 1] == '%'
    ensures ParseLenOrPercent(Some(t), parseFloat) == Token(Percent, parseFloat(t))
  {
    TrimTrimmed(t);
    assert t[|t| - 1..] == "%";
  }

  /** A taken layer without words is empty. */
  lemma NoWordsIsEmpty(s: Option<string>)
    requires Words(TakeFirst(s)) == []
    ensures TakeFirst(s) == ""
  {
    TakeFirstLayer(s);
  }

  /** A background-size with no token, as when the style is empty, reads
      as 'auto auto' and is drawn as cover. */
  lemma EmptySizeIsCover(natW: Num, natH: Num, elW: Num, elH: Num,
                         backgroundSize: Option<string>, parseFloat: ParseFloat)
    requires Words(TakeFirst(backgroundSize)) == []
    ensures ResolveBackgroundSize(natW, natH, elW, elH, backgroundSize, parseFloat) ==
              CoverContain(Cover, natW, natH, elW, elH)
  {
    NoWordsIsEmpty(backgroundSize);
    assert SizeTokens("") == (AutoWord, AutoWord);
    AutoParses(parseFloat);
  }

  /** A single length or percentage sets that side and derives the other
      from the natural aspect ratio. */
  lemma SingleTokenKeepsAspect(natW: real, natH: real, elW: real, elH: real,
                               backgroundSize: Option<string>, parseFloat: ParseFloat)
    requires natW > 0.0 && natH > 0.0
    requires TakeFirst(backgroundSize) != "cover" && TakeFirst(backgroundSize) != "contain"
    requires |Words(TakeFirst(backgroundSize))| == 1
    requires var x := ParseLenOrPercent(Some(Words(TakeFirst(backgroundSize))[0]), parseFloat);
             x.unit != Auto && x.v.Fin?
    ensures KeepsAspect(ResolveBackgroundSize(Fin(natW), Fin(natH), Fin(elW), Fin(elH), backgroundSize, parseFloat),
                        natW, natH)
  {
    var bs := TakeFirst(backgroundSize);
    assert SizeTokens(bs) == (Words(bs)[0], AutoWord);
    AutoParses(parseFloat);
    var x := ParseLenOrPercent(Some(Words(bs)[0]), parseFloat);
    OneAutoKeepsAspect(x, Token(Auto, NaN), natW, natH, elW, elH);
  }

  /** Two percentages are fractions of the element's sides; '100% 100%'
      is the element's own size. */
  lemma PercentPairScalesElement(p: real, q: real, natW: Num, natH: Num, elW: real, elH: real)
    ensures SizeFromTokens(Token(Percent, Fin(p)), Token(Percent, Fin(q)), natW, natH, Fin(elW), Fin(elH)) ==
              Size(Fin(p / 100.0 * elW), Fin(q / 100.0 * elH))
    ensures p == 100.0 && q == 100.0 ==>
              SizeFromTokens(Token(Percent, Fin(p)), Token(Percent, Fin(q)), natW, natH, Fin(elW), Fin(elH)) ==
              Size(Fin(elW), Fin(elH))
  {
  }

  /** '100% 100%' stretches the image over exactly the element. */
  lemma FullPercentFillsElement(natW: Num, natH: Num, elW: real, elH: real,
                                backgroundSize: Option<string>, parseFloat: ParseFloat)
    requires parseFloat("100%") == Fin(100.0)
    requires TakeFirst(backgroundSize) == "100% 100%"
    ensures ResolveBackgroundSize(natW, natH, Fin(elW), Fin(elH), backgroundSize, parseFloat) == Size(Fin(elW), Fin(elH))
  {
    assert |TakeFirst(backgroundSize)| == 9;
    FullPercentTokens();
    ResolveSizeOfTokens(natW, natH, Fin(elW), Fin(elH), backgroundSize, parseFloat, "100%", "100%");
    PercentParses("100%", parseFloat);
    PercentPairScalesElement(100.0, 100.0, natW, natH, elW, elH);
  }

  /** Past the two keywords, the size comes from the parsed tokens alone. */
  lemma ResolveSizeOfTokens(natW: Num, natH: Num, elW: Num, elH: Num,
                            backgroundSize: Option<string>, parseFloat: ParseFloat, x: string, y: string)
    requires TakeFirst(backgroundSize) != "cover" && TakeFirst(backgroundSize) != "contain"
    requires SizeTokens(TakeFirst(backgroundSize)) == (x, y)
    ensures ResolveBackgroundSize(natW, natH, elW, elH, backgroundSize, parseFloat) ==
              SizeFromTokens(ParseLenOrPercent(Some(x), parseFloat), ParseLenOrPercent(Some(y), parseFloat),
                             natW, natH, elW, elH)
  {
  }

  lemma FullPercentTokens()
    ensures SizeTokens("100% 100%") == ("100%", "100%")
  {
    assert "100% 100%" == "100%" + (" " + "100%");
    WordsOfPair("100%", "100%");
  }

  // ----- resolveBackgroundPosition -------------------------------------------

  datatype Point = Point(x: Num, y: Num)

  /** One axis of resolveBackgroundPosition: a percentage is that fraction
      of the room (element size minus image size); otherwise the number, or
      0 when it is NaN. */
  function AxisOffset(t: Token, room: Num): Num {
    if t.unit == Percent then Percent100(t.v, room)
    else if t.v.NaN? then Fin(0.0) else t.v
  }

  /** The x and y tokens of a background-position: up to two white-space
      separated words, x undefined when there is none and y '50%' when it
      is missing. */
  function PositionTokens(backgroundPosition: Option<string>): (r: (Option<string>, Option<string>))
    ensures r.1.Some?
  {
    var parts := Words(TakeFirst(backgroundPosition));
    (if |parts| > 0 then Some(parts[0]) else None, if |parts| > 1 then Some(parts[1]) else Some(DefaultY))
  }

  /** The y token used when a position has a single word. */
  const DefaultY: string := "50%"

  /** One axis of resolveBackgroundPosition: keyword to percentage, parse,
      offset within the room. */
  function AxisPosition(token: Option<string>, axis: Axis, room: Num, parseFloat: ParseFloat): Num {
    AxisOffset(ParseLenOrPercent(KeywordToPercent(token, axis), parseFloat), room)
  }

  /** resolveBackgroundPosition: keywords become percentages, and each axis
      is offset within the element size minus the image size. */
  function ResolveBackgroundPosition(elW: Num, elH: Num, bgW: Num, bgH: Num,
                                     backgroundPosition: Option<string>, parseFloat: ParseFloat): Point
  {
    var (x, y) := PositionTokens(backgroundPosition);
    Point(AxisPosition(x, X, Sub(elW, bgW), parseFloat), AxisPosition(y, Y, Sub(elH, bgH), parseFloat))
  }

  /** A percentage p places the point p% across the image on the point p%
      across the element: 0% aligns the leading edges, 100% the trailing
      ones. */
  lemma PercentOffsetAligns(p: real, el: real, bg: real)
    ensures var o := AxisOffset(Token(Percent, Fin(p)), Sub(Fin(el), Fin(bg)));
            o.Fin? && o.v + p / 100.0 * bg == p / 100.0 * el
  {
    assert p / 100.0 * (el - bg) + p / 100.0 * bg == p / 100.0 * el;
  }

  /** A token that is neither a percentage nor a number places the image
      at offset 0. */
  lemma UnparsedOffsetIsZero(t: Token, room: Num)
    requires t.unit != Percent && t.v.NaN?
    ensures AxisOffset(t, room) == Fin(0.0)
  {
  }

  /** 'center' and a missing y both read as 50%, which centres the image. */
  lemma HalfPercentCenters(room: real, parseFloat: ParseFloat)
    requires parseFloat(DefaultY) == Fin(50.0)
    ensures AxisPosition(Some(DefaultY), Y, Fin(room), parseFloat) == Fin(room / 2.0)
  {
    DefaultYIsNoKeyword();
    PercentParses(DefaultY, parseFloat);
    HalfOffset(room);
  }

  lemma DefaultYIsNoKeyword()
    ensures DefaultY !in KeywordTable(Y)
  {
    assert |DefaultY| == 3 && DefaultY[0] == '5';
  }

  lemma HalfOffset(room: real)
    ensures AxisOffset(Token(Percent, Fin(50.0)), Fin(room)) == Fin(room / 2.0)
  {
    assert Div(Fin(50.0), Fin(100.0)) == Fin(0.5);
  }

  /** A position of a single word gets '50%' as its y token. */
  lemma MissingYIsHalf(backgroundPosition: Option<string>)
    requires |Words(TakeFirst(backgroundPosition))| == 1
    ensures PositionTokens(backgroundPosition).1 == Some(DefaultY)
  {
  }

  // ----- clampBox ------------------------------------------------------------

  datatype Box = Box(x: Num, y: Num, s: Num)

  /** clampBox: the origin clamped into [0, W] x [0, H], then the side cut
      down to what is left of the image to the right and below. */
  function ClampBox(x: Num, y: Num, s: Num, w: Num, h: Num): Box {
    var cx := Max(Fin(0.0), Min(x, w));
    var cy := Max(Fin(0.0), Min(y, h));
    Box(cx, cy, Min(Min(s, Sub(w, cx)), Sub(h, cy)))
  }

  /** Within an image of non-negative size, the clamped origin is a number
      in range unless the input was NaN, and a side that is a number fits
      to the right of and below the origin. */
  lemma ClampBoxBounds(x: Num, y: Num, s: Num, w: real, h: real)
    requires w >= 0.0 && h >= 0.0
    ensures var r := ClampBox(x, y, s, Fin(w), Fin(h));
            && (r.x.NaN? <==> x.NaN?) && (r.y.NaN? <==> y.NaN?)
            && (r.x.Fin? || r.x.NaN?) && (r.y.Fin? || r.y.NaN?)
            && (r.x.Fin? ==> 0.0 <= r.x.v <= w)
            && (r.y.Fin? ==> 0.0 <= r.y.v <= h)
            && (r.s.NaN? <==> s.NaN? || x.NaN? || y.NaN?)
            && (r.s.Fin? ==> r.x.v + r.s.v <= w && r.y.v + r.s.v <= h)
            && !r.s.PosInf?
  {
    ClampOrigin(x, w);
    ClampOrigin(y, h);
    var r := ClampBox(x, y, s, Fin(w), Fin(h));
    ClampSide(s, r.x, r.y, w, h);
  }

  /** One coordinate of clampBox. */
  lemma ClampOrigin(x: Num, w: real)
    requires w >= 0.0
    ensures var c := Max(Fin(0.0), Min(x, Fin(w)));
            (c.NaN? <==> x.NaN?) && (c.Fin? || c.NaN?) && (c.Fin? ==> 0.0 <= c.v <= w)
  {
    InfinityBounds(Fin(w));
  }

  /** The side of clampBox, from a clamped origin. */
  lemma ClampSide(s: Num, cx: Num, cy: Num, w: real, h: real)
    requires (cx.Fin? || cx.NaN?) && (cy.Fin? || cy.NaN?)
    ensures var r := Min(Min(s, Sub(Fin(w), cx)), Sub(Fin(h), cy));
            && (r.NaN? <==> s.NaN? || cx.NaN? || cy.NaN?)
            && (r.Fin? ==> cx.Fin? && cy.Fin? && r.v <= w - cx.v && r.v <= h - cy.v)
            && !r.PosInf?
  {
    if cx.Fin? && cy.Fin? {
      var a, b := Fin(w - cx.v), Fin(h - cy.v);
      InfinityBounds(a);
      InfinityBounds(b);
      var m := Min(s, a);
      assert m.NaN? || m.NegInf? || (m.Fin? && m.v <= w - cx.v);
    }
  }

  /** A box already inside the image is left as it is. */
  lemma ClampBoxKeepsFitting(x: real, y: real, s: real, w: real, h: real)
    requires 0.0 <= x && 0.0 <= y && x + s <= w && y + s <= h && x <= w && y <= h
    ensures ClampBox(Fin(x), Fin(y), Fin(s), Fin(w), Fin(h)) == Box(Fin(x), Fin(y), Fin(s))
  {
    assert Max(Fin(0.0), Min(Fin(x), Fin(w))) == Fin(x);
    assert Max(Fin(0.0), Min(Fin(y), Fin(h))) == Fin(y);
    assert Min(Fin(s), Sub(Fin(w), Fin(x))) == Fin(s);
    assert Min(Fin(s), Sub(Fin(h), Fin(y))) == Fin(s);
  }

  /** Clamping twice is clamping once. */
  lemma ClampBoxIdempotent(x: real, y: real, s: real, w: real, h: real)
    requires w >= 0.0 && h >= 0.0
    ensures var r := ClampBox(Fin(x), Fin(y), Fin(s), Fin(w), Fin(h));
            ClampBox(r.x, r.y, r.s, Fin(w), Fin(h)) == r
  {
    ClampBoxBounds(Fin(x), Fin(y), Fin(s), w, h);
    var r := ClampBox(Fin(x), Fin(y), Fin(s), Fin(w), Fin(h));
    ClampBoxKeepsFitting(r.x.v, r.y.v, r.s.v, w, h);
  }

  // ----- the url(...) pattern ------------------------------------------------

  predicate IsQuote(c: char) { c == '"' || c == '\'' }

  /** The line terminators, which '.' in a regular expression does not match. */
  predicate IsLineTerminator(c: char) {
    var n := c as int;
    n == 0x0A || n == 0x0D || n == 0x2028 || n == 0x2029
  }

  /** `["']?\)` matches at index e. */
  predicate StopsAt(s: string, e: nat) {
    e < |s| && (s[e] == ')' || (IsQuote(s[e]) && e + 1 < |s| && s[e + 1] == ')'))
  }

  /** The lazy `(.*?)` started at k ends at e: e is the first index from k
      where the closing part matches, and the text in between has no line
      terminator. */
  ghost predicate LazyEndAt(s: string, k: nat, e: nat) {
    k <= e && StopsAt(s, e) && forall j :: k <= j < e ==> !StopsAt(s, j) && !IsLineTerminator(s[j])
  }

  /** `(.*?)["']?\)` from index k: the end of the captured text, if any. */
  function ContentEnd(s: string, k: nat): (r: Option<nat>)
    requires k <= |s|
    ensures r.Some? ==> LazyEndAt(s, k, r.value)
    ensures forall e: nat :: LazyEndAt(s, k, e) ==> r == Some(e)
    decreases |s| - k
  {
    if StopsAt(s, k) then Some(k)
    else if k < |s| && !IsLineTerminator(s[k]) then
      var r := ContentEnd(s, k + 1);
      assert forall e: nat :: LazyEndAt(s, k, e) ==> LazyEndAt(s, k + 1, e);
      r
    else None
  }

  /** `url\(["']?(.*?)["']?\)` at index i, where "url(" occurs: the opening
      quote is taken when present and given back when the rest fails. */
  function UrlAt(s: string, i: nat): (r: Option<string>)
    requires OccursAt(s, "url(", i)
  {
    var p := i + 4;
    if p < |s| && IsQuote(s[p]) && ContentEnd(s, p + 1).Some? then Some(s[p + 1..ContentEnd(s, p + 1).value])
    else match ContentEnd(s, p)
      case Some(e) => Some(s[p..e])
      case None => None
  }

  /** The first match of the pattern from index i. */
  function UrlFrom(s: string, i: nat): Option<string>
    requires i <= |s|
    decreases |s| - i
  {
    if i + 4 > |s| then None
    else if OccursAt(s, "url(", i) && UrlAt(s, i).Some? then UrlAt(s, i)
    else UrlFrom(s, i + 1)
  }

  /** `urlMatch ? urlMatch[1] : null`. */
  function BannerUrl(raw: string): Option<string> {
    UrlFrom(raw, 0)
  }

  /** The computed form url("u") gives back u, for a u without quotes,
      parentheses or line breaks. */
  lemma BannerUrlOfQuoted(u: string)
    requires forall j :: 0 <= j < |u| ==> u[j] != ')' && !IsQuote(u[j]) && !IsLineTerminator(u[j])
    ensures BannerUrl("url(\"" + u + "\")") == Some(u)
  {
    var s := "url(\"" + u + "\")";
    var e := 5 + |u|;
    assert s[..4] == "url(" && s[4] == '"';
    assert s[e] == '"' && s[e + 1] == ')';
    forall j | 5 <= j < e ensures !StopsAt(s, j) && !IsLineTerminator(s[j]) {
      assert s[j] == u[j - 5];
    }
    assert LazyEndAt(s, 5, e);
    assert s[5..e] == u;
  }

  // ----- the -tWxH. size fallback --------------------------------------------

  /** The number of decimal digits from index i on. */
  function DigitRun(s: string, i: nat): (n: nat)
    requires i <= |s|
    ensures i + n <= |s| && AllDigits(s[i..i + n])
    ensures i + n < |s| ==> !IsDigit(s[i + n])
    decreases |s| - i
  {
    if i < |s| && IsDigit(s[i]) then
      var m := DigitRun(s, i + 1);
      assert s[i..i + m + 1] == [s[i]] + s[i + 1..i + 1 + m];
      m + 1
    else 0
  }

  lemma {:induction false} DigitRunExact(s: string, i: nat, a: nat)
    requires i + a <= |s| && AllDigits(s[i..i + a]) && (i + a < |s| ==> !IsDigit(s[i + a]))
    ensures DigitRun(s, i) == a
    decreases a
  {
    if a > 0 {
      assert s[i] == s[i..i + a][0];
      assert s[i + 1..i + a] == s[i..i + a][1..];
      DigitRunExact(s, i + 1, a - 1);
    }
  }

  /** `-t(\d+)x(\d+)\.` matches at index i with digit runs of lengths a and b. */
  ghost predicate SizePatternAt(s: string, i: nat, a: nat, b: nat) {
    && i + a + b + 4 <= |s| && s[i] == '-' && s[i + 1] == 't'
    && a > 0 && AllDigits(s[i + 2..i + 2 + a]) && s[i + 2 + a] == 'x'
    && b > 0 && AllDigits(s[i + 3 + a..i + 3 + a + b]) && s[i + 3 + a + b] == '.'
  }

  /** The lengths of the two digit runs when the pattern matches at index i,
      taking each run as long as it goes (greedy \d+). */
  function SizeAt(s: string, i: nat): (r: Option<(nat, nat)>)
    requires i <= |s|
    ensures r.Some? ==> SizePatternAt(s, i, r.value.0, r.value.1)
  {
    if i + 2 <= |s| && s[i] == '-' && s[i + 1] == 't' then
      var a := DigitRun(s, i + 2);
      var xAt := i + 2 + a;
      if a > 0 && xAt < |s| && s[xAt] == 'x' then
        var b := DigitRun(s, xAt + 1);
        var dotAt := xAt + 1 + b;
        if b > 0 && dotAt < |s| && s[dotAt] == '.' then Some((a, b)) else None
      else None
    else None
  }

  /** Since neither 'x' nor '.' is a digit, a match at i can only have the
      greedy run lengths, so SizeAt finds every match there is. */
  lemma SizeAtComplete(s: string, i: nat, a: nat, b: nat)
    requires i <= |s| && SizePatternAt(s, i, a, b)
    ensures SizeAt(s, i) == Some((a, b))
  {
    DigitRunExact(s, i + 2, a);
    DigitRunExact(s, i + 3 + a, b);
  }

  /** The first match of the pattern from index i: its index and run
      lengths. */
  function FirstSize(s: string, i: nat): (r: Option<(nat, nat, nat)>)
    requires i <= |s|
    ensures r.Some? ==> i <= r.value.0 <= |s| && SizePatternAt(s, r.value.0, r.value.1, r.value.2)
    decreases |s| - i
  {
    if i == |s| then None
    else match SizeAt(s, i)
      case Some((a, b)) => Some((i, a, b))
      case None => FirstSize(s, i + 1)
  }

  /** FirstSize finds the leftmost match, and none when there is none. */
  lemma {:induction false} FirstSizeLeftmost(s: string, i: nat)
    requires i <= |s|
    ensures var r := FirstSize(s, i);
            && (r.Some? ==> forall j, a, b :: i <= j < r.value.0 && SizePatternAt(s, j, a, b) ==> false)
            && (r.None? ==> forall j, a, b :: i <= j <= |s| && SizePatternAt(s, j, a, b) ==> false)
    decreases |s| - i
  {
    if i < |s| {
      if SizeAt(s, i).None? {
        FirstSizeLeftmost(s, i + 1);
        forall a, b | SizePatternAt(s, i, a, b) ensures false {
          SizeAtComplete(s, i, a, b);
        }
      }
    } else {
      assert forall a, b :: !SizePatternAt(s, i, a, b);
    }
  }

  /** `/-t(\d+)x(\d+)\./.exec(text)` with `+g[1]` and `+g[2]`. */
  function GuessSize(text: string): (r: Option<(nat, nat)>)
  {
    match FirstSize(text, 0)
    case None => None
    case Some((k, a, b)) => Some((DecimalValue(text[k + 2..k + 2 + a]), DecimalValue(text[k + 3 + a..k + 3 + a + b])))
  }

  lemma {:induction false} FirstSizeSkips(s: string, i: nat, j: nat)
    requires i <= j <= |s|
    requires forall k :: i <= k < j ==> s[k] != '-'
    ensures FirstSize(s, i) == FirstSize(s, j)
    decreases j - i
  {
    if i < j {
      FirstSizeSkips(s, i + 1, j);
    }
  }

  /** A name carrying -t<w>x<h>. gives back w and h, when nothing before
      it starts a match. */
  lemma GuessSizeRoundTrip(prefix: string, w: nat, h: nat, suffix: string)
    requires '-' !in prefix
    ensures GuessSize(prefix + ("-t" + (DecimalString(w) + ("x" + (DecimalString(h) + ("." + suffix)))))) ==
              Some((w, h))
  {
    GuessSizeOfLayout(prefix, DecimalString(w), DecimalString(h), suffix);
    DecimalRoundTrip(w);
    DecimalRoundTrip(h);
  }

  lemma GuessSizeOfLayout(prefix: string, dw: string, dh: string, suffix: string)
    requires '-' !in prefix
    requires dw != [] && AllDigits(dw) && dh != [] && AllDigits(dh)
    ensures GuessSize(prefix + ("-t" + (dw + ("x" + (dh + ("." + suffix)))))) ==
              Some((DecimalValue(dw), DecimalValue(dh)))
  {
    var s := prefix + ("-t" + (dw + ("x" + (dh + ("." + suffix)))));
    var i, a, b := |prefix|, |dw|, |dh|;
    NameLayout(prefix, dw, dh, suffix);
    forall k | 0 <= k < i ensures s[k] != '-' {
      assert s[k] == prefix[k] && prefix[k] in prefix;
    }
    GuessSizeAt(s, i, a, b);
    assert s[i + 2..i + 2 + a] == dw;
    assert s[i + 3 + a..i + 3 + a + b] == dh;
    assert GuessSize(s) == Some((DecimalValue(dw), DecimalValue(dh)));
  }

  /** A match at i with no '-' before it is the one GuessSize reads. */
  lemma GuessSizeAt(s: string, i: nat, a: nat, b: nat)
    requires SizePatternAt(s, i, a, b)
    requires forall k :: 0 <= k < i ==> s[k] != '-'
    ensures GuessSize(s) == Some((DecimalValue(s[i + 2..i + 2 + a]), DecimalValue(s[i + 3 + a..i + 3 + a + b])))
  {
    FirstSizeAt(s, i, a, b);
  }

  lemma FirstSizeAt(s: string, i: nat, a: nat, b: nat)
    requires SizePatternAt(s, i, a, b)
    requires forall k :: 0 <= k < i ==> s[k] != '-'
    ensures FirstSize(s, 0) == Some((i, a, b))
  {
    FirstSizeSkips(s, 0, i);
    SizeAtComplete(s, i, a, b);
  }

  /** Where the parts of prefix + "-t" + dw + "x" + dh + "." + suffix sit. */
  lemma NameLayout(prefix: string, dw: string, dh: string, suffix: string)
    ensures var s := prefix + ("-t" + (dw + ("x" + (dh + ("." + suffix)))));
            var i, a, b := |prefix|, |dw|, |dh|;
            && |s| == i + a + b + 4 + |suffix|
            && s[i] == '-' && s[i + 1] == 't' && s[i + 2 + a] == 'x' && s[i + 3 + a + b] == '.'
            && s[i + 2..i + 2 + a] == dw && s[i + 3 + a..i + 3 + a + b] == dh
            && forall k :: 0 <= k < i ==> s[k] == prefix[k]
  {
    var s := prefix + ("-t" + (dw + ("x" + (dh + ("." + suffix)))));
    var i, a, b := |prefix|, |dw|, |dh|;
    assert s[i..] == "-t" + (dw + ("x" + (dh + ("." + suffix))));
    var t := s[i..];
    assert t[2..] == dw + ("x" + (dh + ("." + suffix)));
    var u := t[2..];
    assert u[..a] == dw;
    assert s[i + 2..i + 2 + a] == u[..a];
    assert u[a..] == "x" + (dh + ("." + suffix));
    var v := u[a..][1..];
    assert v == dh + ("." + suffix);
    assert v[..b] == dh;
    assert s[i + 3 + a..i + 3 + a + b] == v[..b];
    assert v[b] == '.';
    assert forall k :: 0 <= k < i ==> s[k] == prefix[k];
  }

  // ----- getNaturalSize ------------------------------------------------------

  /** How loading the banner image ends. */
  datatype ImageLoad = Loaded(width: nat, height: nat) | LoadFailed

  datatype SizeSource = LoadedImage | GuessedFromUrl

  datatype NaturalSize = NaturalSize(w: nat, h: nat, source: SizeSource)

  function Guessed(text: string): (r: Option<NaturalSize>)
    ensures r.Some? ==> r.value.source == GuessedFromUrl
  {
    match GuessSize(text)
    case None => None
    case Some((w, h)) => Some(NaturalSize(w, h, GuessedFromUrl))
  }

  /** getNaturalSize: with no URL (null or ''), guess from the raw style
      value; otherwise the loaded image's size, or a guess from the URL when
      loading fails. */
  function NaturalSizeOf(url: Option<string>, raw: string, load: ImageLoad): (r: Option<NaturalSize>)
    ensures (url.None? || url == Some("")) ==> r == Guessed(raw)
    ensures url.Some? && url.value != "" && load.Loaded? ==>
              r == Some(NaturalSize(load.width, load.height, LoadedImage))
    ensures url.Some? && url.value != "" && load.LoadFailed? ==> r == Guessed(url.value)
  {
    if url.None? || url.value == "" then Guessed(raw)
    else match load
      case Loaded(w, h) => Some(NaturalSize(w, h, LoadedImage))
      case LoadFailed => Guessed(url.value)
  }

  // ----- the mapping to natural pixels ---------------------------------------

  /** A DOMRect as getBoundingClientRect returns it. */
  datatype Rect = Rect(left: Num, top: Num, width: Num, height: Num)

  /** The computed styles of the banner element that are read. */
  datatype Style = Style(backgroundImage: Option<string>, backgroundSize: Option<string>,
                         backgroundPosition: Option<string>)

  datatype Measurement =
    | NoNaturalSize
    | Measured(bannerUrl: Option<string>, natural: NaturalSize, size: Size, position: Point,
               center: Point, diameter: Num, crop: Box)

  /** The avatar's centre and diameter in the image's natural pixels: its
      on-screen centre taken relative to the drawn image's top-left corner,
      then scaled by natural over drawn size. */
  function NaturalCenter(bgRect: Rect, avRect: Rect, natW: Num, natH: Num, size: Size, pos: Point)
    : (r: (Point, Num))
  {
    var avCx := Add(avRect.left, Div(avRect.width, Fin(2.0)));
    var avCy := Add(avRect.top, Div(avRect.height, Fin(2.0)));
    var scaledX := Sub(avCx, Add(bgRect.left, pos.x));
    var scaledY := Sub(avCy, Add(bgRect.top, pos.y));
    var scaleX := Div(natW, size.w);
    var scaleY := Div(natH, size.h);
    (Point(Mul(scaledX, scaleX), Mul(scaledY, scaleY)), Mul(avRect.width, scaleX))
  }

  /** The whole measurement once the elements are found. */
  function Measure(bgRect: Rect, avRect: Rect, cs: Style, load: ImageLoad, parseFloat: ParseFloat)
    : (r: Measurement)
    ensures r.NoNaturalSize? <==>
              NaturalSizeOf(BannerUrl(TakeFirst(cs.backgroundImage)), TakeFirst(cs.backgroundImage), load).None?
  {
    var raw := TakeFirst(cs.backgroundImage);
    var url := BannerUrl(raw);
    match NaturalSizeOf(url, raw, load)
    case None => NoNaturalSize
    case Some(ns) =>
      var natW, natH := Fin(ns.w as real), Fin(ns.h as real);
      var size := ResolveBackgroundSize(natW, natH, bgRect.width, bgRect.height, cs.backgroundSize, parseFloat);
      var pos := ResolveBackgroundPosition(bgRect.width, bgRect.height, size.w, size.h,
                                           cs.backgroundPosition, parseFloat);
      var (center, d) := NaturalCenter(bgRect, avRect, natW, natH, size, pos);
      var half := Div(d, Fin(2.0));
      var crop := ClampBox(Sub(center.x, half), Sub(center.y, half), d, natW, natH);
      Measured(url, ns, size, pos, center, d, crop)
  }

  /** Mapping the natural centre back through the drawn scale and offset
      lands on the avatar's on-screen centre. */
  lemma NaturalCenterRoundTrip(bgLeft: real, bgTop: real, avRect: Rect, natW: real, natH: real,
                               sizeW: real, sizeH: real, posX: real, posY: real)
    requires natW > 0.0 && natH > 0.0 && sizeW != 0.0 && sizeH != 0.0
    requires avRect.left.Fin? && avRect.top.Fin? && avRect.width.Fin? && avRect.height.Fin?
    ensures var bgRect := Rect(Fin(bgLeft), Fin(bgTop), NaN, NaN);
            var (c, _) := NaturalCenter(bgRect, avRect, Fin(natW), Fin(natH),
                                        Size(Fin(sizeW), Fin(sizeH)), Point(Fin(posX), Fin(posY)));
            && c.x.Fin? && c.y.Fin?
            && bgLeft + posX + c.x.v * (sizeW / natW) == avRect.left.v + avRect.width.v / 2.0
            && bgTop + posY + c.y.v * (sizeH / natH) == avRect.top.v + avRect.height.v / 2.0
  {
    assert natW / sizeW * (sizeW / natW) == 1.0;
    assert natH / sizeH * (sizeH / natH) == 1.0;
    var dx := avRect.left.v + avRect.width.v / 2.0 - (bgLeft + posX);
    var dy := avRect.top.v + avRect.height.v / 2.0 - (bgTop + posY);
    assert dx * (natW / sizeW) * (sizeW / natW) == dx;
    assert dy * (natH / sizeH) * (sizeH / natH) == dy;
  }

  /** The recommended crop lies inside the natural image whenever its side
      is a number. */
  lemma CropInsideImage(bgRect: Rect, avRect: Rect, cs: Style, load: ImageLoad, parseFloat: ParseFloat)
    ensures var r := Measure(bgRect, avRect, cs, load, parseFloat);
            r.Measured? && r.crop.s.Fin? ==>
              && r.crop.x.Fin? && r.crop.y.Fin?
              && 0.0 <= r.crop.x.v && r.crop.x.v + r.crop.s.v <= r.natural.w as real
              && 0.0 <= r.crop.y.v && r.crop.y.v + r.crop.s.v <= r.natural.h as real
  {
    var r := Measure(bgRect, avRect, cs, load, parseFloat);
    if r.Measured? {
      var natW, natH := r.natural.w as real, r.natural.h as real;
      var half := Div(r.diameter, Fin(2.0));
      ClampBoxBounds(Sub(r.center.x, half), Sub(r.center.y, half), r.diameter, natW, natH);
    }
  }

  /** When the avatar's square lies inside the image, the crop is that
      square, centred on the avatar. */
  lemma CropCenteredWhenInside(cx: real, cy: real, d: real, natW: real, natH: real)
    requires 0.0 <= d
    requires 0.0 <= cx - d / 2.0 && cx + d / 2.0 <= natW && 0.0 <= cy - d / 2.0 && cy + d / 2.0 <= natH
    ensures var half := Div(Fin(d), Fin(2.0));
            var b := ClampBox(Sub(Fin(cx), half), Sub(Fin(cy), half), Fin(d), Fin(natW), Fin(natH));
            b.x.Fin? && b.y.Fin? && b.s == Fin(d) &&
            b.x.v + d / 2.0 == cx && b.y.v + d / 2.0 == cy
  {
    assert Div(Fin(d), Fin(2.0)) == Fin(d / 2.0);
    assert Sub(Fin(cx), Fin(d / 2.0)) == Fin(cx - d / 2.0);
    assert Sub(Fin(cy), Fin(d / 2.0)) == Fin(cy - d / 2.0);
    ClampBoxKeepsFitting(cx - d / 2.0, cy - d / 2.0, d, natW, natH);
  }
}
