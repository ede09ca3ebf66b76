/** The currency formatter: an optional minus sign, the currency symbol, the
    magnitude scaled to a unit (亿 / 万 in Chinese, b / m / k in English) and
    the unit's suffix. How a number is turned into digits (toFixed and
    toLocaleString) is left uninterpreted: every formatter takes a `render`
    function from a numeral request to its text. */
module Format {
  import opened Types

  /** The user-interface language and the user's region. */
  datatype Locale = Zh | En
  datatype Region = CN | AU

  /** The locales whose digit grouping toLocaleString is asked for. */
  datatype NumberLocale = ZhCN | EnUS

  /** A request for the digits of a non-negative magnitude: a fixed number of
      decimals (toFixed), or locale-grouped digits (toLocaleString). */
  datatype Numeral = Fixed(magnitude: real, decimals: nat) | Grouped(magnitude: real, locale: NumberLocale)

  /** The digits and the unit suffix that follow the symbol. */
  datatype Piece = Piece(numeral: Numeral, suffix: string)

  function Abs(x: real): real
  {
    if x < 0.0 then -x else x
  }

  /** withSign: a minus in front of the formatted magnitude of a negative
      value; any other value keeps the formatted text as it is. */
  function WithSign(value: real, formatted: string): (s: string)
    ensures value < 0.0 ==> s == "-" + formatted
    ensures value >= 0.0 ==> s == formatted
  {
    if value < 0.0 then "-" + formatted else formatted
  }

  /** The sign, the symbol, the digits and the suffix, in that order. */
  function Compose(value: real, symbol: string, piece: Piece, render: Numeral -> string): string
  {
    WithSign(value, symbol + render(piece.numeral) + piece.suffix)
  }

  /** The tier choices of formatChineseLong for the magnitude `abs`. */
  function ChineseLongPiece(abs: real): Piece
  {
    if abs >= 100000000.0 then Piece(Fixed(abs / 100000000.0, 2), "亿")
    else if abs >= 10000.0 then Piece(Fixed(abs / 10000.0, 0), "万")
    else Piece(Grouped(abs, ZhCN), "")
  }

  /** The tier choices of formatChineseShort. */
  function ChineseShortPiece(abs: real): Piece
  {
    if abs >= 100000000.0 then Piece(Fixed(abs / 100000000.0, 1), "亿")
    else if abs >= 10000.0 then Piece(Fixed(abs / 10000.0, 0), "万")
    else Piece(Fixed(abs, 0), "")
  }

  /** The tier choices of formatEnglishLong. */
  function EnglishLongPiece(abs: real): Piece
  {
    if abs >= 1000000000.0 then Piece(Fixed(abs / 1000000000.0, 2), "b")
    else if abs >= 1000000.0 then Piece(Fixed(abs / 1000000.0, 2), "m")
    else if abs >= 1000.0 then Piece(Fixed(abs / 1000.0, 0), "k")
    else Piece(Grouped(abs, EnUS), "")
  }

  /** The tier choices of formatEnglishShort. */
  function EnglishShortPiece(abs: real): Piece
  {
    if abs >= 1000000000.0 then Piece(Fixed(abs / 1000000000.0, 1), "b")
    else if abs >= 1000000.0 then Piece(Fixed(abs / 1000000.0, 1), "m")
    else if abs >= 1000.0 then Piece(Fixed(abs / 1000.0, 0), "k")
    else Piece(Fixed(abs, 0), "")
  }

  /** formatChineseLong: 亿 with 2 decimals, 万 with none, zh-CN grouping below 1e4. */
  function FormatChineseLong(value: real, symbol: string, render: Numeral -> string): (s: string)
    ensures s == Compose(value, symbol, TablePiece(ChineseUnits(), [2, 0], Grouped(Abs(value), ZhCN), Abs(value)), render)
  {
    ChineseTiers(Abs(value));
    Compose(value, symbol, ChineseLongPiece(Abs(value)), render)
  }

  /** formatChineseShort: 亿 with 1 decimal, 万 with none, a whole number below 1e4. */
  function FormatChineseShort(value: real, symbol: string, render: Numeral -> string): (s: string)
    ensures s == Compose(value, symbol, TablePiece(ChineseUnits(), [1, 0], Fixed(Abs(value), 0), Abs(value)), render)
  {
    ChineseTiers(Abs(value));
    Compose(value, symbol, ChineseShortPiece(Abs(value)), render)
  }

  /** formatEnglishLong: b and m with 2 decimals, k with none, en-US grouping below 1e3. */
  function FormatEnglishLong(value: real, symbol: string, render: Numeral -> string): (s: string)
    ensures s == Compose(value, symbol, TablePiece(EnglishUnits(), [2, 2, 0], Grouped(Abs(value), EnUS), Abs(value)), render)
  {
    EnglishTiers(Abs(value));
    Compose(value, symbol, EnglishLongPiece(Abs(value)), render)
  }

  /** formatEnglishShort: b and m with 1 decimal, k with none, a whole number below 1e3. */
  function FormatEnglishShort(value: real, symbol: string, render: Numeral -> string): (s: string)
    ensures s == Compose(value, symbol, TablePiece(EnglishUnits(), [1, 1, 0], Fixed(Abs(value), 0), Abs(value)), render)
  {
    EnglishTiers(Abs(value));
    Compose(value, symbol, EnglishShortPiece(Abs(value)), render)
  }

  /** formatCurrencyLong: Chinese for 'zh', English otherwise; the region is not used. */
  function FormatCurrencyLong(value: real, locale: Locale, region: Region, symbol: string,
                              render: Numeral -> string): (s: string)
    ensures s == Compose(value, symbol, TablePiece(UnitsFor(locale), LongDecimals(locale),
                                                   Grouped(Abs(value), GroupingFor(locale)), Abs(value)), render)
  {
    if locale == Zh then FormatChineseLong(value, symbol, render) else FormatEnglishLong(value, symbol, render)
  }

  /** formatCurrencyCompact: the same dispatch over the short formatters. */
  function FormatCurrencyCompact(value: real, locale: Locale, region: Region, symbol: string,
                                 render: Numeral -> string): (s: string)
    ensures s == Compose(value, symbol, TablePiece(UnitsFor(locale), ShortDecimals(locale),
                                                   Fixed(Abs(value), 0), Abs(value)), render)
  {
    if locale == Zh then FormatChineseShort(value, symbol, render) else FormatEnglishShort(value, symbol, render)
  }

  // A reference definition of the tiers: a table of units from the largest
  // down, and the first unit whose scale the magnitude reaches.

  datatype Unit = Unit(scale: real, suffix: string)

  function ChineseUnits(): seq<Unit>
  {
    [Unit(100000000.0, "亿"), Unit(10000.0, "万")]
  }

  function EnglishUnits(): seq<Unit>
  {
    [Unit(1000000000.0, "b"), Unit(1000000.0, "m"), Unit(1000.0, "k")]
  }

  /** A locale's table, its decimals per unit in the long and the short
      form, and the grouping used below the smallest unit in the long form. */
  function UnitsFor(locale: Locale): seq<Unit>
  {
    if locale == Zh then ChineseUnits() else EnglishUnits()
  }

  function LongDecimals(locale: Locale): seq<nat>
  {
    if locale == Zh then [2, 0] else [2, 2, 0]
  }

  function ShortDecimals(locale: Locale): seq<nat>
  {
    if locale == Zh then [1, 0] else [1, 1, 0]
  }

  function GroupingFor(locale: Locale): NumberLocale
  {
    if locale == Zh then ZhCN else EnUS
  }

  /** The position of the first unit whose scale is at most `abs`, if any. */
  function FirstFit(units: seq<Unit>, abs: real): (r: Option<nat>)
    ensures r.Some? ==> r.value < |units|
    decreases |units|
  {
    if |units| == 0 then None
    else if units[0].scale <= abs then Some(0)
    else match FirstFit(units[1..], abs)
      case Some(i) => Some(i + 1)
      case None => None
  }

  /** The piece the table gives: the fitting unit with its number of
      decimals, or the `small` numeral when no unit fits. */
  function TablePiece(units: seq<Unit>, decimals: seq<nat>, small: Numeral, abs: real): Piece
    requires |decimals| == |units|
    requires forall j :: 0 <= j < |units| ==> units[j].scale > 0.0
  {
    match FirstFit(units, abs)
    case Some(i) => Piece(Fixed(abs / units[i].scale, decimals[i]), units[i].suffix)
    case None => Piece(small, "")
  }

  /** The unit found is reached by `abs` and every larger unit before it is
      not; no unit is found only when none is reached. */
  lemma {:induction false} FirstFitIsFirst(units: seq<Unit>, abs: real)
    ensures match FirstFit(units, abs)
            case Some(i) => units[i].scale <= abs && forall j :: 0 <= j < i ==> abs < units[j].scale
            case None => forall j :: 0 <= j < |units| ==> abs < units[j].scale
    decreases |units|
  {
    if |units| > 0 && !(units[0].scale <= abs) {
      var rest := units[1..];
      FirstFitIsFirst(rest, abs);
      match FirstFit(rest, abs)
      case Some(i) =>
        forall j | 0 <= j < i + 1 ensures abs < units[j].scale {
          if j > 0 { assert units[j] == rest[j - 1]; }
        }
      case None =>
        forall j | 0 <= j < |units| ensures abs < units[j].scale {
          if j > 0 { assert units[j] == rest[j - 1]; }
        }
    }
  }

  /** With positive scales, the scaled magnitude of the unit found is at least
      1 and below the ratio to the next larger unit: one unit never shows a
      value that the next unit up would. */
  lemma ScaledMagnitudeInRange(units: seq<Unit>, abs: real)
    requires forall j :: 0 <= j < |units| ==> units[j].scale > 0.0
    ensures match FirstFit(units, abs)
            case Some(i) => abs / units[i].scale >= 1.0
                            && (i > 0 ==> abs / units[i].scale < units[i - 1].scale / units[i].scale)
            case None => |units| > 0 ==> abs < units[|units| - 1].scale
  {
    FirstFitIsFirst(units, abs);
    match FirstFit(units, abs)
    case Some(i) =>
      var scale := units[i].scale;
      DivisionIsMonotone(scale, abs, scale);
      if i > 0 {
        DivisionIsMonotone(abs, units[i - 1].scale, scale);
      }
    case None =>
  }

  /** Dividing by a positive number keeps the order. */
  lemma DivisionIsMonotone(a: real, b: real, s: real)
    requires s > 0.0
    ensures a <= b ==> a / s <= b / s
    ensures a < b ==> a / s < b / s
    ensures s / s == 1.0
  {
  }

  /** The Chinese formatters agree with the table 亿 = 1e8, 万 = 1e4: 2 and 0
      decimals (long), 1 and 0 (short); below 1e4 the long form groups the
      digits for zh-CN and the short form rounds to a whole number. */
  lemma ChineseTiers(abs: real)
    ensures ChineseLongPiece(abs) == TablePiece(ChineseUnits(), [2, 0], Grouped(abs, ZhCN), abs)
    ensures ChineseShortPiece(abs) == TablePiece(ChineseUnits(), [1, 0], Fixed(abs, 0), abs)
  {
    var units := ChineseUnits();
    FirstFitIsFirst(units, abs);
    var fit := FirstFit(units, abs);
    if abs >= 100000000.0 {
      assert fit == Some(0);
    } else if abs >= 10000.0 {
      assert fit == Some(1);
    } else {
      assert fit == None;
    }
  }

  /** The English formatters agree with the table b = 1e9, m = 1e6, k = 1e3:
      2, 2 and 0 decimals (long), 1, 1 and 0 (short); below 1e3 the long form
      groups the digits for en-US and the short form rounds to a whole number. */
  lemma EnglishTiers(abs: real)
    ensures EnglishLongPiece(abs) == TablePiece(EnglishUnits(), [2, 2, 0], Grouped(abs, EnUS), abs)
    ensures EnglishShortPiece(abs) == TablePiece(EnglishUnits(), [1, 1, 0], Fixed(abs, 0), abs)
  {
    var units := EnglishUnits();
    FirstFitIsFirst(units, abs);
    var fit := FirstFit(units, abs);
    if abs >= 1000000000.0 {
      assert fit == Some(0);
    } else if abs >= 1000000.0 {
      assert fit == Some(1);
    } else if abs >= 1000.0 {
      assert fit == Some(2);
    } else {
      assert fit == None;
    }
  }

  /** A negative amount is a minus followed by the text of its magnitude; any
      other amount starts with the symbol. */
  lemma LongSign(value: real, locale: Locale, region: Region, symbol: string, render: Numeral -> string)
    ensures value < 0.0 ==>
              FormatCurrencyLong(value, locale, region, symbol, render)
              == "-" + FormatCurrencyLong(-value, locale, region, symbol, render)
    ensures value >= 0.0 ==> symbol <= FormatCurrencyLong(value, locale, region, symbol, render)
  {
    var a := Abs(value);
    assert Abs(-value) == a;
    var p := if locale == Zh then ChineseLongPiece(a) else EnglishLongPiece(a);
    var t := symbol + render(p.numeral) + p.suffix;
    assert FormatCurrencyLong(value, locale, region, symbol, render) == WithSign(value, t);
    if value < 0.0 {
      assert FormatCurrencyLong(-value, locale, region, symbol, render) == WithSign(-value, t) == t;
    } else {
      assert t == symbol + (render(p.numeral) + p.suffix);
    }
  }

  lemma CompactSign(value: real, locale: Locale, region: Region, symbol: string, render: Numeral -> string)
    ensures value < 0.0 ==>
              FormatCurrencyCompact(value, locale, region, symbol, render)
              == "-" + FormatCurrencyCompact(-value, locale, region, symbol, render)
    ensures value >= 0.0 ==> symbol <= FormatCurrencyCompact(value, locale, region, symbol, render)
  {
    var a := Abs(value);
    assert Abs(-value) == a;
    var p := if locale == Zh then ChineseShortPiece(a) else EnglishShortPiece(a);
    var t := symbol + render(p.numeral) + p.suffix;
    assert FormatCurrencyCompact(value, locale, region, symbol, render) == WithSign(value, t);
    if value < 0.0 {
      assert FormatCurrencyCompact(-value, locale, region, symbol, render) == WithSign(-value, t) == t;
    } else {
      assert t == symbol + (render(p.numeral) + p.suffix);
    }
  }

  /** The region never changes the text, and the locale only picks the
      formatter. */
  lemma LocaleDispatch(value: real, locale: Locale, r1: Region, r2: Region, symbol: string,
                       render: Numeral -> string)
    ensures FormatCurrencyLong(value, locale, r1, symbol, render) == FormatCurrencyLong(value, locale, r2, symbol, render)
    ensures FormatCurrencyCompact(value, locale, r1, symbol, render)
         == FormatCurrencyCompact(value, locale, r2, symbol, render)
    ensures FormatCurrencyLong(value, locale, r1, symbol, render)
         == (if locale == Zh then FormatChineseLong(value, symbol, render) else FormatEnglishLong(value, symbol, render))
    ensures FormatCurrencyCompact(value, locale, r1, symbol, render)
         == (if locale == Zh then FormatChineseShort(value, symbol, render) else FormatEnglishShort(value, symbol, render))
  {
  }

  /** The long and compact forms differ only in the number of decimals of
      the largest units and in the plainest tier: for 1e4 <= |v| < 1e8 in
      Chinese and 1e3 <= |v| < 1e6 in English they print the same text. */
  lemma CompactAgreesOnMiddleTiers(value: real, locale: Locale, region: Region, symbol: string,
                                   render: Numeral -> string)
    requires locale == Zh ==> 10000.0 <= Abs(value) < 100000000.0
    requires locale == En ==> 1000.0 <= Abs(value) < 1000000.0
    ensures FormatCurrencyCompact(value, locale, region, symbol, render)
         == FormatCurrencyLong(value, locale, region, symbol, render)
  {
  }
}
