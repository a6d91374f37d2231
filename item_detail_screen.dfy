/**
 * What the item detail screen shows: the rarity colour, and the rows the
 * characteristics list renders for each info block, visited in order and
 * recursively through list blocks. Layout (padding, sizes, fonts, images)
 * is not modelled; a row records only the texts and colour it shows.
 */
module ItemDetailScreen {
  import opened Wrappers
  import opened Models
  import opened KotlinText

  /** An ARGB colour as a 32-bit value. */
  type Argb = n: nat | n < 0x1_0000_0000

  const Black: Argb := 0xFF00_0000

  /** `stringify`: the literal of a text, the Russian line of a translation (possibly absent). */
  function Stringify(t: TranslationString): (r: Option<string>)
    ensures t.Text? ==> r == Some(t.text)
    ensures t.Translation? ==> r == t.lines.ru
    ensures r.None? <==> t.Translation? && t.lines.ru.None?
  {
    match t
    case Text(text) => Some(text)
    case Translation(lines) => lines.ru
  }

  /** The text a translation string is shown as: its `stringify`, or "" when absent. */
  function Shown(t: TranslationString): (r: string)
    ensures t.Text? ==> r == t.text
    ensures t.Translation? ==> r == ShownOrEmpty(t.lines.ru)
  {
    ShownOrEmpty(Stringify(t))
  }

  /** The rarity card's colour for the item's `color` rank; any other value gets 0x93FFFFFF. */
  function RarityColour(rank: string): (c: Argb)
    ensures rank == "DEFAULT" ==> c == 0x93B4_B4B4
    ensures rank == "RANK_NEWBIE" ==> c == 0xFF4C_AF50
    ensures rank == "RANK_STALKER" ==> c == 0xFF21_96F3
    ensures rank == "RANK_VETERAN" ==> c == 0xFFFF_00DC
    ensures rank == "RANK_MASTER" ==> c == 0xFFB0_0000
    ensures rank == "RANK_LEGEND" ==> c == 0xFFFF_EB3B
    ensures rank !in RarityRanks ==> c == 0x93FF_FFFF
  {
    if rank == "DEFAULT" then 0x93B4_B4B4
    else if rank == "RANK_NEWBIE" then 0xFF4C_AF50
    else if rank == "RANK_STALKER" then 0xFF21_96F3
    else if rank == "RANK_VETERAN" then 0xFFFF_00DC
    else if rank == "RANK_MASTER" then 0xFFB0_0000
    else if rank == "RANK_LEGEND" then 0xFFFF_EB3B
    else 0x93FF_FFFF
  }

  /** The ranks with a colour of their own. */
  const RarityRanks: set<string> := {"DEFAULT", "RANK_NEWBIE", "RANK_STALKER", "RANK_VETERAN", "RANK_MASTER", "RANK_LEGEND"}

  /** The six ranks get six different colours, none of them the fallback. */
  lemma RarityColoursDistinct(a: string, b: string)
    requires a in RarityRanks && b in RarityRanks && a != b
    ensures RarityColour(a) != RarityColour(b)
    ensures RarityColour(a) != 0x93FF_FFFF
  {
  }

  predicate IsHexDigit(c: char)
  {
    '0' <= c <= '9' || 'a' <= c <= 'f' || 'A' <= c <= 'F'
  }

  function HexDigit(c: char): (d: nat)
    requires IsHexDigit(c)
    ensures d < 16
  {
    if '0' <= c <= '9' then c as int - '0' as int
    else if 'a' <= c <= 'f' then c as int - 'a' as int + 10
    else c as int - 'A' as int + 10
  }

  function Pow16(n: nat): (r: nat)
    ensures r >= 1
  {
    if n == 0 then 1 else 16 * Pow16(n - 1)
  }

  /** The value of a string of hex digits, most significant first. */
  function HexValue(s: string): (v: nat)
    requires forall i :: 0 <= i < |s| ==> IsHexDigit(s[i])
    ensures v < Pow16(|s|)
  {
    if |s| == 0 then 0
    else HexValue(s[..|s| - 1]) * 16 + HexDigit(s[|s| - 1])
  }

  /**
   * `String.toColorInt()` for a colour given as `#RRGGBB` (opaque) or
   * `#AARRGGBB`, with ASCII hex digits only; anything else is rejected. (The
   * platform also reads a sign and non-ASCII digits, which this does not.)
   */
  function ParseColour(s: string): (r: Option<Argb>)
    ensures r.Some? <==> (|s| == 7 || |s| == 9) && s[0] == '#' && forall i :: 1 <= i < |s| ==> IsHexDigit(s[i])
    ensures r.Some? ==> r.value == (if |s| == 7 then 0xFF00_0000 else 0) + HexValue(s[1..])
    ensures r.Some? && |s| == 7 ==> r.value >= 0xFF00_0000
  {
    if (|s| == 7 || |s| == 9) && s[0] == '#' && forall i :: 1 <= i < |s| ==> IsHexDigit(s[i])
    then
      var digits := s[1..];
      assert forall i :: 0 <= i < |digits| ==> digits[i] == s[i + 1];
      var v := HexValue(digits);
      Some(if |s| == 7 then 0xFF00_0000 + v else v)
    else None
  }

  /** Appending a digit shifts the value by one hex place. */
  lemma HexValueSnoc(s: string, c: char)
    requires forall i :: 0 <= i < |s| ==> IsHexDigit(s[i])
    requires IsHexDigit(c)
    ensures HexValue(s + [c]) == HexValue(s) * 16 + HexDigit(c)
  {
    assert (s + [c])[..|s|] == s;
  }

  /** The value of six hex digits, digit by digit. */
  lemma {:induction false} HexValueSix(a: char, b: char, c: char, d: char, e: char, f: char)
    requires IsHexDigit(a) && IsHexDigit(b) && IsHexDigit(c) && IsHexDigit(d) && IsHexDigit(e) && IsHexDigit(f)
    ensures HexValue([a, b, c, d, e, f]) ==
      ((((HexDigit(a) * 16 + HexDigit(b)) * 16 + HexDigit(c)) * 16 + HexDigit(d)) * 16 + HexDigit(e)) * 16 + HexDigit(f)
  {
    assert [a] == [] + [a];
    HexValueSnoc([], a);
    HexValueSnoc([a], b);
    assert [a] + [b] == [a, b];
    HexValueSnoc([a, b], c);
    assert [a, b] + [c] == [a, b, c];
    HexValueSnoc([a, b, c], d);
    assert [a, b, c] + [d] == [a, b, c, d];
    HexValueSnoc([a, b, c, d], e);
    assert [a, b, c, d] + [e] == [a, b, c, d, e];
    HexValueSnoc([a, b, c, d, e], f);
    assert [a, b, c, d, e] + [f] == [a, b, c, d, e, f];
  }

  /** The green value colour that day mode keeps. */
  lemma {:induction false} GreenParses()
    ensures ParseColour("#53C353") == Some(0xFF53_C353)
  {
    assert "#53C353"[1..] == ['5', '3', 'C', '3', '5', '3'];
    HexValueSix('5', '3', 'C', '3', '5', '3');
  }

  /** The red value colour that day mode keeps. */
  lemma {:induction false} RedParses()
    ensures ParseColour("#C15252") == Some(0xFFC1_5252)
  {
    assert "#C15252"[1..] == ['C', '1', '5', '2', '5', '2'];
    HexValueSix('C', '1', '5', '2', '5', '2');
  }

  /** Why rendering a block stopped: a null where the renderer dereferences, or a colour that does not parse. */
  datatype RenderError =
    | NullInfoBlocks
    | NullElements
    | NullFormattedValue
    | UnknownColour(text: string)

  /**
   * The numeric value's colour: in night mode `#` + `valueColor` parsed as
   * given (a null becomes the text "null", which does not parse); in day mode
   * only `53C353` and `C15252` keep their colour and everything else is black.
   */
  function ValueColour(valueColor: Option<string>, night: bool): (r: Result<Argb, RenderError>)
    ensures !night ==> r.Ok?
    ensures !night && valueColor != Some("53C353") && valueColor != Some("C15252") ==> r == Ok(Black)
    ensures !night && valueColor == Some("53C353") ==> r == Ok(0xFF53_C353)
    ensures !night && valueColor == Some("C15252") ==> r == Ok(0xFFC1_5252)
    ensures night && valueColor.None? ==> r == Err(UnknownColour("#null"))
  {
    GreenParses();
    RedParses();
    var text := "#" + NullableToString(valueColor);
    assert valueColor.None? ==> text == "#null";
    if night then
      match ParseColour(text)
      case Some(c) => Ok(c)
      case None => Err(UnknownColour(text))
    else if valueColor == Some("53C353") || valueColor == Some("C15252") then
      Ok(ParseColour(text).value)
    else Ok(Black)
  }

  /** In night mode a six-digit hex `valueColor` is shown as that opaque colour. */
  lemma {:induction false} NightColourIsValueColour(hex: string)
    requires |hex| == 6 && forall i :: 0 <= i < 6 ==> IsHexDigit(hex[i])
    ensures ValueColour(Some(hex), true) == Ok(0xFF00_0000 + HexValue(hex))
  {
    assert ("#" + hex)[1..] == hex;
  }

  /** One displayed row of the characteristics list. */
  datatype Row =
    | Header                                            // the "Характеристики" title
    | Pair(left: string, right: string)                 // text and key-value blocks
    | RangeRow(name: string, min: Float, max: Float)    // "[min, max]"
    | NumericRow(name: string, value: string, colour: Argb)
    | DamageRows(decreaseStart: Float, startDamage: Float, decreaseEnd: Float, maxDistance: Float, endDamage: Float)
    | Label(name: string)                               // usage and item blocks

  /**
   * A text block's title as written: `title?.let { stringify(it).toString() } ?: ""`.
   * A translated title without a Russian line is shown as "null".
   */
  function TitleTextAsWritten(title: Option<TranslationString>): (r: string)
    ensures title.None? ==> r == ""
    ensures title.Some? ==> r == NullableToString(Stringify(title.value))
  {
    match title
    case None => ""
    case Some(t) => NullableToString(Stringify(t))
  }

  /** The title text evidently intended: an absent string shows as "", as in every other renderer. */
  function TitleText(title: Option<TranslationString>): (r: string)
    ensures title.None? ==> r == ""
    ensures title.Some? ==> r == Shown(title.value)
  {
    match title
    case None => ""
    case Some(t) => Shown(t)
  }

  /** A translated title with no Russian line: the code shows "null", the intended text is "". */
  lemma UntranslatedTitleShowsNull()
    ensures TitleTextAsWritten(Some(Translation(TranslationLines(None)))) == "null"
    ensures TitleText(Some(Translation(TranslationLines(None)))) == ""
  {
  }

  /** The corrected title shows a title exactly as the block's text is shown, and both versions agree whenever a line exists. */
  lemma TitleTextLikeOtherTexts(t: TranslationString)
    ensures TitleText(Some(t)) == Shown(t)
    ensures Stringify(t).Some? ==> TitleTextAsWritten(Some(t)) == TitleText(Some(t))
    ensures TitleText(Some(t)) != "null" || Stringify(t) == Some("null")
  {
  }

  /**
   * `TextBlockLine`: the title on the left, as the code writes it (a translated
   * title without a Russian line shows "null"), and the text on the right.
   */
  function TextLine(b: InfoBlock): (rows: seq<Row>)
    requires b.TextBlock?
    ensures |rows| == 1 && rows[0].Pair?
    ensures b.title.None? ==> rows[0].left == ""
    ensures b.title.Some? && Stringify(b.title.value).None? ==> rows[0].left == "null"
    ensures b.title.Some? && Stringify(b.title.value).Some? ==> rows[0].left == Stringify(b.title.value).value
    ensures Stringify(b.text).None? ==> rows[0].right == ""
    ensures Stringify(b.text).Some? ==> rows[0].right == Stringify(b.text).value
  {
    [Pair(TitleTextAsWritten(b.title), Shown(b.text))]
  }

  /** `DamageBlockLine`: the damage heading with "До {start}м" and "От {end} до {max}м" and their damages. */
  function DamageLine(b: InfoBlock): (rows: seq<Row>)
    requires b.DamageBlock?
    ensures |rows| == 1 && rows[0].DamageRows?
    ensures rows[0].startDamage == b.startDamage && rows[0].endDamage == b.endDamage
    ensures rows[0].decreaseStart == b.damageDecreaseStart && rows[0].decreaseEnd == b.damageDecreaseEnd
    ensures rows[0].maxDistance == b.maxDistance
  {
    [DamageRows(b.damageDecreaseStart, b.startDamage, b.damageDecreaseEnd, b.maxDistance, b.endDamage)]
  }

  /** `RangeBlockLine`: the name and `[min, max]`. */
  function RangeLine(b: InfoBlock): (rows: seq<Row>)
    requires b.RangeBlock?
    ensures |rows| == 1 && rows[0].RangeRow? && rows[0].min == b.min && rows[0].max == b.max
    ensures Stringify(b.name).None? ==> rows[0].name == ""
    ensures Stringify(b.name).Some? ==> rows[0].name == Stringify(b.name).value
  {
    [RangeRow(Shown(b.name), b.min, b.max)]
  }

  /**
   * `NumericBlockLine`: the name, and `formatted.value.ru.toString()` in the
   * value colour. A null `formatted.value` is dereferenced and throws.
   */
  function NumericLine(b: InfoBlock, night: bool): (r: Result<seq<Row>, RenderError>)
    requires b.NumericBlock?
    ensures b.formatted.value.None? ==> r == Err(NullFormattedValue)
    ensures b.formatted.value.Some? ==> (r.Ok? <==> ValueColour(b.formatted.valueColor, night).Ok?)
    ensures r.Ok? ==> b.formatted.value.Some? && ValueColour(b.formatted.valueColor, night).Ok?
    ensures r.Ok? ==> r.value == [NumericRow(Shown(b.name), NullableToString(b.formatted.value.value.ru),
                                             ValueColour(b.formatted.valueColor, night).value)]
  {
    if b.formatted.value.None? then Err(NullFormattedValue)
    else
      var colour :- ValueColour(b.formatted.valueColor, night);
      Ok([NumericRow(Shown(b.name), NullableToString(b.formatted.value.value.ru), colour)])
  }

  /** `KeyValueBlockLine`: the key on the left, the value on the right. */
  function KeyValueLine(b: InfoBlock): (rows: seq<Row>)
    requires b.KeyValueBlock?
    ensures |rows| == 1 && rows[0].Pair?
    ensures Stringify(b.key).None? ==> rows[0].left == ""
    ensures Stringify(b.key).Some? ==> rows[0].left == Stringify(b.key).value
    ensures Stringify(b.value).None? ==> rows[0].right == ""
    ensures Stringify(b.value).Some? ==> rows[0].right == Stringify(b.value).value
  {
    [Pair(Shown(b.key), Shown(b.value))]
  }

  /** `UsageBlockLine` and `ItemBlockLine`: the name alone. */
  function NameLine(name: TranslationString): (rows: seq<Row>)
    ensures |rows| == 1 && rows[0].Label?
    ensures Stringify(name).None? ==> rows[0].name == ""
    ensures Stringify(name).Some? ==> rows[0].name == Stringify(name).value
  {
    [Label(Shown(name))]
  }

  /**
   * The `when (infoblock?.type)` dispatch: each block goes to the renderer
   * of its type tag; a null entry, or a tag no branch names, renders nothing.
   */
  function RenderEntry(e: Option<InfoBlock>, night: bool): (r: Result<seq<Row>, RenderError>)
    ensures r.Ok? ==> Header !in r.value
    decreases e, 2, 0
  {
    if e.None? then Ok([])
    else
      var b := e.value;
      var tag := TypeTag(b);
      if tag == "text" then Ok(TextLine(b))
      else if tag == "damage" then Ok(DamageLine(b))
      else if tag == "list" then RenderList(b, night)
      else if tag == "numeric" then NumericLine(b, night)
      else if tag == "key-value" then Ok(KeyValueLine(b))
      else if tag == "range" then Ok(RangeLine(b))
      else if tag == "usage" then Ok(NameLine(b.name))
      else if tag == "item" then Ok(NameLine(b.name))
      else Ok([])
  }

  /** `ListBlockLine`: `elements!!`, then every entry in order, nested lists recursively. */
  function RenderList(b: InfoBlock, night: bool): (r: Result<seq<Row>, RenderError>)
    requires b.ListBlock?
    ensures b.elements.NullList? ==> r == Err(NullElements)
    ensures r.Ok? ==> Header !in r.value
    decreases b, 1, 0
  {
    match b.elements
    case NullList => Err(NullElements)
    case Blocks(es) => RenderElements(b, |es|, night)
  }

  /** The rows of the first `i` entries of a list block, in entry order. */
  function RenderElements(parent: InfoBlock, i: nat, night: bool): (r: Result<seq<Row>, RenderError>)
    requires parent.ListBlock? && parent.elements.Blocks? && i <= |parent.elements.blocks|
    ensures r.Ok? <==> forall k :: 0 <= k < i ==> RenderEntry(parent.elements.blocks[k], night).Ok?
    ensures r.Ok? ==> Header !in r.value
    decreases parent, 0, i
  {
    if i == 0 then Ok([])
    else
      var es := parent.elements.blocks;
      assert es[i - 1] in es;
      var front := RenderElements(parent, i - 1, night);
      var last := RenderEntry(es[i - 1], night);
      if front.Err? then front
      else if last.Err? then last
      else Ok(front.value + last.value)
  }

  /** Each present block goes to exactly the renderer of its own variant. */
  lemma DispatchByVariant(b: InfoBlock, night: bool)
    ensures b.TextBlock? ==> RenderEntry(Some(b), night) == Ok(TextLine(b))
    ensures b.DamageBlock? ==> RenderEntry(Some(b), night) == Ok(DamageLine(b))
    ensures b.RangeBlock? ==> RenderEntry(Some(b), night) == Ok(RangeLine(b))
    ensures b.ListBlock? ==> RenderEntry(Some(b), night) == RenderList(b, night)
    ensures b.NumericBlock? ==> RenderEntry(Some(b), night) == NumericLine(b, night)
    ensures b.KeyValueBlock? ==> RenderEntry(Some(b), night) == Ok(KeyValueLine(b))
    ensures b.UsageBlock? || b.ItemBlock? ==> RenderEntry(Some(b), night) == Ok(NameLine(b.name))
  {
  }

  /** A null entry renders nothing. */
  lemma NullEntryRendersNothing(night: bool)
    ensures RenderEntry(None, night) == Ok([])
  {
  }

  /**
   * At the dispatch, every renderer shows an absent string as "" (Kotlin's
   * `?: ""`); the text block's title is the one exception.
   */
  lemma AbsentStringsShowEmpty(b: InfoBlock, night: bool)
    ensures b.TextBlock? && b.title.None? && Stringify(b.text).None? ==> RenderEntry(Some(b), night) == Ok([Pair("", "")])
    ensures b.TextBlock? && Stringify(b.text).None? ==>
              RenderEntry(Some(b), night).Ok? && RenderEntry(Some(b), night).value[0].right == ""
    ensures b.RangeBlock? && Stringify(b.name).None? ==> RenderEntry(Some(b), night) == Ok([RangeRow("", b.min, b.max)])
    ensures b.KeyValueBlock? && Stringify(b.key).None? ==>
              RenderEntry(Some(b), night).Ok? && RenderEntry(Some(b), night).value[0].left == ""
    ensures b.KeyValueBlock? && Stringify(b.value).None? ==>
              RenderEntry(Some(b), night).Ok? && RenderEntry(Some(b), night).value[0].right == ""
    ensures (b.UsageBlock? || b.ItemBlock?) && Stringify(b.name).None? ==> RenderEntry(Some(b), night) == Ok([Label("")])
    ensures b.NumericBlock? && Stringify(b.name).None? && RenderEntry(Some(b), night).Ok? ==>
              RenderEntry(Some(b), night).value[0].name == ""
  {
    DispatchByVariant(b, night);
  }

  /** At the dispatch, a present string is shown as itself, in every renderer. */
  lemma PresentStringsShowThemselves(b: InfoBlock, night: bool)
    ensures b.TextBlock? && b.title.Some? && Stringify(b.title.value).Some? ==>
              RenderEntry(Some(b), night).Ok? && RenderEntry(Some(b), night).value[0].left == Stringify(b.title.value).value
    ensures b.TextBlock? && Stringify(b.text).Some? ==>
              RenderEntry(Some(b), night).Ok? && RenderEntry(Some(b), night).value[0].right == Stringify(b.text).value
    ensures b.RangeBlock? && Stringify(b.name).Some? ==>
              RenderEntry(Some(b), night) == Ok([RangeRow(Stringify(b.name).value, b.min, b.max)])
    ensures b.KeyValueBlock? && Stringify(b.key).Some? && Stringify(b.value).Some? ==>
              RenderEntry(Some(b), night) == Ok([Pair(Stringify(b.key).value, Stringify(b.value).value)])
    ensures (b.UsageBlock? || b.ItemBlock?) && Stringify(b.name).Some? ==>
              RenderEntry(Some(b), night) == Ok([Label(Stringify(b.name).value)])
  {
    DispatchByVariant(b, night);
  }

  /** On screen, a text block whose title is translated without a Russian line shows "null" as its title. */
  lemma UntranslatedTitleOnScreen(b: InfoBlock, night: bool)
    requires b.TextBlock? && b.title == Some(Translation(TranslationLines(None)))
    ensures RenderEntry(Some(b), night).Ok?
    ensures RenderEntry(Some(b), night).value[0].left == "null"
    ensures RenderEntry(Some(b), night).value[0].left != TitleText(b.title)
  {
    DispatchByVariant(b, night);
  }

  /**
   * In-order visit: once the first `j` entries render, the rows of the first
   * `i <= j` entries come first, followed by the rows of entry `i`.
   */
  lemma {:induction false} RenderElementsInOrder(parent: InfoBlock, i: nat, j: nat, night: bool)
    requires parent.ListBlock? && parent.elements.Blocks? && i < j <= |parent.elements.blocks|
    requires RenderElements(parent, j, night).Ok?
    ensures RenderEntry(parent.elements.blocks[i], night).Ok?
    ensures RenderElements(parent, i, night).value + RenderEntry(parent.elements.blocks[i], night).value
            <= RenderElements(parent, j, night).value
    decreases j
  {
    var es := parent.elements.blocks;
    var front := RenderElements(parent, j - 1, night);
    var last := RenderEntry(es[j - 1], night);
    assert front.Ok? && last.Ok?;
    assert RenderElements(parent, j, night).value == front.value + last.value;
    if i < j - 1 {
      RenderElementsInOrder(parent, i, j - 1, night);
    }
  }

  /** A list holding one nested list renders exactly as the nested list does. */
  lemma {:induction false} NestedListRendersInner(inner: InfoBlock, title: Option<TranslationString>, night: bool)
    requires inner.ListBlock?
    ensures RenderList(ListBlock(title, Blocks([Some(inner)])), night) == RenderList(inner, night)
  {
    var outer := ListBlock(title, Blocks([Some(inner)]));
    assert RenderElements(outer, 0, night) == Ok([]);
    DispatchByVariant(inner, night);
    var r := RenderEntry(Some(inner), night);
    if r.Ok? {
      assert [] + r.value == r.value;
    }
  }

  /** A list whose entries are all null renders nothing. */
  lemma {:induction false} NullEntriesRenderNothing(parent: InfoBlock, i: nat, night: bool)
    requires parent.ListBlock? && parent.elements.Blocks? && i <= |parent.elements.blocks|
    requires forall k :: 0 <= k < |parent.elements.blocks| ==> parent.elements.blocks[k].None?
    ensures RenderElements(parent, i, night) == Ok([])
  {
    if i > 0 {
      NullEntriesRenderNothing(parent, i - 1, night);
      var none: seq<Row> := [];
      assert RenderEntry(parent.elements.blocks[i - 1], night) == Ok(none);
      assert none + none == none;
    }
  }

  /**
   * The characteristics part of the screen: `infoBlocks!!`, then, only when
   * the list is non-empty, the header followed by every entry's rows in order.
   */
  function Characteristics(item: Item, night: bool): (r: Result<seq<Row>, RenderError>)
    ensures item.infoBlocks.NullList? ==> r == Err(NullInfoBlocks)
    ensures r.Ok? ==> (Header in r.value <==> |item.infoBlocks.blocks| > 0)
    ensures r.Ok? && Header in r.value ==> r.value[0] == Header
  {
    match item.infoBlocks
    case NullList => Err(NullInfoBlocks)
    case Blocks(es) =>
      if |es| == 0 then Ok([])
      else
        var rows :- RenderEntries(es, |es|, night);
        Ok([Header] + rows)
  }

  /** The rows of the first `i` top-level entries, in entry order. */
  function RenderEntries(es: seq<Option<InfoBlock>>, i: nat, night: bool): (r: Result<seq<Row>, RenderError>)
    requires i <= |es|
    ensures r.Ok? <==> forall k :: 0 <= k < i ==> RenderEntry(es[k], night).Ok?
    ensures r.Ok? ==> Header !in r.value
  {
    if i == 0 then Ok([])
    else
      var front := RenderEntries(es, i - 1, night);
      var last := RenderEntry(es[i - 1], night);
      if front.Err? then front
      else if last.Err? then last
      else Ok(front.value + last.value)
  }

  /** The detail screen's rarity card and characteristics, the same in both orientations. */
  function DetailScreen(item: Item, night: bool): (r: Result<(Argb, seq<Row>), RenderError>)
    ensures r.Ok? ==> r.value.0 == RarityColour(item.color)
    ensures r.Ok? <==> Characteristics(item, night).Ok?
  {
    var rows :- Characteristics(item, night);
    Ok((RarityColour(item.color), rows))
  }
}
