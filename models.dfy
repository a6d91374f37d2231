/**
 * The catalog's entities: translation strings, info blocks and items,
 * with the fields the decoder fills in.
 */
module Models {
  import opened Wrappers

  /** A floating-point payload, kept opaque as the literal it was read from. */
  datatype Float = Float(literal: string)

  /** The per-language lines of a translation; only the Russian line is read. */
  datatype TranslationLines = TranslationLines(ru: Option<string>)

  /** A name that is either literal text or a translation table. */
  datatype TranslationString =
    | Text(text: string)
    | Translation(lines: TranslationLines)

  /** The formatted value of a numeric block and the hex colour it is shown in. */
  datatype FormattedObject = FormattedObject(value: Option<TranslationLines>, valueColor: Option<string>)

  /** A nullable list of possibly absent blocks (Kotlin's List<InfoBlock?>?). */
  datatype BlockList = NullList | Blocks(blocks: seq<Option<InfoBlock>>)

  /**
   * One displayable attribute of an item. A list block holds further blocks,
   * any of which may be absent. The numeric block's `value` is named
   * `amount` here, because the key-value block's `value` has another type.
   */
  datatype InfoBlock =
    | TextBlock(title: Option<TranslationString>, text: TranslationString)
    | DamageBlock(startDamage: Float, damageDecreaseStart: Float, endDamage: Float,
                  damageDecreaseEnd: Float, maxDistance: Float)
    | RangeBlock(name: TranslationString, min: Float, max: Float)
    | ListBlock(title: Option<TranslationString>, elements: BlockList)
    | NumericBlock(name: TranslationString, amount: Float, formatted: FormattedObject)
    | KeyValueBlock(key: TranslationString, value: TranslationString)
    | UsageBlock(name: TranslationString)
    | ItemBlock(name: TranslationString)

  /** The discriminant each variant is written with, and that its `type` property reports. */
  function TypeTag(b: InfoBlock): string
  {
    match b
    case TextBlock(_, _) => "text"
    case DamageBlock(_, _, _, _, _) => "damage"
    case RangeBlock(_, _, _) => "range"
    case ListBlock(_, _) => "list"
    case NumericBlock(_, _, _) => "numeric"
    case KeyValueBlock(_, _) => "key-value"
    case UsageBlock(_) => "usage"
    case ItemBlock(_) => "item"
  }

  /** The discriminants the info-block decoder accepts. */
  const BlockTags: set<string> := {"text", "damage", "range", "list", "numeric", "key-value", "usage", "item"}

  /** The discriminant of a translation string. */
  function TranslationTag(t: TranslationString): string
  {
    if t.Text? then "text" else "translation"
  }

  /** A catalog entry: the fields of the item record that the core reads. */
  datatype Item = Item(
    id: string,
    category: string,
    color: string,
    name: TranslationString,
    infoBlocks: BlockList)
}
