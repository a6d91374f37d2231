/**
 * The discriminant-dispatch decoders for translation strings and info
 * blocks, together with the parts of Gson's generic machinery they rely on:
 * a nested `context.deserialize` call yields null for a missing or JSON-null
 * element, a list is decoded entry by entry, and the two helper records
 * are filled reflectively from same-named members.
 */
module InfoBlockDecoder {
  import opened Wrappers
  import opened JsonTree
  import opened Models

  /** Why decoding failed (the JsonParseException or runtime exception thrown). */
  datatype DecodeError =
    | NotAnObject            // `asJsonObject` on an element that is not an object
    | UnknownType(tag: string)
    | Malformed(key: string) // the member under `key` is missing, null or of the wrong kind

  // ---------------------------------------------------------------------
  // Member readers
  // ---------------------------------------------------------------------

  /** `jsonObject.get(key).asString`: a missing member dereferences null. */
  function RequiredString(f: map<string, Json>, key: string): (r: Result<string, DecodeError>)
    ensures r.Ok? <==> key in f && AsString(f[key]).Some?
    ensures r.Ok? ==> r.value == AsString(f[key]).value
  {
    if key !in f then Err(Malformed(key))
    else match AsString(f[key])
      case None => Err(Malformed(key))
      case Some(s) => Ok(s)
  }

  /** `jsonObject.get(key).asFloat`, the float kept as its literal. */
  function RequiredFloat(f: map<string, Json>, key: string): (r: Result<Float, DecodeError>)
    ensures r.Ok? <==> key in f && AsNumber(f[key]).Some?
    ensures r.Ok? ==> r.value == Float(AsNumber(f[key]).value)
  {
    if key !in f then Err(Malformed(key))
    else match AsNumber(f[key])
      case None => Err(Malformed(key))
      case Some(literal) => Ok(Float(literal))
  }

  /**
   * A String field of a reflectively decoded record: absent or null leaves
   * the field null, a boolean or number is read as its text, and an array
   * or object is an error.
   */
  function ReflectedString(f: map<string, Json>, key: string): (r: Result<Option<string>, DecodeError>)
    ensures key !in f ==> r == Ok(None)
    ensures key in f && f[key].JString? ==> r == Ok(Some(f[key].s))
  {
    if key !in f then Ok(None)
    else match f[key]
      case JNull => Ok(None)
      case JBool(b) => Ok(Some(if b then "true" else "false"))
      case JNumber(literal) => Ok(Some(literal))
      case JString(s) => Ok(Some(s))
      case _ => Err(Malformed(key))
  }

  /** TranslationLines, decoded reflectively from an object's `ru` member. */
  function DecodeLines(e: Option<Json>, key: string): (r: Result<Option<TranslationLines>, DecodeError>)
    ensures e.None? || e == Some(JNull) ==> r == Ok(None)
    ensures r.Ok? && r.value.Some? ==> e.Some? && e.value.JObject?
  {
    match e
    case None => Ok(None)
    case Some(JNull) => Ok(None)
    case Some(JObject(g)) =>
      var ru :- ReflectedString(g, "ru");
      Ok(Some(TranslationLines(ru)))
    case Some(_) => Err(Malformed(key))
  }

  /** FormattedObject, decoded reflectively from `value` and `valueColor`. */
  function DecodeFormatted(e: Option<Json>): (r: Result<Option<FormattedObject>, DecodeError>)
    ensures e.None? || e == Some(JNull) ==> r == Ok(None)
  {
    match e
    case None => Ok(None)
    case Some(JNull) => Ok(None)
    case Some(JObject(g)) =>
      var value :- DecodeLines(Get(g, "value"), "value");
      var valueColor :- ReflectedString(g, "valueColor");
      Ok(Some(FormattedObject(value, valueColor)))
    case Some(_) => Err(Malformed("formatted"))
  }

  // ---------------------------------------------------------------------
  // TranslationStringDeserializer
  // ---------------------------------------------------------------------

  /** TranslationStringDeserializer.deserialize on one element. */
  function DecodeTranslationString(j: Json): (r: Result<Option<TranslationString>, DecodeError>)
    ensures !j.JObject? ==> r == Err(NotAnObject)
    ensures j.JObject? && "type" !in j.fields ==> r == Ok(None)
    ensures r.Ok? && r.value.Some? ==>
      j.JObject? && "type" in j.fields && AsString(j.fields["type"]) == Some(TranslationTag(r.value.value))
    ensures (j.JObject? && "type" in j.fields && AsString(j.fields["type"]).Some? &&
             AsString(j.fields["type"]).value !in {"text", "translation"}) ==>
      r == Err(UnknownType(AsString(j.fields["type"]).value))
  {
    if !j.JObject? then Err(NotAnObject)
    else
      var f := j.fields;
      if "type" !in f then Ok(None)
      else match AsString(f["type"])
        case None => Err(Malformed("type"))
        case Some(tag) =>
          if tag == "text" then
            var text :- RequiredString(f, "text");
            Ok(Some(Text(text)))
          else if tag == "translation" then
            var lines :- DecodeLines(Get(f, "lines"), "lines");
            if lines.None? then Err(Malformed("lines"))
            else Ok(Some(Translation(lines.value)))
          else Err(UnknownType(tag))
  }

  /**
   * `context.deserialize(element, TranslationString)`: a missing or JSON-null
   * element is null without calling the deserializer.
   */
  function NestedTranslationString(e: Option<Json>): (r: Result<Option<TranslationString>, DecodeError>)
    ensures e.None? || e == Some(JNull) ==> r == Ok(None)
    ensures e.Some? && !e.value.JNull? ==> r == DecodeTranslationString(e.value)
  {
    match e
    case None => Ok(None)
    case Some(JNull) => Ok(None)
    case Some(j) => DecodeTranslationString(j)
  }

  /** A translation string passed to a non-null constructor parameter: null throws. */
  function RequiredTranslationString(f: map<string, Json>, key: string): (r: Result<TranslationString, DecodeError>)
    ensures r.Ok? <==> NestedTranslationString(Get(f, key)).Ok? && NestedTranslationString(Get(f, key)).value.Some?
    ensures r.Ok? ==> Some(r.value) == NestedTranslationString(Get(f, key)).value
  {
    var t :- NestedTranslationString(Get(f, key));
    if t.None? then Err(Malformed(key)) else Ok(t.value)
  }

  // ---------------------------------------------------------------------
  // InfoBlockDeserializer
  // ---------------------------------------------------------------------

  /** InfoBlockDeserializer.deserialize on one element. */
  function DecodeInfoBlock(j: Json): (r: Result<Option<InfoBlock>, DecodeError>)
    decreases j, 2, 0
    ensures !j.JObject? ==> r == Err(NotAnObject)
    ensures j.JObject? && "type" !in j.fields ==> r == Ok(None)
    ensures j.JObject? && "type" in j.fields && AsString(j.fields["type"]).None? ==> r == Err(Malformed("type"))
    ensures (j.JObject? && "type" in j.fields && AsString(j.fields["type"]).Some? &&
             AsString(j.fields["type"]).value !in BlockTags) ==>
      r == Err(UnknownType(AsString(j.fields["type"]).value))
    ensures r.Ok? && r.value.Some? ==>
      j.JObject? && "type" in j.fields && AsString(j.fields["type"]) == Some(TypeTag(r.value.value))
  {
    if !j.JObject? then Err(NotAnObject)
    else
      var f := j.fields;
      if "type" !in f then Ok(None)
      else match AsString(f["type"])
        case None => Err(Malformed("type"))
        case Some(tag) =>
          if tag == "text" then DecodeText(f)
          else if tag == "damage" then DecodeDamage(f)
          else if tag == "range" then DecodeRange(f)
          else if tag == "list" then DecodeList(j)
          else if tag == "numeric" then DecodeNumeric(f)
          else if tag == "key-value" then DecodeKeyValue(f)
          else if tag == "usage" then
            var name :- RequiredTranslationString(f, "name");
            Ok(Some(UsageBlock(name)))
          else if tag == "item" then
            var name :- RequiredTranslationString(f, "name");
            Ok(Some(ItemBlock(name)))
          else Err(UnknownType(tag))
  }

  /** The `text` branch: a nullable title and a required text. */
  function DecodeText(f: map<string, Json>): (r: Result<Option<InfoBlock>, DecodeError>)
    ensures r.Ok? ==> r.value.Some? && r.value.value.TextBlock?
  {
    var title :- NestedTranslationString(Get(f, "title"));
    var text :- RequiredTranslationString(f, "text");
    Ok(Some(TextBlock(title, text)))
  }

  /** The `damage` branch: five required floats. */
  function DecodeDamage(f: map<string, Json>): (r: Result<Option<InfoBlock>, DecodeError>)
    ensures r.Ok? ==> r.value.Some? && r.value.value.DamageBlock?
  {
    var startDamage :- RequiredFloat(f, "startDamage");
    var damageDecreaseStart :- RequiredFloat(f, "damageDecreaseStart");
    var endDamage :- RequiredFloat(f, "endDamage");
    var damageDecreaseEnd :- RequiredFloat(f, "damageDecreaseEnd");
    var maxDistance :- RequiredFloat(f, "maxDistance");
    Ok(Some(DamageBlock(startDamage, damageDecreaseStart, endDamage, damageDecreaseEnd, maxDistance)))
  }

  /** The `range` branch: a required name and two required floats. */
  function DecodeRange(f: map<string, Json>): (r: Result<Option<InfoBlock>, DecodeError>)
    ensures r.Ok? ==> r.value.Some? && r.value.value.RangeBlock?
  {
    var name :- RequiredTranslationString(f, "name");
    var min :- RequiredFloat(f, "min");
    var max :- RequiredFloat(f, "max");
    Ok(Some(RangeBlock(name, min, max)))
  }

  /** The `list` branch: a nullable title and the nested elements, decoded recursively. */
  function DecodeList(j: Json): (r: Result<Option<InfoBlock>, DecodeError>)
    requires j.JObject?
    decreases j, 1, 1
    ensures r.Ok? ==> r.value.Some? && r.value.value.ListBlock?
  {
    var f := j.fields;
    var title :- NestedTranslationString(Get(f, "title"));
    var elements :- if "elements" in f then DecodeBlockList(f["elements"]) else Ok(NullList);
    Ok(Some(ListBlock(title, elements)))
  }

  /** The `numeric` branch: a required name, value and formatted object. */
  function DecodeNumeric(f: map<string, Json>): (r: Result<Option<InfoBlock>, DecodeError>)
    ensures r.Ok? ==> r.value.Some? && r.value.value.NumericBlock?
  {
    var name :- RequiredTranslationString(f, "name");
    var amount :- RequiredFloat(f, "value");
    var formatted :- DecodeFormatted(Get(f, "formatted"));
    if formatted.None? then Err(Malformed("formatted"))
    else Ok(Some(NumericBlock(name, amount, formatted.value)))
  }

  /** The `key-value` branch: two required translation strings. */
  function DecodeKeyValue(f: map<string, Json>): (r: Result<Option<InfoBlock>, DecodeError>)
    ensures r.Ok? ==> r.value.Some? && r.value.value.KeyValueBlock?
  {
    var key :- RequiredTranslationString(f, "key");
    var value :- RequiredTranslationString(f, "value");
    Ok(Some(KeyValueBlock(key, value)))
  }

  /**
   * `context.deserialize(elements, List<InfoBlock>)` on a present member:
   * JSON null is a null list, an array is decoded entry by entry, and
   * anything else is an error.
   */
  function DecodeBlockList(e: Json): (r: Result<BlockList, DecodeError>)
    decreases e, 1, 0
    ensures e.JNull? ==> r == Ok(NullList)
    ensures !e.JNull? && !e.JArray? ==> r == Err(Malformed("elements"))
    ensures e.JArray? ==> r.Ok? == DecodeElements(e.elems, 0).Ok?
    ensures e.JArray? && r.Ok? ==> r.value == Blocks(DecodeElements(e.elems, 0).value)
  {
    match e
    case JNull => Ok(NullList)
    case JArray(xs) =>
      var bs :- DecodeElements(xs, 0);
      Ok(Blocks(bs))
    case _ => Err(Malformed("elements"))
  }

  /** The list entries from index `i` on, decoded in order; the first failure wins. */
  function DecodeElements(xs: seq<Json>, i: nat): (r: Result<seq<Option<InfoBlock>>, DecodeError>)
    requires i <= |xs|
    decreases JArray(xs), 0, |xs| - i
    ensures r.Ok? <==> forall k :: i <= k < |xs| ==> DecodeElement(xs[k]).Ok?
    ensures r.Ok? ==> |r.value| == |xs| - i
    ensures r.Ok? ==> forall k :: i <= k < |xs| ==> DecodeElement(xs[k]) == Ok(r.value[k - i])
  {
    if i == |xs| then Ok([])
    else
      var b :- DecodeElement(xs[i]);
      var rest :- DecodeElements(xs, i + 1);
      Ok([b] + rest)
  }

  /** One list entry: JSON null is an absent block, anything else goes to the deserializer. */
  function DecodeElement(x: Json): (r: Result<Option<InfoBlock>, DecodeError>)
    decreases x, 3, 0
    ensures x.JNull? ==> r == Ok(None)
    ensures !x.JNull? ==> r == DecodeInfoBlock(x)
  {
    if x.JNull? then Ok(None) else DecodeInfoBlock(x)
  }

  // ---------------------------------------------------------------------
  // Properties of the decoders
  // ---------------------------------------------------------------------

  /**
   * A known tag yields exactly its variant, each field read from the
   * same-named member: the range block.
   */
  lemma RangeFields(f: map<string, Json>)
    requires "type" in f && AsString(f["type"]) == Some("range")
    requires RequiredTranslationString(f, "name").Ok?
    requires RequiredFloat(f, "min").Ok? && RequiredFloat(f, "max").Ok?
    ensures DecodeInfoBlock(JObject(f)) ==
      Ok(Some(RangeBlock(RequiredTranslationString(f, "name").value,
                         Float(AsNumber(f["min"]).value), Float(AsNumber(f["max"]).value))))
  {
  }

  /** The damage block takes its five distance and damage members. */
  lemma DamageFields(f: map<string, Json>)
    requires "type" in f && AsString(f["type"]) == Some("damage")
    requires forall key :: key in {"startDamage", "damageDecreaseStart", "endDamage", "damageDecreaseEnd", "maxDistance"} ==>
      key in f && AsNumber(f[key]).Some?
    ensures DecodeInfoBlock(JObject(f)) ==
      Ok(Some(DamageBlock(Float(AsNumber(f["startDamage"]).value), Float(AsNumber(f["damageDecreaseStart"]).value),
                          Float(AsNumber(f["endDamage"]).value), Float(AsNumber(f["damageDecreaseEnd"]).value),
                          Float(AsNumber(f["maxDistance"]).value))))
  {
    assert "startDamage" in {"startDamage", "damageDecreaseStart", "endDamage", "damageDecreaseEnd", "maxDistance"};
    assert "damageDecreaseStart" in {"startDamage", "damageDecreaseStart", "endDamage", "damageDecreaseEnd", "maxDistance"};
    assert "endDamage" in {"startDamage", "damageDecreaseStart", "endDamage", "damageDecreaseEnd", "maxDistance"};
    assert "damageDecreaseEnd" in {"startDamage", "damageDecreaseStart", "endDamage", "damageDecreaseEnd", "maxDistance"};
    assert "maxDistance" in {"startDamage", "damageDecreaseStart", "endDamage", "damageDecreaseEnd", "maxDistance"};
  }

  /**
   * A list block's entries are decoded by the same decoder: the list decodes
   * exactly when every entry does, and then it has one entry per array
   * element, in the same order.
   */
  lemma ListEntriesInOrder(f: map<string, Json>, xs: seq<Json>)
    requires "type" in f && AsString(f["type"]) == Some("list")
    requires NestedTranslationString(Get(f, "title")).Ok?
    requires "elements" in f && f["elements"] == JArray(xs)
    ensures DecodeInfoBlock(JObject(f)).Ok? <==> forall k :: 0 <= k < |xs| ==> DecodeElement(xs[k]).Ok?
    ensures DecodeInfoBlock(JObject(f)).Ok? ==>
      var b := DecodeInfoBlock(JObject(f)).value;
      b.Some? && b.value.ListBlock? && b.value.elements.Blocks? &&
      |b.value.elements.blocks| == |xs| &&
      forall k :: 0 <= k < |xs| ==> DecodeElement(xs[k]) == Ok(b.value.elements.blocks[k])
  {
  }

  /** A list entry with no `type` member becomes an absent entry, not an error. */
  lemma UntypedEntryIsAbsent(g: map<string, Json>)
    requires "type" !in g
    ensures DecodeElement(JObject(g)) == Ok(None)
  {
  }

  // ---------------------------------------------------------------------
  // A reference encoding, and decoding as its inverse
  // ---------------------------------------------------------------------

  function EncodeOptionalString(s: Option<string>): Json
  {
    if s.None? then JNull else JString(s.value)
  }

  function EncodeLines(l: TranslationLines): Json
  {
    JObject(map["ru" := EncodeOptionalString(l.ru)])
  }

  /** The document shape the translation-string decoder reads. */
  function EncodeTranslationString(t: TranslationString): Json
  {
    match t
    case Text(text) => JObject(map["type" := JString("text"), "text" := JString(text)])
    case Translation(lines) => JObject(map["type" := JString("translation"), "lines" := EncodeLines(lines)])
  }

  function EncodeOptionalTranslationString(t: Option<TranslationString>): Json
  {
    if t.None? then JNull else EncodeTranslationString(t.value)
  }

  function EncodeFormatted(fo: FormattedObject): Json
  {
    JObject(map["value" := (if fo.value.None? then JNull else EncodeLines(fo.value.value)),
                "valueColor" := EncodeOptionalString(fo.valueColor)])
  }

  function EncodeFloat(x: Float): Json
  {
    JNumber(x.literal)
  }

  /** The document shape the info-block decoder reads, tagged with the variant's discriminant. */
  function EncodeInfoBlock(b: InfoBlock): Json
    decreases b, 2
  {
    match b
    case TextBlock(title, text) =>
      JObject(map["type" := JString("text"), "title" := EncodeOptionalTranslationString(title),
                  "text" := EncodeTranslationString(text)])
    case DamageBlock(startDamage, damageDecreaseStart, endDamage, damageDecreaseEnd, maxDistance) =>
      JObject(map["type" := JString("damage"), "startDamage" := EncodeFloat(startDamage),
                  "damageDecreaseStart" := EncodeFloat(damageDecreaseStart), "endDamage" := EncodeFloat(endDamage),
                  "damageDecreaseEnd" := EncodeFloat(damageDecreaseEnd), "maxDistance" := EncodeFloat(maxDistance)])
    case RangeBlock(name, min, max) =>
      JObject(map["type" := JString("range"), "name" := EncodeTranslationString(name),
                  "min" := EncodeFloat(min), "max" := EncodeFloat(max)])
    case ListBlock(title, elements) =>
      JObject(map["type" := JString("list"), "title" := EncodeOptionalTranslationString(title),
                  "elements" := (if elements.NullList? then JNull else JArray(EncodeElements(b, elements.blocks)))])
    case NumericBlock(name, amount, formatted) =>
      JObject(map["type" := JString("numeric"), "name" := EncodeTranslationString(name),
                  "value" := EncodeFloat(amount), "formatted" := EncodeFormatted(formatted)])
    case KeyValueBlock(key, value) =>
      JObject(map["type" := JString("key-value"), "key" := EncodeTranslationString(key),
                  "value" := EncodeTranslationString(value)])
    case UsageBlock(name) =>
      JObject(map["type" := JString("usage"), "name" := EncodeTranslationString(name)])
    case ItemBlock(name) =>
      JObject(map["type" := JString("item"), "name" := EncodeTranslationString(name)])
  }

  /** The entries of list block `parent`, an absent entry written as JSON null. */
  function EncodeElements(parent: InfoBlock, es: seq<Option<InfoBlock>>): (r: seq<Json>)
    requires parent.ListBlock? && parent.elements == Blocks(es)
    decreases parent, 1
    ensures |r| == |es|
  {
    seq(|es|, k requires 0 <= k < |es| => EncodeEntry(parent, es, k))
  }

  function EncodeEntry(parent: InfoBlock, es: seq<Option<InfoBlock>>, k: nat): Json
    requires parent.ListBlock? && parent.elements == Blocks(es) && k < |es|
    decreases parent, 0
  {
    if es[k].None? then JNull
    else
      assert es[k] in es;
      EncodeInfoBlock(es[k].value)
  }

  /** Decoding reads back every translation string the reference encoding writes. */
  lemma TranslationStringRoundTrip(t: TranslationString)
    ensures DecodeTranslationString(EncodeTranslationString(t)) == Ok(Some(t))
  {
  }

  /**
   * The decoder is a left inverse of the reference encoding, nested lists
   * included: every field is read back from the member it was written to.
   */
  lemma {:induction false} InfoBlockRoundTrip(b: InfoBlock)
    decreases b, 1
    ensures DecodeInfoBlock(EncodeInfoBlock(b)) == Ok(Some(b))
  {
    match b
    case TextBlock(title, text) => TextRoundTrip(title, text);
    case DamageBlock(_, _, _, _, _) => DamageRoundTrip(b);
    case RangeBlock(name, min, max) => RangeRoundTrip(name, min, max);
    case ListBlock(title, elements) => ListRoundTrip(b);
    case NumericBlock(name, amount, formatted) => NumericRoundTrip(name, amount, formatted);
    case KeyValueBlock(key, value) => KeyValueRoundTrip(key, value);
    case UsageBlock(name) => TranslationStringRoundTrip(name);
    case ItemBlock(name) => TranslationStringRoundTrip(name);
  }

  lemma OptionalTranslationStringRoundTrip(t: Option<TranslationString>)
    ensures NestedTranslationString(Some(EncodeOptionalTranslationString(t))) == Ok(t)
  {
    if t.Some? { TranslationStringRoundTrip(t.value); }
  }

  lemma TextRoundTrip(title: Option<TranslationString>, text: TranslationString)
    ensures DecodeInfoBlock(EncodeInfoBlock(TextBlock(title, text))) == Ok(Some(TextBlock(title, text)))
  {
    OptionalTranslationStringRoundTrip(title);
    TranslationStringRoundTrip(text);
  }

  lemma DamageRoundTrip(b: InfoBlock)
    requires b.DamageBlock?
    ensures DecodeInfoBlock(EncodeInfoBlock(b)) == Ok(Some(b))
  {
  }

  lemma RangeRoundTrip(name: TranslationString, min: Float, max: Float)
    ensures DecodeInfoBlock(EncodeInfoBlock(RangeBlock(name, min, max))) == Ok(Some(RangeBlock(name, min, max)))
  {
    TranslationStringRoundTrip(name);
  }

  lemma NumericRoundTrip(name: TranslationString, amount: Float, formatted: FormattedObject)
    ensures DecodeInfoBlock(EncodeInfoBlock(NumericBlock(name, amount, formatted))) ==
      Ok(Some(NumericBlock(name, amount, formatted)))
  {
    var f := EncodeInfoBlock(NumericBlock(name, amount, formatted)).fields;
    TranslationStringRoundTrip(name);
    FormattedRoundTrip(formatted);
    assert Get(f, "formatted") == Some(EncodeFormatted(formatted));
    assert DecodeNumeric(f) == Ok(Some(NumericBlock(name, amount, formatted)));
  }

  lemma FormattedRoundTrip(fo: FormattedObject)
    ensures DecodeFormatted(Some(EncodeFormatted(fo))) == Ok(Some(fo))
  {
  }

  lemma KeyValueRoundTrip(key: TranslationString, value: TranslationString)
    ensures DecodeInfoBlock(EncodeInfoBlock(KeyValueBlock(key, value))) == Ok(Some(KeyValueBlock(key, value)))
  {
    TranslationStringRoundTrip(key);
    TranslationStringRoundTrip(value);
  }

  lemma {:induction false} ListRoundTrip(b: InfoBlock)
    requires b.ListBlock?
    decreases b, 0
    ensures DecodeInfoBlock(EncodeInfoBlock(b)) == Ok(Some(b))
  {
    OptionalTranslationStringRoundTrip(b.title);
    var f := EncodeInfoBlock(b).fields;
    if b.elements.Blocks? {
      var es := b.elements.blocks;
      var xs := EncodeElements(b, es);
      forall k | 0 <= k < |xs|
        ensures DecodeElement(xs[k]) == Ok(es[k])
      {
        assert xs[k] == EncodeEntry(b, es, k);
        if es[k].Some? {
          assert es[k] in es;
          InfoBlockRoundTrip(es[k].value);
        }
      }
      var r := DecodeElements(xs, 0);
      assert r.Ok?;
      assert r.value == es;
      assert DecodeBlockList(f["elements"]) == Ok(Blocks(es));
    }
  }
}
