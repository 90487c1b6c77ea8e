/**
 * The records of the weather service: the city as the web layer sees it,
 * the clothing-recommendation document of the document store (with its
 * precipitation sections), the temperature range that keys it, the
 * precipitation tag, and the ObjectId validator used for the document id.
 *
 * The document store holds untyped JSON; `Json` stands for it, and the
 * `Parse…` functions are what validating a stored document into these
 * records accepts.
 */
module Schemas {
  import opened Wrappers
  import Text

  // ---------------------------------------------------------------- coordinates

  /** The check constraints of the city table's latitude and longitude columns. */
  predicate ValidLatitude(latitude: real) { -90.0 <= latitude <= 90.0 }
  predicate ValidLongitude(longitude: real) { -180.0 <= longitude <= 180.0 }

  predicate ValidCoordinates(latitude: real, longitude: real)
  {
    ValidLatitude(latitude) && ValidLongitude(longitude)
  }

  // ---------------------------------------------------------------- CityInDB

  datatype CityInDB = CityInDB(
    id: int,
    name: string,
    region: string,
    country: string,
    latitude: real,
    longitude: real,
    population: int,
    timezone: string,
    alternatenames: seq<string>)

  // ---------------------------------------------------------------- JSON

  datatype Json =
    | JNull
    | JInt(i: int)
    | JString(s: string)
    | JArray(items: seq<Json>)
    | JObject(fields: map<string, Json>)

  // ---------------------------------------------------------------- clothing documents

  datatype ClothingItem = ClothingItem(clothingItems: seq<string>)

  datatype ClothingLayers = ClothingLayers(
    baseLayer: ClothingItem,
    midLayer: ClothingItem,
    outerLayerShell: ClothingItem,
    accessories: ClothingItem)

  datatype PrecipitationClothing = PrecipitationClothing(
    upperBody: ClothingLayers,
    lowerBody: ClothingLayers,
    footwear: ClothingItem)

  /** The "None" section is mandatory; "Rain" and "Snow" may be absent. */
  datatype Precipitation = Precipitation(
    none: PrecipitationClothing,
    rain: Option<PrecipitationClothing>,
    snow: Option<PrecipitationClothing>)

  datatype TemperatureRange = TemperatureRange(min: int, max: int)

  function Field(j: Json, key: string): Option<Json>
  {
    if j.JObject? && key in j.fields then Some(j.fields[key]) else None
  }

  predicate AllStrings(items: seq<Json>)
  {
    forall k :: 0 <= k < |items| ==> items[k].JString?
  }

  function ParseClothingItem(j: Json): (r: Option<ClothingItem>)
    ensures r.Some? <==> (Field(j, "clothingItems").Some? && Field(j, "clothingItems").value.JArray?
                          && AllStrings(Field(j, "clothingItems").value.items))
  {
    match Field(j, "clothingItems")
    case Some(JArray(items)) =>
      if AllStrings(items) then Some(ClothingItem(seq(|items|, k requires 0 <= k < |items| => items[k].s)))
      else None
    case _ => None
  }

  /** The section under `key` is present and validates as the clothing item `item`. */
  predicate ItemAt(j: Json, key: string, item: ClothingItem)
  {
    Field(j, key).Some? && ParseClothingItem(Field(j, key).value) == Some(item)
  }

  /** The section under `key` is present and validates as some clothing item. */
  predicate HasItem(j: Json, key: string)
  {
    Field(j, key).Some? && ParseClothingItem(Field(j, key).value).Some?
  }

  /** The four layers validate exactly when each is present and validates, and each becomes its field. */
  function ParseClothingLayers(j: Json): (r: Option<ClothingLayers>)
    ensures r.Some? <==>
      HasItem(j, "BaseLayer") && HasItem(j, "MidLayer") && HasItem(j, "OuterLayerShell") && HasItem(j, "Accessories")
    ensures r.Some? ==>
      && ItemAt(j, "BaseLayer", r.value.baseLayer) && ItemAt(j, "MidLayer", r.value.midLayer)
      && ItemAt(j, "OuterLayerShell", r.value.outerLayerShell) && ItemAt(j, "Accessories", r.value.accessories)
  {
    var base := if Field(j, "BaseLayer").Some? then ParseClothingItem(Field(j, "BaseLayer").value) else None;
    var mid := if Field(j, "MidLayer").Some? then ParseClothingItem(Field(j, "MidLayer").value) else None;
    var outer := if Field(j, "OuterLayerShell").Some? then ParseClothingItem(Field(j, "OuterLayerShell").value) else None;
    var acc := if Field(j, "Accessories").Some? then ParseClothingItem(Field(j, "Accessories").value) else None;
    if base.Some? && mid.Some? && outer.Some? && acc.Some? then
      Some(ClothingLayers(base.value, mid.value, outer.value, acc.value))
    else None
  }

  /** The section under `key` is present and validates as the layers `layers`. */
  predicate LayersAt(j: Json, key: string, layers: ClothingLayers)
  {
    Field(j, key).Some? && ParseClothingLayers(Field(j, key).value) == Some(layers)
  }

  predicate HasLayers(j: Json, key: string)
  {
    Field(j, key).Some? && ParseClothingLayers(Field(j, key).value).Some?
  }

  /** The body sections validate exactly when each is present and validates, and each becomes its field. */
  function ParsePrecipitationClothing(j: Json): (r: Option<PrecipitationClothing>)
    ensures r.Some? <==> HasLayers(j, "UpperBody") && HasLayers(j, "LowerBody") && HasItem(j, "Footwear")
    ensures r.Some? ==>
      LayersAt(j, "UpperBody", r.value.upperBody) && LayersAt(j, "LowerBody", r.value.lowerBody)
      && ItemAt(j, "Footwear", r.value.footwear)
  {
    var upper := if Field(j, "UpperBody").Some? then ParseClothingLayers(Field(j, "UpperBody").value) else None;
    var lower := if Field(j, "LowerBody").Some? then ParseClothingLayers(Field(j, "LowerBody").value) else None;
    var feet := if Field(j, "Footwear").Some? then ParseClothingItem(Field(j, "Footwear").value) else None;
    if upper.Some? && lower.Some? && feet.Some? then
      Some(PrecipitationClothing(upper.value, lower.value, feet.value))
    else None
  }

  /** An optional section: absent or null is `None`; present, it must be well formed. */
  function ParseOptionalSection(j: Json, key: string): (r: Option<Option<PrecipitationClothing>>)
    ensures Field(j, key).None? || Field(j, key) == Some(JNull) ==> r == Some(None)
    ensures Field(j, key).Some? && Field(j, key) != Some(JNull) ==>
      r.Some? == ParsePrecipitationClothing(Field(j, key).value).Some?
      && (r.Some? ==> r.value == ParsePrecipitationClothing(Field(j, key).value))
  {
    match Field(j, key)
    case None => Some(None)
    case Some(JNull) => Some(None)
    case Some(v) =>
      var section := ParsePrecipitationClothing(v);
      if section.Some? then Some(Some(section.value)) else None
  }

  /** Validation of the `precipitation` object: "None" must be there, "Rain" and "Snow" may be missing. */
  function ParsePrecipitation(j: Json): (r: Option<Precipitation>)
    ensures Field(j, "None").None? ==> r.None?
    ensures (Field(j, "Rain").None? || Field(j, "Rain") == Some(JNull)) && r.Some? ==> r.value.rain.None?
    ensures (Field(j, "Snow").None? || Field(j, "Snow") == Some(JNull)) && r.Some? ==> r.value.snow.None?
    ensures r.Some? <==>
      && Field(j, "None").Some? && ParsePrecipitationClothing(Field(j, "None").value).Some?
      && ParseOptionalSection(j, "Rain").Some? && ParseOptionalSection(j, "Snow").Some?
    ensures r.Some? ==>
      r.value.rain == ParseOptionalSection(j, "Rain").value && r.value.snow == ParseOptionalSection(j, "Snow").value
  {
    var none := if Field(j, "None").Some? then ParsePrecipitationClothing(Field(j, "None").value) else None;
    var rain := ParseOptionalSection(j, "Rain");
    var snow := ParseOptionalSection(j, "Snow");
    if none.Some? && rain.Some? && snow.Some? then Some(Precipitation(none.value, rain.value, snow.value))
    else None
  }

  /** The range validates exactly when both bounds are present as integers, which become its bounds. */
  function ParseTemperatureRange(j: Json): (r: Option<TemperatureRange>)
    ensures r.Some? <==> Field(j, "min").Some? && Field(j, "min").value.JInt?
                         && Field(j, "max").Some? && Field(j, "max").value.JInt?
    ensures r.Some? ==> Field(j, "min") == Some(JInt(r.value.min)) && Field(j, "max") == Some(JInt(r.value.max))
  {
    match (Field(j, "min"), Field(j, "max"))
    case (Some(JInt(lo)), Some(JInt(hi))) => Some(TemperatureRange(lo, hi))
    case _ => None
  }

  // The JSON the records are stored as.

  function ClothingItemJson(c: ClothingItem): Json
  {
    JObject(map["clothingItems" := JArray(seq(|c.clothingItems|, k requires 0 <= k < |c.clothingItems| => JString(c.clothingItems[k])))])
  }

  function ClothingLayersJson(l: ClothingLayers): Json
  {
    JObject(map[
      "BaseLayer" := ClothingItemJson(l.baseLayer),
      "MidLayer" := ClothingItemJson(l.midLayer),
      "OuterLayerShell" := ClothingItemJson(l.outerLayerShell),
      "Accessories" := ClothingItemJson(l.accessories)])
  }

  function PrecipitationClothingJson(p: PrecipitationClothing): Json
  {
    JObject(map[
      "UpperBody" := ClothingLayersJson(p.upperBody),
      "LowerBody" := ClothingLayersJson(p.lowerBody),
      "Footwear" := ClothingItemJson(p.footwear)])
  }

  function OptionalSectionJson(s: Option<PrecipitationClothing>): Json
  {
    if s.Some? then PrecipitationClothingJson(s.value) else JNull
  }

  function PrecipitationJson(p: Precipitation): Json
  {
    JObject(map[
      "None" := PrecipitationClothingJson(p.none),
      "Rain" := OptionalSectionJson(p.rain),
      "Snow" := OptionalSectionJson(p.snow)])
  }

  function TemperatureRangeJson(t: TemperatureRange): Json
  {
    JObject(map["min" := JInt(t.min), "max" := JInt(t.max)])
  }

  lemma ClothingItemRoundTrip(c: ClothingItem)
    ensures ParseClothingItem(ClothingItemJson(c)) == Some(c)
  {
    var j := ClothingItemJson(c);
    assert Field(j, "clothingItems").Some?;
    var items := Field(j, "clothingItems").value.items;
    assert seq(|items|, k requires 0 <= k < |items| => items[k].s) == c.clothingItems;
  }

  lemma ClothingLayersRoundTrip(l: ClothingLayers)
    ensures ParseClothingLayers(ClothingLayersJson(l)) == Some(l)
  {
    var j := ClothingLayersJson(l);
    assert Field(j, "BaseLayer") == Some(ClothingItemJson(l.baseLayer));
    assert Field(j, "MidLayer") == Some(ClothingItemJson(l.midLayer));
    assert Field(j, "OuterLayerShell") == Some(ClothingItemJson(l.outerLayerShell));
    assert Field(j, "Accessories") == Some(ClothingItemJson(l.accessories));
    ClothingItemRoundTrip(l.baseLayer);
    ClothingItemRoundTrip(l.midLayer);
    ClothingItemRoundTrip(l.outerLayerShell);
    ClothingItemRoundTrip(l.accessories);
  }

  lemma PrecipitationClothingRoundTrip(p: PrecipitationClothing)
    ensures ParsePrecipitationClothing(PrecipitationClothingJson(p)) == Some(p)
  {
    var j := PrecipitationClothingJson(p);
    assert Field(j, "UpperBody") == Some(ClothingLayersJson(p.upperBody));
    assert Field(j, "LowerBody") == Some(ClothingLayersJson(p.lowerBody));
    assert Field(j, "Footwear") == Some(ClothingItemJson(p.footwear));
    ClothingLayersRoundTrip(p.upperBody);
    ClothingLayersRoundTrip(p.lowerBody);
    ClothingItemRoundTrip(p.footwear);
  }

  lemma OptionalSectionRoundTrip(j: Json, key: string, s: Option<PrecipitationClothing>)
    requires Field(j, key) == Some(OptionalSectionJson(s))
    ensures ParseOptionalSection(j, key) == Some(s)
  {
    if s.Some? {
      PrecipitationClothingRoundTrip(s.value);
      assert PrecipitationClothingJson(s.value).JObject?;
    }
  }

  /** A stored precipitation object validates back to the sections it was written from. */
  lemma PrecipitationRoundTrip(p: Precipitation)
    ensures ParsePrecipitation(PrecipitationJson(p)) == Some(p)
  {
    var j := PrecipitationJson(p);
    assert Field(j, "None") == Some(PrecipitationClothingJson(p.none));
    assert Field(j, "Rain") == Some(OptionalSectionJson(p.rain));
    assert Field(j, "Snow") == Some(OptionalSectionJson(p.snow));
    PrecipitationClothingRoundTrip(p.none);
    OptionalSectionRoundTrip(j, "Rain", p.rain);
    OptionalSectionRoundTrip(j, "Snow", p.snow);
  }

  /** A document with only its "None" section validates, with neither "Rain" nor "Snow". */
  lemma NoneSectionAlone(c: PrecipitationClothing)
    ensures ParsePrecipitation(JObject(map["None" := PrecipitationClothingJson(c)])) == Some(Precipitation(c, None, None))
  {
    var j := JObject(map["None" := PrecipitationClothingJson(c)]);
    assert Field(j, "None") == Some(PrecipitationClothingJson(c));
    assert Field(j, "Rain").None? && Field(j, "Snow").None?;
    PrecipitationClothingRoundTrip(c);
  }

  /** Every validated precipitation object has a well-formed "None" section in the input. */
  lemma PrecipitationNeedsNone(j: Json)
    requires ParsePrecipitation(j).Some?
    ensures Field(j, "None").Some?
    ensures ParsePrecipitationClothing(Field(j, "None").value) == Some(ParsePrecipitation(j).value.none)
  {
  }

  lemma TemperatureRangeRoundTrip(t: TemperatureRange)
    ensures ParseTemperatureRange(TemperatureRangeJson(t)) == Some(t)
  {
    var j := TemperatureRangeJson(t);
    assert Field(j, "min") == Some(JInt(t.min)) && Field(j, "max") == Some(JInt(t.max));
  }

  // ---------------------------------------------------------------- PrecipitationType

  datatype PrecipitationType = NoPrecipitation | Rain | Snow

  /** The enumeration's value. */
  function Tag(t: PrecipitationType): string
  {
    match t
    case NoPrecipitation => "None"
    case Rain => "Rain"
    case Snow => "Snow"
  }

  /** `PrecipitationType(text)`: the member with that value, if any. */
  function FromTag(text: string): (r: Option<PrecipitationType>)
    ensures r.Some? <==> text in {"None", "Rain", "Snow"}
    ensures r.Some? ==> Tag(r.value) == text
  {
    if text == "None" then Some(NoPrecipitation)
    else if text == "Rain" then Some(Rain)
    else if text == "Snow" then Some(Snow)
    else None
  }

  /** Member to value to member is the identity, and distinct members have distinct values. */
  lemma TagRoundTrip(t: PrecipitationType, u: PrecipitationType)
    ensures FromTag(Tag(t)) == Some(t)
    ensures t != u ==> Tag(t) != Tag(u)
  {
  }

  // ---------------------------------------------------------------- PyObjectId

  type Byte = b: int | 0 <= b < 256

  /** A document-store object id: twelve bytes. */
  datatype ObjectId = ObjectId(bytes: seq<Byte>)

  /** What `PyObjectId.validate` may be handed. */
  datatype ObjectIdInput =
    | IdValue(oid: ObjectId)
    | IdText(text: string)
    | IdBytes(raw: seq<Byte>)
    | IdOther

  predicate IsHexDigit(c: char)
  {
    '0' <= c <= '9' || 'a' <= c <= 'f' || 'A' <= c <= 'F'
  }

  function HexValue(c: char): (d: nat)
    requires IsHexDigit(c)
    ensures d < 16
  {
    if '0' <= c <= '9' then c as int - '0' as int
    else if 'a' <= c <= 'f' then c as int - 'a' as int + 10
    else c as int - 'A' as int + 10
  }

  /** `ObjectId.is_valid`: an ObjectId, 24 hexadecimal digits, or 12 raw bytes. */
  predicate IsValidObjectId(v: ObjectIdInput)
  {
    match v
    case IdValue(oid) => |oid.bytes| == 12
    case IdText(t) => |t| == 24 && forall k :: 0 <= k < 24 ==> IsHexDigit(t[k])
    case IdBytes(b) => |b| == 12
    case IdOther => false
  }

  /** The id a valid input denotes: hexadecimal text is read two digits per byte. */
  function ObjectIdOf(v: ObjectIdInput): ObjectId
    requires IsValidObjectId(v)
  {
    match v
    case IdValue(oid) => oid
    case IdText(t) => ObjectId(seq(12, k requires 0 <= k < 12 => HexValue(t[2 * k]) * 16 + HexValue(t[2 * k + 1])))
    case IdBytes(b) => ObjectId(b)
  }

  /** `PyObjectId.validate`: ValueError("Invalid objectid") exactly when the input is not a valid id. */
  function Validate(v: ObjectIdInput): (r: Result<ObjectId, string>)
    ensures r.Failure? <==> !IsValidObjectId(v)
    ensures r.Failure? ==> r.error == "Invalid objectid"
    ensures r.Success? ==> |r.value.bytes| == 12
    ensures v.IdValue? && r.Success? ==> r.value == v.oid
    ensures v.IdBytes? && r.Success? ==> r.value.bytes == v.raw
  {
    if !IsValidObjectId(v) then Failure("Invalid objectid") else Success(ObjectIdOf(v))
  }

  /** `str(oid)`: 24 lower-case hexadecimal digits. */
  function ObjectIdText(oid: ObjectId): (t: string)
    requires |oid.bytes| == 12
    ensures |t| == 24
  {
    seq(24, i requires 0 <= i < 24 =>
      Text.HexDigit(if i % 2 == 0 then oid.bytes[i / 2] / 16 else oid.bytes[i / 2] % 16))
  }

  /**
   * Valid hexadecimal text denotes the id whose text is the input in lower
   * case: reading the digits two by two loses nothing but their case.
   */
  lemma ValidTextReadsBack(t: string)
    requires IsValidObjectId(IdText(t))
    ensures ObjectIdText(ObjectIdOf(IdText(t))) == Text.LowerAll(t)
  {
    var oid := ObjectIdOf(IdText(t));
    var back := ObjectIdText(oid);
    forall i | 0 <= i < 24 ensures back[i] == Text.ToLower(t[i]) {
      var k := i / 2;
      var hi := HexValue(t[2 * k]);
      var lo := HexValue(t[2 * k + 1]);
      assert oid.bytes[k] == hi * 16 + lo;
      assert oid.bytes[k] / 16 == hi && oid.bytes[k] % 16 == lo;
      HexDigitOfValue(t[i]);
    }
  }

  /** Writing the value of a hexadecimal digit gives the digit in lower case. */
  lemma HexDigitOfValue(c: char)
    requires IsHexDigit(c)
    ensures Text.HexDigit(HexValue(c)) == Text.ToLower(c)
  {
  }

  /** Validating the text of an id gives the same id back. */
  lemma ObjectIdTextRoundTrip(oid: ObjectId)
    requires |oid.bytes| == 12
    ensures Validate(IdText(ObjectIdText(oid))) == Success(oid)
  {
    var t := ObjectIdText(oid);
    forall k | 0 <= k < 24 ensures IsHexDigit(t[k]) && HexValue(t[k]) == (if k % 2 == 0 then oid.bytes[k / 2] / 16 else oid.bytes[k / 2] % 16) {
    }
    var back := ObjectIdOf(IdText(t));
    forall k | 0 <= k < 12 ensures back.bytes[k] == oid.bytes[k] {
      assert (2 * k) / 2 == k && (2 * k + 1) / 2 == k && (2 * k) % 2 == 0 && (2 * k + 1) % 2 == 1;
    }
    assert back.bytes == oid.bytes;
  }
}
