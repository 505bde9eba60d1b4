/**
 * The categorical normalizer `transform_russian_to_english`: Russian request
 * tokens become the English tokens the regression model was trained on. The
 * lookup is fail-open: an unknown token passes through unchanged.
 */
module Vocabulary {

  const RegionMapping: map<string, string> := map[
    "Север" := "North",
    "Восток" := "East",
    "Юг" := "South",
    "Запад" := "West"
  ]

  const SoilTypeMapping: map<string, string> := map[
    "глинистая" := "Clay",
    "песчаная" := "Sandy",
    "суглинистая" := "Loam",
    "иловая" := "Silt",
    "торфяная" := "Peaty",
    "меловая" := "Chalky"
  ]

  const CropMapping: map<string, string> := map[
    "Пшеница озимая" := "Wheat",
    "Рис" := "Rice",
    "Кукуруза" := "Maize",
    "Ячмень" := "Barley",
    "Соя" := "Soybean",
    "Хлопок" := "Cotton"
  ]

  const WeatherMapping: map<string, string> := map[
    "солнечно" := "Sunny",
    "дождливо" := "Rainy",
    "облачно" := "Cloudy"
  ]

  /** The parameter dictionary built from a request, before normalization. */
  datatype Params = Params(
    region: string, soilType: string, crop: string,
    rainfall: real, temperature: real,
    fertilizer: bool, irrigation: bool,
    weather: string, days: int)

  /** The same dictionary after normalization: the two flags have become tokens. */
  datatype Transformed = Transformed(
    region: string, soilType: string, crop: string,
    rainfall: real, temperature: real,
    fertilizer: string, irrigation: string,
    weather: string, days: int)

  /** Fail-open lookup: the table's token for a known key, the key itself otherwise. */
  function Normalize(table: map<string, string>, key: string): string
  {
    if key in table then table[key] else key
  }

  /** The token a boolean flag becomes. */
  function YesNo(flag: bool): string
  {
    if flag then "Yes" else "No"
  }

  /** `out` is what the fail-open lookup in `table` must give for `raw`. */
  predicate NormalizedBy(table: map<string, string>, raw: string, out: string)
  {
    (raw in table ==> out == table[raw]) && (raw !in table ==> out == raw)
  }

  /**
   * Lines 329-355: copy the parameters, replace each categorical value found in
   * its table, and rewrite both flags to "Yes" or "No".
   */
  function Transform(p: Params): (t: Transformed)
    ensures NormalizedBy(RegionMapping, p.region, t.region)
    ensures NormalizedBy(SoilTypeMapping, p.soilType, t.soilType)
    ensures NormalizedBy(CropMapping, p.crop, t.crop)
    ensures NormalizedBy(WeatherMapping, p.weather, t.weather)
    ensures t.fertilizer in {"Yes", "No"} && (t.fertilizer == "Yes" <==> p.fertilizer)
    ensures t.irrigation in {"Yes", "No"} && (t.irrigation == "Yes" <==> p.irrigation)
    ensures t.rainfall == p.rainfall && t.temperature == p.temperature && t.days == p.days
  {
    Transformed(
      Normalize(RegionMapping, p.region),
      Normalize(SoilTypeMapping, p.soilType),
      Normalize(CropMapping, p.crop),
      p.rainfall, p.temperature,
      YesNo(p.fertilizer), YesNo(p.irrigation),
      Normalize(WeatherMapping, p.weather),
      p.days)
  }

  /** No canonical token of a table is also one of its localized keys. */
  predicate Separated(table: map<string, string>)
  {
    forall k :: k in table ==> table[k] !in table
  }

  /** Each of the four tables keeps its English tokens apart from its Russian keys. */
  lemma TablesSeparated()
    ensures Separated(RegionMapping) && Separated(SoilTypeMapping)
    ensures Separated(CropMapping) && Separated(WeatherMapping)
  {
    RegionTableSeparated();
    SoilTypeTableSeparated();
    CropTableSeparated();
    WeatherTableSeparated();
  }

  lemma RegionTableSeparated()
    ensures Separated(RegionMapping)
  {
  }

  lemma SoilTypeTableSeparated()
    ensures Separated(SoilTypeMapping)
  {
  }

  lemma CropTableSeparated()
    ensures Separated(CropMapping)
  {
  }

  lemma WeatherTableSeparated()
    ensures Separated(WeatherMapping)
  {
  }

  /**
   * For a token that is not already canonical, the normalizer yields a
   * canonical token exactly when the token was known: the fail-open path is
   * the only way an unrecognized category reaches the model.
   */
  lemma CanonicalIffKnown(table: map<string, string>, raw: string)
    requires raw !in table.Values
    ensures Normalize(table, raw) in table.Values <==> raw in table
  {
  }

  /** Normalizing twice is normalizing once, for a table whose tokens are not keys. */
  lemma NormalizeIdempotent(table: map<string, string>, raw: string)
    requires Separated(table)
    ensures Normalize(table, Normalize(table, raw)) == Normalize(table, raw)
  {
  }

  /** Transforming a dictionary whose values are already canonical changes nothing but the flags' type. */
  lemma TransformFixesCanonical(p: Params)
    ensures var t := Transform(p);
      var again := Transform(Params(t.region, t.soilType, t.crop, t.rainfall, t.temperature, p.fertilizer, p.irrigation, t.weather, t.days));
      again == t
  {
    TablesSeparated();
    NormalizeIdempotent(RegionMapping, p.region);
    NormalizeIdempotent(SoilTypeMapping, p.soilType);
    NormalizeIdempotent(CropMapping, p.crop);
    NormalizeIdempotent(WeatherMapping, p.weather);
  }

  /** A request in Russian vocabulary becomes the English tokens; an unknown token passes through. */
  lemma TransformExample()
    ensures Transform(Params("Север", "глинистая", "Пшеница озимая", 500.0, 20.0, true, false, "солнечно", 120))
      == Transformed("North", "Clay", "Wheat", 500.0, 20.0, "Yes", "No", "Sunny", 120)
    ensures Transform(Params("Сибирь", "Loam", "Овёс", 0.0, -5.0, false, true, "туман", 0))
      == Transformed("Сибирь", "Loam", "Овёс", 0.0, -5.0, "No", "Yes", "туман", 0)
  {
  }
}
