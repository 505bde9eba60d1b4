/**
 * The refined-prediction path: `get_refined_yield` builds the parameter
 * dictionary from the request, normalizes it, and `catboost_predict` assembles
 * the one-row feature frame and pool that the loaded regression model scores.
 *
 * The model loaded at startup is a handle passed in; None stands for a load
 * that failed. Its inference is an oracle that may raise (None).
 */
module Refined {
  import opened Wrappers
  import opened Vocabulary

  /** The body of a refined-prediction request. */
  datatype Request = Request(
    cropName: string, region: string,
    fieldArea: real, baseYield: real,
    soilType: string, rainfallMm: real, temperatureCelsius: real,
    fertilizerUsed: bool, irrigationUsed: bool,
    weatherCondition: string, daysToHarvest: int)

  /** A cell of the feature frame. */
  datatype Value = Str(s: string) | Float(x: real) | Int(n: int)

  /** A one-row data frame: column names and the row's values. */
  datatype Frame = Frame(columns: seq<string>, row: seq<Value>)

  /** The frame together with the names of its categorical columns. */
  datatype Pool = Pool(data: Frame, catFeatures: seq<string>)

  /** A loaded regression model; `predict` is None when inference raises. */
  datatype Model = Model(predict: Pool -> Option<real>)

  datatype Error = ModelNotLoaded | PredictionFailed

  /** The refined estimate echoed with the request's own crop, region, area and base yield. */
  datatype Response = Response(refinedYield: real, crop: string, region: string, fieldArea: real, baseYield: real)

  const FeatureColumns: seq<string> := [
    "Region", "Soil_Type", "Crop", "Rainfall_mm", "Temperature_Celsius",
    "Fertilizer_Used", "Irrigation_Used", "Weather_Condition", "Days_to_Harvest"
  ]

  const CategoricalFeatures: seq<string> := [
    "Region", "Soil_Type", "Crop", "Fertilizer_Used", "Irrigation_Used", "Weather_Condition"
  ]

  /** The value stored under a column name, if the frame has that column. */
  function ColumnValue(f: Frame, name: string): Option<Value>
    requires |f.columns| == |f.row|
    decreases |f.columns|
  {
    if f.columns == [] then None
    else if f.columns[0] == name then Some(f.row[0])
    else ColumnValue(Frame(f.columns[1..], f.row[1..]), name)
  }

  /** Lines 417-427: the parameter dictionary, with the request's crop name under `crop`. */
  function ParamsOf(req: Request): (p: Params)
    ensures p.crop == req.cropName && p.region == req.region && p.soilType == req.soilType
    ensures p.rainfall == req.rainfallMm && p.temperature == req.temperatureCelsius
    ensures p.fertilizer == req.fertilizerUsed && p.irrigation == req.irrigationUsed
    ensures p.weather == req.weatherCondition && p.days == req.daysToHarvest
  {
    Params(req.region, req.soilType, req.cropName, req.rainfallMm, req.temperatureCelsius,
           req.fertilizerUsed, req.irrigationUsed, req.weatherCondition, req.daysToHarvest)
  }

  /**
   * Lines 372-387: the feature frame in the column order the model was trained
   * with, and the six categorical columns flagged; a column is categorical
   * exactly when it holds a string.
   */
  function BuildPool(t: Transformed): (pool: Pool)
    ensures pool.data.columns == FeatureColumns && |pool.data.row| == |FeatureColumns|
    ensures pool.catFeatures == CategoricalFeatures
    ensures forall c :: c in pool.catFeatures ==> c in pool.data.columns
    ensures forall i :: 0 <= i < |FeatureColumns| ==> (FeatureColumns[i] in CategoricalFeatures <==> pool.data.row[i].Str?)
  {
    var row := [
      Str(t.region), Str(t.soilType), Str(t.crop), Float(t.rainfall), Float(t.temperature),
      Str(t.fertilizer), Str(t.irrigation), Str(t.weather), Int(t.days)
    ];
    Pool(Frame(FeatureColumns, row), CategoricalFeatures)
  }

  /** The first column of a given name is the one a lookup by name finds. */
  lemma {:induction false} ColumnValueAt(f: Frame, name: string, i: nat)
    requires |f.columns| == |f.row| && i < |f.columns|
    requires f.columns[i] == name && name !in f.columns[..i]
    ensures ColumnValue(f, name) == Some(f.row[i])
    decreases i
  {
    if i > 0 {
      assert f.columns[0] in f.columns[..i];
      var tail := Frame(f.columns[1..], f.row[1..]);
      assert tail.columns[..i - 1] == f.columns[1..i];
      ColumnValueAt(tail, name, i - 1);
    }
  }

  /** The feature names are pairwise distinct. */
  lemma FeatureColumnsDistinct()
    ensures forall i, j :: 0 <= i < j < |FeatureColumns| ==> FeatureColumns[i] != FeatureColumns[j]
  {
  }

  /** In a frame with the feature columns, looking a feature up by name finds its position. */
  lemma FeatureLookup(f: Frame)
    requires f.columns == FeatureColumns && |f.row| == |FeatureColumns|
    ensures forall i :: 0 <= i < |FeatureColumns| ==> ColumnValue(f, FeatureColumns[i]) == Some(f.row[i])
  {
    FeatureColumnsDistinct();
    forall i | 0 <= i < |FeatureColumns|
      ensures ColumnValue(f, FeatureColumns[i]) == Some(f.row[i])
    {
      assert FeatureColumns[i] !in FeatureColumns[..i];
      ColumnValueAt(f, FeatureColumns[i], i);
    }
  }

  /** The location features are found under their column names in the assembled frame. */
  lemma PoolLocationColumns(t: Transformed)
    ensures var f := BuildPool(t).data;
      && ColumnValue(f, "Region") == Some(Str(t.region))
      && ColumnValue(f, "Soil_Type") == Some(Str(t.soilType))
      && ColumnValue(f, "Crop") == Some(Str(t.crop))
  {
    var f := BuildPool(t).data;
    FeatureLookup(f);
    assert ColumnValue(f, FeatureColumns[2]) == Some(f.row[2]);
  }

  /** The weather features are found under their column names in the assembled frame. */
  lemma PoolWeatherColumns(t: Transformed)
    ensures var f := BuildPool(t).data;
      && ColumnValue(f, "Rainfall_mm") == Some(Float(t.rainfall))
      && ColumnValue(f, "Temperature_Celsius") == Some(Float(t.temperature))
      && ColumnValue(f, "Weather_Condition") == Some(Str(t.weather))
  {
    var f := BuildPool(t).data;
    FeatureLookup(f);
    assert ColumnValue(f, FeatureColumns[3]) == Some(f.row[3]);
    assert ColumnValue(f, FeatureColumns[4]) == Some(f.row[4]);
    assert ColumnValue(f, FeatureColumns[7]) == Some(f.row[7]);
  }

  /** The farming-practice features are found under their column names in the assembled frame. */
  lemma PoolPracticeColumns(t: Transformed)
    ensures var f := BuildPool(t).data;
      && ColumnValue(f, "Fertilizer_Used") == Some(Str(t.fertilizer))
      && ColumnValue(f, "Irrigation_Used") == Some(Str(t.irrigation))
      && ColumnValue(f, "Days_to_Harvest") == Some(Int(t.days))
  {
    var f := BuildPool(t).data;
    FeatureLookup(f);
    assert ColumnValue(f, FeatureColumns[5]) == Some(f.row[5]);
    assert ColumnValue(f, FeatureColumns[6]) == Some(f.row[6]);
    assert ColumnValue(f, FeatureColumns[8]) == Some(f.row[8]);
  }

  /**
   * `pool` is a one-row feature pool for `t`: the feature columns in training
   * order, the categorical ones flagged, and each feature under its own name.
   */
  predicate DescribesFeatures(pool: Pool, t: Transformed)
  {
    && pool.data.columns == FeatureColumns
    && |pool.data.row| == |FeatureColumns|
    && pool.catFeatures == CategoricalFeatures
    && ColumnValue(pool.data, "Region") == Some(Str(t.region))
    && ColumnValue(pool.data, "Soil_Type") == Some(Str(t.soilType))
    && ColumnValue(pool.data, "Crop") == Some(Str(t.crop))
    && ColumnValue(pool.data, "Rainfall_mm") == Some(Float(t.rainfall))
    && ColumnValue(pool.data, "Temperature_Celsius") == Some(Float(t.temperature))
    && ColumnValue(pool.data, "Fertilizer_Used") == Some(Str(t.fertilizer))
    && ColumnValue(pool.data, "Irrigation_Used") == Some(Str(t.irrigation))
    && ColumnValue(pool.data, "Weather_Condition") == Some(Str(t.weather))
    && ColumnValue(pool.data, "Days_to_Harvest") == Some(Int(t.days))
  }

  lemma BuildPoolDescribes(t: Transformed)
    ensures DescribesFeatures(BuildPool(t), t)
  {
    PoolLocationColumns(t);
    PoolWeatherColumns(t);
    PoolPracticeColumns(t);
  }

  /** The feature values determine the pool: the model's input is a function of the transformed parameters. */
  lemma DescribedPoolUnique(p1: Pool, p2: Pool, t: Transformed)
    requires DescribesFeatures(p1, t) && DescribesFeatures(p2, t)
    ensures p1 == p2
  {
    FeatureLookup(p1.data);
    FeatureLookup(p2.data);
    forall i | 0 <= i < |FeatureColumns| ensures p1.data.row[i] == p2.data.row[i] {
      assert ColumnValue(p1.data, FeatureColumns[i]) == Some(p1.data.row[i]);
      assert ColumnValue(p2.data, FeatureColumns[i]) == Some(p2.data.row[i]);
    }
    assert p1.data.row == p2.data.row;
  }

  /** Lines 357-391: the model's prediction on the feature pool for `t`. */
  function CatboostPredict(model: Model, t: Transformed): (r: Option<real>)
    ensures exists pool :: DescribesFeatures(pool, t) && r == model.predict(pool)
  {
    BuildPoolDescribes(t);
    model.predict(BuildPool(t))
  }

  /**
   * Lines 400-467: with no model loaded the request fails at once; otherwise the
   * request is normalized and scored, and the response echoes the request's
   * untransformed crop, region, field area and base yield.
   */
  function GetRefinedYield(model: Option<Model>, req: Request): (r: Result<Response, Error>)
    ensures model.None? ==> r == Failure(ModelNotLoaded)
    ensures model.Some? ==>
      var prediction := model.value.predict(BuildPool(Transform(ParamsOf(req))));
      && (r.Failure? <==> prediction.None?)
      && (r.Failure? ==> r.error == PredictionFailed)
      && (r.Success? ==> r.value.refinedYield == prediction.value)
    ensures r.Success? ==>
      && r.value.crop == req.cropName && r.value.region == req.region
      && r.value.fieldArea == req.fieldArea && r.value.baseYield == req.baseYield
  {
    match model
    case None => Failure(ModelNotLoaded)
    case Some(m) =>
      var transformed := Transform(ParamsOf(req));
      match CatboostPredict(m, transformed)
      case None => Failure(PredictionFailed)
      case Some(prediction) => Success(Response(prediction, req.cropName, req.region, req.fieldArea, req.baseYield))
  }

  /**
   * What the model is given for a request: the categorical features are the
   * request's tokens after fail-open lookup, the flags are "Yes" exactly when
   * set, and the numbers are the request's own.
   */
  lemma ModelSeesNormalizedRequest(req: Request)
    ensures var f := BuildPool(Transform(ParamsOf(req))).data;
      && ColumnValue(f, "Region") == Some(Str(Normalize(RegionMapping, req.region)))
      && ColumnValue(f, "Soil_Type") == Some(Str(Normalize(SoilTypeMapping, req.soilType)))
      && ColumnValue(f, "Crop") == Some(Str(Normalize(CropMapping, req.cropName)))
      && ColumnValue(f, "Weather_Condition") == Some(Str(Normalize(WeatherMapping, req.weatherCondition)))
      && ColumnValue(f, "Rainfall_mm") == Some(Float(req.rainfallMm))
      && ColumnValue(f, "Temperature_Celsius") == Some(Float(req.temperatureCelsius))
      && ColumnValue(f, "Days_to_Harvest") == Some(Int(req.daysToHarvest))
      && (ColumnValue(f, "Fertilizer_Used") == Some(Str("Yes")) <==> req.fertilizerUsed)
      && (ColumnValue(f, "Irrigation_Used") == Some(Str("Yes")) <==> req.irrigationUsed)
  {
    var t := Transform(ParamsOf(req));
    PoolLocationColumns(t);
    PoolWeatherColumns(t);
    PoolPracticeColumns(t);
  }

  /**
   * A request in Russian vocabulary: the model scores the English tokens, and
   * the response still carries the Russian crop and region.
   */
  lemma RefinedRequestExample(m: Model)
    ensures var req := Request("Пшеница озимая", "Север", 10.0, 30.0, "глинистая", 500.0, 20.0, true, false, "солнечно", 120);
      var pool := BuildPool(Transformed("North", "Clay", "Wheat", 500.0, 20.0, "Yes", "No", "Sunny", 120));
      && GetRefinedYield(None, req) == Failure(ModelNotLoaded)
      && GetRefinedYield(Some(m), req) ==
         match m.predict(pool)
         case None => Failure(PredictionFailed)
         case Some(y) => Success(Response(y, "Пшеница озимая", "Север", 10.0, 30.0))
  {
    TransformExample();
  }
}
