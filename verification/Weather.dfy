/** Rain bucketing as the trainer does it: a column of labels overwritten by three masked passes. */
module Weather {
  import opened Basics
  import opened Predictor

  /** rainfall_mm.fillna(0). */
  function FillNa(x: Option<real>): real {
    if x.Some? then x.value else 0.0
  }

  /** derive_weather_condition.  Missing readings keep "unknown" through the two later passes, and
      every label equals the one the serving side derives from the same reading. */
  method DeriveWeatherCondition(rainfall: seq<Option<real>>) returns (conditions: array<Condition>)
    ensures fresh(conditions) && conditions.Length == |rainfall|
    ensures forall i :: 0 <= i < |rainfall| ==> conditions[i] == WeatherConditionFor(rainfall[i])
  {
    conditions := new Condition[|rainfall|](_ => Clear);
    for i := 0 to |rainfall|
      invariant forall j :: 0 <= j < |rainfall| ==>
        conditions[j] == if j < i && rainfall[j].None? then Unknown else Clear
    {
      if rainfall[i].None? {
        conditions[i] := Unknown;
      }
    }
    for i := 0 to |rainfall|
      invariant forall j :: 0 <= j < |rainfall| ==>
        conditions[j] == if j < i && FillNa(rainfall[j]) > 0.2 then LightRain
                         else if rainfall[j].None? then Unknown else Clear
    {
      if FillNa(rainfall[i]) > 0.2 {
        conditions[i] := LightRain;
      }
    }
    for i := 0 to |rainfall|
      invariant forall j :: 0 <= j < |rainfall| ==>
        conditions[j] == if j < i && FillNa(rainfall[j]) > 2.0 then HeavyRain
                         else if FillNa(rainfall[j]) > 0.2 then LightRain
                         else if rainfall[j].None? then Unknown else Clear
    {
      if FillNa(rainfall[i]) > 2.0 {
        conditions[i] := HeavyRain;
      }
    }
  }
}
