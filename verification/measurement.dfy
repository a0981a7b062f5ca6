/**
 * Distances in the locale's measurement system: kilometres under the
 * metric system, miles (1 mile = 1.60934 km) under every other.
 */
module Measurement {
  datatype MeasurementSystem = Metric | US | UK

  const KmPerMile: real := 1.60934

  /** `convertDistance(_:)`: kilometres to the system's distance unit. */
  function ConvertDistance(system: MeasurementSystem, km: real): (r: real)
    ensures system == Metric ==> r == km
    ensures system != Metric ==> r * KmPerMile == km
  {
    match system
    case Metric => km
    case _ => km / KmPerMile
  }

  /** `distanceUnitSymbol`. */
  function DistanceUnitSymbol(system: MeasurementSystem): (s: string)
    ensures s == "km" <==> system == Metric
    ensures s == "km" || s == "mi"
  {
    match system
    case Metric => "km"
    case _ => "mi"
  }

  /** `paceUnitSymbol`. */
  function PaceUnitSymbol(system: MeasurementSystem): (s: string)
    ensures s == "min/km" <==> system == Metric
    ensures s == "min/km" || s == "min/mi"
  {
    match system
    case Metric => "min/km"
    case _ => "min/mi"
  }

  /** The pace unit is "min/" followed by the distance unit, in every system. */
  lemma PaceUnitIsPerDistanceUnit(system: MeasurementSystem)
    ensures PaceUnitSymbol(system) == "min/" + DistanceUnitSymbol(system)
  {
  }

  /**
   * Every non-metric system shows the same miles: the United States and the
   * United Kingdom agree on every distance.
   */
  lemma ImperialSystemsAgree(km: real)
    ensures ConvertDistance(US, km) == ConvertDistance(UK, km)
    ensures DistanceUnitSymbol(US) == DistanceUnitSymbol(UK)
    ensures PaceUnitSymbol(US) == PaceUnitSymbol(UK)
  {
  }

  /** Conversion keeps order: a longer distance is never shown as a shorter one. */
  lemma ConvertDistanceMonotone(system: MeasurementSystem, a: real, b: real)
    requires a <= b
    ensures ConvertDistance(system, a) <= ConvertDistance(system, b)
  {
  }
}
