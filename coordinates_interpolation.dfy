/** The variant of the coordinate interpolation that returns each point as a
    dictionary with the keys "latitude" and "longitude" instead of a pair. Its
    distance and point count are the same expressions as in the pair variant,
    and are taken from that module; only the shape of the entries differs. */
module CoordinatesInterpolation {
  import opened Errors
  import opened Elementary
  import CoordinateInterpolation

  /** One point as the dictionary {"latitude": lat, "longitude": lon}: exactly
      those two keys, mapped to the two coordinates. */
  function Entry(latitude: real, longitude: real): (e: map<string, real>)
    ensures e.Keys == {"latitude", "longitude"}
    ensures e["latitude"] == latitude && e["longitude"] == longitude
  {
    map["latitude" := latitude, "longitude" := longitude]
  }

  /** CoordinateInterpolation.interpolate_coordinates, list-of-dictionaries
      form. The result has as many entries as the point count, each with
      exactly the keys "latitude" and "longitude"; the first entry is A, the
      last is B when there are at least two, and every entry lies between A
      and B in both coordinates. The count's failures propagate and a negative
      count makes linspace raise ValueError. */
  function InterpolateCoordinates(
    m: Functions, latitudePointA: real, longitudePointA: real,
    latitudePointB: real, longitudePointB: real, granularityMeters: real): (r: Result<seq<map<string, real>>>)
    requires Lawful(m)
    ensures var count := CoordinateInterpolation.CalculateNumberOfPoints(
        m, latitudePointA, longitudePointA, latitudePointB, longitudePointB, granularityMeters);
      && (count.Err? ==> r == Err(count.error))
      && (count.Ok? && count.value < 0 ==> r == Err(ValueError))
      && (r.Ok? <==> count.Ok? && count.value >= 0)
      && (r.Ok? ==> |r.value| == count.value)
    ensures r.Ok? ==> forall i :: 0 <= i < |r.value| ==>
      && r.value[i].Keys == {"latitude", "longitude"}
      && CoordinateInterpolation.Between(r.value[i]["latitude"], latitudePointA, latitudePointB)
      && CoordinateInterpolation.Between(r.value[i]["longitude"], longitudePointA, longitudePointB)
    ensures r.Ok? && |r.value| >= 1 ==> r.value[0] == Entry(latitudePointA, longitudePointA)
    ensures r.Ok? && |r.value| >= 2 ==> r.value[|r.value| - 1] == Entry(latitudePointB, longitudePointB)
  {
    match CoordinateInterpolation.CalculateNumberOfPoints(
      m, latitudePointA, longitudePointA, latitudePointB, longitudePointB, granularityMeters)
    case Err(e) => Err(e)
    case Ok(numberOfPoints) =>
      match CoordinateInterpolation.Linspace(numberOfPoints)
      case Err(e) => Err(e)
      case Ok(tValues) =>
        Ok(seq(|tValues|, i requires 0 <= i < |tValues| =>
          Entry(CoordinateInterpolation.Lerp(latitudePointA, latitudePointB, tValues[i]),
                CoordinateInterpolation.Lerp(longitudePointA, longitudePointB, tValues[i]))))
  }

  /** The two variants agree: they fail in the same cases with the same error,
      and otherwise entry i of the dictionaries holds the two coordinates of
      pair i. */
  lemma AgreesWithPairs(
    m: Functions, latitudePointA: real, longitudePointA: real,
    latitudePointB: real, longitudePointB: real, granularityMeters: real)
    requires Lawful(m)
    ensures var dictionaries := InterpolateCoordinates(
        m, latitudePointA, longitudePointA, latitudePointB, longitudePointB, granularityMeters);
      var pairs := CoordinateInterpolation.InterpolateCoordinates(
        m, latitudePointA, longitudePointA, latitudePointB, longitudePointB, granularityMeters);
      && (dictionaries.Err? <==> pairs.Err?)
      && (dictionaries.Err? ==> dictionaries.error == pairs.error)
      && (dictionaries.Ok? ==>
            && |dictionaries.value| == |pairs.value|
            && forall i :: 0 <= i < |pairs.value| ==>
                 dictionaries.value[i] == Entry(pairs.value[i].0, pairs.value[i].1))
  {
  }

  /** The dictionaries are equally spaced along the segment from A to B:
      consecutive entries differ by (lat_b - lat_a) / (n - 1) in "latitude"
      and (lon_b - lon_a) / (n - 1) in "longitude", n being the number of
      entries. */
  lemma EntriesEquallySpaced(
    m: Functions, latitudePointA: real, longitudePointA: real,
    latitudePointB: real, longitudePointB: real, granularityMeters: real, i: int)
    requires Lawful(m)
    requires var r := InterpolateCoordinates(m, latitudePointA, longitudePointA, latitudePointB, longitudePointB, granularityMeters);
      r.Ok? && 0 <= i < |r.value| - 1
    ensures var r := InterpolateCoordinates(m, latitudePointA, longitudePointA, latitudePointB, longitudePointB, granularityMeters);
      var steps := (|r.value| - 1) as real;
      && r.value[i + 1]["latitude"] - r.value[i]["latitude"] == (latitudePointB - latitudePointA) / steps
      && r.value[i + 1]["longitude"] - r.value[i]["longitude"] == (longitudePointB - longitudePointA) / steps
  {
    AgreesWithPairs(m, latitudePointA, longitudePointA, latitudePointB, longitudePointB, granularityMeters);
    CoordinateInterpolation.InterpolationEquallySpaced(
      m, latitudePointA, longitudePointA, latitudePointB, longitudePointB, granularityMeters, i);
  }

  /** From a point to itself, with any non-zero granularity, the list of
      dictionaries is empty. */
  lemma SamePointGivesNoEntries(m: Functions, latitude: real, longitude: real, granularityMeters: real)
    requires Lawful(m) && Symmetric(m)
    requires granularityMeters != 0.0
    ensures InterpolateCoordinates(m, latitude, longitude, latitude, longitude, granularityMeters) == Ok([])
  {
    CoordinateInterpolation.SamePointGivesNoPoints(m, latitude, longitude, granularityMeters);
  }
}
