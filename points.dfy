/**
 * The point collection (`buildPoints`): one feature per individual whose birth
 * place has a resolved location, in individual order, at that location.
 */
module GeoPoints {
  import opened Types
  import opened GeoNames

  /** A GeoJSON position: longitude first, then latitude. */
  datatype Position = Position(longitude: Coordinate, latitude: Coordinate)

  /**
   * The properties of a point. The source turns the two dates into year, month
   * and day numbers through JavaScript `Date`; here the dates are carried as they are.
   */
  datatype PointProperties = PointProperties(
    firstName: string,
    name: Option<string>,
    birthDate: Option<GedcomDate>,
    deathDate: Option<GedcomDate>,
    sex: string,
    occupation: string,
    id: string)

  datatype PointFeature = PointFeature(geometry: Position, properties: PointProperties)

  /** `individual?.Birth?.Place && locations.has(individual.Birth.Place)` */
  predicate Located(ind: Individual, locations: map<string, Location>) {
    Truthy(BirthPlace(ind)) && BirthPlace(ind).value in locations
  }

  /** `individual.Birth?.Date` */
  function BirthDate(ind: Individual): Option<GedcomDate> {
    if ind.Birth.Some? then ind.Birth.value.Date else None
  }

  /** `individual.Death?.Date` */
  function DeathDate(ind: Individual): Option<GedcomDate> {
    if ind.Death.Some? then ind.Death.value.Date else None
  }

  /** The feature of a located individual. */
  function PointOf(ind: Individual, locations: map<string, Location>): PointFeature
    requires Located(ind, locations)
  {
    var location := locations[BirthPlace(ind).value];
    PointFeature(
      Position(location.longitude, location.latitude),
      PointProperties(FirstName(ind.Fullname), FamilyName(ind.Fullname), BirthDate(ind), DeathDate(ind),
                      ind.Sex, ind.Occupation, ind.Id))
  }

  /** The features for `inds`, in order. */
  function Points(inds: seq<Individual>, locations: map<string, Location>): seq<PointFeature> {
    if inds == [] then []
    else
      var last := inds[|inds| - 1];
      Points(inds[..|inds| - 1], locations) + if Located(last, locations) then [PointOf(last, locations)] else []
  }

  /** The number of located individuals in `inds`. */
  function CountLocated(inds: seq<Individual>, locations: map<string, Location>): nat {
    if inds == [] then 0
    else CountLocated(inds[..|inds| - 1], locations) + if Located(inds[|inds| - 1], locations) then 1 else 0
  }

  /** There are exactly as many features as located individuals. */
  lemma {:induction false} PointsCount(inds: seq<Individual>, locations: map<string, Location>)
    ensures |Points(inds, locations)| == CountLocated(inds, locations)
  {
    if inds != [] {
      PointsCount(inds[..|inds| - 1], locations);
    }
  }

  /**
   * The located individual `inds[j]` has its feature at the position given by
   * the number of located individuals before it: at the `[longitude, latitude]`
   * of its birth place, with its id, name parts, dates, sex and occupation.
   */
  lemma {:induction false} PointsAt(inds: seq<Individual>, locations: map<string, Location>, j: nat)
    requires j < |inds| && Located(inds[j], locations)
    ensures CountLocated(inds[..j], locations) < |Points(inds, locations)|
    ensures
      var f := Points(inds, locations)[CountLocated(inds[..j], locations)];
      var location := locations[BirthPlace(inds[j]).value];
      && f.geometry == Position(location.longitude, location.latitude)
      && f.properties.id == inds[j].Id
      && f.properties.firstName == FirstName(inds[j].Fullname)
      && f.properties.name == FamilyName(inds[j].Fullname)
      && f.properties.birthDate == BirthDate(inds[j])
      && f.properties.deathDate == DeathDate(inds[j])
      && f.properties.sex == inds[j].Sex
      && f.properties.occupation == inds[j].Occupation
  {
    var pre := inds[..|inds| - 1];
    PointsCount(pre, locations);
    if j < |pre| {
      assert pre[..j] == inds[..j];
      assert pre[j] == inds[j];
      PointsAt(pre, locations, j);
    } else {
      assert inds[..j] == pre;
    }
  }

  /** Every feature is the feature of a located individual, at that individual's position. */
  lemma {:induction false} PointsSound(inds: seq<Individual>, locations: map<string, Location>, k: nat)
    requires k < |Points(inds, locations)|
    ensures exists j ::
      && 0 <= j < |inds| && Located(inds[j], locations)
      && CountLocated(inds[..j], locations) == k
      && Points(inds, locations)[k] == PointOf(inds[j], locations)
  {
    var pre := inds[..|inds| - 1];
    PointsCount(pre, locations);
    if k < |Points(pre, locations)| {
      PointsSound(pre, locations, k);
      var j :| 0 <= j < |pre| && Located(pre[j], locations) &&
        CountLocated(pre[..j], locations) == k && Points(pre, locations)[k] == PointOf(pre[j], locations);
      assert pre[..j] == inds[..j] && pre[j] == inds[j];
    } else {
      assert inds[..|inds| - 1] == pre;
    }
  }

  /** `buildPoints` */
  method BuildPoints(gedcom: Gedcom, locations: map<string, Location>) returns (points: seq<PointFeature>)
    ensures points == Points(gedcom.Individuals, locations)
    ensures |points| == CountLocated(gedcom.Individuals, locations)
  {
    var inds := gedcom.Individuals;
    points := [];
    var i := 0;
    while i < |inds|
      invariant 0 <= i <= |inds|
      invariant points == Points(inds[..i], locations)
    {
      var individual := inds[i];
      assert inds[..i + 1][..i] == inds[..i];
      var place := BirthPlace(individual);
      if Truthy(place) && place.value in locations {
        var location := locations[place.value];
        var point := Position(location.longitude, location.latitude);
        var names := Split(individual.Fullname);
        var properties := PointProperties(
          names[0], if |names| > 1 then Some(names[1]) else None,
          BirthDate(individual), DeathDate(individual),
          individual.Sex, individual.Occupation, individual.Id);
        points := points + [PointFeature(point, properties)];
      }
      i := i + 1;
    }
    assert inds[..i] == inds;
    PointsCount(inds, locations);
  }
}
