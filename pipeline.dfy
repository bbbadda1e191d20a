/**
 * The builders used together, as the conversion wires them: the individual
 * index from `mapIndividuals` feeds `buildRelations`, and both collections are
 * built from the same location map.
 */
module GeoPipeline {
  import opened Types
  import opened GeoPlaces
  import opened GeoIndividuals
  import opened GeoPoints
  import opened GeoLines

  /** An id that resolves through the index is drawn as a point at the same position. */
  lemma ResolvedIsPoint(inds: seq<Individual>, locations: map<string, Location>, id: Option<string>)
    requires Resolves(id, Index(inds), locations)
    ensures exists k ::
      0 <= k < |Points(inds, locations)| && Points(inds, locations)[k].geometry == PositionOf(id, Index(inds), locations)
  {
    IndexKeys(inds);
    var j :| 0 <= j < |inds| && inds[j] == Index(inds)[id.value];
    PointsAt(inds, locations, j);
  }

  /** A line is drawn between the positions of two resolved ids. */
  lemma LineBetweenResolved(rel: Relation, line: LineFeature, individuals: map<string, Individual>,
                            locations: map<string, Location>)
    requires LineOf(rel, line, individuals, locations)
    ensures exists a, b ::
      && Resolves(a, individuals, locations) && Resolves(b, individuals, locations)
      && line.start == PositionOf(a, individuals, locations)
      && line.end == PositionOf(b, individuals, locations)
  {
    if StructuredMarriage(rel) && BuildLine(rel.Husband, rel.Wife, individuals, locations, MARRIAGE) == Some(line) {
      assert Resolves(rel.Husband, individuals, locations) && Resolves(rel.Wife, individuals, locations);
    } else {
      var c :| c in ChildIds(rel.Children) &&
        (BuildLine(rel.Husband, Some(c), individuals, locations, FATHER_CHILD) == Some(line) ||
         BuildLine(rel.Wife, Some(c), individuals, locations, MOTHER_CHILD) == Some(line));
      if BuildLine(rel.Husband, Some(c), individuals, locations, FATHER_CHILD) == Some(line) {
        assert Resolves(rel.Husband, individuals, locations) && Resolves(Some(c), individuals, locations);
      } else {
        assert Resolves(rel.Wife, individuals, locations) && Resolves(Some(c), individuals, locations);
      }
    }
  }

  /** Both ends of every line lie on point features: lines connect drawn individuals. */
  lemma LineEndsArePoints(gedcom: Gedcom, locations: map<string, Location>, line: LineFeature)
    requires line in Lines(gedcom.Relations, Index(gedcom.Individuals), locations)
    ensures exists k ::
      0 <= k < |Points(gedcom.Individuals, locations)| && Points(gedcom.Individuals, locations)[k].geometry == line.start
    ensures exists k ::
      0 <= k < |Points(gedcom.Individuals, locations)| && Points(gedcom.Individuals, locations)[k].geometry == line.end
  {
    var inds, individuals := gedcom.Individuals, Index(gedcom.Individuals);
    LinesMembership(gedcom.Relations, individuals, locations, line);
    var j :| 0 <= j < |gedcom.Relations| && LineOf(gedcom.Relations[j], line, individuals, locations);
    LineBetweenResolved(gedcom.Relations[j], line, individuals, locations);
    var a, b :| && Resolves(a, individuals, locations) && Resolves(b, individuals, locations)
                && line.start == PositionOf(a, individuals, locations)
                && line.end == PositionOf(b, individuals, locations);
    ResolvedIsPoint(inds, locations, a);
    ResolvedIsPoint(inds, locations, b);
  }

  /**
   * A single marriage record and a one-element list holding it give the same
   * places and the same lines.
   */
  lemma StructuredAsList(rel: Relation, m: Marriage, individuals: map<string, Individual>,
                         locations: map<string, Location>)
    ensures RelationCandidates(rel.(Marriage := Some(Structured(m)))) ==
      RelationCandidates(rel.(Marriage := Some(StructuredMany([m]))))
    ensures RelationLines(rel.(Marriage := Some(Structured(m))), individuals, locations) ==
      RelationLines(rel.(Marriage := Some(StructuredMany([m]))), individuals, locations)
  {
    assert [m][..0] == [];
    assert ConcatMap([m], MarriageCandidates) == ConcatMap([m][..0], MarriageCandidates) + MarriageCandidates(m);
  }

  // ---------------------------------------------------------------------------
  // A three-person family
  // ---------------------------------------------------------------------------

  function Person(id: string, fullname: string, sex: string, birthPlace: string): Individual {
    Individual(id, fullname, sex, Some(Birth(None, Some(birthPlace))), Single("@F1@"), "", None, "", "", None, None, None)
  }

  /** Husband, wife and one child, born in three towns, married in a fourth. */
  function Family(): Gedcom {
    var date := GedcomDate("", false, false, false, 0);
    var head := Head(Source([], "", Corporation("", ""), ""), date, "family.ged", GedcomVersion("5.5.1", "LINEAGE-LINKED"), "UTF-8");
    Gedcom(head,
      [Person("@I1@", "John /Smith/", "M", "Lyon"),
       Person("@I2@", "Mary /Brown/", "F", "Nantes"),
       Person("@I3@", "Paul /Smith/", "M", "Paris")],
      [Relation("@F1@", Some(Structured(Marriage(Some("Lille")))), Some("@I1@"), Some("@I2@"), Some(Single("@I3@")))])
  }

  /** The index of the family: each id to its person. */
  lemma FamilyIndex()
    ensures var inds := Family().Individuals;
      Index(inds) == map["@I1@" := inds[0], "@I2@" := inds[1], "@I3@" := inds[2]]
  {
    var inds := Family().Individuals;
    assert inds[..1][..0] == [];
    assert Index(inds[..1]) == map[][inds[0].Id := inds[0]];
    assert inds[..2][..1] == inds[..1];
    assert Index(inds[..2]) == Index(inds[..1])[inds[1].Id := inds[1]];
    assert inds[..3][..2] == inds[..2];
    assert inds[..3] == inds;
    assert Index(inds) == Index(inds[..2])[inds[2].Id := inds[2]];
  }

  /** The birth towns of the family, in individual order. */
  lemma FamilyBirthPlaces()
    ensures ConcatMap(Family().Individuals, IndividualCandidates) == ["Lyon", "Nantes", "Paris"]
  {
    var inds := Family().Individuals;
    assert inds[..1][..0] == [];
    assert ConcatMap(inds[..1], IndividualCandidates) == IndividualCandidates(inds[0]) == ["Lyon"];
    assert inds[..2][..1] == inds[..1];
    assert ConcatMap(inds[..2], IndividualCandidates) == ["Lyon"] + IndividualCandidates(inds[1]) == ["Lyon", "Nantes"];
    assert inds[..3][..2] == inds[..2];
    assert inds[..3] == inds;
    assert IndividualCandidates(inds[2]) == ["Paris"];
  }

  /** The family's candidate places, with repetitions, in scan order. */
  lemma FamilyCandidates()
    ensures Candidates(Family()) == ["Lyon", "Nantes", "Paris", "Lille"]
  {
    FamilyBirthPlaces();
    var rels := Family().Relations;
    assert rels[..0] == [];
    assert RelationCandidates(rels[0]) == ["Lille"];
  }

  /**
   * The family's places: the three birth towns in individual order, then the
   * marriage town.
   */
  lemma FamilyPlaces()
    ensures Places(Family()) == ["Lyon", "Nantes", "Paris", "Lille"]
  {
    FamilyCandidates();
    var c: seq<string> := ["Lyon", "Nantes", "Paris", "Lille"];
    assert c[..1][..0] == [];
    assert Dedup(c[..1]) == ["Lyon"];
    assert c[..2][..1] == c[..1];
    assert Dedup(c[..2]) == ["Lyon", "Nantes"];
    assert c[..3][..2] == c[..2];
    assert Dedup(c[..3]) == ["Lyon", "Nantes", "Paris"];
    assert c[..4][..3] == c[..3];
    assert c[..4] == c;
  }

  /**
   * The spouses' towns resolved: both spouses are drawn, and the child too
   * exactly when Paris resolved.
   */
  lemma FamilyPoints(locations: map<string, Location>)
    requires "Lyon" in locations && "Nantes" in locations
    ensures |Points(Family().Individuals, locations)| == if "Paris" in locations then 3 else 2
  {
    var inds := Family().Individuals;
    PointsCount(inds, locations);
    assert inds[..1][..0] == [];
    assert inds[..2][..1] == inds[..1];
    assert inds[..3][..2] == inds[..2];
    assert inds[..3] == inds;
    assert CountLocated(inds[..1], locations) == 1;
    assert CountLocated(inds[..2], locations) == 2;
  }

  /**
   * The spouses' towns resolved: the marriage line is always drawn; the
   * father-child and mother-child lines come before it exactly when the
   * child's town (Paris) resolved.
   */
  lemma FamilyLines(locations: map<string, Location>)
    requires "Lyon" in locations && "Nantes" in locations
    ensures
      var lines := Lines(Family().Relations, Index(Family().Individuals), locations);
      && ("Paris" in locations ==>
          && |lines| == 3
          && lines[0].lineType == FATHER_CHILD && lines[0].from == "John /Smith/" && lines[0].to == "Paul /Smith/"
          && lines[1].lineType == MOTHER_CHILD && lines[1].from == "Mary /Brown/" && lines[1].to == "Paul /Smith/"
          && lines[2].lineType == MARRIAGE && lines[2].from == "John /Smith/" && lines[2].to == "Mary /Brown/")
      && ("Paris" !in locations ==>
          && |lines| == 1
          && lines[0].lineType == MARRIAGE && lines[0].from == "John /Smith/" && lines[0].to == "Mary /Brown/")
  {
    var inds, rels := Family().Individuals, Family().Relations;
    var individuals := Index(inds);
    FamilyIndex();
    var rel := rels[0];
    assert rels[..0] == [];
    assert Lines(rels, individuals, locations) == RelationLines(rel, individuals, locations);
    assert ChildIds(rel.Children) == ["@I3@"];
    ChildLinesOne(rel.Husband, rel.Wife, "@I3@", individuals, locations);
    assert Resolves(rel.Husband, individuals, locations) && Resolves(rel.Wife, individuals, locations);
    assert Resolves(Some("@I3@"), individuals, locations) <==> "Paris" in locations;
  }
}
