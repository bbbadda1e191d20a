/**
 * The line collection (`buildLine`, `buildRelations`): for each relation, a
 * father-child and a mother-child line per child, then one husband-wife line
 * when the marriage is structured. A line whose endpoints do not both resolve
 * to a located birth place is skipped.
 */
module GeoLines {
  import opened Types
  import opened GeoPoints

  const FATHER_CHILD := "father-child"
  const MOTHER_CHILD := "mother-child"
  const MARRIAGE := "marriage"

  /** A two-point line string with its `from`, `to` and `type` properties. */
  datatype LineFeature = LineFeature(start: Position, end: Position, from: string, to: string, lineType: string)

  /** `individuals.get(id)`; an absent id finds nothing. */
  function Lookup(individuals: map<string, Individual>, id: Option<string>): Option<Individual> {
    if id.Some? && id.value in individuals then Some(individuals[id.value]) else None
  }

  /** The id names an individual whose birth place has a location. */
  predicate Resolves(id: Option<string>, individuals: map<string, Individual>, locations: map<string, Location>) {
    id.Some? && id.value in individuals && Located(individuals[id.value], locations)
  }

  /** The position of a resolved id's birth place. */
  function PositionOf(id: Option<string>, individuals: map<string, Individual>, locations: map<string, Location>): Position
    requires Resolves(id, individuals, locations)
  {
    var location := locations[BirthPlace(individuals[id.value]).value];
    Position(location.longitude, location.latitude)
  }

  /**
   * `buildLine`: a line from the birth place of `fromId` to that of `toId`,
   * present exactly when both ids resolve.
   */
  function BuildLine(fromId: Option<string>, toId: Option<string>, individuals: map<string, Individual>,
                     locations: map<string, Location>, lineType: string): (line: Option<LineFeature>)
    ensures line.Some? <==> Resolves(fromId, individuals, locations) && Resolves(toId, individuals, locations)
    ensures line.Some? ==>
      && line.value.start == PositionOf(fromId, individuals, locations)
      && line.value.end == PositionOf(toId, individuals, locations)
      && line.value.from == individuals[fromId.value].Fullname
      && line.value.to == individuals[toId.value].Fullname
      && line.value.lineType == lineType
  {
    var to := Lookup(individuals, toId);
    var from := Lookup(individuals, fromId);
    var fromPlace := if from.Some? then BirthPlace(from.value) else None;
    var toPlace := if to.Some? then BirthPlace(to.value) else None;
    if Truthy(toPlace) && Truthy(fromPlace) && fromPlace.value in locations && toPlace.value in locations then
      var location := locations[fromPlace.value];
      var toLocation := locations[toPlace.value];
      Some(LineFeature(Position(location.longitude, location.latitude),
                       Position(toLocation.longitude, toLocation.latitude),
                       from.value.Fullname, to.value.Fullname, lineType))
    else
      None
  }

  function Emitted(line: Option<LineFeature>): seq<LineFeature> {
    if line.Some? then [line.value] else []
  }

  /** The children a relation's `Children` field lists; an empty single id is falsy and lists none. */
  function ChildIds(children: Option<IdRefs>): seq<string> {
    match children
    case None => []
    case Some(Single(id)) => if id == "" then [] else [id]
    case Some(Many(ids)) => ids
  }

  /** For each child in turn: the father-child line, then the mother-child line. */
  function ChildLines(husband: Option<string>, wife: Option<string>, ids: seq<string>,
                      individuals: map<string, Individual>, locations: map<string, Location>): seq<LineFeature>
  {
    if ids == [] then []
    else
      var child := Some(ids[|ids| - 1]);
      ChildLines(husband, wife, ids[..|ids| - 1], individuals, locations)
        + Emitted(BuildLine(husband, child, individuals, locations, FATHER_CHILD))
        + Emitted(BuildLine(wife, child, individuals, locations, MOTHER_CHILD))
  }

  /** A marriage that is present and not the bare 'Y' marker. */
  predicate StructuredMarriage(rel: Relation) {
    rel.Marriage.Some? && rel.Marriage.value != MarkerY
  }

  /** The husband-wife line of a structured marriage. */
  function MarriageLines(rel: Relation, individuals: map<string, Individual>, locations: map<string, Location>): seq<LineFeature> {
    if StructuredMarriage(rel) then Emitted(BuildLine(rel.Husband, rel.Wife, individuals, locations, MARRIAGE)) else []
  }

  /** The lines of one relation. */
  function RelationLines(rel: Relation, individuals: map<string, Individual>, locations: map<string, Location>): seq<LineFeature> {
    ChildLines(rel.Husband, rel.Wife, ChildIds(rel.Children), individuals, locations)
      + MarriageLines(rel, individuals, locations)
  }

  /** The lines of all relations, in order. */
  function Lines(rels: seq<Relation>, individuals: map<string, Individual>, locations: map<string, Location>): seq<LineFeature> {
    if rels == [] then []
    else Lines(rels[..|rels| - 1], individuals, locations) + RelationLines(rels[|rels| - 1], individuals, locations)
  }

  /**
   * Reference definition: `line` is what `BuildLine` yields for one link of
   * `rel` — father to a child, mother to a child, or husband to wife.
   */
  ghost predicate LineOf(rel: Relation, line: LineFeature, individuals: map<string, Individual>, locations: map<string, Location>) {
    (exists c :: c in ChildIds(rel.Children) &&
       (BuildLine(rel.Husband, Some(c), individuals, locations, FATHER_CHILD) == Some(line) ||
        BuildLine(rel.Wife, Some(c), individuals, locations, MOTHER_CHILD) == Some(line))) ||
    (StructuredMarriage(rel) && BuildLine(rel.Husband, rel.Wife, individuals, locations, MARRIAGE) == Some(line))
  }

  // ---------------------------------------------------------------------------
  // Properties
  // ---------------------------------------------------------------------------

  lemma {:induction false} ChildLinesMember(husband: Option<string>, wife: Option<string>, ids: seq<string>,
                                            individuals: map<string, Individual>, locations: map<string, Location>, line: LineFeature)
    ensures line in ChildLines(husband, wife, ids, individuals, locations) <==>
      exists c :: c in ids &&
        (BuildLine(husband, Some(c), individuals, locations, FATHER_CHILD) == Some(line) ||
         BuildLine(wife, Some(c), individuals, locations, MOTHER_CHILD) == Some(line))
  {
    if ids != [] {
      var pre := ids[..|ids| - 1];
      ChildLinesMember(husband, wife, pre, individuals, locations, line);
      assert ids == pre + [ids[|ids| - 1]];
    }
  }

  lemma RelationLinesMember(rel: Relation, individuals: map<string, Individual>, locations: map<string, Location>, line: LineFeature)
    ensures line in RelationLines(rel, individuals, locations) <==> LineOf(rel, line, individuals, locations)
  {
    ChildLinesMember(rel.Husband, rel.Wife, ChildIds(rel.Children), individuals, locations, line);
  }

  lemma {:induction false} LinesConcatMember(rels: seq<Relation>, individuals: map<string, Individual>,
                                             locations: map<string, Location>, line: LineFeature)
    ensures line in Lines(rels, individuals, locations) <==>
      exists j :: 0 <= j < |rels| && line in RelationLines(rels[j], individuals, locations)
  {
    if rels != [] {
      var pre, rel := rels[..|rels| - 1], rels[|rels| - 1];
      LinesConcatMember(pre, individuals, locations, line);
      assert forall j :: 0 <= j < |pre| ==> pre[j] == rels[j];
      assert Lines(rels, individuals, locations) ==
        Lines(pre, individuals, locations) + RelationLines(rel, individuals, locations);
    }
  }

  /** The collection holds exactly the lines of the relations' links that resolve. */
  lemma LinesMembership(rels: seq<Relation>, individuals: map<string, Individual>,
                        locations: map<string, Location>, line: LineFeature)
    ensures line in Lines(rels, individuals, locations) <==>
      exists j :: 0 <= j < |rels| && LineOf(rels[j], line, individuals, locations)
  {
    LinesConcatMember(rels, individuals, locations, line);
    forall j | 0 <= j < |rels| {
      RelationLinesMember(rels[j], individuals, locations, line);
    }
  }

  lemma {:induction false} ChildLinesShape(husband: Option<string>, wife: Option<string>, ids: seq<string>,
                                           individuals: map<string, Individual>, locations: map<string, Location>)
    ensures |ChildLines(husband, wife, ids, individuals, locations)| <= 2 * |ids|
    ensures forall k :: 0 <= k < |ChildLines(husband, wife, ids, individuals, locations)| ==>
      ChildLines(husband, wife, ids, individuals, locations)[k].lineType in {FATHER_CHILD, MOTHER_CHILD}
  {
    if ids != [] {
      ChildLinesShape(husband, wife, ids[..|ids| - 1], individuals, locations);
    }
  }

  /**
   * A relation yields at most two lines per child and one more, and a
   * marriage line can only be the last one.
   */
  lemma RelationLinesShape(rel: Relation, individuals: map<string, Individual>, locations: map<string, Location>)
    ensures |RelationLines(rel, individuals, locations)| <= 2 * |ChildIds(rel.Children)| + 1
    ensures forall k ::
      (0 <= k < |RelationLines(rel, individuals, locations)| &&
       RelationLines(rel, individuals, locations)[k].lineType == MARRIAGE) ==>
      k == |RelationLines(rel, individuals, locations)| - 1
  {
    ChildLinesShape(rel.Husband, rel.Wife, ChildIds(rel.Children), individuals, locations);
  }

  /** A marriage line is emitted exactly for a structured marriage whose spouses both resolve. */
  lemma MarriageLine(rel: Relation, individuals: map<string, Individual>, locations: map<string, Location>)
    ensures |MarriageLines(rel, individuals, locations)| <= 1
    ensures |MarriageLines(rel, individuals, locations)| == 1 <==>
      StructuredMarriage(rel) && Resolves(rel.Husband, individuals, locations) && Resolves(rel.Wife, individuals, locations)
    ensures rel.Marriage == Some(MarkerY) ==> MarriageLines(rel, individuals, locations) == []
  {
  }

  /**
   * A single child id gives the same lines as a one-element list holding it;
   * only the empty id differs, being falsy as a single id.
   */
  lemma SingleChildAsList(rel: Relation, id: string, individuals: map<string, Individual>, locations: map<string, Location>)
    ensures id != "" ==>
      RelationLines(rel.(Children := Some(Single(id))), individuals, locations) ==
      RelationLines(rel.(Children := Some(Many([id]))), individuals, locations)
    ensures id == "" ==>
      RelationLines(rel.(Children := Some(Single(id))), individuals, locations) == MarriageLines(rel, individuals, locations)
  {
  }

  // ---------------------------------------------------------------------------
  // buildRelations
  // ---------------------------------------------------------------------------

  lemma ChildLinesSnoc(husband: Option<string>, wife: Option<string>, ids: seq<string>, k: nat,
                       individuals: map<string, Individual>, locations: map<string, Location>)
    requires k < |ids|
    ensures ChildLines(husband, wife, ids[..k + 1], individuals, locations) ==
      ChildLines(husband, wife, ids[..k], individuals, locations)
        + Emitted(BuildLine(husband, Some(ids[k]), individuals, locations, FATHER_CHILD))
        + Emitted(BuildLine(wife, Some(ids[k]), individuals, locations, MOTHER_CHILD))
  {
    assert ids[..k + 1][..k] == ids[..k];
  }

  lemma LinesSnoc(rels: seq<Relation>, i: nat, individuals: map<string, Individual>, locations: map<string, Location>)
    requires i < |rels|
    ensures Lines(rels[..i + 1], individuals, locations) ==
      Lines(rels[..i], individuals, locations) + RelationLines(rels[i], individuals, locations)
  {
    assert rels[..i + 1][..i] == rels[..i];
  }

  lemma ChildLinesStep(husband: Option<string>, wife: Option<string>, ids: seq<string>, k: nat,
                       individuals: map<string, Individual>, locations: map<string, Location>)
    requires k < |ids|
    ensures ChildLines(husband, wife, ids[..k + 1], individuals, locations) ==
      ChildLines(husband, wife, ids[..k], individuals, locations) + ChildLines(husband, wife, [ids[k]], individuals, locations)
  {
    ChildLinesSnoc(husband, wife, ids, k, individuals, locations);
    ChildLinesOne(husband, wife, ids[k], individuals, locations);
  }

  lemma ChildLinesOne(husband: Option<string>, wife: Option<string>, child: string,
                      individuals: map<string, Individual>, locations: map<string, Location>)
    ensures ChildLines(husband, wife, [child], individuals, locations) ==
      Emitted(BuildLine(husband, Some(child), individuals, locations, FATHER_CHILD))
        + Emitted(BuildLine(wife, Some(child), individuals, locations, MOTHER_CHILD))
  {
    assert [child][..0] == [];
  }

  /**
   * The lines of one child: the father-child line, then the mother-child
   * line, each pushed when it exists.
   */
  method PushChild(relations: seq<LineFeature>, husband: Option<string>, wife: Option<string>, child: string,
                   individuals: map<string, Individual>, locations: map<string, Location>)
    returns (pushed: seq<LineFeature>)
    ensures pushed == relations + ChildLines(husband, wife, [child], individuals, locations)
  {
    pushed := relations;
    var husbandLine := BuildLine(husband, Some(child), individuals, locations, FATHER_CHILD);
    var wifeLine := BuildLine(wife, Some(child), individuals, locations, MOTHER_CHILD);
    if husbandLine.Some? {
      pushed := pushed + [husbandLine.value];
    }
    if wifeLine.Some? {
      pushed := pushed + [wifeLine.value];
    }
    ChildLinesOne(husband, wife, child, individuals, locations);
    assert pushed == relations + (Emitted(husbandLine) + Emitted(wifeLine));
  }

  /**
   * The `relation.Children.forEach` loop of `buildRelations`: the lines of
   * each child id in turn.
   */
  method PushChildLines(relations: seq<LineFeature>, husband: Option<string>, wife: Option<string>, ids: seq<string>,
                        individuals: map<string, Individual>, locations: map<string, Location>)
    returns (pushed: seq<LineFeature>)
    ensures pushed == relations + ChildLines(husband, wife, ids, individuals, locations)
  {
    pushed := relations;
    var k := 0;
    assert relations + ChildLines(husband, wife, ids[..0], individuals, locations) == relations;
    while k < |ids|
      invariant 0 <= k <= |ids|
      invariant pushed == relations + ChildLines(husband, wife, ids[..k], individuals, locations)
    {
      ghost var done := ChildLines(husband, wife, ids[..k], individuals, locations);
      ghost var next := ChildLines(husband, wife, [ids[k]], individuals, locations);
      pushed := PushChild(pushed, husband, wife, ids[k], individuals, locations);
      assert pushed == relations + (done + next);
      ChildLinesStep(husband, wife, ids, k, individuals, locations);
      k := k + 1;
    }
    assert ids[..k] == ids;
  }

  /**
   * The children part of the `gedcom.Relations.forEach` callback of
   * `buildRelations`: a single child id, or each id of a list, in turn.
   */
  method PushChildren(relations: seq<LineFeature>, relation: Relation,
                      individuals: map<string, Individual>, locations: map<string, Location>)
    returns (pushed: seq<LineFeature>)
    ensures pushed == relations + ChildLines(relation.Husband, relation.Wife, ChildIds(relation.Children), individuals, locations)
  {
    pushed := relations;
    match relation.Children {
      case None =>
        assert relations + ChildLines(relation.Husband, relation.Wife, [], individuals, locations) == relations;
      case Some(Single(child)) =>
        if child != "" {
          pushed := PushChild(pushed, relation.Husband, relation.Wife, child, individuals, locations);
        } else {
          assert relations + ChildLines(relation.Husband, relation.Wife, [], individuals, locations) == relations;
        }
      case Some(Many(ids)) =>
        pushed := PushChildLines(pushed, relation.Husband, relation.Wife, ids, individuals, locations);
    }
  }

  /**
   * The body of the `gedcom.Relations.forEach` callback of `buildRelations`:
   * pushes the lines of one relation onto `relations`.
   */
  method PushRelationLines(relations: seq<LineFeature>, relation: Relation,
                           individuals: map<string, Individual>, locations: map<string, Location>)
    returns (pushed: seq<LineFeature>)
    ensures pushed == relations + RelationLines(relation, individuals, locations)
  {
    pushed := PushChildren(relations, relation, individuals, locations);
    ghost var mid := pushed;
    if relation.Marriage.Some? && relation.Marriage.value != MarkerY {
      var line := BuildLine(relation.Husband, relation.Wife, individuals, locations, MARRIAGE);
      if line.Some? {
        pushed := pushed + [line.value];
      }
    }
    assert pushed == mid + MarriageLines(relation, individuals, locations);
  }

  /** `buildRelations` */
  method BuildRelations(gedcom: Gedcom, locations: map<string, Location>, individuals: map<string, Individual>)
    returns (relations: seq<LineFeature>)
    ensures relations == Lines(gedcom.Relations, individuals, locations)
    ensures forall line :: line in relations <==>
      exists j :: 0 <= j < |gedcom.Relations| && LineOf(gedcom.Relations[j], line, individuals, locations)
  {
    var rels := gedcom.Relations;
    relations := [];
    var i := 0;
    while i < |rels|
      invariant 0 <= i <= |rels|
      invariant relations == Lines(rels[..i], individuals, locations)
    {
      LinesSnoc(rels, i, individuals, locations);
      relations := PushRelationLines(relations, rels[i], individuals, locations);
      i := i + 1;
    }
    assert rels[..i] == rels;
    forall line {
      LinesMembership(rels, individuals, locations, line);
    }
  }
}
