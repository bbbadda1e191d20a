# GEDCOM to GeoJSON: the geo conversion core in Dafny

This project models the conversion core of a tool that draws a family tree on a
map. The tool starts from a genealogy record (GEDCOM) that has already been parsed
into JSON: a header, a list of individuals and a list of relations (families). From
it the core derives:

- the list of distinct place names to geocode (`collectPlaces`);
- an index of individuals by id (`mapIndividuals`);
- a GeoJSON point collection, with one point per individual whose birth place has a
  resolved location (`buildPoints`);
- a GeoJSON line collection, with father-child, mother-child and husband-wife lines
  (`buildLine`, `buildRelations`).

Layout, one module per file:

- `types.dfy` (`Types`): the record shapes and the `COLORS_32` palette.
  - An optional field is an `Option`; the JavaScript truthiness of an optional
    string is `Truthy` (present and non-empty).
  - The "string or string[]" unions of `Relations` and `Children` are
    `IdRefs = Single(id) | Many(ids)`.
  - `Marriage` is either the bare `'Y'` marker or a record (or a list of records)
    with an optional `Place`: `MarriageField = MarkerY | Structured | StructuredMany`.
  - `Sosa`, `Branch` and `color` are `Option` annotation fields, absent unless set.
- `places.dfy` (`GeoPlaces`): `collectPlaces`.
- `individuals.dfy` (`GeoIndividuals`): `mapIndividuals`.
- `names.dfy` (`GeoNames`): the `Fullname.split('/')` used for point names.
- `points.dfy` (`GeoPoints`): `buildPoints`.
- `lines.dfy` (`GeoLines`): `buildLine` and `buildRelations`.
- `pipeline.dfy` (`GeoPipeline`): the builders used together, and a worked
  three-person family.

How the source's form is followed:

- The `forEach`/`push` loops are methods with `while` loops.
- Each method is proved equal to a recursive specification function: `Places`,
  `Index`, `Points` or `Lines`.
- The properties the source promises are lemmas about those functions.
- The `forEach` callbacks of `collectPlaces` and `buildRelations` are separate methods:
  - `PushMarriagePlaces` (one relation of `collectPlaces`);
  - `PushChild` (one child);
  - `PushChildLines` (the inner children loop);
  - `PushChildren` (the children of one relation);
  - `PushRelationLines` (one relation of `buildRelations`).
- `buildLine` is a pure function.

Two details of the code:

- `name` is `Fullname.split('/')[1]`. That is the text between the first `/` and the
  next `/` (or the end), not everything after the first `/`.
- A single child id that is the empty string is falsy, so `if(relation.Children)`
  skips it. A list, even an empty one or one holding `""`, is truthy.

## Model

| member | source | states |
|---|---|---|
| `Types.ColorsDistinct` | src/types/index.ts:146 | the palette has exactly 32 entries; each is `#` followed by six characters; no two entries are equal |
| `GeoPlaces.IndividualCandidates` | src/geo/index.ts:17-22 | an individual contributes at most two places; a place is contributed exactly when it is the non-empty birth or death place, so an individual with neither contributes none |
| `GeoPlaces.RelationCandidates` | src/geo/index.ts:25-37 | a relation whose marriage is the `'Y'` marker contributes no place |
| `GeoPlaces.DedupSpec` | src/geo/index.ts:17-35 | the guarded `includes`/`push` keeps each element of its input once, drops nothing else, and orders them by first occurrence |
| `GeoPlaces.PushMarriagePlaces` | src/geo/index.ts:24-38 | one relation of the scan: after it, the list is the deduplication of everything scanned so far plus that relation's marriage places (one record, or each record of a list in turn) |
| `GeoPlaces.CollectPlaces` | src/geo/index.ts:14-41 | the result is the deduplicated scan `Places`; it has no duplicates; a place is in it exactly when it is a non-empty birth, death or structured-marriage place of the tree |
| `GeoPlaces.PlacesNoDuplicates` | src/geo/index.ts:14-41 | no place is listed twice |
| `GeoPlaces.PlacesMembership` | src/geo/index.ts:16-38 | a place is listed if and only if some individual was born or died there, or some non-`'Y'` marriage record names it |
| `GeoPlaces.PlacesFirstOccurrenceOrder` | src/geo/index.ts:16-39 | places appear in the order the scan first meets them (birth before death within an individual, individuals in order, then relations) |
| `GeoPlaces.PlacesIndividualsFirst` | src/geo/index.ts:16-39 | every place some individual mentions is listed before every place that only a relation mentions |
| `GeoPlaces.MarkerYContributesNothing` | src/geo/index.ts:25 | removing a relation whose marriage is `'Y'` leaves the place list unchanged |
| `GeoPlaces.CollectPlacesAsWrittenThrows` | src/geo/index.ts:24-39 | the scan as written fails exactly when some relation has no marriage at all; otherwise it returns the same list as `CollectPlaces` |
| `GeoPlaces.UnmarriedFamilyThrows` | src/geo/index.ts:33-35 | on a one-family tree without a marriage record the scan as written fails, while the guarded scan returns `["Paris"]` |
| `GeoIndividuals.MapIndividuals` | src/geo/index.ts:67-73 | the map is `Index` of the individuals; its keys are exactly their ids; an individual that no later individual shares an id with is the value under its id |
| `GeoIndividuals.IndexKeys` | src/geo/index.ts:67-73 | the index's keys are exactly the ids; each value carries its key as `Id` and is one of the individuals |
| `GeoIndividuals.IndexLastWins` | src/geo/index.ts:69-71 | with duplicate ids, the last individual carrying an id is the one stored under it |
| `GeoNames.Split` | src/geo/index.ts:88-89 | `split('/')` always yields at least one segment |
| `GeoNames.JoinSplit` | src/geo/index.ts:88-89 | joining the segments with `/` gives back the full name, so the split loses nothing |
| `GeoNames.SplitSegments` | src/geo/index.ts:88-89 | no segment contains `/`; there is more than one segment exactly when the name contains `/` |
| `GeoNames.FirstNameBeforeSlash` | src/geo/index.ts:88 | `firstName` is a prefix of the full name without `/`, followed by `/` when shorter, and is the whole name exactly when there is no `/` |
| `GeoNames.FamilyNameBetweenSlashes` | src/geo/index.ts:89 | `name` is absent exactly when there is no `/`; otherwise it is the text right after the first `/`, contains no `/`, and is followed by `/` or the end |
| `GeoPoints.PointsCount` | src/geo/index.ts:80-103 | there are exactly as many points as individuals whose birth place is a key of the location map |
| `GeoPoints.PointsAt` | src/geo/index.ts:80-101 | a located individual's point sits after the points of the located individuals before it, at `[longitude, latitude]` of its birth place, with its id, both name parts, dates, sex and occupation |
| `GeoPoints.PointsSound` | src/geo/index.ts:80-103 | every point is the point of a located individual, in individual order |
| `GeoPoints.BuildPoints` | src/geo/index.ts:75-105 | the collection equals `Points` and has one feature per located individual |
| `GeoLines.BuildLine` | src/geo/index.ts:107-129 | a line exists exactly when both ids name indexed individuals with located birth places; it runs from the `from` position to the `to` position and carries both full names and the given type |
| `GeoLines.ChildLinesMember` | src/geo/index.ts:149-158 | a line comes from a list of children exactly when it is the father-child or mother-child line of one of them |
| `GeoLines.ChildLinesShape` | src/geo/index.ts:149-158 | children give at most two lines each, all of type father-child or mother-child |
| `GeoLines.RelationLinesShape` | src/geo/index.ts:136-169 | a relation yields at most 2·children+1 lines, and a marriage line can only be the last |
| `GeoLines.MarriageLine` | src/geo/index.ts:161-168 | at most one marriage line; there is one exactly when the marriage is present and not `'Y'` and both spouses resolve; a `'Y'` marriage gives none |
| `GeoLines.SingleChildAsList` | src/geo/index.ts:137-158 | a non-empty single child id gives the same lines as a one-element list; an empty single id gives only the marriage line |
| `GeoLines.LinesMembership` | src/geo/index.ts:136-169 | a line is in the collection exactly when it is the resolved father-child, mother-child or husband-wife line of some relation |
| `GeoLines.PushChild` | src/geo/index.ts:139-146 | one child pushes its father-child line, then its mother-child line, each when it exists |
| `GeoLines.PushChildLines` | src/geo/index.ts:149-158 | the children loop appends the lines of each child in list order |
| `GeoLines.PushChildren` | src/geo/index.ts:137-160 | a single id and a list of ids both append the lines of the listed children; a missing or empty single id appends nothing |
| `GeoLines.PushRelationLines` | src/geo/index.ts:136-169 | one relation appends its child lines, then its marriage line |
| `GeoLines.BuildRelations` | src/geo/index.ts:131-171 | the collection equals `Lines`, and holds exactly the resolved lines of the relations' links |
| `GeoPipeline.StructuredAsList` | src/geo/index.ts:26-36 | a single marriage record and a one-element list holding it give the same places and the same lines |
| `GeoPipeline.ResolvedIsPoint` | src/geo/index.ts:81-83 | an id that resolves through the index has a point at the position a line would use for it |
| `GeoPipeline.LineBetweenResolved` | src/geo/index.ts:111-119 | every line runs between the positions of two resolved ids |
| `GeoPipeline.LineEndsArePoints` | src/geo/index.ts:111-119 | both ends of every line are positions of points in the point collection |
| `GeoPipeline.FamilyIndex` | src/geo/index.ts:67-73 | for the example family, the index maps each of the three ids to its person |
| `GeoPipeline.FamilyPlaces` | src/geo/index.ts:14-41 | for the example family, the places are the three birth towns in order, then the marriage town |
| `GeoPipeline.FamilyPoints` | src/geo/index.ts:80-103 | with the spouses' towns resolved, the example family has three points if the child's town resolved and two otherwise |
| `GeoPipeline.FamilyLines` | src/geo/index.ts:136-169 | with the spouses' towns resolved, the example family yields father-child, mother-child and marriage lines if the child's town resolved, and only the marriage line otherwise |

## Left out

- `geocodePlaces`, `geocode` and `delay` (src/geo/index.ts:43-64) are left out. They are network lookups with a rate-limiting pause. The location map they produce is a parameter of the builders.
- `convertGedcomToJson` (src/geo/index.ts:6-12) is left out. It wraps an external GEDCOM parser that is not part of this model, so the parsed `Gedcom` value is an input.
- `main` (src/geo/index.ts:173-182) is left out: its body is commented out.
- Dates in point properties are left out. The source builds a JavaScript `Date` from each `Value` and takes `getFullYear`, `getMonth` and `getDay`. Note that `getDay` is the weekday, not the day of the month. The model carries the birth and death dates through unchanged, as opaque values.
- Coordinates are left out as numbers. They are floating-point numbers in the source and are only copied, so here they are a `real` the model never computes on.
- The GeoJSON wrappers (`type: 'FeatureCollection'`, `type: 'Feature'`, `type: 'Point'`, `type: 'LineString'`) are constant tags and are not modelled. A collection is the sequence of its features.
- `Status` and `StatusDescription` (src/types/index.ts:1-15) are user-interface text and are left out.
- Individual fields the core never reads are left out: `Residence`, `Events`, `Source`, `Notes`, `Emigration`, `Burial` and `Baptism`. The same goes for the `Source` and `Notes` of a birth.
- Ancestor numbering and branch colouring are left out. They do not appear in the modelled source; only the `Sosa`, `Branch` and `color` fields and the palette are kept.
- Fields the code reads through `?.` or a truthiness test are `Option`s, even where the declared type requires them: `Birth`, `Death`, `Birth.Date`, `Husband`, `Wife`, `Children` and `Marriage` (src/types/index.ts:55, 110, 113, 130-133). The parser's output can lack them, and the code's own guards allow for that.
- Fields the code uses without a guard keep their declared type: a missing `Fullname`, or an `Individuals` or `Relations` list that is not a list, is not modelled.
- `GeoPlaces.CollectPlaces` models the relation scan with a guard: a relation without any marriage is skipped. The code as written fails on such a relation; that behaviour is modelled separately by `GeoPlaces.CollectPlacesAsWritten` (see Findings).

## Findings

| source | as written | input that shows it | evidently intended | confidence | as-written member | corrected member |
|---|---|---|---|---|---|---|
| src/geo/index.ts:25-35 | the relation scan only checks `relation.Marriage !== 'Y'`, then reads `relation.Marriage.Place`; a relation with no `Marriage` at all makes this read throw a TypeError, so no place list is produced. `Marriage` is declared required (src/types/index.ts:130), so the failure needs parser output outside the declared type; the guard at src/geo/index.ts:161 shows such output was expected | a tree with one relation that has children but no marriage record (`UnmarriedFamily`) | skip relations without a marriage, as `buildRelations` does with `if(relation.Marriage)` (src/geo/index.ts:161), and list the remaining places | not executed | `GeoPlaces.CollectPlacesAsWrittenThrows` | `GeoPlaces.CollectPlaces` |
