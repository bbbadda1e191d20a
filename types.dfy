/**
 * The record shapes of a parsed GEDCOM family tree, as the geo pipeline reads
 * them, and the 32-colour branch palette.
 *
 * Fields the parser may leave undefined, and that the pipeline reads through
 * optional chaining (`Birth?.Place`), are `Option`s. The "string or array"
 * unions of the record format are tagged variants.
 */
module Types {

  datatype Option<+T> = None | Some(value: T)

  /** JavaScript truthiness of an optional string: present and not empty. */
  predicate Truthy(s: Option<string>) {
    s.Some? && s.value != ""
  }

  /** A latitude or a longitude. The pipeline only copies them, never computes on them. */
  type Coordinate = real

  /** A resolved place, as the geocoding step stores it. */
  datatype Location = Location(latitude: Coordinate, longitude: Coordinate)

  /**
   * A parsed date. `Value` stands for the JavaScript `Date` the parser builds;
   * the pipeline passes it on without looking inside.
   */
  datatype GedcomDate = GedcomDate(Original: string, HasYear: bool, HasMonth: bool, HasDay: bool, Value: int)

  datatype Corporation = Corporation(Value: string, Address: string)

  datatype Source = Source(Name: seq<string>, Version: string, Corporation: Corporation, Data: string)

  /**
   * The version block of the header. The source declares it as a first
   * `interface Gedcom`, which TypeScript merges with the record `Gedcom`; here
   * it is a type of its own.
   */
  datatype GedcomVersion = GedcomVersion(Version: string, Format: string)

  datatype Head = Head(Source: Source, Date: GedcomDate, File: string, Gedcom: GedcomVersion, Characters: string)

  datatype Birth = Birth(Date: Option<GedcomDate>, Place: Option<string>)

  datatype Death = Death(Date: Option<GedcomDate>, Place: Option<string>)

  /** A field that holds either one id or an ordered list of ids. */
  datatype IdRefs = Single(id: string) | Many(ids: seq<string>)

  datatype Marriage = Marriage(Place: Option<string>)

  /**
   * The marriage field of a relation: the bare marker 'Y' (a marriage took
   * place, without detail), one structured event, or a list of them.
   */
  datatype MarriageField = MarkerY | Structured(event: Marriage) | StructuredMany(events: seq<Marriage>)

  /**
   * An individual. `Sosa`, `Branch` and `color` are annotations that stay
   * absent until a numbering step sets them; no operation of this model sets them.
   */
  datatype Individual = Individual(
    Id: string,
    Fullname: string,
    Sex: string,
    Birth: Option<Birth>,
    Relations: IdRefs,
    Occupation: string,
    Death: Option<Death>,
    Surname: string,
    Givenname: string,
    Sosa: Option<int>,
    Branch: Option<string>,
    color: Option<string>)

  /** A family: husband, wife, children and marriage, all by individual id. */
  datatype Relation = Relation(
    Id: string,
    Marriage: Option<MarriageField>,
    Husband: Option<string>,
    Wife: Option<string>,
    Children: Option<IdRefs>)

  datatype Gedcom = Gedcom(Head: Head, Individuals: seq<Individual>, Relations: seq<Relation>)

  /** `individual.Birth?.Place` */
  function BirthPlace(ind: Individual): Option<string> {
    if ind.Birth.Some? then ind.Birth.value.Place else None
  }

  /** `individual.Death?.Place` */
  function DeathPlace(ind: Individual): Option<string> {
    if ind.Death.Some? then ind.Death.value.Place else None
  }

  const COLORS_32: seq<string> := [
    "#2f1e45", "#861043", "#b41e40", "#c83737", "#da5a3a", "#d4a864", "#c38e65", "#b16c59",
    "#944c4c", "#7f3748", "#5f253e", "#662c2a", "#8e4f24", "#c6801d", "#e5a732", "#9abf44",
    "#679c30", "#22783f", "#164a45", "#203b68", "#345f99", "#4293ca", "#64c3de", "#a6c4bf",
    "#829fa1", "#687f88", "#52636d", "#394451", "#3f2352", "#7d2f7e", "#a83690", "#ce4999"]

  /** The palette has 32 entries, no two alike, each a 7-character `#rrggbb` code. */
  lemma ColorsDistinct()
    ensures |COLORS_32| == 32
    ensures forall i :: 0 <= i < |COLORS_32| ==> |COLORS_32[i]| == 7 && COLORS_32[i][0] == '#'
    ensures forall i, j :: 0 <= i < j < |COLORS_32| ==> COLORS_32[i] != COLORS_32[j]
  {
  }
}
