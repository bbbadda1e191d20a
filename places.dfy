/**
 * Place collection (`collectPlaces`): every non-empty birth place, death place
 * and structured marriage place of the tree, each once, in order of first
 * occurrence. Individuals are scanned first (birth before death), then
 * relations.
 */
module GeoPlaces {
  import opened Types

  // ---------------------------------------------------------------------------
  // Sequence helpers
  // ---------------------------------------------------------------------------

  /** The concatenation of `f(x)` over `xs`, in order. */
  function ConcatMap<T>(xs: seq<T>, f: T -> seq<string>): seq<string> {
    if xs == [] then [] else ConcatMap(xs[..|xs| - 1], f) + f(xs[|xs| - 1])
  }

  lemma ConcatMapSnoc<T>(xs: seq<T>, i: nat, f: T -> seq<string>)
    requires i < |xs|
    ensures ConcatMap(xs[..i + 1], f) == ConcatMap(xs[..i], f) + f(xs[i])
  {
    assert xs[..i + 1][..i] == xs[..i];
  }

  lemma {:induction false} ConcatMapAppend<T>(xs: seq<T>, ys: seq<T>, f: T -> seq<string>)
    ensures ConcatMap(xs + ys, f) == ConcatMap(xs, f) + ConcatMap(ys, f)
    decreases |ys|
  {
    if ys == [] {
      assert xs + ys == xs;
    } else {
      var ys' := ys[..|ys| - 1];
      assert (xs + ys)[..|xs + ys| - 1] == xs + ys';
      ConcatMapAppend(xs, ys', f);
    }
  }

  /** A string is in the concatenation exactly when it is in one of the parts. */
  lemma {:induction false} ConcatMapMember<T>(xs: seq<T>, f: T -> seq<string>, p: string)
    ensures p in ConcatMap(xs, f) <==> exists i :: 0 <= i < |xs| && p in f(xs[i])
  {
    if xs != [] {
      var xs' := xs[..|xs| - 1];
      ConcatMapMember(xs', f, p);
      if p in ConcatMap(xs', f) {
        var i :| 0 <= i < |xs'| && p in f(xs'[i]);
        assert xs[i] == xs'[i];
      }
      if exists i :: 0 <= i < |xs| && p in f(xs[i]) {
        var i :| 0 <= i < |xs| && p in f(xs[i]);
        if i < |xs'| {
          assert xs'[i] == xs[i];
        }
      }
    }
  }

  /** No element occurs twice. */
  predicate NoDup(s: seq<string>) {
    forall i, j :: 0 <= i < j < |s| ==> s[i] != s[j]
  }

  /**
   * The effect of the guarded pushes `if (!acc.includes(x)) acc.push(x)` over
   * `s`, starting from an empty array.
   */
  function Dedup(s: seq<string>): seq<string> {
    if s == [] then []
    else
      var acc := Dedup(s[..|s| - 1]);
      if s[|s| - 1] in acc then acc else acc + [s[|s| - 1]]
  }

  lemma DedupSnoc(s: seq<string>, x: string)
    ensures Dedup(s + [x]) == if x in Dedup(s) then Dedup(s) else Dedup(s) + [x]
  {
    assert (s + [x])[..|s|] == s;
  }

  /** The index of the first occurrence of `x` in `s`. */
  function FirstIndex(s: seq<string>, x: string): (k: nat)
    requires x in s
    ensures k < |s| && s[k] == x && x !in s[..k]
  {
    if s[0] == x then 0 else 1 + FirstIndex(s[1..], x)
  }

  lemma {:induction false} FirstIndexSnoc(s: seq<string>, x: string, y: string)
    requires y in s
    ensures FirstIndex(s + [x], y) == FirstIndex(s, y)
  {
    if s[0] != y {
      assert (s + [x])[1..] == s[1..] + [x];
      FirstIndexSnoc(s[1..], x, y);
    }
  }

  lemma {:induction false} FirstIndexLast(s: seq<string>, x: string)
    requires x !in s
    ensures FirstIndex(s + [x], x) == |s|
  {
    if s != [] {
      assert (s + [x])[1..] == s[1..] + [x];
      FirstIndexLast(s[1..], x);
    }
  }

  lemma {:induction false} FirstIndexAppend(a: seq<string>, b: seq<string>, y: string)
    requires y in a + b
    ensures y in a ==> FirstIndex(a + b, y) == FirstIndex(a, y)
    ensures y !in a ==> FirstIndex(a + b, y) == |a| + FirstIndex(b, y)
  {
    if a != [] {
      if a[0] != y {
        assert (a + b)[1..] == a[1..] + b;
        FirstIndexAppend(a[1..], b, y);
      }
    } else {
      assert a + b == b;
    }
  }

  /**
   * Deduplication keeps exactly the elements of its input, each once, ordered
   * by their first occurrence in the input.
   */
  lemma {:induction false} DedupSpec(s: seq<string>)
    ensures NoDup(Dedup(s))
    ensures forall x :: x in Dedup(s) <==> x in s
    ensures forall i, j :: 0 <= i < j < |Dedup(s)| ==> FirstIndex(s, Dedup(s)[i]) < FirstIndex(s, Dedup(s)[j])
  {
    if s != [] {
      var s', x := s[..|s| - 1], s[|s| - 1];
      assert s == s' + [x];
      DedupSpec(s');
      DedupSnoc(s', x);
      var d, r := Dedup(s'), Dedup(s);
      forall i | 0 <= i < |d|
        ensures FirstIndex(s, d[i]) == FirstIndex(s', d[i]) < |s'|
      {
        FirstIndexSnoc(s', x, d[i]);
      }
      if x !in d {
        FirstIndexLast(s', x);
        forall i, j | 0 <= i < j < |r|
          ensures FirstIndex(s, r[i]) < FirstIndex(s, r[j])
        {
          if j == |d| {
            assert r[i] == d[i];
          } else {
            assert r[i] == d[i] && r[j] == d[j];
          }
        }
      }
    }
  }

  // ---------------------------------------------------------------------------
  // Where places come from
  // ---------------------------------------------------------------------------

  /** The place, if it is truthy, as a zero- or one-element list. */
  function Present(p: Option<string>): (r: seq<string>)
    ensures forall x :: x in r <==> Truthy(p) && p.value == x
    ensures |r| <= 1
  {
    if Truthy(p) then [p.value] else []
  }

  /** The places an individual contributes: birth place, then death place. */
  function IndividualCandidates(ind: Individual): (r: seq<string>)
    ensures |r| <= 2
    ensures forall p :: p in r <==> p != "" && (BirthPlace(ind) == Some(p) || DeathPlace(ind) == Some(p))
  {
    Present(BirthPlace(ind)) + Present(DeathPlace(ind))
  }

  function MarriageCandidates(m: Marriage): seq<string> {
    Present(m.Place)
  }

  /**
   * The places a relation contributes: those of its structured marriage
   * events. The 'Y' marker, and a relation without a marriage, contribute nothing.
   */
  function RelationCandidates(rel: Relation): (r: seq<string>)
    ensures rel.Marriage != Some(MarkerY) || r == []
  {
    match rel.Marriage
    case None => []
    case Some(MarkerY) => []
    case Some(Structured(m)) => MarriageCandidates(m)
    case Some(StructuredMany(ms)) => ConcatMap(ms, MarriageCandidates)
  }

  /** Every candidate place, with repetitions, in scan order. */
  function Candidates(tree: Gedcom): seq<string> {
    ConcatMap(tree.Individuals, IndividualCandidates) + ConcatMap(tree.Relations, RelationCandidates)
  }

  /** The result of `collectPlaces`. */
  function Places(tree: Gedcom): seq<string> {
    Dedup(Candidates(tree))
  }

  /** `p` is the place of a structured marriage event of `rel`. */
  predicate MarriagePlace(rel: Relation, p: string) {
    match rel.Marriage
    case Some(Structured(m)) => m.Place == Some(p)
    case Some(StructuredMany(ms)) => exists k :: 0 <= k < |ms| && ms[k].Place == Some(p)
    case _ => false
  }

  /**
   * Reference definition: `p` is a non-empty place that the tree mentions as a
   * birth place, a death place or a structured marriage place.
   */
  ghost predicate Referenced(tree: Gedcom, p: string) {
    p != "" &&
    ((exists i :: 0 <= i < |tree.Individuals| &&
        (BirthPlace(tree.Individuals[i]) == Some(p) || DeathPlace(tree.Individuals[i]) == Some(p))) ||
     (exists j :: 0 <= j < |tree.Relations| && MarriagePlace(tree.Relations[j], p)))
  }

  lemma RelationCandidatesMember(rel: Relation, p: string)
    ensures p in RelationCandidates(rel) <==> p != "" && MarriagePlace(rel, p)
  {
    match rel.Marriage
    case None =>
    case Some(MarkerY) =>
    case Some(Structured(m)) =>
    case Some(StructuredMany(ms)) =>
      ConcatMapMember(ms, MarriageCandidates, p);
  }

  lemma CandidatesMember(tree: Gedcom, p: string)
    ensures p in Candidates(tree) <==> Referenced(tree, p)
  {
    ConcatMapMember(tree.Individuals, IndividualCandidates, p);
    ConcatMapMember(tree.Relations, RelationCandidates, p);
    forall j | 0 <= j < |tree.Relations| {
      RelationCandidatesMember(tree.Relations[j], p);
    }
  }

  // ---------------------------------------------------------------------------
  // Properties of the place list
  // ---------------------------------------------------------------------------

  /** No place is listed twice. */
  lemma PlacesNoDuplicates(tree: Gedcom)
    ensures NoDup(Places(tree))
  {
    DedupSpec(Candidates(tree));
  }

  /**
   * A place is listed exactly when it is a non-empty birth, death or
   * structured-marriage place of the tree ('Y' marriages add nothing).
   */
  lemma PlacesMembership(tree: Gedcom, p: string)
    ensures p in Places(tree) <==> Referenced(tree, p)
  {
    DedupSpec(Candidates(tree));
    CandidatesMember(tree, p);
  }

  /** Places are listed in the order in which the scan first meets them. */
  lemma PlacesFirstOccurrenceOrder(tree: Gedcom)
    ensures forall x :: x in Places(tree) <==> x in Candidates(tree)
    ensures forall i, j :: 0 <= i < j < |Places(tree)| ==>
      FirstIndex(Candidates(tree), Places(tree)[i]) < FirstIndex(Candidates(tree), Places(tree)[j])
  {
    DedupSpec(Candidates(tree));
  }

  /** Every place some individual mentions comes before every place only relations mention. */
  lemma PlacesIndividualsFirst(tree: Gedcom)
    ensures forall a, b ::
      (0 <= a < |Places(tree)| && 0 <= b < |Places(tree)| &&
       Places(tree)[a] in ConcatMap(tree.Individuals, IndividualCandidates) &&
       Places(tree)[b] !in ConcatMap(tree.Individuals, IndividualCandidates)) ==> a < b
  {
    var ic := ConcatMap(tree.Individuals, IndividualCandidates);
    var c, r := Candidates(tree), Places(tree);
    DedupSpec(c);
    forall a, b | 0 <= a < |r| && 0 <= b < |r| && r[a] in ic && r[b] !in ic
      ensures a < b
    {
      FirstIndexAppend(ic, ConcatMap(tree.Relations, RelationCandidates), r[a]);
      FirstIndexAppend(ic, ConcatMap(tree.Relations, RelationCandidates), r[b]);
      assert FirstIndex(c, r[a]) < |ic| <= FirstIndex(c, r[b]);
    }
  }

  /** Dropping a relation whose marriage is the bare 'Y' marker changes nothing. */
  lemma MarkerYContributesNothing(tree: Gedcom, j: nat)
    requires j < |tree.Relations| && tree.Relations[j].Marriage == Some(MarkerY)
    ensures Places(tree) == Places(tree.(Relations := tree.Relations[..j] + tree.Relations[j + 1..]))
  {
    var rels := tree.Relations;
    var pre, post := rels[..j], rels[j + 1..];
    assert rels == (pre + [rels[j]]) + post;
    ConcatMapAppend(pre + [rels[j]], post, RelationCandidates);
    ConcatMapAppend(pre, [rels[j]], RelationCandidates);
    ConcatMapAppend(pre, post, RelationCandidates);
    assert [rels[j]][..0] == [];
    assert ConcatMap([rels[j]], RelationCandidates) == [];
    assert ConcatMap(rels, RelationCandidates) == ConcatMap(pre + post, RelationCandidates);
  }

  // ---------------------------------------------------------------------------
  // collectPlaces
  // ---------------------------------------------------------------------------

  /** `if (Truthy(p) && !acc.includes(p)) acc.push(p)` */
  function Push(acc: seq<string>, p: Option<string>): seq<string> {
    if Truthy(p) && p.value !in acc then acc + [p.value] else acc
  }

  lemma DedupPresent(s: seq<string>, p: Option<string>)
    ensures Dedup(s + Present(p)) == Push(Dedup(s), p)
  {
    if Truthy(p) {
      DedupSnoc(s, p.value);
    } else {
      assert s + Present(p) == s;
    }
  }

  /** One turn of the individual scan: birth place, then death place. */
  lemma IndividualStep(inds: seq<Individual>, i: nat)
    requires i < |inds|
    ensures Dedup(ConcatMap(inds[..i + 1], IndividualCandidates)) ==
      Push(Push(Dedup(ConcatMap(inds[..i], IndividualCandidates)), BirthPlace(inds[i])), DeathPlace(inds[i]))
  {
    var before := ConcatMap(inds[..i], IndividualCandidates);
    var birth, death := BirthPlace(inds[i]), DeathPlace(inds[i]);
    ConcatMapSnoc(inds, i, IndividualCandidates);
    assert ConcatMap(inds[..i + 1], IndividualCandidates) == (before + Present(birth)) + Present(death);
    DedupPresent(before, birth);
    DedupPresent(before + Present(birth), death);
  }

  /** One turn of the scan over a list of marriage events. */
  lemma MarriageStep(before: seq<string>, ms: seq<Marriage>, k: nat)
    requires k < |ms|
    ensures Dedup(before + ConcatMap(ms[..k + 1], MarriageCandidates)) ==
      Push(Dedup(before + ConcatMap(ms[..k], MarriageCandidates)), ms[k].Place)
  {
    ConcatMapSnoc(ms, k, MarriageCandidates);
    assert before + ConcatMap(ms[..k + 1], MarriageCandidates) ==
      (before + ConcatMap(ms[..k], MarriageCandidates)) + Present(ms[k].Place);
    DedupPresent(before + ConcatMap(ms[..k], MarriageCandidates), ms[k].Place);
  }

  /** One turn of the relation scan. */
  lemma RelationStep(ic: seq<string>, rels: seq<Relation>, j: nat)
    requires j < |rels|
    ensures ic + ConcatMap(rels[..j + 1], RelationCandidates) ==
      (ic + ConcatMap(rels[..j], RelationCandidates)) + RelationCandidates(rels[j])
  {
    ConcatMapSnoc(rels, j, RelationCandidates);
  }

  /**
   * The relation part of `collectPlaces` for one relation: the place of a
   * structured marriage event, or of each event of a list, in turn.
   */
  method PushMarriagePlaces(locations: seq<string>, ghost before: seq<string>, relation: Relation)
    returns (pushed: seq<string>)
    requires locations == Dedup(before)
    ensures pushed == Dedup(before + RelationCandidates(relation))
  {
    pushed := locations;
    match relation.Marriage {
      case None =>
        assert before + RelationCandidates(relation) == before;
      case Some(MarkerY) =>
        assert before + RelationCandidates(relation) == before;
      case Some(Structured(m)) =>
        DedupPresent(before, m.Place);
        if Truthy(m.Place) && m.Place.value !in pushed {
          pushed := pushed + [m.Place.value];
        }
      case Some(StructuredMany(ms)) =>
        var k := 0;
        assert before + ConcatMap(ms[..0], MarriageCandidates) == before;
        while k < |ms|
          invariant 0 <= k <= |ms|
          invariant pushed == Dedup(before + ConcatMap(ms[..k], MarriageCandidates))
        {
          MarriageStep(before, ms, k);
          if Truthy(ms[k].Place) && ms[k].Place.value !in pushed {
            pushed := pushed + [ms[k].Place.value];
          }
          k := k + 1;
        }
        assert ms[..k] == ms;
    }
  }

  /**
   * `collectPlaces`, with the guard the relation scan needs: a relation
   * without a marriage is skipped (see `CollectPlacesAsWritten`).
   */
  method CollectPlaces(tree: Gedcom) returns (locations: seq<string>)
    ensures locations == Places(tree)
    ensures NoDup(locations)
    ensures forall p :: p in locations <==> Referenced(tree, p)
  {
    var inds, rels := tree.Individuals, tree.Relations;
    locations := [];
    var i := 0;
    while i < |inds|
      invariant 0 <= i <= |inds|
      invariant locations == Dedup(ConcatMap(inds[..i], IndividualCandidates))
    {
      var birth, death := BirthPlace(inds[i]), DeathPlace(inds[i]);
      IndividualStep(inds, i);
      if Truthy(birth) && birth.value !in locations {
        locations := locations + [birth.value];
      }
      if Truthy(death) && death.value !in locations {
        locations := locations + [death.value];
      }
      i := i + 1;
    }
    assert inds[..i] == inds;
    ghost var ic := ConcatMap(inds, IndividualCandidates);
    var j := 0;
    assert ic + ConcatMap(rels[..0], RelationCandidates) == ic;
    while j < |rels|
      invariant 0 <= j <= |rels|
      invariant locations == Dedup(ic + ConcatMap(rels[..j], RelationCandidates))
    {
      RelationStep(ic, rels, j);
      locations := PushMarriagePlaces(locations, ic + ConcatMap(rels[..j], RelationCandidates), rels[j]);
      j := j + 1;
    }
    assert rels[..j] == rels;
    PlacesNoDuplicates(tree);
    forall p {
      PlacesMembership(tree, p);
    }
  }

  // ---------------------------------------------------------------------------
  // The relation scan as written
  // ---------------------------------------------------------------------------

  /**
   * One relation of the scan as the source writes it: `None` stands for the
   * TypeError raised by reading `relation.Marriage.Place` when the relation has
   * no marriage at all (the guard is only `relation.Marriage !== 'Y'`).
   */
  function RelationCandidatesAsWritten(rel: Relation): Option<seq<string>> {
    match rel.Marriage
    case None => None
    case Some(MarkerY) => Some([])
    case Some(Structured(m)) => Some(MarriageCandidates(m))
    case Some(StructuredMany(ms)) => Some(ConcatMap(ms, MarriageCandidates))
  }

  function RelationsCandidatesAsWritten(rels: seq<Relation>): Option<seq<string>> {
    if rels == [] then Some([])
    else
      match RelationsCandidatesAsWritten(rels[..|rels| - 1])
      case None => None
      case Some(prefix) =>
        match RelationCandidatesAsWritten(rels[|rels| - 1])
        case None => None
        case Some(last) => Some(prefix + last)
  }

  /** `collectPlaces` as written: `None` when it throws. */
  function CollectPlacesAsWritten(tree: Gedcom): Option<seq<string>> {
    match RelationsCandidatesAsWritten(tree.Relations)
    case None => None
    case Some(rc) => Some(Dedup(ConcatMap(tree.Individuals, IndividualCandidates) + rc))
  }

  lemma {:induction false} RelationsAsWritten(rels: seq<Relation>)
    ensures RelationsCandidatesAsWritten(rels).None? <==> exists j :: 0 <= j < |rels| && rels[j].Marriage.None?
    ensures RelationsCandidatesAsWritten(rels).Some? ==>
      RelationsCandidatesAsWritten(rels).value == ConcatMap(rels, RelationCandidates)
  {
    if rels != [] {
      var rels' := rels[..|rels| - 1];
      RelationsAsWritten(rels');
      if exists j :: 0 <= j < |rels'| && rels'[j].Marriage.None? {
        var j :| 0 <= j < |rels'| && rels'[j].Marriage.None?;
        assert rels[j] == rels'[j];
      }
      if exists j :: 0 <= j < |rels| && rels[j].Marriage.None? {
        var j :| 0 <= j < |rels| && rels[j].Marriage.None?;
        if j < |rels'| {
          assert rels'[j] == rels[j];
        }
      }
    }
  }

  /**
   * The source throws exactly when some relation has no marriage; otherwise it
   * agrees with the guarded `CollectPlaces`.
   */
  lemma CollectPlacesAsWrittenThrows(tree: Gedcom)
    ensures CollectPlacesAsWritten(tree).None? <==>
      exists j :: 0 <= j < |tree.Relations| && tree.Relations[j].Marriage.None?
    ensures CollectPlacesAsWritten(tree).Some? ==> CollectPlacesAsWritten(tree).value == Places(tree)
  {
    RelationsAsWritten(tree.Relations);
  }

  /** A one-person tree with one family that has no marriage record. */
  function UnmarriedFamily(): Gedcom {
    var date := GedcomDate("", false, false, false, 0);
    var head := Head(Source([], "", Corporation("", ""), ""), date, "", GedcomVersion("", ""), "");
    var child := Individual("@I1@", "Ann /Doe/", "F", Some(Birth(None, Some("Paris"))), Single("@F1@"),
                            "", None, "Doe", "Ann", None, None, None);
    Gedcom(head, [child], [Relation("@F1@", None, None, None, Some(Single("@I1@")))])
  }

  /** On that tree the source throws, while the guarded scan lists the birth place. */
  lemma UnmarriedFamilyThrows()
    ensures CollectPlacesAsWritten(UnmarriedFamily()) == None
    ensures Places(UnmarriedFamily()) == ["Paris"]
  {
    var t := UnmarriedFamily();
    assert t.Individuals[..0] == [];
    assert t.Relations[..0] == [];
  }
}
