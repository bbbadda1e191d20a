/**
 * The id index of individuals (`mapIndividuals`): a map from `Id` to the
 * individual, filled in sequence order, so that with duplicate ids the last
 * individual wins.
 */
module GeoIndividuals {
  import opened Types

  /** The map after `individuals.set(i.Id, i)` for each `i` of `inds`, in order. */
  function Index(inds: seq<Individual>): map<string, Individual> {
    if inds == [] then map[]
    else Index(inds[..|inds| - 1])[inds[|inds| - 1].Id := inds[|inds| - 1]]
  }

  /** The ids of `inds`. */
  ghost function Ids(inds: seq<Individual>): set<string> {
    set i | 0 <= i < |inds| :: inds[i].Id
  }

  /** No individual after position `j` has the id of `inds[j]`. */
  ghost predicate LastWithId(inds: seq<Individual>, j: int)
    requires 0 <= j < |inds|
  {
    forall k :: j < k < |inds| ==> inds[k].Id != inds[j].Id
  }

  /** The keys are exactly the ids, and each value is an individual of the list with that id. */
  lemma {:induction false} IndexKeys(inds: seq<Individual>)
    ensures Index(inds).Keys == Ids(inds)
    ensures forall id :: id in Index(inds) ==>
      (Index(inds)[id].Id == id && exists j :: 0 <= j < |inds| && inds[j] == Index(inds)[id])
  {
    if inds != [] {
      var pre, last := inds[..|inds| - 1], inds[|inds| - 1];
      IndexKeys(pre);
      assert Ids(inds) == Ids(pre) + {last.Id} by {
        forall id | id in Ids(inds) ensures id in Ids(pre) + {last.Id} {
          var i :| 0 <= i < |inds| && inds[i].Id == id;
          if i < |pre| {
            assert pre[i] == inds[i];
          }
        }
        forall id | id in Ids(pre) ensures id in Ids(inds) {
          var i :| 0 <= i < |pre| && pre[i].Id == id;
          assert inds[i] == pre[i];
        }
      }
      forall id | id in Index(inds)
        ensures exists j :: 0 <= j < |inds| && inds[j] == Index(inds)[id]
      {
        if id != last.Id {
          var j :| 0 <= j < |pre| && pre[j] == Index(pre)[id];
          assert inds[j] == pre[j];
        } else {
          assert inds[|inds| - 1] == Index(inds)[id];
        }
      }
    }
  }

  /** With duplicate ids, the last individual carrying an id is the one indexed. */
  lemma {:induction false} IndexLastWins(inds: seq<Individual>, j: nat)
    requires j < |inds| && LastWithId(inds, j)
    ensures inds[j].Id in Index(inds) && Index(inds)[inds[j].Id] == inds[j]
  {
    var pre := inds[..|inds| - 1];
    if j < |inds| - 1 {
      assert LastWithId(pre, j) by {
        forall k | j < k < |pre| ensures pre[k].Id != pre[j].Id {
          assert pre[k] == inds[k];
        }
      }
      IndexLastWins(pre, j);
      assert inds[|inds| - 1].Id != inds[j].Id;
    }
  }

  /** `mapIndividuals` */
  method MapIndividuals(gedcom: Gedcom) returns (individuals: map<string, Individual>)
    ensures individuals == Index(gedcom.Individuals)
    ensures individuals.Keys == Ids(gedcom.Individuals)
    ensures forall j :: 0 <= j < |gedcom.Individuals| && LastWithId(gedcom.Individuals, j) ==>
      individuals[gedcom.Individuals[j].Id] == gedcom.Individuals[j]
  {
    var inds := gedcom.Individuals;
    individuals := map[];
    var n := 0;
    while n < |inds|
      invariant 0 <= n <= |inds|
      invariant individuals == Index(inds[..n])
    {
      assert inds[..n + 1][..n] == inds[..n];
      individuals := individuals[inds[n].Id := inds[n]];
      n := n + 1;
    }
    assert inds[..n] == inds;
    IndexKeys(inds);
    forall j | 0 <= j < |inds| && LastWithId(inds, j) {
      IndexLastWins(inds, j);
    }
  }
}
