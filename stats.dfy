/** The status tally of `get_statistics`: a dictionary from status to
    count, filled in the order of the appointments list, so that its keys
    come out in the order each status first appears. */
module Tallies {
  import opened Entities

  /** The counts after the loop has seen `statuses`: each one goes up by one
      from `get(status, 0)`. */
  function Tally(statuses: seq<string>): map<string, nat>
  {
    if statuses == [] then map[]
    else
      var counts := Tally(statuses[..|statuses| - 1]);
      var s := statuses[|statuses| - 1];
      counts[s := if s in counts then counts[s] + 1 else 1]
  }

  /** The keys of the tally in insertion order: a status joins the first
      time it is counted. */
  function FirstAppearances(statuses: seq<string>): seq<string>
  {
    if statuses == [] then []
    else
      var front := statuses[..|statuses| - 1];
      var s := statuses[|statuses| - 1];
      FirstAppearances(front) + (if s in front then [] else [s])
  }

  /** The sum of the counts of the keys in `keys`. */
  function SumOver(keys: seq<string>, counts: map<string, nat>): nat
  {
    if keys == [] then 0
    else
      var k := keys[|keys| - 1];
      SumOver(keys[..|keys| - 1], counts) + (if k in counts then counts[k] else 0)
  }

  /** A status is counted exactly when it occurs. */
  lemma {:induction false} TallyKeys(statuses: seq<string>)
    ensures forall s :: s in Tally(statuses) <==> s in statuses
  {
    if statuses != [] {
      var front := statuses[..|statuses| - 1];
      TallyKeys(front);
      assert statuses == front + [statuses[|statuses| - 1]];
    }
  }

  /** The count of a status is the number of appointments that have it. */
  lemma {:induction false} TallyCounts(statuses: seq<string>)
    ensures forall s :: s in Tally(statuses) ==> Tally(statuses)[s] == multiset(statuses)[s]
  {
    if statuses != [] {
      var front := statuses[..|statuses| - 1];
      TallyCounts(front);
      TallyKeys(front);
      assert statuses == front + [statuses[|statuses| - 1]];
    }
  }

  /** The report lists every status that occurs, and nothing else. */
  lemma {:induction false} FirstAppearancesMembers(statuses: seq<string>)
    ensures forall s :: s in FirstAppearances(statuses) <==> s in statuses
  {
    if statuses != [] {
      var front := statuses[..|statuses| - 1];
      FirstAppearancesMembers(front);
      assert statuses == front + [statuses[|statuses| - 1]];
    }
  }

  /** The report lists each status once. */
  lemma {:induction false} FirstAppearancesDistinct(statuses: seq<string>)
    ensures NoDuplicates(FirstAppearances(statuses))
  {
    if statuses != [] {
      var front, s := statuses[..|statuses| - 1], statuses[|statuses| - 1];
      FirstAppearancesDistinct(front);
      if s !in front {
        FirstAppearancesMembers(front);
        NoDuplicatesAppend(FirstAppearances(front), s);
      } else {
        assert FirstAppearances(statuses) == FirstAppearances(front);
      }
    }
  }

  /** `order` lists statuses of `statuses` in the order of their first occurrences. */
  predicate FirstOccurrenceOrder(statuses: seq<string>, order: seq<string>)
  {
    forall i, j :: 0 <= i < j < |order| ==>
      && order[i] in statuses && order[j] in statuses
      && IndexOf(statuses, order[i]) < IndexOf(statuses, order[j])
  }

  /** The report lists the statuses in the order of the appointments that
      first have them. */
  lemma {:induction false} FirstAppearancesOrdered(statuses: seq<string>)
    ensures FirstOccurrenceOrder(statuses, FirstAppearances(statuses))
  {
    if statuses != [] {
      var front, s := statuses[..|statuses| - 1], statuses[|statuses| - 1];
      var order, order' := FirstAppearances(front), FirstAppearances(statuses);
      FirstAppearancesOrdered(front);
      FirstAppearancesMembers(front);
      assert statuses == front + [s];
      forall i, j | 0 <= i < j < |order'|
        ensures order'[i] in statuses && order'[j] in statuses && IndexOf(statuses, order'[i]) < IndexOf(statuses, order'[j])
      {
        assert order'[i] == order[i] && order[i] in front;
        IndexOfAppend(front, [s], order[i]);
        if j < |order| {
          assert order'[j] == order[j];
          IndexOfAppend(front, [s], order[j]);
        } else {
          assert order'[j] == s && s !in front;
          assert IndexOf(statuses, s) == |front| by { assert statuses[..|front|] == front; }
        }
      }
    }
  }

  /** Appending after the first occurrence does not move it. */
  lemma IndexOfAppend<T>(s: seq<T>, t: seq<T>, x: T)
    requires x in s
    ensures IndexOf(s + t, x) == IndexOf(s, x)
  {
    if s[0] != x {
      assert (s + t)[1..] == s[1..] + t;
      IndexOfAppend(s[1..], t, x);
    }
  }

  /** The counts printed add up to the number of appointments. */
  lemma {:induction false} TallyTotal(statuses: seq<string>)
    ensures SumOver(FirstAppearances(statuses), Tally(statuses)) == |statuses|
  {
    if statuses != [] {
      var front, s := statuses[..|statuses| - 1], statuses[|statuses| - 1];
      var order, counts := FirstAppearances(front), Tally(front);
      TallyTotal(front);
      TallyKeys(front);
      FirstAppearancesMembers(front);
      if s in front {
        assert Tally(statuses) == counts[s := counts[s] + 1];
        assert FirstAppearances(statuses) == order;
        FirstAppearancesDistinct(front);
        SumOverBump(order, counts, s);
      } else {
        assert Tally(statuses) == counts[s := 1];
        assert FirstAppearances(statuses) == order + [s];
        assert (order + [s])[..|order|] == order;
        SumOverElsewhere(order, counts, s, 1);
      }
    }
  }

  /** Raising the count of a key that occurs once in `keys` raises the sum by one. */
  lemma {:induction false} SumOverBump(keys: seq<string>, counts: map<string, nat>, s: string)
    requires s in keys && s in counts && NoDuplicates(keys)
    ensures SumOver(keys, counts[s := counts[s] + 1]) == SumOver(keys, counts) + 1
  {
    var front, k := keys[..|keys| - 1], keys[|keys| - 1];
    if k == s {
      SumOverElsewhere(front, counts, s, counts[s] + 1);
    } else {
      assert keys == front + [k];
      SumOverBump(front, counts, s);
    }
  }

  /** Setting the count of a key that is not in `keys` leaves the sum alone. */
  lemma {:induction false} SumOverElsewhere(keys: seq<string>, counts: map<string, nat>, s: string, n: nat)
    requires s !in keys
    ensures SumOver(keys, counts[s := n]) == SumOver(keys, counts)
  {
    if keys != [] {
      var front := keys[..|keys| - 1];
      assert keys == front + [keys[|keys| - 1]];
      SumOverElsewhere(front, counts, s, n);
    }
  }
}
