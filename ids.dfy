/** The identifier allocator: a new identifier is the class prefix followed by
    one more than the largest numeric suffix among the live identifiers,
    recomputed from the collection on every call. `add_patient`,
    `add_doctor` and `schedule_appointment` each carry a copy of this loop,
    with the prefixes `P`, `D` and `A`. */
module Ids {
  import opened Base
  import opened PyInt

  const PATIENT_PREFIX := 'P'
  const DOCTOR_PREFIX := 'D'
  const APPOINTMENT_PREFIX := 'A'

  /** The number an existing identifier contributes: only a non-empty
      identifier that starts with the prefix and whose remainder `int()`
      accepts; anything else is skipped (the bare `except: pass`). */
  function SuffixNumber(id: Option<string>, prefix: char): Option<int>
  {
    if id.Some? && id.value != [] && id.value[0] == prefix then ParseInt(id.value[1..]) else None
  }

  /** The value `max_id` holds after the loop has seen `ids`: it starts at 0
      and takes every contributed number larger than itself. */
  function MaxSuffix(ids: seq<Option<string>>, prefix: char): nat
  {
    if ids == [] then 0
    else
      var m := MaxSuffix(ids[..|ids| - 1], prefix);
      match SuffixNumber(ids[|ids| - 1], prefix)
      case Some(n) => if n > m then n else m
      case None => m
  }

  /** `max_id` is the largest suffix number in the collection, or 0 when no
      identifier contributes a positive one. */
  lemma {:induction false} MaxSuffixIsLargest(ids: seq<Option<string>>, prefix: char)
    ensures forall i :: 0 <= i < |ids| && SuffixNumber(ids[i], prefix).Some? ==> SuffixNumber(ids[i], prefix).value <= MaxSuffix(ids, prefix)
    ensures MaxSuffix(ids, prefix) == 0 || exists i :: 0 <= i < |ids| && SuffixNumber(ids[i], prefix) == Some(MaxSuffix(ids, prefix))
  {
    if ids != [] {
      var front := ids[..|ids| - 1];
      MaxSuffixIsLargest(front, prefix);
      assert forall i :: 0 <= i < |front| ==> front[i] == ids[i];
    }
  }

  /** The identifier the allocator hands out next. */
  function NextId(prefix: char, ids: seq<Option<string>>): (id: string)
    ensures |id| >= 2 && id[0] == prefix
    ensures forall i :: 1 <= i < |id| ==> IsDigit(id[i])
  {
    [prefix] + Decimal(MaxSuffix(ids, prefix) + 1)
  }

  /** The identifier just allocated parses back to one more than every suffix seen. */
  lemma NextIdSuffix(prefix: char, ids: seq<Option<string>>)
    ensures SuffixNumber(Some(NextId(prefix, ids)), prefix) == Some(MaxSuffix(ids, prefix) + 1)
  {
    var id := NextId(prefix, ids);
    assert id[1..] == Decimal(MaxSuffix(ids, prefix) + 1);
    ParseDecimal(MaxSuffix(ids, prefix) + 1);
  }

  /** A new identifier never collides with a live one of the same class. */
  lemma NextIdFresh(prefix: char, ids: seq<Option<string>>)
    ensures Some(NextId(prefix, ids)) !in ids
  {
    NextIdSuffix(prefix, ids);
    MaxSuffixIsLargest(ids, prefix);
  }

  /** The allocation loop: `max_id` starts at 0 and takes every larger suffix. */
  method AllocateId(prefix: char, ids: seq<Option<string>>) returns (id: string)
    ensures id == NextId(prefix, ids)
    ensures Some(id) !in ids
    ensures ids == [] ==> id == [prefix, '1']
  {
    var maxId := 0;
    var i := 0;
    while i < |ids|
      invariant 0 <= i <= |ids|
      invariant maxId == MaxSuffix(ids[..i], prefix)
    {
      var current := ids[i];
      if current.Some? && current.value != [] && current.value[0] == prefix {
        var num := ParseInt(current.value[1..]);
        if num.Some? && num.value > maxId {
          maxId := num.value;
        }
      }
      assert ids[..i + 1][..i] == ids[..i];
      i := i + 1;
    }
    assert ids[..i] == ids;
    id := [prefix] + Decimal(maxId + 1);
    NextIdFresh(prefix, ids);
  }

  /** An identifier that contributes no number (another prefix, a missing
      identifier, or a suffix `int()` rejects) does not move the next
      identifier, wherever it stands in the collection. */
  lemma IgnoredIdDoesNotMatter(prefix: char, before: seq<Option<string>>, x: Option<string>, after: seq<Option<string>>)
    requires SuffixNumber(x, prefix).None?
    ensures NextId(prefix, before + [x] + after) == NextId(prefix, before + after)
  {
    IgnoredIdKeepsMax(prefix, before, x, after);
  }

  lemma {:induction false} IgnoredIdKeepsMax(prefix: char, before: seq<Option<string>>, x: Option<string>, after: seq<Option<string>>)
    requires SuffixNumber(x, prefix).None?
    ensures MaxSuffix(before + [x] + after, prefix) == MaxSuffix(before + after, prefix)
    decreases |after|
  {
    var longer, shorter := before + [x] + after, before + after;
    if after == [] {
      assert longer[..|longer| - 1] == shorter;
    } else {
      var front := after[..|after| - 1];
      IgnoredIdKeepsMax(prefix, before, x, front);
      assert longer[..|longer| - 1] == before + [x] + front;
      assert shorter[..|shorter| - 1] == before + front;
      assert longer[|longer| - 1] == shorter[|shorter| - 1];
    }
  }

  /** `<prefix>1, …, <prefix>n`: the identifiers handed out by n allocations
      into an empty collection. */
  function Sequential(prefix: char, n: nat): (ids: seq<Option<string>>)
    ensures |ids| == n
  {
    if n == 0 then [] else Sequential(prefix, n - 1) + [Some([prefix] + Decimal(n))]
  }

  /** Allocating into `<prefix>1 … <prefix>n` yields `<prefix>(n+1)`: n
      allocations give the identifiers 1 to n with no gap and no repeat. */
  lemma {:induction false} SequentialAllocation(prefix: char, n: nat)
    ensures MaxSuffix(Sequential(prefix, n), prefix) == n
    ensures Sequential(prefix, n) + [Some(NextId(prefix, Sequential(prefix, n)))] == Sequential(prefix, n + 1)
  {
    if n > 0 {
      SequentialAllocation(prefix, n - 1);
      var ids := Sequential(prefix, n);
      assert ids[..n - 1] == Sequential(prefix, n - 1);
      var last := [prefix] + Decimal(n);
      assert last[1..] == Decimal(n);
      ParseDecimal(n);
      assert SuffixNumber(ids[n - 1], prefix) == Some(n);
    }
  }

  /** The lookup in `find_patient_by_id` and `find_doctor_by_id`: the
      position of the first entry equal to `id`, or `None` when no entry is. */
  function FindIndex(ids: seq<Option<string>>, id: Option<string>): (r: Option<nat>)
    ensures r.Some? ==> r.value < |ids| && ids[r.value] == id && id !in ids[..r.value]
    ensures r.None? <==> id !in ids
  {
    if ids == [] then None
    else if ids[0] == id then Some(0)
    else match FindIndex(ids[1..], id)
      case Some(k) => Some(k + 1)
      case None => None
  }
}
