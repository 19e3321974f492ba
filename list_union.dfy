/**
 * The list union that `inject_mixin` performs when a key holds a list both in
 * the document and in the mixin: the document's list is extended, in place, by
 * a generator that tests each mixin element against the list as it grows.
 * Because `extend` consumes the generator one element at a time, an element is
 * appended only when it is neither in the document's list nor among the mixin
 * elements already appended by the same call.
 */
module ListUnion {
  import opened Yaml

  /** The list after appending, in order, each element of `extra` that is not
      yet in the list at the moment it is reached. It starts with the original
      list, unchanged and in order, and grows by at most one element per
      element of `extra`. */
  function AppendAbsent(list: seq<Value>, extra: seq<Value>): (r: seq<Value>)
    ensures |list| <= |r| <= |list| + |extra|
    ensures r[..|list|] == list
    decreases |extra|
  {
    if extra == [] then list
    else
      var grown := AppendAbsent(list, extra[..|extra| - 1]);
      var x := extra[|extra| - 1];
      if x in grown then grown else grown + [x]
  }

  /** Element `k` of `extra` is the first occurrence of its value in `extra`
      and does not occur in `list` either. */
  predicate Introduces(list: seq<Value>, extra: seq<Value>, k: nat)
    requires k < |extra|
  {
    extra[k] !in list && extra[k] !in extra[..k]
  }

  /** An independent description of what the union adds: the elements of
      `extra`, in their order, that `Introduces` selects. It never looks at
      the growing list. */
  function Introduced(list: seq<Value>, extra: seq<Value>): seq<Value>
    decreases |extra|
  {
    if extra == [] then []
    else
      var k := |extra| - 1;
      Introduced(list, extra[..k]) + (if Introduces(list, extra, k) then [extra[k]] else [])
  }

  /** The union holds exactly the elements of both lists. */
  lemma {:induction false} AppendAbsentMembers(list: seq<Value>, extra: seq<Value>)
    ensures forall x :: x in AppendAbsent(list, extra) <==> x in list || x in extra
    decreases |extra|
  {
    if extra != [] {
      var k := |extra| - 1;
      AppendAbsentMembers(list, extra[..k]);
      assert extra == extra[..k] + [extra[k]];
    }
  }

  /** No appended element equals any element before it, so an appended
      element never duplicates the original list nor an earlier addition. */
  lemma {:induction false} AppendAbsentNoRepeat(list: seq<Value>, extra: seq<Value>)
    ensures forall i, j :: 0 <= i < j < |AppendAbsent(list, extra)| && |list| <= j ==>
              AppendAbsent(list, extra)[i] != AppendAbsent(list, extra)[j]
    decreases |extra|
  {
    if extra != [] {
      var k := |extra| - 1;
      AppendAbsentNoRepeat(list, extra[..k]);
    }
  }

  /** What the union appends is exactly the reference selection `Introduced`:
      the mixin elements in mixin order, each first occurrence kept unless the
      original list already holds it. */
  lemma {:induction false} AppendAbsentIsIntroduced(list: seq<Value>, extra: seq<Value>)
    ensures AppendAbsent(list, extra) == list + Introduced(list, extra)
    decreases |extra|
  {
    if extra != [] {
      var k := |extra| - 1;
      AppendAbsentIsIntroduced(list, extra[..k]);
      AppendAbsentMembers(list, extra[..k]);
      var grown := AppendAbsent(list, extra[..k]);
      assert extra[k] in grown <==> extra[k] in list || extra[k] in extra[..k];
    }
  }

  /** Extending a list that already holds every element of `extra` changes
      nothing. */
  lemma {:induction false} AppendAbsentSaturated(list: seq<Value>, extra: seq<Value>)
    requires forall x :: x in extra ==> x in list
    ensures AppendAbsent(list, extra) == list
    decreases |extra|
  {
    if extra != [] {
      var k := |extra| - 1;
      assert forall x :: x in extra[..k] ==> x in extra;
      AppendAbsentSaturated(list, extra[..k]);
      assert extra[k] in extra;
    }
  }

  /** A second union with the same mixin list changes nothing. This holds
      even when the mixin list repeats an element, because the repetition is
      dropped by the first union already. */
  lemma AppendAbsentIdempotent(list: seq<Value>, extra: seq<Value>)
    ensures AppendAbsent(AppendAbsent(list, extra), extra) == AppendAbsent(list, extra)
  {
    AppendAbsentMembers(list, extra);
    AppendAbsentSaturated(AppendAbsent(list, extra), extra);
  }

  /** The in-place `extend` of the document's list: one mixin element at a
      time, appended when the growing list does not hold it yet. */
  method ExtendAbsent(list: seq<Value>, extra: seq<Value>) returns (grown: seq<Value>)
    ensures grown == AppendAbsent(list, extra)
  {
    grown := list;
    var i := 0;
    while i < |extra|
      invariant 0 <= i <= |extra|
      invariant grown == AppendAbsent(list, extra[..i])
    {
      var x := extra[i];
      if x !in grown {
        grown := grown + [x];
      }
      assert extra[..i + 1][..i] == extra[..i];
      i := i + 1;
    }
    assert extra[..|extra|] == extra;
  }
}
