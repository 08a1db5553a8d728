/**
 * The two list updates both admin screens apply to their in-memory
 * resource list: replace the records with a given id by a new record
 * (`list.map(r => r.id === id ? updated : r)`) and drop the records with a
 * given id (`list.filter(r => r.id !== id)`).
 */
module ResourceList {
  import opened JsRuntime
  import opened ResourceTypes

  /** `r.id === id`. */
  predicate HasId(r: Resource, id: Num)
    ensures HasId(r, id) ==> r.id == id && id.Finite?
    ensures id.Finite? && r.id == id ==> HasId(r, id)
  {
    NumEq(r.id, id)
  }

  /** `a` is `b` with some elements left out, the rest in their original order. */
  ghost predicate IsSubsequence(a: seq<Resource>, b: seq<Resource>)
    decreases |b|
  {
    a == [] || (b != [] && ((a[0] == b[0] && IsSubsequence(a[1..], b[1..])) || IsSubsequence(a, b[1..])))
  }

  /** Every element whose id matches becomes `updated`; nothing else moves or changes. */
  function ReplaceById(s: seq<Resource>, id: Num, updated: Resource): (r: seq<Resource>)
    ensures |r| == |s|
    ensures forall i :: 0 <= i < |s| && HasId(s[i], id) ==> r[i] == updated
    ensures forall i :: 0 <= i < |s| && !HasId(s[i], id) ==> r[i] == s[i]
  {
    if s == [] then []
    else [if HasId(s[0], id) then updated else s[0]] + ReplaceById(s[1..], id, updated)
  }

  /** Every element whose id matches is dropped; the others stay, in order. */
  function RemoveById(s: seq<Resource>, id: Num): (r: seq<Resource>)
    ensures IsSubsequence(r, s)
    ensures forall x :: x in r <==> x in s && !HasId(x, id)
  {
    if s == [] then []
    else if HasId(s[0], id) then RemoveById(s[1..], id)
    else [s[0]] + RemoveById(s[1..], id)
  }

  /** Every copy of a record that does not match stays: removal changes only the count of matching records, to zero. */
  lemma {:induction false} RemoveByIdCounts(s: seq<Resource>, id: Num)
    ensures forall x :: multiset(RemoveById(s, id))[x] == if HasId(x, id) then 0 else multiset(s)[x]
  {
    if s != [] {
      RemoveByIdCounts(s[1..], id);
      assert s == [s[0]] + s[1..];
    }
  }

  /** A list that holds no record with `id` is left as it is by both updates. */
  lemma {:induction false} AbsentIdChangesNothing(s: seq<Resource>, id: Num, updated: Resource)
    requires forall x :: x in s ==> !HasId(x, id)
    ensures RemoveById(s, id) == s
    ensures ReplaceById(s, id, updated) == s
  {
    if s != [] {
      AbsentIdChangesNothing(s[1..], id, updated);
    }
  }

  /** A NaN id matches nothing (`r.id !== NaN` always holds), so removing it removes nothing. */
  lemma RemoveNaNIdChangesNothing(s: seq<Resource>)
    ensures RemoveById(s, NaN) == s
  {
    AbsentIdChangesNothing(s, NaN, if s == [] then Resource(NaN, "", "", "", "", "", "", NaN, "", None, None, None, None, None) else s[0]);
  }

  /** Removing by id twice is removing it once. */
  lemma {:induction false} RemoveByIdIdempotent(s: seq<Resource>, id: Num)
    ensures RemoveById(RemoveById(s, id), id) == RemoveById(s, id)
  {
    if s != [] {
      RemoveByIdIdempotent(s[1..], id);
    }
  }
}
