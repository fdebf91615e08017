/** The lamport order an import starts from. */
module LamportSort {
  import opened CausalHistory
  import opened SortOrder
  import opened RustSort

  ghost predicate ByLamport(cs: seq<Change>) {
    forall i, j :: 0 <= i < j < |cs| ==> cs[i].lamport <= cs[j].lamport
  }

  predicate LowerLamport(a: Change, b: Change) { a.lamport < b.lamport }

  /** A permutation rising by lamport; the list itself when it rises already. */
  method SortByLamport(changes: seq<Change>) returns (r: seq<Change>)
    ensures multiset(r) == multiset(changes) && ByLamport(r)
    ensures ByLamport(changes) ==> r == changes
  {
    var a := new Change[|changes|](i requires 0 <= i < |changes| => changes[i]);
    assert a[..] == changes;
    Sort(a, LowerLamport);
    r := a[..];
    SortedLamports(changes);
    SortedLamports(r);
  }

  lemma {:induction false} SortedLamports(cs: seq<Change>)
    ensures SortedIn(cs, 0, |cs|, LowerLamport) <==> ByLamport(cs)
  {
    if SortedIn(cs, 0, |cs|, LowerLamport) {
      forall i, j | 0 <= i < j < |cs| ensures cs[i].lamport <= cs[j].lamport { assert !LowerLamport(cs[j], cs[i]); }
    }
  }
}
