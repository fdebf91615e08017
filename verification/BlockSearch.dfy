/** Finding the change that holds an atom, by two binary searches. */
module BlockSearch {
  import opened Common
  import opened SeqTypes
  import opened CausalHistory
  import opened IdLists
  import opened Ops
  import opened Folding
  import opened Changes
  import opened Blocks

  // ----- finding an atom -----

  /** Where the i-th change's atoms are in the log. */
  lemma {:induction false} ChangeAt(cs: seq<Change>, p: nat, i: nat)
    requires Consecutive(cs, p) && i < |cs|
    ensures var n := |LogOf(cs[..i])|; var e := Entries(cs[i]);
      && cs[i].id.counter == Origin(cs) + n && n + |e| <= |LogOf(cs)| && LogOf(cs)[n..n + |e|] == e && e != []
      && ChangeEnd(cs[i]) == cs[i].id.counter + |e|
  {
    hide Formed, Entries, Joined;
    FormedSize(cs[i]);
    EntryCount(cs[i]);
    assert cs[..i + 1] == cs[..i] + [cs[i]];
    LogStep(cs[..i], cs[i]);
    assert cs == cs[..i + 1] + cs[i + 1..];
    LogConcat(cs[..i + 1], cs[i + 1..]);
    if i > 0 {
      ConsecutivePart(cs, p, i);
      LogEnd(cs[..i], p);
      assert Next(cs[i - 1], cs[i]);
    } else {
      assert LogOf(cs[..0]) == [];
    }
  }

  lemma {:induction false} ConsecutivePart(cs: seq<Change>, p: nat, i: nat)
    requires Consecutive(cs, p) && i <= |cs|
    ensures Consecutive(cs[..i], p)
  {
    hide Formed, Next;
    var t := cs[..i];
    forall k | 0 < k < |t| ensures Next(t[k - 1], t[k]) { assert Next(cs[k - 1], cs[k]); }
  }

  lemma {:induction false} EndsRise(cs: seq<Change>, p: nat, i: nat, j: nat)
    requires Consecutive(cs, p) && i <= j < |cs|
    ensures ChangeEnd(cs[i]) <= ChangeEnd(cs[j]) && (i < j ==> ChangeEnd(cs[i]) <= cs[j].id.counter)
    decreases j
  {
    hide Formed;
    if i < j {
      EndsRise(cs, p, i, j - 1);
      assert Next(cs[j - 1], cs[j]);
      FormedSize(cs[j]);
    }
  }

  /** Where a block's changes are among all its peer's. */
  lemma {:induction false} BlockAt(blocks: seq<Block>, i: nat, j: nat)
    requires i < |blocks| && j < |blocks[i].changes|
    ensures var n := |Flat(blocks[..i])|; n + j < |Flat(blocks)| && Flat(blocks)[n + j] == blocks[i].changes[j]
    ensures |Flat(blocks[..i])| + |blocks[i].changes| <= |Flat(blocks)|
    ensures i + 1 < |blocks| ==> |Flat(blocks[..i + 1])| == |Flat(blocks[..i])| + |blocks[i].changes|
    decreases |blocks|
  {
    var m := |blocks| - 1;
    if i < m {
      BlockAt(blocks[..m], i, j);
      assert blocks[..m][..i] == blocks[..i] && (i + 1 < m ==> blocks[..m][..i + 1] == blocks[..i + 1]);
      if i + 1 == m {
        assert blocks[..i + 1] == blocks[..i] + [blocks[i]];
        FlatStep(blocks[..i], blocks[i]);
      }
    }
  }

  /** A change of the store that holds the atom with counter c. */
  ghost predicate Hold(blocks: seq<Block>, c: int, k: nat) {
    k < |Flat(blocks)| && Flat(blocks)[k].id.counter <= c < ChangeEnd(Flat(blocks)[k])
  }

  /** The index of the last change of block i among all its peer's. */
  ghost function LastOf(blocks: seq<Block>, i: nat): (k: int)
    requires i < |blocks|
  {
    |Flat(blocks[..i])| + |blocks[i].changes| - 1
  }

  lemma {:induction false} BlockEnd(blocks: seq<Block>, p: nat, i: nat)
    requires BlocksRight(blocks, p) && i < |blocks|
    ensures var k := LastOf(blocks, i);
      && 0 <= k < |Flat(blocks)| && |Flat(blocks[..i])| <= k && blocks[i].end == ChangeEnd(Flat(blocks)[k])
      && Flat(blocks)[k] == blocks[i].changes[|blocks[i].changes| - 1]
  {
    hide Consecutive, Flat;
    assert BlockRight(blocks[i]);
    BlockAt(blocks, i, |blocks[i].changes| - 1);
  }

  lemma {:induction false} BlockEndsRise(blocks: seq<Block>, p: nat, i: nat, j: nat)
    requires BlocksRight(blocks, p) && i <= j < |blocks|
    ensures blocks[i].end <= blocks[j].end
  {
    hide Consecutive, BlocksRight;
    BlockEnd(blocks, p, i);
    BlockEnd(blocks, p, j);
    LastsRise(blocks, p, i, j);
    FlatRight(blocks, p);
    EndsRise(Flat(blocks), p, LastOf(blocks, i), LastOf(blocks, j));
  }

  lemma {:induction false} LastsRise(blocks: seq<Block>, p: nat, i: nat, j: nat)
    requires BlocksRight(blocks, p) && i <= j < |blocks|
    ensures LastOf(blocks, i) <= LastOf(blocks, j)
    decreases j
  {
    hide Consecutive, Flat;
    if i < j {
      LastsRise(blocks, p, i, j - 1);
      assert BlockRight(blocks[j - 1]) && BlockRight(blocks[j]);
      BlockAt(blocks, j - 1, 0);
    }
  }

  /** The first block that ends after c. */
  method FirstBlock(blocks: seq<Block>, c: int, ghost p: nat) returns (i: nat)
    requires BlocksRight(blocks, p)
    ensures i <= |blocks|
    ensures forall k :: 0 <= k < i ==> blocks[k].end <= c
    ensures forall k :: i <= k < |blocks| ==> blocks[k].end > c
  {
    hide BlocksRight;
    var hi := |blocks|;
    i := 0;
    while i < hi
      invariant 0 <= i <= hi <= |blocks|
      invariant forall k :: 0 <= k < i ==> blocks[k].end <= c
      invariant forall k :: hi <= k < |blocks| ==> blocks[k].end > c
    {
      var mid := (i + hi) / 2;
      if blocks[mid].end <= c {
        forall k | 0 <= k <= mid ensures blocks[k].end <= c { BlockEndsRise(blocks, p, k, mid); }
        i := mid + 1;
      } else {
        forall k | mid <= k < |blocks| ensures blocks[k].end > c { BlockEndsRise(blocks, p, mid, k); }
        hi := mid;
      }
    }
  }

  /** The first change that ends after c. */
  method FirstChange(cs: seq<Change>, c: int, ghost p: nat) returns (i: nat)
    requires Consecutive(cs, p)
    ensures i <= |cs|
    ensures forall k :: 0 <= k < i ==> ChangeEnd(cs[k]) <= c
    ensures forall k :: i <= k < |cs| ==> ChangeEnd(cs[k]) > c
  {
    hide Consecutive, ChangeEnd;
    var hi := |cs|;
    i := 0;
    while i < hi
      invariant 0 <= i <= hi <= |cs|
      invariant forall k :: 0 <= k < i ==> ChangeEnd(cs[k]) <= c
      invariant forall k :: hi <= k < |cs| ==> ChangeEnd(cs[k]) > c
    {
      var mid := (i + hi) / 2;
      if ChangeEnd(cs[mid]) <= c {
        forall k | 0 <= k <= mid ensures ChangeEnd(cs[k]) <= c { EndsRise(cs, p, k, mid); }
        i := mid + 1;
      } else {
        forall k | mid <= k < |cs| ensures ChangeEnd(cs[k]) > c { EndsRise(cs, p, mid, k); }
        hi := mid;
      }
    }
  }

  /** A block's changes follow each other. */
  lemma {:induction false} BlockConsecutive(blocks: seq<Block>, p: nat, i: nat)
    requires BlocksRight(blocks, p) && i < |blocks|
    ensures blocks[i].changes != [] && Consecutive(blocks[i].changes, p)
  {
    hide Formed, ChangeEnd, Flat;
    assert BlockRight(blocks[i]);
    var n, f, cs := |Flat(blocks[..i])|, Flat(blocks), blocks[i].changes;
    forall j | 0 <= j < |cs| ensures Formed(cs[j]) && cs[j].id.peer == p { BlockAt(blocks, i, j); }
    forall j | 0 < j < |cs| ensures Next(cs[j - 1], cs[j]) {
      BlockAt(blocks, i, j - 1);
      BlockAt(blocks, i, j);
      assert Next(f[n + j - 1], f[n + j]);
    }
  }

  /** The change right at the end of what comes before it holds what lies before its end. */
  lemma {:induction false} FoundAt(blocks: seq<Block>, p: nat, i: nat, j: nat, c: int)
    requires BlocksRight(blocks, p) && i < |blocks| && j < |blocks[i].changes|
    requires ChangeEnd(blocks[i].changes[j]) > c
    requires j > 0 ==> ChangeEnd(blocks[i].changes[j - 1]) <= c
    requires i > 0 ==> blocks[i - 1].end <= c
    ensures blocks[i].changes[j].id.counter > c ==> c < Origin(Flat(blocks))
    ensures blocks[i].changes[j].id.counter <= c ==> Hold(blocks, c, |Flat(blocks[..i])| + j)
  {
    hide Formed, ChangeEnd, Flat;
    var f, n := Flat(blocks), |Flat(blocks[..i])|;
    BlockAt(blocks, i, j);
    if j > 0 {
      BlockAt(blocks, i, j - 1);
      assert Next(f[n + j - 1], f[n + j]);
    } else if i > 0 {
      BlockEnd(blocks, p, i - 1);
      assert BlockRight(blocks[i - 1]);
      BlockAt(blocks, i - 1, 0);
      assert Next(f[n - 1], f[n]);
    } else {
      FirstFlat(blocks);
    }
  }

  lemma {:induction false} FirstFlat(blocks: seq<Block>)
    ensures |Flat(blocks[..0])| == 0
  {
  }
}
