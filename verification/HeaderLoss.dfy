/** An honest history whose change block is written and then refused when read. */
module HeaderLosses {
  import opened Common
  import opened CausalHistory
  import opened Varints
  import opened RleColumns
  import opened BitStreams
  import opened DeltaColumns
  import opened ChangeBlobs

  // ----- two peers answering each other -----

  ghost function Turns(n: nat): set<Id> { set p, c | 0 <= p < 2 && 0 <= c < n :: Id(p, c) }

  /** Peer 1 begins; from then on each writes one atom after importing the other's. */
  ghost function Answers(n: nat): History {
    map x | x in Turns(n) ::
      if x.peer == 0 then Atom(2 * x.counter + 1, {Id(1, x.counter)})
      else Atom(2 * x.counter, if x.counter == 0 then {} else {Id(0, x.counter - 1)})
  }

  lemma {:induction false} AnswerAt(n: nat, c: int)
    ensures forall p: nat :: Id(p, c) in Answers(n) <==> p < 2 && 0 <= c < n
    ensures 0 <= c < n ==> Answers(n)[Id(0, c)] == Atom(2 * c + 1, {Id(1, c)})
    ensures 0 <= c < n ==> Answers(n)[Id(1, c)] == Atom(2 * c, if c == 0 then {} else {Id(0, c - 1)})
  {
  }

  lemma {:induction false} AnswersClosed(n: nat)
    ensures Closed(Answers(n))
  {
    hide Answers;
    var h := Answers(n);
    forall x, d | x in h && d in h[x].deps ensures d in h && h[d].lamport < h[x].lamport {
      AnswerAt(n, x.counter);
      AnswerAt(n, d.counter);
    }
  }

  /** The history is an honest one: every atom is there, and each peer has its own earlier ones. */
  lemma {:induction false} AnswersHonest(n: nat)
    ensures CausalHistory.Complete(Answers(n))
  {
    hide Answers, Past;
    AnswersClosed(n);
    var h := Answers(n);
    forall x | x in h ensures x.counter >= 0 && (x.counter > 0 ==> Past(h, Prev(x), x)) {
      AnswerAt(n, x.counter);
      if x.counter > 0 {
        AnswerAt(n, x.counter - 1);
        var y := if x.peer == 0 then Id(1, x.counter) else Id(0, x.counter - 1);
        DirectPast(h, y, x);
        DirectPast(h, Prev(x), y);
        PastTrans(h, Prev(x), y, x);
      }
    }
  }

  lemma {:induction false} DirectPast(h: History, d: Id, x: Id)
    requires Closed(h) && x in h && d in h[x].deps
    ensures Past(h, d, x)
  {
  }

  // ----- the first peer's block -----

  /** The header of peer 0's n changes, one atom and one dep each. */
  function AnswersHeader(n: nat): Header {
    Header([0, 1], Repeat(1, Max0(n - 1)), Repeat(false, n), Repeat(1, n), Repeat(1, n), seq(n, i => i), seq(Max0(n - 1), i => 2 * i + 1))
  }

  /** Change i of the block is the atom the history has. */
  ghost predicate HeaderTells(h: History, hd: Header, n: nat) {
    && |hd.depOnSelf| == |hd.depLens| == |hd.depPeers| == |hd.depCounters| == n && |hd.atomLens| == |hd.lamports| == Max0(n - 1)
    && forall i :: 0 <= i < n ==> ChangeTells(h, hd, i)
  }

  ghost predicate ChangeTells(h: History, hd: Header, i: nat)
    requires i < |hd.depOnSelf| && i < |hd.depLens| && i < |hd.depPeers| && i < |hd.depCounters| && |hd.atomLens| == |hd.lamports|
  {
    && hd.depLens[i] == 1 && !hd.depOnSelf[i] && hd.depPeers[i] < |hd.peers| && hd.peers != []
    && Id(hd.peers[0], i) in h && h[Id(hd.peers[0], i)].deps == {Id(hd.peers[hd.depPeers[i]], hd.depCounters[i])}
    && (i < |hd.lamports| ==> hd.atomLens[i] == 1 && h[Id(hd.peers[0], i)].lamport == hd.lamports[i])
  }

  lemma {:induction false} AnswersTell(n: nat)
    ensures HeaderTells(Answers(n), AnswersHeader(n), n)
  {
    hide Answers, Repeat;
    forall i | 0 <= i < n ensures ChangeTells(Answers(n), AnswersHeader(n), i) { AnswerAt(n, i); }
  }

  // ----- its size -----

  /** Values that rise by a steady step take a bit each from the third on. */
  lemma {:induction false} SteadyStream(vals: seq<int>, k: nat, step: int)
    requires 1 <= k <= |vals| && 0 <= step <= 64 && forall i, j :: 0 <= i && j == i + 1 < |vals| ==> vals[j] - vals[i] == step
    ensures |StreamOf(vals, k, vals[k - 1], step)| == |vals| - k
    decreases |vals| - k
  {
    hide Wrap;
    WrapIs(0, 0, 0);
    WrapIs(step, 0, step);
    if k < |vals| {
      assert vals[k] - vals[k - 1] == step;
      SteadyStream(vals, k + 1, step);
      SteadyNext(vals, k, step);
    }
  }

  lemma {:induction false} SteadyNext(vals: seq<int>, k: nat, step: int)
    requires 1 <= k < |vals| && Wrap(vals[k] - vals[k - 1]) == step && Wrap(0) == 0
    ensures |StreamOf(vals, k, vals[k - 1], step)| == 1 + |StreamOf(vals, k + 1, vals[k], step)|
  {
    hide Wrap;
    assert step - step == 0;
  }

  lemma {:induction false} SteadySize(vals: seq<int>, step: int)
    requires |vals| >= 2 && 1 <= step <= 64 && -0x40 <= vals[0] < 0x40
    requires forall i, j :: 0 <= i && j == i + 1 < |vals| ==> vals[j] - vals[i] == step
    ensures |PutDelta(vals)| == 3 + (|vals| + 14) / 8
  {
    hide PutVarint, Pack;
    WrapIs(step, 0, step);
    SteadyStream(vals, 2, step);
    OneByte(vals[0]);
    PackSize(StreamOf(vals, 1, vals[0], 0));
    FirstStep(vals, step);
  }

  lemma {:induction false} FirstStep(vals: seq<int>, step: int)
    requires |vals| >= 2 && 1 <= step <= 64 && vals[1] - vals[0] == step
    ensures |StreamOf(vals, 1, vals[0], 0)| == 9 + |StreamOf(vals, 2, vals[1], step)|
  {
    WrapIs(step, 0, step);
  }

  lemma {:induction false} OneByte(v: int)
    requires -0x40 <= v < 0x40
    ensures |PutVarint(v)| == 1 && (v >= 0 ==> |PutU64(v)| == 1)
  {
  }

  lemma {:induction false} OneRun<T>(vals: seq<T>, i: nat)
    requires i < |vals| && forall k, l :: 0 <= k < |vals| && 0 <= l < |vals| ==> vals[k] == vals[l]
    ensures RunEnd(vals, i) == |vals|
    decreases |vals| - i
  {
    if i + 1 < |vals| { OneRun(vals, i + 1); }
  }

  /** Forty equal peer numbers take two bytes. */
  lemma {:induction false} SamePeers(ones: seq<nat>)
    requires |ones| == 40 && forall k :: 0 <= k < 40 ==> ones[k] == 1
    ensures |PutRle(ones, 0, PutU64)| == 2
  {
    hide RunEnd, PutVarint, PutUvarint, PutRle;
    OneRun(ones, 0);
    PutRun(ones, 0, PutU64);
    NoRows(ones, PutU64);
    OneByte(40);
    OneByte(1);
  }

  lemma {:induction false} AnswersSize()
    ensures |PutDeps(AnswersHeader(40))| == 20
  {
    hide Repeat, PutRle, PutDelta;
    var hd := AnswersHeader(40);
    SamePeers(hd.depPeers);
    SteadySize(hd.depCounters, 1);
    SteadySize(hd.lamports, 2);
  }

  lemma {:induction false} OnesSum(vals: seq<nat>)
    requires forall k :: 0 <= k < |vals| ==> vals[k] == 1
    ensures SumOf(vals) == |vals|
  {
    if vals != [] { OnesSum(vals[..|vals| - 1]); }
  }

  /** Two peers that answer each other forty times make a block that cannot be read back: its forty dependencies,
      their counters and the lamports take twenty bytes. */
  lemma {:induction false} HeaderLost()
    ensures CausalHistory.Complete(Answers(40)) && HeaderTells(Answers(40), AnswersHeader(40), 40)
    ensures HeaderFor(AnswersHeader(40), 40) && TakeHeader(PutHeader(AnswersHeader(40)), 40) == Err(Malformed)
  {
    hide Answers, HeaderTells, PutDeps, PutHeader, TakeHeader, Repeat, SumOf;
    AnswersHonest(40);
    AnswersTell(40);
    AnswersSize();
    OnesSum(AnswersHeader(40).depLens);
    HeaderBack(AnswersHeader(40), 40);
  }
}
