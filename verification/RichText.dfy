/** A Text's styled runs: what each character's styles are, and how characters group into runs. */
module RichTexts {
  import opened Common
  import opened SeqTypes

  datatype Mark = Mark(id: Id, info: MarkInfo, writer: Writer)

  type Styles = map<Value, Option<Value>>

  datatype Char = Char(value: Value, styles: Styles)

  /** `styles` tells runs apart, null values included; the attributes shown leave those out. */
  datatype Run = Run(text: seq<Value>, styles: Styles)

  datatype DeltaOp = DeltaOp(text: seq<Value>, attributes: map<Value, Value>)

  predicate IsLive(n: Node) { n.deleters == {} }

  predicate Starts(n: Node) { IsLive(n) && n.cell.StartAnchor? }

  predicate EndsMark(n: Node) { IsLive(n) && n.cell.EndAnchor? }

  predicate Shows(n: Node) { IsLive(n) && n.cell.Plain? }

  function MarkOf(n: Node): Mark
    requires n.cell.StartAnchor?
  {
    Mark(n.id, n.cell.info, n.cell.writer)
  }

  /** An end anchor's id names its mark: the start anchor is one counter lower. */
  function StartOf(id: Id): Id { Id(id.peer, id.counter - 1) }

  /** A mark with both anchors in, the start first, neither deleted, and c after the start but not the end. */
  ghost predicate OpenAt(nodes: seq<Node>, m: nat, c: nat)
    requires c <= |nodes|
  {
    m < c && Starts(nodes[m]) && exists e :: c <= e < |nodes| && EndsMark(nodes[e]) && StartOf(nodes[e].id) == nodes[m].id
  }

  /** The complete marks around index c. */
  ghost function OpenMarks(nodes: seq<Node>, c: nat): set<Mark>
    requires c <= |nodes|
  {
    set m | 0 <= m < c && OpenAt(nodes, m, c) :: MarkOf(nodes[m])
  }

  /** The mark decides its key: no other of that key has a later writer. */
  ghost predicate Decides(open: set<Mark>, mk: Mark) {
    mk in open && forall x :: x in open && x.info.key == mk.info.key ==> x == mk || mk.writer.After(x.writer)
  }

  /** Each key of a mark around, with the value its latest writer gave it. */
  ghost function StylesOf(open: set<Mark>): Styles {
    map mk | mk in open && Decides(open, mk) :: mk.info.key := mk.info.value
  }

  /** The characters of nodes[..c] and their styles. */
  ghost function CharsTo(nodes: seq<Node>, c: nat): seq<Char>
    requires c <= |nodes|
  {
    if c == 0 then []
    else if Shows(nodes[c - 1]) then CharsTo(nodes, c - 1) + [Char(nodes[c - 1].cell.value, StylesOf(OpenMarks(nodes, c - 1)))]
    else CharsTo(nodes, c - 1)
  }

  ghost function Chars(nodes: seq<Node>): seq<Char> { CharsTo(nodes, |nodes|) }

  /** Neighbours with equal styles share a run. */
  ghost function Grouped(cs: seq<Char>): seq<Run> {
    if cs == [] then []
    else
      var n := |cs| - 1;
      Extended(Grouped(cs[..n]), cs[n])
  }

  ghost function Extended(runs: seq<Run>, c: Char): seq<Run> {
    var k := |runs| - 1;
    if k >= 0 && runs[k].styles == c.styles then runs[..k] + [Run(runs[k].text + [c.value], c.styles)]
    else runs + [Run([c.value], c.styles)]
  }

  function Attributes(styles: Styles): map<Value, Value> {
    map k | k in styles && styles[k].Some? :: styles[k].value
  }

  function Shown(runs: seq<Run>): (r: seq<DeltaOp>)
    ensures |r| == |runs|
  {
    seq(|runs|, i requires 0 <= i < |runs| => DeltaOp(runs[i].text, Attributes(runs[i].styles)))
  }

  // ----- what the runs say -----

  ghost function Texts(runs: seq<Run>): seq<Value> {
    if runs == [] then [] else Texts(runs[..|runs| - 1]) + runs[|runs| - 1].text
  }

  ghost function Values(cs: seq<Char>): seq<Value> { seq(|cs|, i requires 0 <= i < |cs| => cs[i].value) }

  /** The characters of a run and their styles. */
  ghost function Spelled(runs: seq<Run>): seq<Char> {
    if runs == [] then []
    else Spelled(runs[..|runs| - 1]) + Letters(runs[|runs| - 1])
  }

  ghost function Letters(r: Run): (cs: seq<Char>)
    ensures |cs| == |r.text|
  {
    seq(|r.text|, i requires 0 <= i < |r.text| => Char(r.text[i], r.styles))
  }

  /** The runs spell out the characters, each under its own styles; none is empty; and two next to each
      other differ in styles. */
  lemma {:induction false} GroupedSpells(cs: seq<Char>)
    ensures Spelled(Grouped(cs)) == cs && RunsApart(Grouped(cs))
  {
    hide Extended, Spelled, RunsApart;
    if cs == [] {
      NoRuns();
    } else {
      var n := |cs| - 1;
      GroupedSpells(cs[..n]);
      ExtendedSpells(Grouped(cs[..n]), cs[n]);
      ExtendedApart(Grouped(cs[..n]), cs[n]);
      assert cs == cs[..n] + [cs[n]];
    }
  }

  ghost predicate RunsApart(runs: seq<Run>) {
    && (forall i :: 0 <= i < |runs| ==> runs[i].text != [])
    && forall i, j :: 0 <= i < |runs| && j == i + 1 < |runs| ==> runs[i].styles != runs[j].styles
  }

  lemma {:induction false} NoRuns()
    ensures Spelled([]) == [] && RunsApart([])
  {
  }

  lemma {:induction false} ExtendedApart(runs: seq<Run>, c: Char)
    requires RunsApart(runs)
    ensures RunsApart(Extended(runs, c))
  {
    var r := Extended(runs, c);
    forall i, j | 0 <= i < |r| && j == i + 1 < |r| ensures r[i].styles != r[j].styles {
      if j < |runs| { assert runs[i].styles != runs[j].styles; }
    }
  }

  lemma {:induction false} ExtendedSpells(runs: seq<Run>, c: Char)
    ensures Spelled(Extended(runs, c)) == Spelled(runs) + [c]
  {
    var k := |runs| - 1;
    if k >= 0 && runs[k].styles == c.styles {
      var r := Run(runs[k].text + [c.value], c.styles);
      assert Letters(r) == Letters(runs[k]) + [c];
      assert (runs[..k] + [r])[..k] == runs[..k];
    } else {
      var r := Run([c.value], c.styles);
      assert Letters(r) == [c];
      assert (runs + [r])[..k + 1] == runs;
    }
  }

  /** The values of a Text's characters are its visible plain elements, in order. */
  ghost function TextOf(nodes: seq<Node>): seq<Value> {
    if nodes == [] then []
    else
      var n := nodes[|nodes| - 1];
      TextOf(nodes[..|nodes| - 1]) + if Shows(n) then [n.cell.value] else []
  }

  lemma {:induction false} SpelledTexts(runs: seq<Run>)
    ensures Values(Spelled(runs)) == Texts(runs)
  {
    if runs != [] {
      var k := |runs| - 1;
      SpelledTexts(runs[..k]);
      assert Values(Letters(runs[k])) == runs[k].text;
      assert Values(Spelled(runs[..k]) + Letters(runs[k])) == Values(Spelled(runs[..k])) + Values(Letters(runs[k]));
    }
  }

  /** The texts of the runs, one after another, are the container's text. */
  lemma {:induction false} RunsText(nodes: seq<Node>)
    ensures Texts(Grouped(Chars(nodes))) == TextOf(nodes)
  {
    hide Grouped, Spelled, Texts, CharsTo;
    GroupedSpells(Chars(nodes));
    SpelledTexts(Grouped(Chars(nodes)));
    CharsText(nodes, |nodes|);
    assert nodes[..|nodes|] == nodes;
  }

  lemma {:induction false} CharsText(nodes: seq<Node>, c: nat)
    requires c <= |nodes|
    ensures Values(CharsTo(nodes, c)) == TextOf(nodes[..c])
  {
    hide StylesOf, OpenMarks;
    if c > 0 {
      CharsText(nodes, c - 1);
      assert nodes[..c][..c - 1] == nodes[..c - 1];
      var was := CharsTo(nodes, c - 1);
      if Shows(nodes[c - 1]) { assert Values(CharsTo(nodes, c)) == Values(was) + [nodes[c - 1].cell.value]; }
    }
  }

  // ----- deciding marks -----

  /** No two marks have one writer. */
  ghost predicate WritersApart(open: set<Mark>) {
    forall x, y :: x in open && y in open && x != y ==> x.writer.After(y.writer) || y.writer.After(x.writer)
  }

  /** Each key is styled by exactly the latest of its marks. */
  lemma {:induction false} StyledBy(open: set<Mark>, mk: Mark)
    requires Decides(open, mk)
    ensures mk.info.key in StylesOf(open) && StylesOf(open)[mk.info.key] == mk.info.value
  {
  }

  lemma {:induction false} StyledOnly(open: set<Mark>, k: Value)
    requires k in StylesOf(open)
    ensures exists mk :: Decides(open, mk) && mk.info.key == k
  {
  }

  /** Where writers are apart, some mark decides every key that has one. */
  lemma {:induction false} SomeDecides(open: set<Mark>, x: Mark) returns (mk: Mark)
    requires WritersApart(open) && x in open
    ensures Decides(open, mk) && mk.info.key == x.info.key
    decreases |open|
  {
    var rest := open - {x};
    if y :| y in rest && y.info.key == x.info.key {
      mk := SomeDecides(rest, y);
      if !mk.writer.After(x.writer) { Overtakes(open, x, mk); mk := x; }
    } else {
      mk := x;
    }
  }

  /** A mark later than the one that decided among the rest decides. */
  lemma {:induction false} Overtakes(open: set<Mark>, x: Mark, mk: Mark)
    requires WritersApart(open) && x in open && Decides(open - {x}, mk) && mk.info.key == x.info.key && !mk.writer.After(x.writer)
    ensures Decides(open, x)
  {
  }
}
