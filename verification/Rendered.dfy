/** What the runs of a rendered Text say, character by character. */
module RenderedTexts {
  import opened Common
  import opened SeqTypes
  import opened RichTexts

  /** The indexes of the characters no merged delete removed, in order. */
  ghost function ShownAt(nodes: seq<Node>): (r: seq<nat>)
    ensures forall k :: 0 <= k < |r| ==> r[k] < |nodes| && nodes[r[k]].deleters == {} && nodes[r[k]].cell.Plain?
  {
    if nodes == [] then []
    else
      var m := |nodes| - 1;
      ShownAt(nodes[..m]) + if nodes[m].deleters == {} && nodes[m].cell.Plain? then [m] else []
  }

  /** The mark whose start anchor is at index a is around index c: the anchor comes before c, the end anchor, which has the
      next id of the same author, at c or later, and neither is deleted. */
  ghost predicate Spans(nodes: seq<Node>, a: nat, c: nat)
    requires c <= |nodes|
  {
    && a < c && nodes[a].cell.StartAnchor? && nodes[a].deleters == {}
    && exists e :: c <= e < |nodes| && nodes[e].cell.EndAnchor? && nodes[e].deleters == {}
         && nodes[e].id == Id(nodes[a].id.peer, nodes[a].id.counter + 1)
  }

  lemma {:induction false} SpansOpen(nodes: seq<Node>, a: nat, c: nat)
    requires c <= |nodes|
    ensures Spans(nodes, a, c) <==> OpenAt(nodes, a, c)
  {
    if OpenAt(nodes, a, c) {
      var e :| c <= e < |nodes| && EndsMark(nodes[e]) && StartOf(nodes[e].id) == nodes[a].id;
      assert nodes[e].id == Id(nodes[a].id.peer, nodes[a].id.counter + 1);
    }
  }

  /** Of the marks around index c, the one that starts at index a is the latest of its key: by lamport, then by peer. */
  ghost predicate Rules(nodes: seq<Node>, a: nat, c: nat)
    requires c <= |nodes|
  {
    && Spans(nodes, a, c)
    && forall b: nat :: Spans(nodes, b, c) && b != a && nodes[b].cell.info.key == nodes[a].cell.info.key ==>
         nodes[b].cell.writer.lamport < nodes[a].cell.writer.lamport
         || (nodes[b].cell.writer.lamport == nodes[a].cell.writer.lamport && nodes[b].cell.writer.peer < nodes[a].cell.writer.peer)
  }

  /** The latest mark of the key around index c gives it this value. */
  ghost predicate StyledAs(nodes: seq<Node>, c: nat, key: Value, value: Option<Value>)
    requires c <= |nodes|
  {
    exists a: nat :: Rules(nodes, a, c) && nodes[a].cell.info.key == key && nodes[a].cell.info.value == value
  }

  /** How many characters the first i runs have. */
  ghost function Passed(out: seq<DeltaOp>, i: nat): nat
    requires i <= |out|
  {
    if i == 0 then 0 else Passed(out, i - 1) + |out[i - 1].text|
  }

  /** The run's attributes are the values the marks around index c give their keys, those that take a key away left out. */
  ghost predicate AttributesAt(nodes: seq<Node>, attributes: map<Value, Value>, c: nat)
    requires c <= |nodes|
  {
    forall key, value :: key in attributes && attributes[key] == value <==> StyledAs(nodes, c, key, Some(value))
  }

  ghost predicate AlikeAt(nodes: seq<Node>, c: nat, d: nat)
    requires c <= |nodes| && d <= |nodes|
  {
    forall key, value :: StyledAs(nodes, c, key, value) <==> StyledAs(nodes, d, key, value)
  }

  /** Character t of a run is the one shown at index at[from + t]; the run's attributes are that character's, and its styles
      are those of the run's first. */
  ghost predicate Spells(nodes: seq<Node>, run: DeltaOp, at: seq<nat>, from: nat, t: nat)
    requires t < |run.text| && from + |run.text| <= |at| && forall k :: 0 <= k < |at| ==> at[k] < |nodes|
  {
    var c := at[from + t];
    nodes[c].cell == Plain(run.text[t]) && AttributesAt(nodes, run.attributes, c) && AlikeAt(nodes, at[from], c)
  }

  /** Run i is not empty and spells the characters after those of the runs before it. */
  ghost predicate RunRight(nodes: seq<Node>, out: seq<DeltaOp>, at: seq<nat>, i: nat)
    requires i < |out| && forall k :: 0 <= k < |at| ==> at[k] < |nodes|
  {
    && out[i].text != [] && Passed(out, i) + |out[i].text| <= |at|
    && forall t :: 0 <= t < |out[i].text| ==> Spells(nodes, out[i], at, Passed(out, i), t)
  }

  /** The styles change where run i ends. */
  ghost predicate Cut(nodes: seq<Node>, out: seq<DeltaOp>, at: seq<nat>, i: nat)
    requires 0 < i < |out| && forall k :: 0 <= k < |at| ==> at[k] < |nodes|
  {
    Passed(out, i) < |at| && !AlikeAt(nodes, at[Passed(out, i - 1)], at[Passed(out, i)])
  }

  /** The runs are the characters shown, in order, cut exactly where the styles around a character change, each with the
      attributes of its characters. */
  ghost predicate Rendered(nodes: seq<Node>, out: seq<DeltaOp>) {
    var at := ShownAt(nodes);
    && Passed(out, |out|) == |at|
    && (forall i :: 0 <= i < |out| ==> RunRight(nodes, out, at, i))
    && (forall i :: 0 < i < |out| ==> Cut(nodes, out, at, i))
  }

  // ----- the grouped characters are rendered -----

  lemma {:induction false} PassedPrefix(out: seq<DeltaOp>, m: nat, i: nat)
    requires i <= m <= |out|
    ensures Passed(out[..m], i) == Passed(out, i)
  {
    if i > 0 { PassedPrefix(out, m, i - 1); }
  }

  /** Where each character of the runs stands among all. */
  lemma {:induction false} SpelledAt(runs: seq<Run>, i: nat, t: nat)
    requires i < |runs| && t < |runs[i].text|
    ensures |Spelled(runs)| == Passed(Shown(runs), |runs|) && Passed(Shown(runs), i) + |runs[i].text| <= |Spelled(runs)|
    ensures Spelled(runs)[Passed(Shown(runs), i) + t] == Char(runs[i].text[t], runs[i].styles)
  {
    var m := |runs| - 1;
    assert Shown(runs)[..m] == Shown(runs[..m]);
    PassedPrefix(Shown(runs), m, m);
    SpelledSize(runs[..m]);
    if i < m {
      SpelledAt(runs[..m], i, t);
      PassedPrefix(Shown(runs), m, i);
    }
  }

  lemma {:induction false} SpelledSize(runs: seq<Run>)
    ensures |Spelled(runs)| == Passed(Shown(runs), |runs|)
  {
    if runs != [] {
      var m := |runs| - 1;
      SpelledSize(runs[..m]);
      assert Shown(runs)[..m] == Shown(runs[..m]);
      PassedPrefix(Shown(runs), m, m);
    }
  }

  lemma {:induction false} CharsAt(nodes: seq<Node>, n: nat)
    requires n <= |nodes|
    ensures |CharsTo(nodes, n)| == |ShownAt(nodes[..n])|
    ensures forall k :: 0 <= k < |CharsTo(nodes, n)| ==> CharAt(nodes, CharsTo(nodes, n)[k], ShownAt(nodes[..n])[k])
  {
    hide StylesOf, OpenMarks;
    if n > 0 {
      CharsAt(nodes, n - 1);
      assert nodes[..n][..n - 1] == nodes[..n - 1];
    }
  }

  ghost predicate CharAt(nodes: seq<Node>, ch: Char, c: nat) {
    c < |nodes| && nodes[c].cell == Plain(ch.value) && ch.styles == StylesOf(OpenMarks(nodes, c))
  }

  lemma {:induction false} RuledDecides(nodes: seq<Node>, a: nat, c: nat)
    requires Distinct(nodes) && c <= |nodes| && OpenAt(nodes, a, c)
    ensures Rules(nodes, a, c) <==> Decides(OpenMarks(nodes, c), MarkOf(nodes[a]))
  {
    hide OpenAt, Distinct, Spans;
    OpenStarts(nodes, c);
    forall b: nat ensures Spans(nodes, b, c) <==> OpenAt(nodes, b, c) { SpansOpen(nodes, b, c); }
    var open, mk := OpenMarks(nodes, c), MarkOf(nodes[a]);
    if Rules(nodes, a, c) {
      forall x | x in open && x.info.key == mk.info.key ensures x == mk || mk.writer.After(x.writer) {
        var b := OpenOne(nodes, c, x);
      }
    }
    if Decides(open, mk) {
      forall b: nat | OpenAt(nodes, b, c) && b != a && nodes[b].cell.info.key == nodes[a].cell.info.key
        ensures mk.writer.After(nodes[b].cell.writer)
      {
        assert MarkOf(nodes[b]) in open;
        OtherIds(nodes, a, b);
      }
    }
  }

  lemma {:induction false} OtherIds(nodes: seq<Node>, a: nat, b: nat)
    requires Distinct(nodes) && a < |nodes| && b < |nodes| && a != b
    ensures nodes[a].id != nodes[b].id
  {
  }

  lemma {:induction false} OpenStarts(nodes: seq<Node>, c: nat)
    requires c <= |nodes|
    ensures forall b: nat :: OpenAt(nodes, b, c) ==> b < c && nodes[b].cell.StartAnchor?
  {
  }

  lemma {:induction false} OpenOne(nodes: seq<Node>, c: nat, x: Mark) returns (b: nat)
    requires c <= |nodes| && x in OpenMarks(nodes, c)
    ensures b < c && OpenAt(nodes, b, c) && MarkOf(nodes[b]) == x
  {
    b :| 0 <= b < c && OpenAt(nodes, b, c) && MarkOf(nodes[b]) == x;
  }

  /** The styles kept for a place are the values its latest marks give. */
  lemma {:induction false} StylesAre(nodes: seq<Node>, c: nat, key: Value, value: Option<Value>)
    requires Distinct(nodes) && c <= |nodes|
    ensures var styles := StylesOf(OpenMarks(nodes, c));
      key in styles && styles[key] == value <==> StyledAs(nodes, c, key, value)
  {
    hide StylesOf, Decides, Rules, Distinct, OpenMarks, OpenAt;
    var open := OpenMarks(nodes, c);
    if key in StylesOf(open) {
      StyledOnly(open, key);
      var mk :| Decides(open, mk) && mk.info.key == key;
      StyledBy(open, mk);
      var a := DeciderAt(nodes, c, mk);
      RuledDecides(nodes, a, c);
    }
    if StyledAs(nodes, c, key, value) {
      var a := RulerAt(nodes, c, key, value);
      RuledDecides(nodes, a, c);
      StyledBy(open, MarkOf(nodes[a]));
    }
  }

  lemma {:induction false} DeciderAt(nodes: seq<Node>, c: nat, mk: Mark) returns (a: nat)
    requires c <= |nodes| && Decides(OpenMarks(nodes, c), mk)
    ensures OpenAt(nodes, a, c) && a < c && nodes[a].cell.StartAnchor? && MarkOf(nodes[a]) == mk
  {
    hide OpenMarks;
    a := OpenOne(nodes, c, mk);
  }

  lemma {:induction false} RulerAt(nodes: seq<Node>, c: nat, key: Value, value: Option<Value>) returns (a: nat)
    requires c <= |nodes| && StyledAs(nodes, c, key, value)
    ensures OpenAt(nodes, a, c) && Rules(nodes, a, c) && a < c && nodes[a].cell.StartAnchor?
    ensures nodes[a].cell.info.key == key && nodes[a].cell.info.value == value
  {
    a :| Rules(nodes, a, c) && nodes[a].cell.info.key == key && nodes[a].cell.info.value == value;
    SpansOpen(nodes, a, c);
  }

  lemma {:induction false} ShownAttributes(nodes: seq<Node>, c: nat, styles: Styles)
    requires Distinct(nodes) && c <= |nodes| && styles == StylesOf(OpenMarks(nodes, c))
    ensures AttributesAt(nodes, Attributes(styles), c)
  {
    hide StylesOf, StyledAs, Distinct, OpenMarks;
    var shown := Attributes(styles);
    forall key, value ensures key in shown && shown[key] == value <==> StyledAs(nodes, c, key, Some(value)) {
      StylesAre(nodes, c, key, Some(value));
    }
  }

  lemma {:induction false} AlikeStyles(nodes: seq<Node>, c: nat, d: nat)
    requires Distinct(nodes) && c <= |nodes| && d <= |nodes|
    ensures AlikeAt(nodes, c, d) <==> StylesOf(OpenMarks(nodes, c)) == StylesOf(OpenMarks(nodes, d))
  {
    hide StylesOf, StyledAs, Distinct, OpenMarks;
    var a, b := StylesOf(OpenMarks(nodes, c)), StylesOf(OpenMarks(nodes, d));
    forall key, value ensures (key in a && a[key] == value <==> StyledAs(nodes, c, key, value)) && (key in b && b[key] == value <==> StyledAs(nodes, d, key, value)) {
      StylesAre(nodes, c, key, value);
      StylesAre(nodes, d, key, value);
    }
    if AlikeAt(nodes, c, d) {
      forall key ensures key in a <==> key in b
        ensures key in a && key in b ==> a[key] == b[key]
      {
        if key in a { assert StyledAs(nodes, c, key, a[key]); }
        if key in b { assert StyledAs(nodes, d, key, b[key]); }
      }
      assert a.Keys == b.Keys;
    }
  }

  lemma {:induction false} CharsAre(nodes: seq<Node>)
    ensures |Chars(nodes)| == |ShownAt(nodes)|
    ensures forall k :: 0 <= k < |Chars(nodes)| ==> CharAt(nodes, Chars(nodes)[k], ShownAt(nodes)[k])
  {
    hide CharAt, CharsTo, ShownAt;
    CharsAt(nodes, |nodes|);
    assert nodes[..|nodes|] == nodes;
  }

  lemma {:induction false} RunSpells(nodes: seq<Node>, runs: seq<Run>, i: nat, t: nat)
    requires Distinct(nodes) && runs == Grouped(Chars(nodes)) && i < |runs| && t < |runs[i].text|
    ensures Passed(Shown(runs), i) + |runs[i].text| <= |ShownAt(nodes)|
    ensures Spells(nodes, Shown(runs)[i], ShownAt(nodes), Passed(Shown(runs), i), t)
    ensures CharAt(nodes, Char(runs[i].text[t], runs[i].styles), ShownAt(nodes)[Passed(Shown(runs), i) + t])
  {
    hide StylesOf, Distinct, OpenMarks, Chars, Grouped, Spelled, Passed, ShownAt, AlikeAt, AttributesAt, Attributes, Shown;
    var from, at := Passed(Shown(runs), i), ShownAt(nodes);
    GroupedSpells(Chars(nodes));
    CharsAre(nodes);
    SpelledAt(runs, i, t);
    SpelledAt(runs, i, 0);
    ShownIs(runs, i);
    assert CharAt(nodes, Chars(nodes)[from + t], at[from + t]) && CharAt(nodes, Chars(nodes)[from + 0], at[from]);
    ShownAttributes(nodes, at[from + t], runs[i].styles);
    AlikeStyles(nodes, at[from], at[from + t]);
  }

  lemma {:induction false} ShownIs(runs: seq<Run>, i: nat)
    requires i < |runs|
    ensures |Shown(runs)| == |runs| && Shown(runs)[i] == DeltaOp(runs[i].text, Attributes(runs[i].styles))
  {
  }

  lemma {:induction false} RunsCut(nodes: seq<Node>, runs: seq<Run>, i: nat)
    requires Distinct(nodes) && runs == Grouped(Chars(nodes)) && 0 < i < |runs|
    ensures Cut(nodes, Shown(runs), ShownAt(nodes), i)
  {
    hide StylesOf, Distinct, OpenMarks, Chars, Grouped, Passed, ShownAt, AlikeAt, Spells;
    GroupedSpells(Chars(nodes));
    var h := i - 1;
    assert runs[h].text != [] && runs[i].text != [] && runs[h].styles != runs[i].styles;
    RunSpells(nodes, runs, h, 0);
    RunSpells(nodes, runs, i, 0);
    var at := ShownAt(nodes);
    AlikeStyles(nodes, at[Passed(Shown(runs), h) + 0], at[Passed(Shown(runs), i) + 0]);
  }

  /** The characters grouped by style, as they are shown, are the Text rendered. */
  lemma {:induction false} GroupedRendered(nodes: seq<Node>)
    requires Distinct(nodes)
    ensures Rendered(nodes, Shown(Grouped(Chars(nodes))))
  {
    hide StylesOf, Distinct, OpenMarks, Chars, Grouped, Passed, ShownAt, AlikeAt, Spells, Cut, Spelled;
    var runs, at := Grouped(Chars(nodes)), ShownAt(nodes);
    var out := Shown(runs);
    GroupedSpells(Chars(nodes));
    SpelledSize(runs);
    CharsAre(nodes);
    forall i | 0 <= i < |out| ensures RunRight(nodes, out, at, i) {
      assert runs[i].text != [];
      RunSpells(nodes, runs, i, 0);
      forall t | 0 <= t < |out[i].text| ensures Spells(nodes, out[i], at, Passed(out, i), t) { RunSpells(nodes, runs, i, t); }
    }
    forall i | 0 < i < |out| ensures Cut(nodes, out, at, i) { RunsCut(nodes, runs, i); }
  }
}
