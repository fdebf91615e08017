/** Rendering a merged Text as styled runs, in one pass over its elements. */
module Deltas {
  import opened Common
  import opened SeqTypes
  import opened RichTexts
  import opened RenderedTexts

  /** Whether the mark with this start anchor counts: its end anchor comes later, both live. */
  ghost predicate BothIn(nodes: seq<Node>, id: Id) {
    exists m: nat :: m < |nodes| && Starts(nodes[m]) && nodes[m].id == id && OpenAt(nodes, m, m + 1)
  }

  /** The marks listed are distinct and just the open ones of key k. */
  ghost predicate KeyRight(open: set<Mark>, k: Value, list: seq<Mark>) {
    && (forall x: Mark :: x in list <==> x in open && x.info.key == k)
    && (forall i, j :: 0 <= i < j < |list| ==> list[i] != list[j])
  }

  function ListFor(byKey: map<Value, seq<Mark>>, k: Value): seq<Mark> { if k in byKey then byKey[k] else [] }

  ghost predicate OpenRight(open: map<Id, Mark>, marks: set<Mark>) {
    && (forall id :: id in open ==> open[id].id == id && open[id] in marks)
    && (forall x :: x in marks ==> x.id in open && open[x.id] == x)
  }

  ghost predicate WinnerRight(winner: map<Value, Mark>, marks: set<Mark>, k: Value) {
    && (k in winner ==> Decides(marks, winner[k]) && winner[k].info.key == k)
    && (k !in winner ==> forall x :: x in marks ==> x.info.key != k)
  }

  /** A Text's elements: characters and style anchors, with ids and mark writers of their own. */
  ghost predicate TextNodes(nodes: seq<Node>) {
    && Distinct(nodes) && (forall i :: 0 <= i < |nodes| ==> !nodes[i].cell.Position?)
    && forall i, j :: 0 <= i < j < |nodes| && Starts(nodes[i]) && Starts(nodes[j]) ==>
         MarkOf(nodes[i]).writer.After(MarkOf(nodes[j]).writer) || MarkOf(nodes[j]).writer.After(MarkOf(nodes[i]).writer)
  }

  /** The marks with both anchors in, the start first, neither deleted. */
  method FindComplete(nodes: seq<Node>) returns (complete: set<Id>)
    requires TextNodes(nodes)
    ensures forall id :: id in complete <==> BothIn(nodes, id)
  {
    hide TextNodes, BothIn;
    var begun: set<Id> := {};
    complete := {};
    for i := 0 to |nodes|
      invariant forall id :: id in begun <==> BegunBy(nodes, i, id)
      invariant forall id :: id in complete <==> CompleteBy(nodes, i, id)
    {
      BegunNext(nodes, i);
      CompleteNext(nodes, i);
      var n := nodes[i];
      if IsLive(n) {
        if n.cell.StartAnchor? {
          begun := begun + {n.id};
        } else if n.cell.EndAnchor? {
          var start := StartOf(n.id);
          if start in begun { complete := complete + {start}; }
        }
      }
    }
    forall id ensures CompleteBy(nodes, |nodes|, id) <==> BothIn(nodes, id) { AllComplete(nodes, id); }
  }

  ghost predicate BegunBy(nodes: seq<Node>, c: nat, id: Id)
    requires c <= |nodes|
  {
    exists m: nat :: m < c && Starts(nodes[m]) && nodes[m].id == id
  }

  ghost predicate CompleteBy(nodes: seq<Node>, c: nat, id: Id)
    requires c <= |nodes|
  {
    exists e: nat :: e < c && EndsMark(nodes[e]) && StartOf(nodes[e].id) == id && BegunBy(nodes, e, id)
  }

  lemma {:induction false} BegunNext(nodes: seq<Node>, i: nat)
    requires i < |nodes|
    ensures forall id: Id :: BegunBy(nodes, i + 1, id) <==> BegunBy(nodes, i, id) || (Starts(nodes[i]) && nodes[i].id == id)
  {
    forall id: Id ensures BegunBy(nodes, i + 1, id) <==> BegunBy(nodes, i, id) || (Starts(nodes[i]) && nodes[i].id == id) {}
  }

  lemma {:induction false} CompleteNext(nodes: seq<Node>, i: nat)
    requires i < |nodes|
    ensures forall id: Id :: CompleteBy(nodes, i + 1, id) <==>
      CompleteBy(nodes, i, id) || (EndsMark(nodes[i]) && StartOf(nodes[i].id) == id && BegunBy(nodes, i, id))
  {
    hide BegunBy;
    forall id: Id ensures CompleteBy(nodes, i + 1, id) <==>
      CompleteBy(nodes, i, id) || (EndsMark(nodes[i]) && StartOf(nodes[i].id) == id && BegunBy(nodes, i, id)) {}
  }

  lemma {:induction false} AllComplete(nodes: seq<Node>, id: Id)
    ensures CompleteBy(nodes, |nodes|, id) <==> BothIn(nodes, id)
  {
    if CompleteBy(nodes, |nodes|, id) {
      var e: nat :| e < |nodes| && EndsMark(nodes[e]) && StartOf(nodes[e].id) == id && BegunBy(nodes, e, id);
      var m: nat :| m < e && Starts(nodes[m]) && nodes[m].id == id;
      assert OpenAt(nodes, m, m + 1);
    }
    if BothIn(nodes, id) {
      var m: nat :| m < |nodes| && Starts(nodes[m]) && nodes[m].id == id && OpenAt(nodes, m, m + 1);
      var e :| m + 1 <= e < |nodes| && EndsMark(nodes[e]) && StartOf(nodes[e].id) == nodes[m].id;
      assert BegunBy(nodes, e, id);
    }
  }

  // ----- the marks kept -----

  /** The open marks by id, by key in the order begun, and the one that decides each key. */
  ghost predicate MarksRight(open: map<Id, Mark>, byKey: map<Value, seq<Mark>>, winner: map<Value, Mark>, marks: set<Mark>) {
    OpenRight(open, marks) && KeysRight(byKey, marks) && WinnersRight(winner, marks)
  }

  ghost predicate KeysRight(byKey: map<Value, seq<Mark>>, marks: set<Mark>) {
    forall k: Value :: KeyRight(marks, k, ListFor(byKey, k))
  }

  ghost predicate WinnersRight(winner: map<Value, Mark>, marks: set<Mark>) {
    forall k: Value :: WinnerRight(winner, marks, k)
  }

  lemma {:induction false} NoMarks(nodes: seq<Node>)
    ensures OpenMarks(nodes, 0) == {} && MarksRight(map[], map[], map[], {}) && StylesOf({}) == map[]
  {
  }

  /** Nodes that begin or end no mark. */
  lemma {:induction false} SameOpen(nodes: seq<Node>, c: nat)
    requires c < |nodes| && !Starts(nodes[c]) && !EndsMark(nodes[c])
    ensures OpenMarks(nodes, c + 1) == OpenMarks(nodes, c)
  {
    forall m: nat ensures OpenAt(nodes, m, c + 1) <==> OpenAt(nodes, m, c) {}
    assert forall x :: x in OpenMarks(nodes, c + 1) <==> x in OpenMarks(nodes, c);
  }

  /** A live start anchor opens its mark if that is complete. */
  lemma {:induction false} MarkOpens(nodes: seq<Node>, c: nat)
    requires c < |nodes| && Starts(nodes[c]) && TextNodes(nodes)
    ensures BothIn(nodes, nodes[c].id) ==> OpenMarks(nodes, c + 1) == OpenMarks(nodes, c) + {MarkOf(nodes[c])}
    ensures !BothIn(nodes, nodes[c].id) ==> OpenMarks(nodes, c + 1) == OpenMarks(nodes, c)
    ensures forall x :: x in OpenMarks(nodes, c) ==> x.id != nodes[c].id
  {
    hide TextNodes;
    CompleteHere(nodes, c);
    forall m: nat | m < c ensures OpenAt(nodes, m, c + 1) <==> OpenAt(nodes, m, c) { StillOpen(nodes, m, c); }
    var was, now := OpenMarks(nodes, c), OpenMarks(nodes, c + 1);
    forall x ensures x in now <==> x in was || (OpenAt(nodes, c, c + 1) && x == MarkOf(nodes[c])) {
      if x in now {
        var m :| 0 <= m < c + 1 && OpenAt(nodes, m, c + 1) && MarkOf(nodes[m]) == x;
      }
    }
    forall x | x in was ensures x.id != nodes[c].id {
      var m :| 0 <= m < c && OpenAt(nodes, m, c) && MarkOf(nodes[m]) == x;
      NotSame(nodes, m, c);
    }
  }

  lemma {:induction false} CompleteHere(nodes: seq<Node>, c: nat)
    requires c < |nodes| && Starts(nodes[c]) && TextNodes(nodes)
    ensures BothIn(nodes, nodes[c].id) <==> OpenAt(nodes, c, c + 1)
  {
    hide TextNodes, OpenAt;
    if BothIn(nodes, nodes[c].id) {
      var m: nat :| m < |nodes| && Starts(nodes[m]) && nodes[m].id == nodes[c].id && OpenAt(nodes, m, m + 1);
      OneNode(nodes, m, c);
    }
  }

  lemma {:induction false} StillOpen(nodes: seq<Node>, m: nat, c: nat)
    requires m < c < |nodes| && !EndsMark(nodes[c])
    ensures OpenAt(nodes, m, c + 1) <==> OpenAt(nodes, m, c)
  {
  }

  lemma {:induction false} OneNode(nodes: seq<Node>, i: nat, j: nat)
    requires TextNodes(nodes) && i < |nodes| && j < |nodes| && nodes[i].id == nodes[j].id
    ensures i == j
  {
  }

  lemma {:induction false} NotSame(nodes: seq<Node>, i: nat, j: nat)
    requires TextNodes(nodes) && i < j < |nodes|
    ensures nodes[i].id != nodes[j].id
  {
  }

  /** A live end anchor closes its mark, if that is open. */
  lemma {:induction false} MarkCloses(nodes: seq<Node>, c: nat)
    requires c < |nodes| && EndsMark(nodes[c]) && TextNodes(nodes)
    ensures forall x :: x in OpenMarks(nodes, c + 1) <==> x in OpenMarks(nodes, c) && x.id != StartOf(nodes[c].id)
  {
    var was, now := OpenMarks(nodes, c), OpenMarks(nodes, c + 1);
    forall x ensures x in now <==> x in was && x.id != StartOf(nodes[c].id) {
      if x in now {
        var m :| 0 <= m < c + 1 && OpenAt(nodes, m, c + 1) && MarkOf(nodes[m]) == x;
        StaysOpen(nodes, m, c);
      }
      if x in was {
        var m :| 0 <= m < c && OpenAt(nodes, m, c) && MarkOf(nodes[m]) == x;
        StaysOpen(nodes, m, c);
      }
    }
  }

  lemma {:induction false} StaysOpen(nodes: seq<Node>, m: nat, c: nat)
    requires m <= c < |nodes| && EndsMark(nodes[c]) && TextNodes(nodes)
    ensures OpenAt(nodes, m, c + 1) <==> OpenAt(nodes, m, c) && nodes[m].id != StartOf(nodes[c].id)
  {
    if OpenAt(nodes, m, c + 1) {
      var e :| c + 1 <= e < |nodes| && EndsMark(nodes[e]) && StartOf(nodes[e].id) == nodes[m].id;
      NotSame(nodes, c, e);
    }
    if OpenAt(nodes, m, c) && nodes[m].id != StartOf(nodes[c].id) {
      var e :| c <= e < |nodes| && EndsMark(nodes[e]) && StartOf(nodes[e].id) == nodes[m].id;
      assert e != c;
    }
  }

  lemma {:induction false} OpenApart(nodes: seq<Node>, c: nat)
    requires c <= |nodes| && TextNodes(nodes)
    ensures WritersApart(OpenMarks(nodes, c))
  {
    var marks := OpenMarks(nodes, c);
    forall x, y | x in marks && y in marks && x != y ensures x.writer.After(y.writer) || y.writer.After(x.writer) {
      var m :| 0 <= m < c && OpenAt(nodes, m, c) && MarkOf(nodes[m]) == x;
      var n :| 0 <= n < c && OpenAt(nodes, n, c) && MarkOf(nodes[n]) == y;
      assert m != n;
    }
  }

  /** What the winners say is what the open marks decide. */
  lemma {:induction false} WinnersStyle(winner: map<Value, Mark>, marks: set<Mark>)
    requires WinnersRight(winner, marks)
    ensures (map k | k in winner :: winner[k].info.value) == StylesOf(marks)
  {
    hide StylesOf, Decides;
    var styles: Styles := map k | k in winner :: winner[k].info.value;
    forall k: Value ensures k in styles <==> k in StylesOf(marks)
      ensures k in styles ==> styles[k] == StylesOf(marks)[k]
    {
      assert WinnerRight(winner, marks, k);
      if k in winner { StyledBy(marks, winner[k]); }
      if k in StylesOf(marks) {
        StyledOnly(marks, k);
        var mk :| Decides(marks, mk) && mk.info.key == k;
        DecidesIn(marks, mk);
      }
    }
  }

  lemma {:induction false} DecidesIn(marks: set<Mark>, mk: Mark)
    requires Decides(marks, mk)
    ensures mk in marks
  {
  }

  /** A change among one key's marks leaves the others' winners. */
  lemma {:induction false} OthersSame(winner: map<Value, Mark>, marks: set<Mark>, was: set<Mark>, key: Value)
    requires WinnersRight(winner, was) && forall x: Mark :: x.info.key != key ==> (x in marks <==> x in was)
    ensures forall k: Value :: k != key ==> WinnerRight(winner, marks, k)
  {
    forall k: Value | k != key ensures WinnerRight(winner, marks, k) { assert WinnerRight(winner, was, k); }
  }

  lemma {:induction false} SettledKey(winner: map<Value, Mark>, now: map<Value, Mark>, marks: set<Mark>, key: Value)
    requires forall k: Value :: k != key ==> WinnerRight(winner, marks, k)
    requires WinnerRight(now, marks, key)
    requires forall k: Value :: k != key ==> (k in now <==> k in winner) && (k in now ==> now[k] == winner[k])
    ensures WinnersRight(now, marks)
  {
    hide Decides;
    forall k: Value ensures WinnerRight(now, marks, k) {
      if k != key { assert WinnerRight(winner, marks, k); }
    }
  }

  /** The latest of a key's marks decides it. */
  lemma {:induction false} Latest(marks: set<Mark>, key: Value, list: seq<Mark>, win: Mark)
    requires KeyRight(marks, key, list) && win in list && forall j :: 0 <= j < |list| ==> list[j] == win || win.writer.After(list[j].writer)
    ensures Decides(marks, win) && win.info.key == key
  {
    forall x | x in marks && x.info.key == key ensures x == win || win.writer.After(x.writer) {
      assert x in list;
      var j :| 0 <= j < |list| && list[j] == x;
    }
  }

  lemma {:induction false} LaterOf(marks: set<Mark>, key: Value, list: seq<Mark>, i: nat, win: Mark)
    requires KeyRight(marks, key, list) && WritersApart(marks) && i < |list| && win in list[..i]
    requires forall j :: 0 <= j < i ==> list[j] == win || win.writer.After(list[j].writer)
    ensures var best := if list[i].writer.After(win.writer) then list[i] else win;
      best in list[..i + 1] && forall j :: 0 <= j <= i ==> list[j] == best || best.writer.After(list[j].writer)
  {
    assert list[..i + 1] == list[..i] + [list[i]];
    assert list[i] in marks && win in marks by { assert list[i] in list && win in list; }
    var k :| 0 <= k < i && list[..i][k] == win;
    assert list[k] != list[i];
  }

  lemma {:induction false} ListMore(byKey: map<Value, seq<Mark>>, marks: set<Mark>, mk: Mark)
    requires KeysRight(byKey, marks) && mk !in marks
    ensures KeysRight(byKey[mk.info.key := ListFor(byKey, mk.info.key) + [mk]], marks + {mk})
  {
    var now := byKey[mk.info.key := ListFor(byKey, mk.info.key) + [mk]];
    forall k: Value ensures KeyRight(marks + {mk}, k, ListFor(now, k)) { assert KeyRight(marks, k, ListFor(byKey, k)); }
  }

  lemma {:induction false} ListLess(byKey: map<Value, seq<Mark>>, marks: set<Mark>, less: set<Mark>, mk: Mark, i: nat)
    requires KeysRight(byKey, marks) && i < |ListFor(byKey, mk.info.key)| && ListFor(byKey, mk.info.key)[i] == mk
    requires forall x :: x in less <==> x in marks && x != mk
    ensures KeysRight(byKey[mk.info.key := ListFor(byKey, mk.info.key)[..i] + ListFor(byKey, mk.info.key)[i + 1..]], less)
  {
    var list := ListFor(byKey, mk.info.key);
    var now := byKey[mk.info.key := list[..i] + list[i + 1..]];
    forall k: Value ensures KeyRight(less, k, ListFor(now, k)) {
      assert KeyRight(marks, k, ListFor(byKey, k));
      if k == mk.info.key { CutOne(list, i); }
    }
  }

  lemma {:induction false} CutOne(list: seq<Mark>, i: nat)
    requires i < |list| && forall a, b :: 0 <= a < b < |list| ==> list[a] != list[b]
    ensures var r := list[..i] + list[i + 1..];
      && (forall x: Mark :: x in r <==> x in list && x != list[i])
      && forall a, b :: 0 <= a < b < |r| ==> r[a] != r[b]
  {
    assert list == list[..i] + [list[i]] + list[i + 1..];
  }

  // ----- the runs kept -----

  /** The runs out and the one begun are the characters so far, grouped. */
  ghost predicate Renders(out: seq<DeltaOp>, run: seq<Value>, styles: Styles, cs: seq<Char>) {
    var runs := Grouped(cs);
    if run == [] then runs == [] && out == []
    else runs != [] && runs[|runs| - 1] == Run(run, styles) && out == Shown(runs[..|runs| - 1])
  }

  lemma {:induction false} Continues(out: seq<DeltaOp>, run: seq<Value>, styles: Styles, cs: seq<Char>, c: Char)
    requires Renders(out, run, styles, cs) && (run == [] || c.styles == styles)
    ensures Renders(out, run + [c.value], c.styles, cs + [c])
  {
    assert (cs + [c])[..|cs|] == cs;
    var was, now := Grouped(cs), Grouped(cs + [c]);
    assert now == Extended(was, c);
    if run == [] {
      assert [] + [c.value] == [c.value] && now[..0] == [];
    } else {
      assert now[..|now| - 1] == was[..|was| - 1];
    }
  }

  lemma {:induction false} Breaks(out: seq<DeltaOp>, run: seq<Value>, styles: Styles, cs: seq<Char>, c: Char)
    requires Renders(out, run, styles, cs) && run != [] && c.styles != styles
    ensures Renders(out + [DeltaOp(run, Attributes(styles))], [] + [c.value], c.styles, cs + [c])
  {
    assert (cs + [c])[..|cs|] == cs;
    var was, now := Grouped(cs), Grouped(cs + [c]);
    assert now == was + [Run([c.value], c.styles)];
    assert now[..|now| - 1] == was && was == was[..|was| - 1] + [was[|was| - 1]];
  }

  lemma {:induction false} AllOut(out: seq<DeltaOp>, run: seq<Value>, styles: Styles, cs: seq<Char>)
    requires Renders(out, run, styles, cs)
    ensures (if run == [] then out else out + [DeltaOp(run, Attributes(styles))]) == Shown(Grouped(cs))
  {
    var was := Grouped(cs);
    if run != [] { assert was == was[..|was| - 1] + [was[|was| - 1]]; }
  }

  lemma {:induction false} CharsNext(nodes: seq<Node>, c: nat)
    requires c < |nodes|
    ensures CharsTo(nodes, c + 1) == if Shows(nodes[c]) then CharsTo(nodes, c) + [Char(nodes[c].cell.value, StylesOf(OpenMarks(nodes, c)))] else CharsTo(nodes, c)
  {
  }

  class DeltaBuilder {
    const nodes: seq<Node>
    const complete: set<Id>
    var open: map<Id, Mark>
    var byKey: map<Value, seq<Mark>>
    var winner: map<Value, Mark>
    var changed: bool
    var out: seq<DeltaOp>
    var run: seq<Value>
    var runStyles: Styles

    ghost predicate Fixed() {
      TextNodes(nodes) && forall id :: id in complete <==> BothIn(nodes, id)
    }

    /** Everything kept is as nodes[..c] leave it. */
    ghost predicate At(c: nat)
      reads this
    {
      && c <= |nodes| && MarksRight(open, byKey, winner, OpenMarks(nodes, c)) && Renders(out, run, runStyles, CharsTo(nodes, c))
      && (!changed ==> runStyles == StylesOf(OpenMarks(nodes, c)))
    }

    constructor (nodes: seq<Node>, complete: set<Id>)
      ensures At(0) && this.nodes == nodes && this.complete == complete
    {
      this.nodes, this.complete := nodes, complete;
      open, byKey, winner, changed := map[], map[], map[], false;
      out, run, runStyles := [], [], map[];
      new;
      NoMarks(nodes);
    }

    /** Works out anew which open mark decides the key. */
    method Settle(key: Value, ghost marks: set<Mark>, ghost was: set<Mark>)
      requires WritersApart(marks) && KeysRight(byKey, marks) && WinnersRight(winner, was)
      requires forall x: Mark :: x.info.key != key ==> (x in marks <==> x in was)
      modifies this`winner, this`changed
      ensures changed && WinnersRight(winner, marks)
    {
      hide Decides, KeysRight, WinnersRight, WritersApart;
      var list := ListFor(byKey, key);
      KeyAt(byKey, marks, key);
      OthersSame(winner, marks, was, key);
      ghost var before := winner;
      if list == [] {
        NoneOf(marks, key, list);
        winner := winner - {key};
        SettledKey(before, winner, marks, key);
      } else {
        var win := list[0];
        assert list[..1] == [win];
        for i := 1 to |list|
          invariant winner == before
          invariant win in list[..i] && forall j :: 0 <= j < i ==> list[j] == win || win.writer.After(list[j].writer)
        {
          LaterOf(marks, key, list, i, win);
          if list[i].writer.After(win.writer) { win := list[i]; }
        }
        assert list[..|list|] == list;
        Latest(marks, key, list, win);
        winner := winner[key := win];
        SettledKey(before, winner, marks, key);
      }
      changed := true;
    }

    /** Ends the run begun, if one is. */
    method Flush()
      modifies this`out, this`run
      ensures run == [] && out == if old(run) == [] then old(out) else old(out) + [DeltaOp(old(run), Attributes(runStyles))]
    {
      if run == [] { return; }
      out := out + [DeltaOp(run, Attributes(runStyles))];
      run := [];
    }

    /** A character joins the run begun, or ends it when its styles differ. */
    method Character(c: nat)
      requires At(c) && c < |nodes| && Shows(nodes[c])
      modifies this`changed, this`out, this`run, this`runStyles
      ensures At(c + 1)
    {
      hide OpenRight, KeysRight, WinnersRight, OpenMarks, StylesOf, CharsTo, Renders, Attributes;
      SameOpen(nodes, c);
      CharsNext(nodes, c);
      ghost var marks, cs := OpenMarks(nodes, c), CharsTo(nodes, c);
      ghost var ch := Char(nodes[c].cell.value, StylesOf(marks));
      Continue(cs, ch);
      if changed {
        changed := false;
        WinnersStyle(winner, marks);
        var styles := map k | k in winner :: winner[k].info.value;
        if runStyles != styles {
          Flush();
          runStyles := styles;
        }
      }
      run := run + [nodes[c].cell.value];
    }

    lemma {:induction false} Continue(cs: seq<Char>, ch: Char)
      requires Renders(out, run, runStyles, cs)
      ensures run == [] || ch.styles == runStyles ==> Renders(out, run + [ch.value], ch.styles, cs + [ch])
      ensures run != [] && ch.styles != runStyles ==> Renders(out + [DeltaOp(run, Attributes(runStyles))], [] + [ch.value], ch.styles, cs + [ch])
    {
      hide Renders, Attributes;
      if run == [] || ch.styles == runStyles {
        Continues(out, run, runStyles, cs, ch);
      } else {
        Breaks(out, run, runStyles, cs, ch);
      }
    }

    /** A complete mark begins. */
    method StartAnchor(c: nat)
      requires Fixed() && At(c) && c < |nodes| && Starts(nodes[c])
      modifies this`open, this`byKey, this`winner, this`changed
      ensures At(c + 1)
    {
      hide OpenMarks, StylesOf, CharsTo, Renders, WinnersRight, KeysRight, OpenRight, TextNodes, BothIn;
      MarkOpens(nodes, c);
      CharsNext(nodes, c);
      var n := nodes[c];
      if n.id !in complete { return; }
      var mk := MarkOf(n);
      ghost var marks := OpenMarks(nodes, c);
      OpenMore(open, marks, mk);
      ListMore(byKey, marks, mk);
      OpenApart(nodes, c + 1);
      open := open[n.id := mk];
      byKey := byKey[mk.info.key := ListFor(byKey, mk.info.key) + [mk]];
      Settle(mk.info.key, OpenMarks(nodes, c + 1), marks);
    }

    /** A mark ends, if it was open. */
    method CloseAnchor(c: nat)
      requires Fixed() && At(c) && c < |nodes| && EndsMark(nodes[c])
      modifies this`open, this`byKey, this`winner, this`changed
      ensures At(c + 1)
    {
      hide OpenMarks, StylesOf, CharsTo, Renders, WinnersRight, KeysRight, OpenRight, TextNodes, BothIn;
      MarkCloses(nodes, c);
      CharsNext(nodes, c);
      var id := StartOf(nodes[c].id);
      ghost var marks, less := OpenMarks(nodes, c), OpenMarks(nodes, c + 1);
      OpenLess(open, marks, less, id);
      if id !in open { return; }
      var mk := open[id];
      open := open - {id};
      var list := ListFor(byKey, mk.info.key);
      KeyAt(byKey, marks, mk.info.key);
      var i := 0;
      while i < |list| && list[i] != mk
        invariant i <= |list| && mk !in list[..i]
      {
        assert list[..i + 1] == list[..i] + [list[i]];
        i := i + 1;
      }
      assert list[..|list|] == list;
      if i < |list| {
        ListLess(byKey, marks, less, mk, i);
        byKey := byKey[mk.info.key := list[..i] + list[i + 1..]];
      }
      OpenApart(nodes, c + 1);
      Settle(mk.info.key, less, marks);
    }

    /** One pass over all the elements. */
    method Render()
      requires Fixed() && At(0)
      modifies this
      ensures out == Shown(Grouped(Chars(nodes)))
    {
      hide At, Fixed, Grouped, Attributes;
      var c := 0;
      while c < |nodes|
        invariant 0 <= c <= |nodes| && At(c)
      {
        var n := nodes[c];
        Skip(c);
        if IsLive(n) {
          match n.cell {
            case StartAnchor(_, _) => StartAnchor(c);
            case EndAnchor => CloseAnchor(c);
            case Plain(_) => Character(c);
            case Position(_) => NoPosition(c);
          }
        }
        c := c + 1;
      }
      Done();
      Flush();
    }

    lemma {:induction false} Skip(c: nat)
      requires At(c) && c < |nodes|
      ensures !IsLive(nodes[c]) ==> At(c + 1)
    {
      hide OpenMarks, StylesOf, CharsTo, Renders, MarksRight;
      CharsNext(nodes, c);
      if !IsLive(nodes[c]) { SameOpen(nodes, c); }
    }

    lemma {:induction false} NoPosition(c: nat)
      requires Fixed() && c < |nodes| && At(c)
      ensures nodes[c].cell.Position? ==> At(c + 1)
    {
    }

    lemma {:induction false} Done()
      requires At(|nodes|)
      ensures (if run == [] then out else out + [DeltaOp(run, Attributes(runStyles))]) == Shown(Grouped(Chars(nodes)))
    {
      hide Renders, Attributes;
      AllOut(out, run, runStyles, Chars(nodes));
    }
  }

  lemma {:induction false} KeyAt(byKey: map<Value, seq<Mark>>, marks: set<Mark>, k: Value)
    requires KeysRight(byKey, marks)
    ensures KeyRight(marks, k, ListFor(byKey, k))
  {
  }

  lemma {:induction false} NoneOf(marks: set<Mark>, k: Value, list: seq<Mark>)
    requires KeyRight(marks, k, list) && list == []
    ensures forall x :: x in marks ==> x.info.key != k
  {
    forall x | x in marks ensures x.info.key != k { assert x in list <==> x in marks && x.info.key == k; }
  }

  lemma {:induction false} OpenMore(open: map<Id, Mark>, marks: set<Mark>, mk: Mark)
    requires OpenRight(open, marks) && forall x :: x in marks ==> x.id != mk.id
    ensures OpenRight(open[mk.id := mk], marks + {mk}) && mk !in marks
  {
  }

  lemma {:induction false} OpenLess(open: map<Id, Mark>, marks: set<Mark>, less: set<Mark>, id: Id)
    requires OpenRight(open, marks) && forall x :: x in less <==> x in marks && x.id != id
    ensures OpenRight(open - {id}, less)
    ensures id !in open ==> less == marks
    ensures id in open ==> open[id] in marks && forall x :: x in less <==> x in marks && x != open[id]
  {
  }

  /** A merged Text as styled runs. */
  method Delta(nodes: seq<Node>) returns (out: seq<DeltaOp>)
    requires TextNodes(nodes)
    ensures Rendered(nodes, out)
  {
    hide BothIn, Rendered, Grouped;
    GroupedRendered(nodes);
    var complete := FindComplete(nodes);
    var b := new DeltaBuilder(nodes, complete);
    b.Render();
    out := b.out;
  }
}
