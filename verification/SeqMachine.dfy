/** The sequence merge as it runs: a live count, a cursor and the everything-in-view shortcut,
    each shown to make no difference. */
module SeqMachine {
  import opened Common
  import opened KeyOrder
  import opened SeqTypes
  import opened SeqOrder
  import opened SeqScan
  import opened SeqInsert
  import opened SeqReference
  import opened SeqEdits
  import opened SeqFits
  import opened SeqPlan
  import opened SeqEffect
  import opened SeqApply
  import opened SeqSwap
  import opened SeqLive
  import opened Ops

  /** `before` live elements lie ahead of index `idx`. */
  datatype Cursor = Cursor(ok: bool, idx: nat, before: int)

  const NoCursor := Cursor(false, 0, 0)

  ghost predicate CursorRight(c: Cursor, nodes: seq<Node>) {
    c.ok ==> c.idx <= |nodes| && c.before == Live(nodes[..c.idx])
  }

  /** Each element's left origin, by id. */
  ghost predicate LeftsRight(lefts: map<Id, Option<Id>>, nodes: seq<Node>) {
    lefts.Keys == Ids(nodes) && forall i :: 0 <= i < |nodes| ==> LeftRight(lefts, nodes[i])
  }

  ghost predicate LeftRight(lefts: map<Id, Option<Id>>, n: Node) {
    n.id in lefts && lefts[n.id] == n.left
  }

  ghost predicate HasKeys(nodes: seq<Node>) {
    exists key :: Ordered(nodes, key)
  }

  /** What the shortcut claims: with `all` the author has everything merged, otherwise `past` is
      its view. */
  ghost predicate ViewRight(nodes: seq<Node>, all: bool, past: View, v: View) {
    if all then AllInView(nodes, v) else past == v
  }

  lemma {:induction false} LiveAt(nodes: seq<Node>, v: View, i: nat)
    requires AllInView(nodes, v) && i < |nodes| && nodes[i].deleters == {}
    ensures Visible(nodes[i], v) && Live(nodes[..i]) < |Seen(nodes, v)| && Nth(nodes, v, Live(nodes[..i])) == i
  {
    assert InView(nodes[i], v);
    InViewVisible(nodes[i], v);
    LiveIsSeen(nodes[..i], v);
    NthIs(nodes, v, i);
  }

  lemma {:induction false} SeenStep(nodes: seq<Node>, v: View, i: nat)
    requires i < |nodes|
    ensures |Seen(nodes[..i + 1], v)| == |Seen(nodes[..i], v)| + if Visible(nodes[i], v) then 1 else 0
  {
    assert nodes[..i + 1][..i] == nodes[..i];
  }

  lemma {:induction false} WholeLive(nodes: seq<Node>)
    ensures Live(nodes[..|nodes|]) == Live(nodes) && Live(nodes[..0]) == 0
  {
    assert nodes[..|nodes|] == nodes && nodes[..0] == [];
  }

  lemma {:induction false} WholeSeen(nodes: seq<Node>, v: View)
    ensures Seen(nodes[..|nodes|], v) == Seen(nodes, v) && Seen(nodes[..0], v) == []
  {
    assert nodes[..|nodes|] == nodes && nodes[..0] == [];
  }

  function Abs(x: int): nat { if x < 0 then -x else x }

  class SeqState {
    var nodes: seq<Node>
    var lefts: map<Id, Option<Id>>
    var live: int
    var cursor: Cursor
    var pendingEnd: map<Id, int>
    var elems: map<ElemKey, Elem>
    const strict: bool

    constructor (strict: bool)
      ensures Valid() && Value() == EmptySeq && this.strict == strict
    {
      nodes, lefts, live, cursor, pendingEnd, elems := [], map[], 0, NoCursor, map[], map[];
      this.strict := strict;
      new;
      assert Ordered([], map[]);
    }

    ghost predicate Valid()
      reads this
    {
      live == Live(nodes) && CursorRight(cursor, nodes) && LeftsRight(lefts, nodes) && HasKeys(nodes)
    }

    ghost function Value(): SeqVal
      reads this
    {
      SeqVal(nodes, pendingEnd, elems)
    }

    /** The i with want == Live(nodes[..i]) and nodes[i] live, from any idx whose count is known. */
    method WalkLive(idx: nat, before: int, want: int) returns (i: nat)
      requires idx <= |nodes| && before == Live(nodes[..idx]) && 0 <= want < Live(nodes)
      ensures i < |nodes| && nodes[i].deleters == {} && Live(nodes[..i]) == want
    {
      hide Live;
      var b := before;
      i := idx;
      WholeLive(nodes);
      if want >= before {
        while i < |nodes|
          invariant i <= |nodes| && b == Live(nodes[..i]) <= want
        {
          LiveStep(nodes, i);
          if nodes[i].deleters == {} {
            if b == want { return; }
            b := b + 1;
          }
          i := i + 1;
        }
        assert false;
      } else {
        while i > 0
          invariant i <= |nodes| && b == Live(nodes[..i]) > want
        {
          i := i - 1;
          LiveStep(nodes, i);
          if nodes[i].deleters == {} {
            b := b - 1;
            if b == want { return; }
          }
        }
        assert false;
      }
    }

    /** Where to walk from to the live element at position `want`: the nearest of the front, the
        back and the cursor. */
    method Nearest(want: int) returns (idx: nat, before: int)
      requires live == Live(nodes) && CursorRight(cursor, nodes) && 0 <= want < live
      ensures idx <= |nodes| && before == Live(nodes[..idx])
    {
      idx, before := 0, 0;
      var dist, back := want, live - 1 - want;
      WholeLive(nodes);
      if back < dist { idx, before, dist := |nodes|, live, back; }
      if cursor.ok && Abs(want - cursor.before) <= dist { idx, before := cursor.idx, cursor.before; }
    }

    /** The pos-th element (from 1) of an author who has everything merged. */
    method LocateLive(pos: int, ghost v: View) returns (r: Option<int>)
      requires Valid() && pos > 0 && AllInView(nodes, v)
      modifies `cursor
      ensures Valid() && r == Locate(nodes, v, pos, strict)
    {
      hide Seen, Live, LeftsRight, HasKeys, AllInView;
      LiveIsSeen(nodes, v);
      if strict && pos > live { return None; }
      if live == 0 { return Some(-1); }
      var want := Min(pos, live) - 1;
      var idx, before := Nearest(want);
      var i := WalkLive(idx, before, want);
      cursor := Cursor(true, i, want);
      LiveAt(nodes, v, i);
      r := Some(i);
    }

    /** The same for an author who has only part of it: a scan of the view. */
    method LocateSeen(pos: int, v: View) returns (r: Option<int>)
      requires pos > 0
      ensures r == Locate(nodes, v, pos, strict)
    {
      hide Seen, Visible;
      var seen, last, i := 0, -1, 0;
      WholeSeen(nodes, v);
      while i < |nodes|
        invariant 0 <= i <= |nodes| && seen == |Seen(nodes[..i], v)| < pos
        invariant if seen == 0 then last == -1
                  else 0 <= last < i && Visible(nodes[last], v) && |Seen(nodes[..last], v)| == seen - 1
      {
        SeenStep(nodes, v, i);
        if Visible(nodes[i], v) {
          last := i;
          seen := seen + 1;
          if seen == pos {
            NthIs(nodes, v, i);
            return Some(i);
          }
        }
        i := i + 1;
      }
      if seen > 0 { NthIs(nodes, v, last); }
      if strict { return None; }
      r := Some(last);
    }

    method LocateIn(pos: int, all: bool, past: View, ghost v: View) returns (r: Option<int>)
      requires Valid() && pos > 0 && ViewRight(nodes, all, past, v)
      modifies `cursor
      ensures Valid() && r == Locate(nodes, v, pos, strict)
    {
      if all { r := LocateLive(pos, v); } else { r := LocateSeen(pos, past); }
    }

    /** Nth(nodes, v, i), or -1 where v sees no more than i elements. */
    method NthVisible(i: int, all: bool, past: View, ghost v: View) returns (r: int)
      requires Valid() && ViewRight(nodes, all, past, v)
      modifies `cursor
      ensures Valid()
      ensures r == if 0 <= i < |Seen(nodes, v)| then Nth(nodes, v, i) else -1
    {
      hide Seen, Live, LeftsRight, HasKeys, CursorRight, AllInView, Visible;
      if i < 0 { return -1; }
      if all {
        LiveIsSeen(nodes, v);
        if i >= live { return -1; }
        var l := LocateLive(i + 1, v);
        return l.value;
      }
      var seen, j := 0, 0;
      WholeSeen(nodes, v);
      while j < |nodes|
        invariant 0 <= j <= |nodes| && seen == |Seen(nodes[..j], v)| <= i && Valid()
      {
        SeenStep(nodes, v, j);
        if Visible(nodes[j], past) {
          if seen == i {
            NthIs(nodes, v, j);
            return j;
          }
          seen := seen + 1;
        }
        j := j + 1;
      }
      assert nodes[..j] == nodes;
      r := -1;
    }
 
    /** The index of right origin r when its own left origin is `left`. The search starts where
        the last one stopped and remembers what it passed. */
    method FindRightParent(left: Option<Id>, r: Option<Id>, start: nat, index: map<Id, nat>, indexed: nat)
      returns (rp: Option<nat>, index': map<Id, nat>, indexed': nat)
      requires LeftsRight(lefts, nodes) && Distinct(nodes) && BetweenOrigins(nodes) && Present(nodes, r)
      requires start == LeftIndex(nodes, left) + 1 && start <= indexed <= |nodes| && Passed(nodes, index, start, indexed)
      ensures start <= indexed' <= |nodes| && Passed(nodes, index', start, indexed')
      ensures RightParent(nodes, left, r) == if rp.Some? then rp.value else |nodes|
      ensures rp.Some? ==> rp.value < |nodes|
    {
      hide Distinct, BetweenOrigins, Passed, LeftsRight, RightParent;
      index', indexed', rp := index, indexed, None;
      RightParentSeen(lefts, nodes, left, r);
      if r.None? || lefts[r.value] != left { return; }
      NotPassed(nodes, index, start, indexed, r.value);
      if r.value in index {
        rp := Some(index[r.value]);
        return;
      }
      while indexed' < |nodes|
        invariant indexed <= indexed' <= |nodes| && Passed(nodes, index', start, indexed')
        invariant indexed' <= IndexOf(nodes, r.value)
      {
        PassOne(nodes, index', start, indexed');
        index' := index'[nodes[indexed'].id := indexed'];
        if nodes[indexed'].id == r.value {
          IndexOfIs(nodes, indexed');
          indexed' := indexed' + 1;
          rp := Some(indexed' - 1);
          return;
        }
        indexed' := indexed' + 1;
      }
      assert false;
    }

    /** Where a run with these origins goes among nodes[start..end]. */
    method Integrate(start: nat, end: nat, left: Option<Id>, right: Option<Id>, peer: nat) returns (at: nat)
      requires LeftsRight(lefts, nodes) && Distinct(nodes) && BetweenOrigins(nodes)
      requires start == LeftIndex(nodes, left) + 1 && start <= end <= |nodes| && Present(nodes, right)
      ensures at == Scan(nodes, start, end, left, right, peer, start, start, false)
    {
      hide Distinct, BetweenOrigins, Passed, LeftsRight, RightParent, Present;
      if start == end { return start; }
      var index: map<Id, nat>, indexed := map[], start;
      NonePassed(nodes, start);
      var ours: Option<nat>;
      ours, index, indexed := FindRightParent(left, right, start, index, indexed);
      at := start;
      var scanning, visited, i := false, {}, start;
      NoIds(nodes, start);
      while i < end
        invariant start <= i <= end && start <= indexed <= |nodes| && Passed(nodes, index, start, indexed)
        invariant visited == Ids(nodes[start..i])
        invariant Scan(nodes, start, end, left, right, peer, i, at, scanning) ==
                  Scan(nodes, start, end, left, right, peer, start, start, false)
        decreases end - i
      {
        var other := nodes[i];
        var verdict;
        verdict, index, indexed := JudgeAt(i, start, left, right, peer, visited, ours, index, indexed);
        match verdict {
          case Stop => return;
          case Settle => at, scanning := i + 1, false;
          case Hold => scanning := true;
          case Follow => if !scanning { at := i + 1; }
        }
        visited := visited + {other.id};
        MoreIds(nodes, start, i);
        i := i + 1;
      }
    }

    /** What the scan makes of one concurrent element. */
    method JudgeAt(i: nat, start: nat, left: Option<Id>, right: Option<Id>, peer: nat, visited: set<Id>,
                   ours: Option<nat>, index: map<Id, nat>, indexed: nat)
      returns (verdict: Verdict, index': map<Id, nat>, indexed': nat)
      requires LeftsRight(lefts, nodes) && Distinct(nodes) && BetweenOrigins(nodes)
      requires start <= i < |nodes| && visited == Ids(nodes[start..i])
      requires start == LeftIndex(nodes, left) + 1 && start <= indexed <= |nodes| && Passed(nodes, index, start, indexed)
      requires RightParent(nodes, left, right) == if ours.Some? then ours.value else |nodes|
      requires ours.Some? ==> ours.value < |nodes|
      ensures verdict == Judge(nodes, start, left, right, peer, i)
      ensures start <= indexed' <= |nodes| && Passed(nodes, index', start, indexed')
    {
      hide Distinct, BetweenOrigins, Passed, LeftsRight, RightParent, Ids;
      var other := nodes[i];
      index', indexed' := index, indexed;
      if other.left != left && (other.left.None? || other.left.value !in visited) { return Stop, index, indexed; }
      if other.left != left { return Follow, index, indexed; }
      if other.right == right { return (if other.id.peer > peer then Stop else Settle), index, indexed; }
      OriginPresent(nodes, i);
      var theirs;
      theirs, index', indexed' := FindRightParent(left, other.right, start, index, indexed);
      var c := ComparePositions(theirs, ours);
      verdict := if c < 0 then Hold else if c == 0 && other.id.peer > peer then Stop else Settle;
    }

    /** An insert at `pos` of its author's view; false is a position a strict merge refuses. */
    method InsertRun(id: Id, pos: int, cells: seq<Cell>, all: bool, past: View, ghost v: View) returns (ok: bool)
      requires Valid() && ViewRight(nodes, all, past, v)
      requires Causal(nodes, v) && id.peer == v.peer && NewAtoms(nodes, id, |cells|)
      modifies `nodes, `lefts, `live, `cursor
      ensures ok <==> Insert(old(nodes), v, id, pos, cells, strict).Some?
      ensures ok ==> Valid() && nodes == Insert(old(nodes), v, id, pos, cells, strict).value
    {
      hide Seen, Live, HasKeys, Causal, NewAtoms, Locate, Scan, Distinct, BetweenOrigins, LeftsRight, CursorRight;
      if cells == [] { return true; }
      var l := LeftOrigin(pos, all, past, v);
      if l.None? { return false; }
      var left := l.value;
      var end := RightOrigin(left + 1, all, past, v);
      var leftId := if left >= 0 then Some(nodes[left].id) else None;
      var rightId := if end < |nodes| then Some(nodes[end].id) else None;
      KeyedParts(nodes);
      IndexAt(nodes, left);
      IndexAt(nodes, end);
      var at := Integrate(left + 1, end, leftId, rightId, id.peer);
      assert at == PlaceAfter(nodes, v, left, id.peer);
      PutIn(id, leftId, rightId, cells, at);
      RunKeepsKeys(old(nodes), v, left, id, cells);
      ok := true;
    }

    /** The element just before the position. */
    method LeftOrigin(pos: int, all: bool, past: View, ghost v: View) returns (l: Option<int>)
      requires Valid() && ViewRight(nodes, all, past, v)
      modifies `cursor
      ensures Valid() && l == if pos > 0 then Locate(nodes, v, pos, strict) else Some(-1)
    {
      if pos > 0 { l := LocateIn(pos, all, past, v); } else { l := Some(-1); }
    }

    /** The first element from `from` on that the author had seen. */
    method RightOrigin(from: nat, all: bool, past: View, ghost v: View) returns (end: nat)
      requires from <= |nodes| && ViewRight(nodes, all, past, v)
      ensures end == NextSeen(nodes, v, from)
    {
      hide AllInView;
      end := from;
      if !all {
        while end < |nodes| && !past.Has(nodes[end].id)
          invariant from <= end <= |nodes| && NextSeen(nodes, v, from) == NextSeen(nodes, v, end)
        {
          end := end + 1;
        }
      }
      NextSeenHere(nodes, v, end, all);
    }

    /** The elements go in, and the counts and the cursor move with them. */
    method PutIn(id: Id, left: Option<Id>, right: Option<Id>, cells: seq<Cell>, at: nat)
      requires live == Live(nodes) && CursorRight(cursor, nodes) && LeftsRight(lefts, nodes) && at <= |nodes|
      requires NewAtoms(nodes, id, |cells|)
      modifies `nodes, `lefts, `live, `cursor
      ensures nodes == Splice(old(nodes), at, Run(id, left, right, cells))
      ensures live == Live(nodes) && CursorRight(cursor, nodes) && LeftsRight(lefts, nodes)
    {
      hide Live, LeftRight, NewAtoms, LeftsRight, RunLefts;
      var run, added := MakeRun(id, left, right, cells);
      LiveSplice(nodes, at, run, if cursor.ok then cursor.idx else 0);
      LeftsSplice(lefts, nodes, at, id, left, right, cells);
      nodes := Splice(nodes, at, run);
      if cursor.ok && at <= cursor.idx {
        cursor := Cursor(true, cursor.idx + |run|, cursor.before + |run|);
      }
      lefts := lefts + added;
      live := live + |run|;
    }

    /** One delete atom takes the element at index i; where the index is not known to the cursor
        it is dropped. */
    method DeleteAt(i: nat, d: Id, track: bool)
      requires Valid() && i < |nodes|
      modifies `nodes, `live, `cursor
      ensures Valid() && nodes == old(nodes)[i := AddDeleter(old(nodes)[i], d)]
    {
      hide Live, LeftRight, Ordered;
      DeleteKeeps(lefts, nodes, i, d);
      LiveDelete(nodes, i, d, if cursor.ok then cursor.idx else 0);
      if nodes[i].deleters == {} {
        live := live - 1;
        if !track {
          cursor := NoCursor;
        } else if cursor.ok && i < cursor.idx {
          cursor := Cursor(true, cursor.idx, cursor.before - 1);
        }
      }
      nodes := nodes[i := Node(nodes[i].id, nodes[i].left, nodes[i].right, nodes[i].cell, nodes[i].deleters + {d})];
    }

    /** The indexes of the elements of rank [low, low + n) of the view, as far as it goes. */
    method Targets(low: nat, n: nat, all: bool, past: View, ghost v: View) returns (at: seq<nat>)
      requires Valid() && ViewRight(nodes, all, past, v) && (all ==> low < |Seen(nodes, v)|)
      modifies `cursor
      ensures Valid() && AreTargets(nodes, v, low, at) && |at| <= n
      ensures |at| < n ==> |Seen(nodes, v)| < low + n
      ensures |at| == n > 0 ==> low + n <= |Seen(nodes, v)|
    {
      hide Live, LeftsRight, HasKeys, Seen, Visible, CursorRight;
      var i, seen := 0, 0;
      WholeSeen(nodes, v);
      at := [];
      if all {
        var l := LocateLive(low + 1, v);
        i, seen := l.value, low;
      }
      while i < |nodes| && |at| < n
        invariant Valid() && 0 <= i <= |nodes| && seen == |Seen(nodes[..i], v)|
        invariant |at| == (if seen < low then 0 else seen - low) <= n
        invariant AreTargets(nodes, v, low, at)
        decreases |nodes| - i
      {
        SeenStep(nodes, v, i);
        VisibleHere(nodes, i, all, past, v);
        if (if all then nodes[i].deleters == {} else Visible(nodes[i], past)) {
          if seen >= low { at := at + [i]; }
          seen := seen + 1;
        }
        i := i + 1;
      }
      SeenUpTo(nodes, v, i);
      if i == |nodes| { assert nodes[..i] == nodes; }
    }

    /** A delete by position; None when the author's view is too short for it. */
    method RemoveByPosition(id: Id, pos: int, len: int, all: bool, past: View, ghost v: View) returns (done: bool)
      requires Valid() && ViewRight(nodes, all, past, v)
      modifies `nodes, `live, `cursor
      ensures Valid()
      ensures done <==> CanRemoveAt(old(nodes), v, pos, len)
      ensures nodes == if done then RemoveAt(old(nodes), v, id, Low(pos, len), len) else old(nodes)
    {
      hide Live, LeftsRight, HasKeys, Seen, Visible, CursorRight, AllInView, RemoveAt;
      var n := if len < 0 then -len else len;
      var low := if len < 0 then pos - n + 1 else pos;
      if all { LiveIsSeen(nodes, v); }
      if n == 0 || low < 0 || (all && low + n > live) { return false; }
      var at := Targets(low, n, all, past, v);
      if |at| < n { return false; }
      MarkTargets(low, at, id, len, v);
      done := true;
    }

    method MarkTargets(low: nat, at: seq<nat>, id: Id, len: int, ghost v: View)
      requires Valid() && AreTargets(nodes, v, low, at) && |at| == Size(len)
      modifies `nodes, `live, `cursor
      ensures Valid() && nodes == RemoveAt(old(nodes), v, id, low, len)
    {
      hide Live, LeftsRight, HasKeys, Seen, Visible, CursorRight, RemoveAt;
      var k := 0;
      while k < |at|
        invariant 0 <= k <= |at| && Valid() && nodes == MarkedTo(old(nodes), at, id, len, k)
      {
        DeleteAt(at[k], Id(id.peer, id.counter + if len < 0 then |at| - 1 - k else k), true);
        k := k + 1;
      }
      MarkedAll(old(nodes), v, low, at, id, len);
    }

    /** A delete by the ids it recorded. */
    method RemoveRecorded(id: Id, span: DeleteSpan)
      requires Valid()
      modifies `nodes, `live, `cursor
      ensures Valid() && nodes == RemoveIds(old(nodes), id, span)
    {
      hide Live, LeftsRight, HasKeys, CursorRight;
      var i := 0;
      while i < |nodes|
        invariant 0 <= i <= |nodes| == |old(nodes)| && Valid()
        invariant forall j :: 0 <= j < i ==> nodes[j] == RemoveIds(old(nodes), id, span)[j]
        invariant forall j :: i <= j < |nodes| ==> nodes[j] == old(nodes)[j]
      {
        if span.Covers(nodes[i].id) {
          DeleteAt(i, Id(id.peer, id.counter + span.AtomFor(nodes[i].id.counter)), false);
        }
        i := i + 1;
      }
    }

    /** Brings the state to what ApplyMove says, or refuses where it is None. */
    method Move(op: Op, all: bool, past: View, ghost v: View) returns (ok: bool)
      requires Valid() && ViewRight(nodes, all, past, v) && op.body.ListMove?
      requires Causal(nodes, v) && WellFormed(op, v) && FreshAtoms(nodes, op.id, 1)
      modifies `nodes, `lefts, `live, `cursor, `elems
      ensures ok <==> ApplyMove(old(Value()), op, v, strict).Some?
      ensures ok ==> Valid() && Value() == ApplyMove(old(Value()), op, v, strict).value
    {
      hide Live, LeftsRight, HasKeys, Seen, Visible, CursorRight, Causal, FreshAtoms, Insert, Nth, ViewRight;
      var elem := op.body.elem;
      if elem !in elems { return true; }
      var src := NthVisible(op.body.from, all, past, v);
      if src < 0 { return !strict; }
      DeleteAt(src, op.id, true);
      MoveView(old(nodes), all, past, v, op, src);
      ok := InsertRun(op.id, op.pos, [Position(elem)], all, past.(own := op.id.counter + 1), Later(v, 1));
      if ok {
        var e, w := elems[elem], Writer(op.lamport, op.id.peer);
        if w.After(e.posWriter) { e := e.(pos := op.id, posWriter := w); }
        elems := elems[elem := e];
      }
    }

    /** Merges one op. `all` says its author had everything merged so far; otherwise `past` is
        what it had. False is an op a strict merge refuses. */
    method MergeOp(op: Op, all: bool, past: View, ghost v: View, byPosition: bool) returns (ok: bool)
      requires Valid() && ViewRight(nodes, all, past, v) && Mergeable(Value(), op, v)
      modifies this
      ensures ok <==> Apply(old(Value()), op, v, byPosition, strict).Some?
      ensures ok ==> Valid() && Value() == Apply(old(Value()), op, v, byPosition, strict).value
    {
      hide Live, LeftsRight, HasKeys, Seen, Visible, CursorRight, Causal, FreshAtoms, Insert, ViewRight, ApplyMove;
      FreshNew(nodes, op.id, op.len, op.len);
      match op.body {
        case Items(items) =>
          ok := InsertRun(op.id, op.pos, Cells(op), all, past, v);
          if ok && op.cont.kind == MovableList { AddElems(op, items); }
        case MarkStart(info) =>
          ok := InsertRun(op.id, op.pos, [StartAnchor(info, Writer(op.lamport, op.id.peer))], all, past, v);
          if ok { pendingEnd := pendingEnd[Id(op.id.peer, op.id.counter + 1) := info.start + info.len + 1]; }
        case MarkEnd =>
          if op.id !in pendingEnd { return true; }
          var at := pendingEnd[op.id];
          pendingEnd := pendingEnd - {op.id};
          ok := InsertRun(op.id, at, [EndAnchor], all, past, v);
        case DeleteSeq(span) => ok := Delete(op, all, past, v, byPosition);
        case ListMove(_, _) => ok := Move(op, all, past, v);
        case ListSet(elem, value) =>
          ok := true;
          if elem in elems {
            var e, w := elems[elem], Writer(op.lamport, op.id.peer);
            if w.After(e.valueWriter) {
              elems := elems[elem := e.(value := value, valueWriter := w, valueId := op.id, valueSet := true)];
            }
          }
        case Other(_) => ok := true;
      }
    }

    /** The elements a MovableList insert creates. */
    method AddElems(op: Op, items: seq<Value>)
      requires op.body.Items? && op.body.items == items
      modifies `elems
      ensures elems == NewElems(old(elems), op, |items|)
    {
      var k := 0;
      while k < |items|
        invariant 0 <= k <= |items| && elems == NewElems(old(elems), op, k)
      {
        var w := Writer(op.lamport + k, op.id.peer);
        var id := Id(op.id.peer, op.id.counter + k);
        elems := elems[ElemKey(op.id.peer, w.lamport) := Elem(items[k], w, id, false, id, w)];
        k := k + 1;
      }
    }

    /** A delete, by position where authors' views can be rebuilt, by the ids it recorded otherwise. */
    method Delete(op: Op, all: bool, past: View, ghost v: View, byPosition: bool) returns (ok: bool)
      requires Valid() && ViewRight(nodes, all, past, v) && op.body.DeleteSeq?
      modifies `nodes, `live, `cursor
      ensures ok <==> ApplyDelete(old(Value()), op, v, byPosition, strict).Some?
      ensures ok ==> Valid() && Value() == ApplyDelete(old(Value()), op, v, byPosition, strict).value
    {
      hide Live, LeftsRight, HasKeys, Seen, Visible, CursorRight, ViewRight, CanRemoveAt, RemoveAt, RemoveIds;
      var span := op.body.span;
      if byPosition && op.cont.kind != MovableList {
        var done := RemoveByPosition(op.id, op.pos, span.len, all, past, v);
        if done { return true; }
        if strict { return false; }
      }
      RemoveRecorded(op.id, span);
      ok := true;
    }
  }

  /** The elements of a run, and their left origins by id. */
  method MakeRun(id: Id, left: Option<Id>, right: Option<Id>, cells: seq<Cell>) returns (run: seq<Node>, added: map<Id, Option<Id>>)
    ensures run == Run(id, left, right, cells) && added == RunLefts(run)
  {
    hide RunLefts;
    var k, prev := 0, left;
    run, added := [], map[];
    NoLefts();
    while k < |cells|
      invariant 0 <= k <= |cells| && run == Run(id, left, right, cells)[..k] && added == RunLefts(run)
      invariant prev == if k == 0 then left else Some(Id(id.peer, id.counter + k - 1))
    {
      var n := Node(Id(id.peer, id.counter + k), prev, right, cells[k], {});
      RunLeftsStep(Run(id, left, right, cells), k);
      run := run + [n];
      added := added[n.id := prev];
      prev := Some(n.id);
      k := k + 1;
    }
  }

  lemma {:induction false} NoLefts()
    ensures RunLefts([]) == map[]
  {
  }

  /** `index` holds the indexes of nodes[start..indexed]. */
  ghost predicate Passed(nodes: seq<Node>, index: map<Id, nat>, start: nat, indexed: nat) {
    && indexed <= |nodes|
    && (forall x :: x in index ==> index[x] < indexed && nodes[index[x]].id == x)
    && (forall i :: start <= i < indexed ==> nodes[i].id in index)
  }

  lemma {:induction false} PassOne(nodes: seq<Node>, index: map<Id, nat>, start: nat, indexed: nat)
    requires Passed(nodes, index, start, indexed) && start <= indexed < |nodes|
    ensures Passed(nodes, index[nodes[indexed].id := indexed], start, indexed + 1)
  {
  }

  lemma {:induction false} NotPassed(nodes: seq<Node>, index: map<Id, nat>, start: nat, indexed: nat, x: Id)
    requires Distinct(nodes) && Passed(nodes, index, start, indexed) && x in Ids(nodes) && start <= IndexOf(nodes, x)
    ensures x in index ==> index[x] == IndexOf(nodes, x)
    ensures x !in index ==> indexed <= IndexOf(nodes, x)
  {
    if x in index { IndexOfIs(nodes, index[x]); }
  }

  lemma {:induction false} NextSeenHere(nodes: seq<Node>, v: View, end: nat, all: bool)
    requires end <= |nodes|
    requires if all then AllInView(nodes, v) else end == |nodes| || v.Has(nodes[end].id)
    ensures NextSeen(nodes, v, end) == end
  {
    if all && end < |nodes| { assert InView(nodes[end], v); }
  }

  lemma {:induction false} KeyedParts(nodes: seq<Node>)
    requires HasKeys(nodes)
    ensures Distinct(nodes) && BetweenOrigins(nodes)
  {
  }

  lemma {:induction false} RunKeepsKeys(nodes: seq<Node>, v: View, left: int, id: Id, cells: seq<Cell>)
    requires HasKeys(nodes) && Causal(nodes, v) && -1 <= left < |nodes| && id.peer == v.peer && cells != []
    requires NewAtoms(nodes, id, |cells|)
    ensures HasKeys(InsertAfter(nodes, v, left, id, cells))
  {
    hide Ordered, Causal, NewAtoms, InsertAfter, KeyFor;
    var key :| Ordered(nodes, key);
    InsertAfterOrdered(nodes, key, v, left, id, cells);
  }

  ghost function RunLefts(run: seq<Node>): map<Id, Option<Id>> {
    if run == [] then map[]
    else RunLefts(run[..|run| - 1])[run[|run| - 1].id := run[|run| - 1].left]
  }

  lemma {:induction false} RunLeftsStep(run: seq<Node>, k: nat)
    requires k < |run|
    ensures RunLefts(run[..k + 1]) == RunLefts(run[..k])[run[k].id := run[k].left]
  {
    assert run[..k + 1][..k] == run[..k];
  }

  lemma {:induction false} RunLeftsGet(run: seq<Node>)
    requires Distinct(run)
    ensures RunLefts(run).Keys == Ids(run)
    ensures forall k :: 0 <= k < |run| ==> run[k].id in RunLefts(run) && RunLefts(run)[run[k].id] == run[k].left
  {
    if run != [] {
      var m := |run| - 1;
      RunLeftsGet(run[..m]);
      assert run == run[..m] + [run[m]];
      MoreIds(run, 0, m);
      assert run[0..m] == run[..m] && run[0..m + 1] == run;
    } else {
      assert Ids(run) == {};
    }
  }

  /** The run's left origins, by id. */
  ghost predicate AddedRight(added: map<Id, Option<Id>>, run: seq<Node>, id: Id) {
    && (forall k :: 0 <= k < |run| ==> run[k].id in added && added[run[k].id] == run[k].left)
    && (forall x :: x in added ==> InAtoms(x, id, |run|))
  }

  lemma {:induction false} RunAdded(id: Id, left: Option<Id>, right: Option<Id>, cells: seq<Cell>)
    ensures AddedRight(RunLefts(Run(id, left, right, cells)), Run(id, left, right, cells), id)
    ensures RunLefts(Run(id, left, right, cells)).Keys == Ids(Run(id, left, right, cells))
  {
    RunLeftsGet(Run(id, left, right, cells));
  }

  lemma {:induction false} LeftsSplice(lefts: map<Id, Option<Id>>, nodes: seq<Node>, at: nat, id: Id, left: Option<Id>, right: Option<Id>, cells: seq<Cell>)
    requires LeftsRight(lefts, nodes) && at <= |nodes| && NewAtoms(nodes, id, |cells|)
    ensures LeftsRight(lefts + RunLefts(Run(id, left, right, cells)), Splice(nodes, at, Run(id, left, right, cells)))
  {
    hide LeftRight, AddedRight, RunLefts, NewAtoms, Ids, Run;
    var run := Run(id, left, right, cells);
    var m, added := Splice(nodes, at, run), RunLefts(run);
    RunAdded(id, left, right, cells);
    SplicedIds(nodes, at, run);
    forall i | 0 <= i < |m| ensures LeftRight(lefts + added, m[i]) {
      if at <= i < at + |run| {
        LeftNew(lefts, added, run, id, i - at);
      } else {
        LeftOld(lefts, added, run, nodes, id, if i < at then i else i - |run|);
      }
    }
  }

  lemma {:induction false} LeftNew(lefts: map<Id, Option<Id>>, added: map<Id, Option<Id>>, run: seq<Node>, id: Id, k: nat)
    requires AddedRight(added, run, id) && k < |run|
    ensures LeftRight(lefts + added, run[k])
  {
  }

  lemma {:induction false} LeftOld(lefts: map<Id, Option<Id>>, added: map<Id, Option<Id>>, run: seq<Node>, nodes: seq<Node>, id: Id, j: nat)
    requires LeftsRight(lefts, nodes) && AddedRight(added, run, id) && NewAtoms(nodes, id, |run|) && j < |nodes|
    ensures LeftRight(lefts + added, nodes[j])
  {
    assert LeftRight(lefts, nodes[j]) && !InAtoms(nodes[j].id, id, |run|);
  }

  lemma {:induction false} DeleteKeeps(lefts: map<Id, Option<Id>>, nodes: seq<Node>, i: nat, d: Id)
    requires LeftsRight(lefts, nodes) && HasKeys(nodes) && i < |nodes|
    ensures var m := nodes[i := AddDeleter(nodes[i], d)]; LeftsRight(lefts, m) && HasKeys(m)
  {
    hide Ordered;
    var m := nodes[i := AddDeleter(nodes[i], d)];
    var key :| Ordered(nodes, key);
    ShapeOrdered(nodes, m, key);
    ShapeIds(nodes, m);
    forall j | 0 <= j < |m| ensures LeftRight(lefts, m[j]) { assert LeftRight(lefts, nodes[j]); }
  }

  /** at[k] is the index of the element of rank low + k. */
  ghost predicate AreTargets(nodes: seq<Node>, v: View, low: nat, at: seq<nat>) {
    forall k :: 0 <= k < |at| ==> IsTarget(nodes, v, low + k, at[k])
  }

  ghost predicate IsTarget(nodes: seq<Node>, v: View, rank: nat, i: nat) {
    i < |nodes| && Visible(nodes[i], v) && |Seen(nodes[..i], v)| == rank
  }

  lemma {:induction false} VisibleHere(nodes: seq<Node>, i: nat, all: bool, past: View, v: View)
    requires i < |nodes| && ViewRight(nodes, all, past, v)
    ensures Visible(nodes[i], v) <==> if all then nodes[i].deleters == {} else Visible(nodes[i], past)
  {
    if all {
      assert InView(nodes[i], v);
      InViewVisible(nodes[i], v);
    }
  }

  lemma {:induction false} SeenUpTo(nodes: seq<Node>, v: View, i: nat)
    requires i <= |nodes|
    ensures |Seen(nodes[..i], v)| <= |Seen(nodes, v)|
  {
    assert nodes == nodes[..i] + nodes[i..];
    SeenConcat(nodes[..i], nodes[i..], v);
  }

  /** The first k targets marked. */
  ghost function MarkedTo(nodes: seq<Node>, at: seq<nat>, id: Id, len: int, k: nat): (m: seq<Node>)
    requires k <= |at| && forall j :: 0 <= j < |at| ==> at[j] < |nodes|
    ensures |m| == |nodes|
  {
    if k == 0 then nodes
    else
      var m := MarkedTo(nodes, at, id, len, k - 1);
      var i := at[k - 1];
      m[i := AddDeleter(m[i], Id(id.peer, id.counter + if len < 0 then Size(len) - 1 - (k - 1) else k - 1))]
  }

  lemma {:induction false} MarkedUpTo(nodes: seq<Node>, v: View, low: nat, at: seq<nat>, id: Id, len: int, k: nat, i: nat)
    requires AreTargets(nodes, v, low, at) && k <= |at| && i < |nodes|
    ensures forall j :: 0 <= j < |at| ==> at[j] < |nodes|
    ensures var r := |Seen(nodes[..i], v)| - low;
      MarkedTo(nodes, at, id, len, k)[i] ==
      if Visible(nodes[i], v) && 0 <= r < k
      then AddDeleter(nodes[i], Id(id.peer, id.counter + if len < 0 then Size(len) - 1 - r else r)) else nodes[i]
  {
    hide Seen, Visible;
    assert forall j :: 0 <= j < |at| ==> IsTarget(nodes, v, low + j, at[j]);
    if k > 0 {
      MarkedUpTo(nodes, v, low, at, id, len, k - 1, i);
      NthIs(nodes, v, at[k - 1]);
      if Visible(nodes[i], v) && |Seen(nodes[..i], v)| == low + k - 1 { NthIs(nodes, v, i); }
    }
  }

  lemma {:induction false} MarkedAll(nodes: seq<Node>, v: View, low: nat, at: seq<nat>, id: Id, len: int)
    requires AreTargets(nodes, v, low, at) && |at| == Size(len)
    requires forall j :: 0 <= j < |at| ==> at[j] < |nodes|
    ensures MarkedTo(nodes, at, id, len, |at|) == RemoveAt(nodes, v, id, low, len)
  {
    hide Seen, Visible, AreTargets, MarkedTo, RemoveAt;
    var m, r := MarkedTo(nodes, at, id, len, |at|), RemoveAt(nodes, v, id, low, len);
    forall i | 0 <= i < |nodes| ensures m[i] == r[i] {
      MarkedUpTo(nodes, v, low, at, id, len, |at|, i);
      RemovedOne(nodes, v, id, low, len, i);
    }
  }

  /** A move's author sees the same once the move has taken its element out, that element aside. */
  lemma {:induction false} MoveView(nodes: seq<Node>, all: bool, past: View, v: View, op: Op, src: nat)
    requires ViewRight(nodes, all, past, v) && WellFormed(op, v) && op.len == 1 && src < |nodes|
    requires Causal(nodes, v) && FreshAtoms(nodes, op.id, 1)
    ensures var m := nodes[src := AddDeleter(nodes[src], op.id)];
      && ViewRight(m, all, past.(own := op.id.counter + 1), Later(v, 1))
      && Causal(m, Later(v, 1)) && NewAtoms(m, op.id, 1)
  {
    var m := nodes[src := AddDeleter(nodes[src], op.id)];
    CausalGone(nodes, m, v);
    FreshNew(nodes, op.id, 1, 1);
    ShapeNew(nodes, m, op.id, 1);
    if all {
      forall i | 0 <= i < |m| ensures InView(m[i], Later(v, 1)) { assert InView(nodes[i], v); }
    }
  }

  lemma {:induction false} NonePassed(nodes: seq<Node>, start: nat)
    requires start <= |nodes|
    ensures Passed(nodes, map[], start, start)
  {
  }

  lemma {:induction false} NoIds(nodes: seq<Node>, start: nat)
    requires start <= |nodes|
    ensures Ids(nodes[start..start]) == {}
  {
  }

  lemma {:induction false} MoreIds(nodes: seq<Node>, start: nat, i: nat)
    requires start <= i < |nodes|
    ensures Ids(nodes[start..i + 1]) == Ids(nodes[start..i]) + {nodes[i].id}
  {
    var a, b := nodes[start..i], nodes[start..i + 1];
    assert b == a + [nodes[i]];
    forall x | x in Ids(a) + {nodes[i].id} ensures x in Ids(b) {
      if x == nodes[i].id { assert b[i - start].id == x; }
      else {
        var k :| 0 <= k < |a| && a[k].id == x;
        assert b[k].id == x;
      }
    }
  }

  lemma {:induction false} OriginPresent(nodes: seq<Node>, i: nat)
    requires BetweenOrigins(nodes) && i < |nodes|
    ensures Present(nodes, nodes[i].left) && Present(nodes, nodes[i].right)
  {
  }

  /** None compares as infinity. */
  function ComparePositions(a: Option<nat>, b: Option<nat>): int {
    if a.Some? && b.Some? then a.value - b.value
    else if a.Some? then -1
    else if b.Some? then 1
    else 0
  }

  /** A right parent lies after the left origin, and is known by its own left origin. */
  lemma {:induction false} RightParentSeen(lefts: map<Id, Option<Id>>, nodes: seq<Node>, left: Option<Id>, r: Option<Id>)
    requires LeftsRight(lefts, nodes) && Distinct(nodes) && BetweenOrigins(nodes) && Present(nodes, r)
    ensures r.Some? ==> r.value in lefts
    ensures RightParent(nodes, left, r) ==
      if r.Some? && lefts[r.value] == left then IndexOf(nodes, r.value) else |nodes|
    ensures r.Some? && lefts[r.value] == left ==> LeftIndex(nodes, left) < IndexOf(nodes, r.value)
  {
    if r.Some? { assert LeftRight(lefts, nodes[IndexOf(nodes, r.value)]); }
  }
}
