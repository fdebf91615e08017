/** A sequence merge with no shortcut: every op resolves its positions by scanning its author's
    view of the whole sequence. */
module SeqReference {
  import opened Common
  import opened SeqTypes
  import opened SeqOrder
  import opened SeqInsert
  import opened Ops

  /** The ids of the elements an author sees, in order. */
  ghost function Seen(nodes: seq<Node>, v: View): seq<Id> {
    if nodes == [] then []
    else
      var n := nodes[|nodes| - 1];
      Seen(nodes[..|nodes| - 1], v) + if Visible(n, v) then [n.id] else []
  }

  /** The index of the k-th element (from 0) an author sees. */
  ghost function Nth(nodes: seq<Node>, v: View, k: nat): (i: nat)
    requires k < |Seen(nodes, v)|
    ensures i < |nodes| && Visible(nodes[i], v) && |Seen(nodes[..i], v)| == k
  {
    var m := |nodes| - 1;
    if |Seen(nodes[..m], v)| == k then m
    else
      var i := Nth(nodes[..m], v, k);
      assert nodes[..m][..i] == nodes[..i];
      i
  }

  /** The index v resolves a position to, counting from 1 and clamped to the view; -1 in an empty view, None for a
      strict merge past it. */
  ghost function Locate(nodes: seq<Node>, v: View, pos: int, strict: bool): (r: Option<int>)
    requires pos > 0
    ensures r.Some? ==> -1 <= r.value < |nodes|
  {
    var c := |Seen(nodes, v)|;
    if pos > c && strict then None
    else
      var i: int := if c == 0 then -1 else Nth(nodes, v, Min(pos, c) - 1);
      Some(i)
  }

  /** The least e >= from with nodes[e].id in v, |nodes| if there is none. */
  ghost function NextSeen(nodes: seq<Node>, v: View, from: nat): (e: nat)
    requires from <= |nodes|
    ensures from <= e <= |nodes|
    ensures forall j :: from <= j < e ==> !v.Has(nodes[j].id)
    ensures e < |nodes| ==> v.Has(nodes[e].id)
    decreases |nodes| - from
  {
    if from == |nodes| || v.Has(nodes[from].id) then from else NextSeen(nodes, v, from + 1)
  }

  /** The elements of a run: each atom's left origin is the one before it. */
  ghost function Run(id: Id, left: Option<Id>, right: Option<Id>, cells: seq<Cell>): (run: seq<Node>)
    ensures |run| == |cells|
    ensures forall k :: 0 <= k < |run| ==> run[k].id == Id(id.peer, id.counter + k) && run[k].right == right
  {
    seq(|cells|, k requires 0 <= k < |cells| =>
      Node(Id(id.peer, id.counter + k), if k == 0 then left else Some(Id(id.peer, id.counter + k - 1)),
           right, cells[k], {}))
  }

  ghost function OriginAt(nodes: seq<Node>, i: int): Option<Id> {
    if 0 <= i < |nodes| then Some(nodes[i].id) else None
  }

  /** Where a run whose left origin is nodes[left] goes. */
  ghost function PlaceAfter(nodes: seq<Node>, v: View, left: int, peer: nat): (at: nat)
    requires -1 <= left < |nodes|
    ensures left < at <= NextSeen(nodes, v, left + 1)
  {
    var end := NextSeen(nodes, v, left + 1);
    ScanRange(nodes, left + 1, end, OriginAt(nodes, left), OriginAt(nodes, end), peer, left + 1, left + 1, false);
    Scan(nodes, left + 1, end, OriginAt(nodes, left), OriginAt(nodes, end), peer, left + 1, left + 1, false)
  }

  ghost function InsertAfter(nodes: seq<Node>, v: View, left: int, id: Id, cells: seq<Cell>): seq<Node>
    requires -1 <= left < |nodes|
  {
    var end := NextSeen(nodes, v, left + 1);
    Splice(nodes, PlaceAfter(nodes, v, left, id.peer), Run(id, OriginAt(nodes, left), OriginAt(nodes, end), cells))
  }

  /** An insert at position `pos` of the author's view; None is a position past it that a strict
      merge refuses. */
  ghost function Insert(nodes: seq<Node>, v: View, id: Id, pos: int, cells: seq<Cell>, strict: bool): Option<seq<Node>> {
    if cells == [] then Some(nodes)
    else
      var left := if pos > 0 then Locate(nodes, v, pos, strict) else Some(-1);
      if left.None? then None else Some(InsertAfter(nodes, v, left.value, id, cells))
  }

  ghost function AddDeleter(n: Node, d: Id): Node { n.(deleters := n.deleters + {d}) }

  /** The delete atoms that take the elements of rank [low, low + |len|) of the author's view. */
  ghost function RemoveAt(nodes: seq<Node>, v: View, id: Id, low: nat, len: int): (r: seq<Node>)
    ensures |r| == |nodes|
  {
    var n := if len < 0 then -len else len;
    seq(|nodes|, i requires 0 <= i < |nodes| =>
      var k := |Seen(nodes[..i], v)| - low;
      if Visible(nodes[i], v) && 0 <= k < n
      then AddDeleter(nodes[i], Id(id.peer, id.counter + if len < 0 then n - 1 - k else k))
      else nodes[i])
  }

  /** The lowest position a positional delete removes. */
  ghost function Low(pos: int, len: int): int { if len < 0 then pos + len + 1 else pos }

  ghost predicate CanRemoveAt(nodes: seq<Node>, v: View, pos: int, len: int) {
    len != 0 && 0 <= Low(pos, len) && Low(pos, len) + (if len < 0 then -len else len) <= |Seen(nodes, v)|
  }

  /** A delete read by the ids it recorded. */
  ghost function RemoveIds(nodes: seq<Node>, id: Id, span: DeleteSpan): (r: seq<Node>)
    ensures |r| == |nodes|
  {
    seq(|nodes|, i requires 0 <= i < |nodes| =>
      if span.Covers(nodes[i].id)
      then AddDeleter(nodes[i], Id(id.peer, id.counter + span.AtomFor(nodes[i].id.counter)))
      else nodes[i])
  }

  /** A MovableList element: the value and the position with the latest writer. */
  datatype Elem = Elem(value: Value, valueWriter: Writer, valueId: Id, valueSet: bool, pos: Id, posWriter: Writer)

  /** One container's merged sequence. `pendingEnd` is where the end anchor of a begun mark goes. */
  datatype SeqVal = SeqVal(nodes: seq<Node>, pendingEnd: map<Id, int>, elems: map<ElemKey, Elem>)

  const EmptySeq := SeqVal([], map[], map[])

  function Cells(op: Op): seq<Cell>
    requires op.body.Items?
  {
    seq(|op.body.items|, k requires 0 <= k < |op.body.items| =>
      if op.cont.kind == MovableList then Position(ElemKey(op.id.peer, op.lamport + k)) else Plain(op.body.items[k]))
  }

  /** The elements a MovableList insert creates. */
  ghost function NewElems(elems: map<ElemKey, Elem>, op: Op, n: nat): map<ElemKey, Elem>
    requires op.body.Items? && n <= |op.body.items|
  {
    if n == 0 then elems
    else
      var w := Writer(op.lamport + n - 1, op.id.peer);
      var id := Id(op.id.peer, op.id.counter + n - 1);
      NewElems(elems, op, n - 1)[ElemKey(op.id.peer, w.lamport) := Elem(op.body.items[n - 1], w, id, false, id, w)]
  }

  ghost function WithNodes(s: SeqVal, nodes: Option<seq<Node>>): Option<SeqVal> {
    if nodes.None? then None else Some(s.(nodes := nodes.value))
  }

  ghost function ApplyDelete(s: SeqVal, op: Op, v: View, byPosition: bool, strict: bool): Option<SeqVal>
    requires op.body.DeleteSeq?
  {
    var span := op.body.span;
    if byPosition && op.cont.kind != MovableList then
      if CanRemoveAt(s.nodes, v, op.pos, span.len) then
        Some(s.(nodes := RemoveAt(s.nodes, v, op.id, Low(op.pos, span.len), span.len)))
      else if strict then None
      else Some(s.(nodes := RemoveIds(s.nodes, op.id, span)))
    else Some(s.(nodes := RemoveIds(s.nodes, op.id, span)))
  }

  ghost function ApplyMove(s: SeqVal, op: Op, v: View, strict: bool): Option<SeqVal>
    requires op.body.ListMove?
  {
    if op.body.elem !in s.elems then Some(s)
    else if op.body.from < 0 || op.body.from >= |Seen(s.nodes, v)| then (if strict then None else Some(s))
    else
      var src := Nth(s.nodes, v, op.body.from);
      var gone := s.nodes[src := AddDeleter(s.nodes[src], op.id)];
      var nodes := Insert(gone, v.(own := op.id.counter + 1), op.id, op.pos, [Position(op.body.elem)], strict);
      if nodes.None? then None
      else
        var e, w := s.elems[op.body.elem], Writer(op.lamport, op.id.peer);
        var moved := if w.After(e.posWriter) then e.(pos := op.id, posWriter := w) else e;
        Some(s.(nodes := nodes.value, elems := s.elems[op.body.elem := moved]))
  }

  /** Merging one op whose author saw `v`. None is an op a strict merge refuses. With `byPosition`
      a delete outside a MovableList acts by rank in v; otherwise by its span's ids. */
  ghost function Apply(s: SeqVal, op: Op, v: View, byPosition: bool, strict: bool): Option<SeqVal> {
    match op.body
    case Items(items) =>
      var nodes := Insert(s.nodes, v, op.id, op.pos, Cells(op), strict);
      if nodes.None? then None
      else Some(s.(nodes := nodes.value,
                   elems := if op.cont.kind == MovableList then NewElems(s.elems, op, |items|) else s.elems))
    case MarkStart(info) =>
      var nodes := Insert(s.nodes, v, op.id, op.pos, [StartAnchor(info, Writer(op.lamport, op.id.peer))], strict);
      if nodes.None? then None
      else Some(s.(nodes := nodes.value,
                   pendingEnd := s.pendingEnd[Id(op.id.peer, op.id.counter + 1) := info.start + info.len + 1]))
    case MarkEnd =>
      if op.id !in s.pendingEnd then Some(s)
      else WithNodes(s.(pendingEnd := s.pendingEnd - {op.id}),
                     Insert(s.nodes, v, op.id, s.pendingEnd[op.id], [EndAnchor], strict))
    case DeleteSeq(_) => ApplyDelete(s, op, v, byPosition, strict)
    case ListMove(_, _) => ApplyMove(s, op, v, strict)
    case ListSet(elem, value) =>
      if elem !in s.elems then Some(s)
      else
        var e, w := s.elems[elem], Writer(op.lamport, op.id.peer);
        if w.After(e.valueWriter)
        then Some(s.(elems := s.elems[elem := e.(value := value, valueWriter := w, valueId := op.id, valueSet := true)]))
        else Some(s)
    case Other(_) => Some(s)
  }

  // ----- views as lists -----

  lemma {:induction false} SeenConcat(a: seq<Node>, b: seq<Node>, v: View)
    ensures Seen(a + b, v) == Seen(a, v) + Seen(b, v)
  {
    if b == [] {
      assert a + b == a;
    } else {
      var m := |b| - 1;
      assert (a + b)[..|a| + m] == a + b[..m];
      SeenConcat(a, b[..m], v);
    }
  }

  /** Which element of the view an index shows. */
  lemma {:induction false} SeenAt(nodes: seq<Node>, v: View, i: nat)
    requires i < |nodes|
    ensures Seen(nodes, v) == Seen(nodes[..i], v) + (if Visible(nodes[i], v) then [nodes[i].id] else []) + Seen(nodes[i + 1..], v)
  {
    var n := nodes[i];
    assert nodes == nodes[..i] + ([n] + nodes[i + 1..]);
    SeenConcat(nodes[..i], [n] + nodes[i + 1..], v);
    SeenConcat([n], nodes[i + 1..], v);
    assert [n][..0] == [];
  }

  lemma {:induction false} RankGrows(nodes: seq<Node>, v: View, i: nat, j: nat)
    requires i < j <= |nodes| && Visible(nodes[i], v)
    ensures |Seen(nodes[..i], v)| < |Seen(nodes[..j], v)|
  {
    SeenAt(nodes[..j], v, i);
    assert nodes[..j][..i] == nodes[..i];
  }

  lemma {:induction false} NthIs(nodes: seq<Node>, v: View, i: nat)
    requires i < |nodes| && Visible(nodes[i], v)
    ensures |Seen(nodes[..i], v)| < |Seen(nodes, v)| && Nth(nodes, v, |Seen(nodes[..i], v)|) == i
    ensures Seen(nodes, v)[|Seen(nodes[..i], v)|] == nodes[i].id
  {
    SeenAt(nodes, v, i);
    var j := Nth(nodes, v, |Seen(nodes[..i], v)|);
    if j < i {
      RankGrows(nodes, v, j, i);
    } else if i < j {
      RankGrows(nodes, v, i, j);
    }
  }
}
