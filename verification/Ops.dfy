/** Ops as a document records them. */
module Ops {
  import opened Common
  import opened SeqTypes

  datatype Kind = Text | List | MovableList | Map | Tree | Counter

  datatype ContKey = ContKey(root: bool, name: Value, kind: Kind)

  /** The ids a delete removes: the counters [counter, counter + |len|) of `peer`, highest
      first when `len` is negative. */
  datatype DeleteSpan = DeleteSpan(peer: nat, counter: int, len: int) {
    function Size(): nat { if len < 0 then -len else len }

    predicate Covers(id: Id) {
      id.peer == peer && counter <= id.counter < counter + Size()
    }

    /** The offset, within the delete, of the id that takes counter c. */
    function AtomFor(c: int): int {
      if len < 0 then counter + Size() - 1 - c else c - counter
    }
  }

  /** `Items` is a text or list insert, one atom per item; `Other` is a map write, a tree move
      or a counter step. */
  datatype Body =
    | Items(items: seq<Value>)
    | MarkStart(info: MarkInfo)
    | MarkEnd
    | DeleteSeq(span: DeleteSpan)
    | ListMove(elem: ElemKey, from: int)
    | ListSet(elem: ElemKey, value: Value)
    | Other(value: Value)

  datatype Op = Op(cont: ContKey, id: Id, lamport: int, pos: int, len: int, body: Body) {
    /** How many ids the op takes. */
    function Atoms(): int { if len > 1 then len else 1 }

    function Last(): Id { Id(id.peer, id.counter + Atoms() - 1) }

    predicate IsSeq() {
      match cont.kind
      case Text => body.Items? || body.MarkStart? || body.MarkEnd? || body.DeleteSeq?
      case List => body.Items? || body.DeleteSeq?
      case MovableList => body.Items? || body.DeleteSeq? || body.ListMove? || body.ListSet?
      case _ => false
    }
  }
}
