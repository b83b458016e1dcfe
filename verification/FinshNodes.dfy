/** The shell's node table: sixteen records that the parser links into child/sibling trees
    and the type check marks in place. */
module FinshNodes {
  import opened FinshSyntax

  const NODE_MAX: nat := 16

  /** A pointer into the table: an index, or NULL. */
  type Ptr = p: int | -1 <= p
  const NULL: Ptr := -1

  /** `used` is false for FINSH_NODE_UNKNOWN, the mark of an empty entry. */
  datatype NodeRec = NodeRec(used: bool, kind: Kind, addr: bool, width: nat, child: Ptr, sibling: Ptr)

  const EMPTY: NodeRec := NodeRec(false, ConstInt(0), false, 0, NULL, NULL)

  type Table = seq<NodeRec>

  /** The records reachable from `p` are exactly the tree `t`. */
  predicate Shape(tb: Table, p: Ptr, t: Tree)
    decreases t
  {
    match t
    case Nil => p == NULL
    case Node(id, kind, addr, width, c, s) =>
      p == id && id < |tb|
      && tb[id].used && tb[id].kind == kind && tb[id].addr == addr && tb[id].width == width
      && Shape(tb, tb[id].child, c) && Shape(tb, tb[id].sibling, s)
  }

  /** A tree is still there when none of its records changed. */
  lemma {:induction false} ShapeKept(tb: Table, tb': Table, p: Ptr, t: Tree)
    requires Shape(tb, p, t) && |tb| <= |tb'|
    requires forall i :: i in Ids(t) ==> i < |tb| && tb[i] == tb'[i]
    ensures Shape(tb', p, t)
    decreases t
  {
    if t.Node? {
      ShapeKept(tb, tb', tb[t.id].child, t.child);
      ShapeKept(tb, tb', tb[t.id].sibling, t.sibling);
    }
  }

  lemma {:induction false} ShapeInTable(tb: Table, p: Ptr, t: Tree)
    requires Shape(tb, p, t)
    ensures forall i :: i in Ids(t) ==> i < |tb|
    decreases t
  {
    if t.Node? {
      ShapeInTable(tb, tb[t.id].child, t.child);
      ShapeInTable(tb, tb[t.id].sibling, t.sibling);
    }
  }

  /** The table is filled from the bottom: entries below `n` are in use, the rest empty. */
  predicate Filled(tb: Table, n: nat) {
    n <= |tb| && (forall i :: 0 <= i < n ==> tb[i].used) && forall i :: n <= i < |tb| ==> tb[i] == EMPTY
  }

  /** finsh_node_allocate: take the first empty entry, wherever it is. In a table that is
      filled from the bottom that is the next one. */
  method Allocate(nodes: array<NodeRec>, kind: Kind) returns (p: Ptr)
    modifies nodes
    ensures p == NULL <==> forall i :: 0 <= i < nodes.Length ==> old(nodes[i].used)
    ensures p == NULL ==> nodes[..] == old(nodes[..])
    ensures p != NULL ==>
              && 0 <= p < nodes.Length && !old(nodes[p].used) && (forall i :: 0 <= i < p ==> old(nodes[i].used))
              && nodes[..] == old(nodes[..])[p := old(nodes[p]).(used := true, kind := kind)]
    ensures forall n: nat {:trigger Filled(old(nodes[..]), n)} :: Filled(old(nodes[..]), n) ==>
              if n == nodes.Length then p == NULL
              else p == n && nodes[..] == old(nodes[..])[n := EMPTY.(used := true, kind := kind)]
                   && Filled(nodes[..], n + 1)
  {
    var i := 0;
    while i < nodes.Length && nodes[i].used
      invariant 0 <= i <= nodes.Length && forall k :: 0 <= k < i ==> nodes[k].used
    {
      i := i + 1;
    }
    ghost var tb := nodes[..];
    FirstEmpty(tb, i);
    if i == nodes.Length { return NULL; }
    nodes[i] := nodes[i].(used := true, kind := kind);
    p := i;
  }

  lemma FirstEmpty(tb: Table, i: nat)
    requires i <= |tb| && (forall k :: 0 <= k < i ==> tb[k].used) && (i < |tb| ==> !tb[i].used)
    ensures forall n: nat {:trigger Filled(tb, n)} :: Filled(tb, n) ==> n == i && (i < |tb| ==> tb[i] == EMPTY)
  {
    forall n: nat {:trigger Filled(tb, n)} | Filled(tb, n) ensures n == i && (i < |tb| ==> tb[i] == EMPTY) {
      if i < |tb| { FilledAt(tb, n, i); }
      if i > 0 { FilledAt(tb, n, i - 1); }
    }
  }

  lemma FilledAt(tb: Table, n: nat, k: nat)
    requires Filled(tb, n) && k < |tb|
    ensures (tb[k].used <==> k < n) && (!tb[k].used ==> tb[k] == EMPTY)
  {
  }
}
