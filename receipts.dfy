/** The receipt table of a transaction page: the receipt tree flattened
    into one row per shown action, numbered in walk order. */
module Receipts {
  import opened Wrappers
  import opened Json
  import opened Schema

  datatype ReceiptRow = ReceiptRow(
    action: ActionReceipt,
    gasBurnt: Option<string>,
    index: nat,
    outcomeStatus: Option<bool>,
    predecessor: string,
    receiptId: string,
    receiver: string,
    tokensBurnt: Option<string>)

  /** The actions a receipt shows: only the first when it is a delegate
      action, all of them otherwise. */
  function ShownActions(r: TxnReceipt): seq<ActionReceipt> {
    if |r.actions| > 0 && r.actions[0].action == DelegateAction then [r.actions[0]] else r.actions
  }

  function MakeRow(r: TxnReceipt, a: ActionReceipt, index: nat): ReceiptRow {
    ReceiptRow(a, r.outcome.gasBurnt, index, r.outcome.status, r.predecessor,
               r.receiptId, r.receiver, r.outcome.tokensBurnt)
  }

  /** The rows of `r`'s own actions, numbered from `start`. */
  function OwnRows(r: TxnReceipt, start: nat): (rows: seq<ReceiptRow>)
    ensures |rows| == |ShownActions(r)|
  {
    var shown := ShownActions(r);
    seq(|shown|, k requires 0 <= k < |shown| => MakeRow(r, shown[k], start + k))
  }

  function RowCount(r: TxnReceipt): nat
    decreases r
  {
    |ShownActions(r)| + ChildrenCount(r.receipts)
  }

  function ChildrenCount(cs: seq<TxnReceipt>): nat
    decreases cs
  {
    if cs == [] then 0 else RowCount(cs[0]) + ChildrenCount(cs[1..])
  }

  /** The rows `walk(r)` appends when the counter stands at `start`. */
  function RowsFrom(r: TxnReceipt, start: nat): seq<ReceiptRow>
    decreases r
  {
    OwnRows(r, start) + ChildrenRows(r.receipts, start + |ShownActions(r)|)
  }

  function ChildrenRows(cs: seq<TxnReceipt>, start: nat): seq<ReceiptRow>
    decreases cs
  {
    if cs == [] then [] else RowsFrom(cs[0], start) + ChildrenRows(cs[1..], start + RowCount(cs[0]))
  }

  /** One step of `ChildrenRows` and `ChildrenCount`. */
  lemma ChildrenCons(cs: seq<TxnReceipt>, start: nat)
    requires cs != []
    ensures ChildrenRows(cs, start) == RowsFrom(cs[0], start) + ChildrenRows(cs[1..], start + RowCount(cs[0]))
    ensures ChildrenCount(cs) == RowCount(cs[0]) + ChildrenCount(cs[1..])
  {
  }

  lemma AppendAssoc<T>(a: seq<T>, b: seq<T>, c: seq<T>)
    ensures (a + b) + c == a + (b + c)
  {
  }

  /** `flattenReceipts`' state: the rows pushed so far and the running index. */
  class ReceiptWalker {
    var rows: seq<ReceiptRow>
    var index: nat

    constructor()
      ensures rows == [] && index == 0
    {
      rows := [];
      index := 0;
    }

    /** The first loop of `walk(r)`: a row per shown action. */
    method PushOwnRows(r: TxnReceipt)
      modifies this
      ensures rows == old(rows) + OwnRows(r, old(index))
      ensures index == old(index) + |ShownActions(r)|
    {
      var start := index;
      var actions := ShownActions(r);
      ghost var own := OwnRows(r, start);
      for i := 0 to |actions|
        invariant index == start + i
        invariant rows == old(rows) + own[..i]
      {
        assert own[i] == MakeRow(r, actions[i], index);
        assert own[..i + 1] == own[..i] + [own[i]];
        rows := rows + [MakeRow(r, actions[i], index)];
        index := index + 1;
      }
      assert own[..|actions|] == own;
    }

    /** `walk(r)`: push a row per shown action, then walk the children in order. */
    method Walk(r: TxnReceipt)
      modifies this
      ensures rows == old(rows) + RowsFrom(r, old(index))
      ensures index == old(index) + RowCount(r)
      decreases r
    {
      PushOwnRows(r);
      WalkChildren(r.receipts);
    }

    /** The loop of `walk(r)` over `r.receipts`. */
    method WalkChildren(children: seq<TxnReceipt>)
      modifies this
      ensures rows == old(rows) + ChildrenRows(children, old(index))
      ensures index == old(index) + ChildrenCount(children)
      decreases children
    {
      ghost var prefix := rows;
      ghost var start := index;
      assert children[0..] == children;
      for j := 0 to |children|
        invariant rows + ChildrenRows(children[j..], index) == prefix + ChildrenRows(children, start)
        invariant index + ChildrenCount(children[j..]) == start + ChildrenCount(children)
      {
        ghost var rest := children[j..];
        ChildrenCons(rest, index);
        assert rest[0] == children[j] && rest[1..] == children[j + 1..];
        ghost var before, at := rows, index;
        Walk(children[j]);
        AppendAssoc(before, RowsFrom(children[j], at), ChildrenRows(children[j + 1..], index));
      }
      assert children[|children|..] == [];
    }
  }

  /** `flattenReceipts(receipt)` */
  method FlattenReceipts(root: TxnReceipt) returns (rows: seq<ReceiptRow>)
    ensures rows == RowsFrom(root, 0)
  {
    var walker := new ReceiptWalker();
    walker.Walk(root);
    rows := walker.rows;
  }

  // ---------------------------------------------------------------------
  // Properties of the walk

  lemma {:induction false} RowsLength(r: TxnReceipt, start: nat)
    ensures |RowsFrom(r, start)| == RowCount(r)
    decreases r
  {
    ChildrenLength(r.receipts, start + |ShownActions(r)|);
  }

  lemma {:induction false} ChildrenLength(cs: seq<TxnReceipt>, start: nat)
    ensures |ChildrenRows(cs, start)| == ChildrenCount(cs)
    decreases cs
  {
    if cs != [] {
      RowsLength(cs[0], start);
      ChildrenLength(cs[1..], start + RowCount(cs[0]));
    }
  }

  /** Rows are numbered `start`, `start + 1`, ... in output order. */
  lemma {:induction false} RowsNumbered(r: TxnReceipt, start: nat)
    ensures forall i :: 0 <= i < |RowsFrom(r, start)| ==> RowsFrom(r, start)[i].index == start + i
    decreases r
  {
    var own := OwnRows(r, start);
    var rest := ChildrenRows(r.receipts, start + |own|);
    ChildrenNumbered(r.receipts, start + |own|);
    var all: seq<ReceiptRow> := own + rest;
    forall i | 0 <= i < |all| ensures all[i].index == start + i {
      if i >= |own| { assert all[i] == rest[i - |own|]; }
    }
  }

  lemma {:induction false} ChildrenNumbered(cs: seq<TxnReceipt>, start: nat)
    ensures forall i :: 0 <= i < |ChildrenRows(cs, start)| ==> ChildrenRows(cs, start)[i].index == start + i
    decreases cs
  {
    if cs != [] {
      var first := RowsFrom(cs[0], start);
      RowsNumbered(cs[0], start);
      RowsLength(cs[0], start);
      var rest := ChildrenRows(cs[1..], start + RowCount(cs[0]));
      ChildrenNumbered(cs[1..], start + RowCount(cs[0]));
      var all: seq<ReceiptRow> := first + rest;
      forall i | 0 <= i < |all| ensures all[i].index == start + i {
        if i >= |first| { assert all[i] == rest[i - |first|]; }
      }
    }
  }

  /** The receipts in walk order: a receipt, then each child's subtree from
      left to right. */
  function PreOrder(r: TxnReceipt): (nodes: seq<TxnReceipt>)
    decreases r
  {
    [r] + PreOrderAll(r.receipts)
  }

  function PreOrderAll(cs: seq<TxnReceipt>): seq<TxnReceipt>
    decreases cs
  {
    if cs == [] then [] else PreOrder(cs[0]) + PreOrderAll(cs[1..])
  }

  /** Reference reading of the table: for each receipt of a node list in
      turn, its own rows. */
  function NodeRows(nodes: seq<TxnReceipt>, start: nat): seq<ReceiptRow>
    decreases |nodes|
  {
    if nodes == [] then [] else OwnRows(nodes[0], start) + NodeRows(nodes[1..], start + |ShownActions(nodes[0])|)
  }

  function ShownTotal(nodes: seq<TxnReceipt>): nat
    decreases |nodes|
  {
    if nodes == [] then 0 else |ShownActions(nodes[0])| + ShownTotal(nodes[1..])
  }

  lemma {:induction false} ShownTotalAppend(a: seq<TxnReceipt>, b: seq<TxnReceipt>)
    ensures ShownTotal(a + b) == ShownTotal(a) + ShownTotal(b)
    decreases |a|
  {
    if a == [] {
      assert a + b == b;
    } else {
      assert (a + b)[1..] == a[1..] + b;
      ShownTotalAppend(a[1..], b);
    }
  }

  lemma {:induction false} NodeRowsAppend(a: seq<TxnReceipt>, b: seq<TxnReceipt>, start: nat)
    ensures NodeRows(a + b, start) == NodeRows(a, start) + NodeRows(b, start + ShownTotal(a))
    decreases |a|
  {
    if a == [] {
      assert a + b == b;
    } else {
      var next := start + |ShownActions(a[0])|;
      assert (a + b)[1..] == a[1..] + b;
      NodeRowsAppend(a[1..], b, next);
    }
  }

  /** The walk is a pre-order traversal: its rows are the own rows of the
      receipts in pre-order, and their number is the sum over all receipts
      of the shown actions. */
  lemma {:induction false} WalkIsPreOrder(r: TxnReceipt, start: nat)
    ensures RowsFrom(r, start) == NodeRows(PreOrder(r), start)
    ensures RowCount(r) == ShownTotal(PreOrder(r))
    decreases r
  {
    var k := |ShownActions(r)|;
    ChildrenArePreOrder(r.receipts, start + k);
    NodeRowsAppend([r], PreOrderAll(r.receipts), start);
    ShownTotalAppend([r], PreOrderAll(r.receipts));
    assert NodeRows([r], start) == OwnRows(r, start);
  }

  lemma {:induction false} ChildrenArePreOrder(cs: seq<TxnReceipt>, start: nat)
    ensures ChildrenRows(cs, start) == NodeRows(PreOrderAll(cs), start)
    ensures ChildrenCount(cs) == ShownTotal(PreOrderAll(cs))
    decreases cs
  {
    if cs == [] {
    } else {
      WalkIsPreOrder(cs[0], start);
      ChildrenArePreOrder(cs[1..], start + RowCount(cs[0]));
      NodeRowsAppend(PreOrder(cs[0]), PreOrderAll(cs[1..]), start);
      ShownTotalAppend(PreOrder(cs[0]), PreOrderAll(cs[1..]));
    }
  }

  /** A receipt's rows come first and consist of its shown actions, in
      order, with its id, accounts and outcome copied: one row if its first
      action is a delegate action, one per action otherwise. */
  lemma OwnRowsFirst(r: TxnReceipt, start: nat)
    ensures var rows := RowsFrom(r, start);
      |ShownActions(r)| <= |rows| &&
      (|r.actions| > 0 && r.actions[0].action == DelegateAction ==> |ShownActions(r)| == 1) &&
      (!(|r.actions| > 0 && r.actions[0].action == DelegateAction) ==> |ShownActions(r)| == |r.actions|) &&
      forall i :: 0 <= i < |ShownActions(r)| ==>
        rows[i].action == ShownActions(r)[i] && rows[i].action == r.actions[i] &&
        rows[i].receiptId == r.receiptId && rows[i].predecessor == r.predecessor &&
        rows[i].receiver == r.receiver && rows[i].outcomeStatus == r.outcome.status &&
        rows[i].gasBurnt == r.outcome.gasBurnt && rows[i].tokensBurnt == r.outcome.tokensBurnt
  {
  }

  /** Every row belongs to some receipt of the tree and copies that
      receipt's fields; its action is one that receipt shows. */
  lemma RowProvenance(r: TxnReceipt, i: nat)
    requires i < |RowsFrom(r, 0)|
    ensures exists n, a :: n in PreOrder(r) && a in ShownActions(n) &&
              RowsFrom(r, 0)[i] == MakeRow(n, a, i)
  {
    WalkIsPreOrder(r, 0);
    RowsNumbered(r, 0);
    NodeRowsProvenance(PreOrder(r), 0, i);
  }

  /** The row is that of an action some node in `nodes` shows. */
  ghost predicate RowOfSome(nodes: seq<TxnReceipt>, row: ReceiptRow) {
    exists n, a, idx :: n in nodes && a in ShownActions(n) && row == MakeRow(n, a, idx)
  }

  lemma {:induction false} NodeRowsProvenance(nodes: seq<TxnReceipt>, start: nat, i: nat)
    requires i < |NodeRows(nodes, start)|
    ensures RowOfSome(nodes, NodeRows(nodes, start)[i])
    decreases |nodes|
  {
    assert nodes != [];
    var k := |ShownActions(nodes[0])|;
    if i < k {
      OwnRowOf(nodes, start, i);
    } else {
      TailRowIs(nodes, start, i);
      NodeRowsProvenance(nodes[1..], start + k, i - k);
      RowOfTail(nodes, NodeRows(nodes, start)[i]);
    }
  }

  lemma OwnRowOf(nodes: seq<TxnReceipt>, start: nat, i: nat)
    requires nodes != [] && i < |ShownActions(nodes[0])|
    ensures i < |NodeRows(nodes, start)| && RowOfSome(nodes, NodeRows(nodes, start)[i])
  {
    var own := OwnRows(nodes[0], start);
    var rest := NodeRows(nodes[1..], start + |own|);
    assert NodeRows(nodes, start) == own + rest;
    var a := ShownActions(nodes[0])[i];
    assert (own + rest)[i] == own[i] == MakeRow(nodes[0], a, start + i);
    assert nodes[0] in nodes;
  }

  lemma TailRowIs(nodes: seq<TxnReceipt>, start: nat, i: nat)
    requires nodes != [] && |ShownActions(nodes[0])| <= i < |NodeRows(nodes, start)|
    ensures i - |ShownActions(nodes[0])| < |NodeRows(nodes[1..], start + |ShownActions(nodes[0])|)|
    ensures NodeRows(nodes, start)[i] ==
            NodeRows(nodes[1..], start + |ShownActions(nodes[0])|)[i - |ShownActions(nodes[0])|]
  {
    NodeRowsCons(nodes, start);
    AppendIndex(OwnRows(nodes[0], start), NodeRows(nodes[1..], start + |ShownActions(nodes[0])|), i);
  }

  /** One step of `NodeRows`. */
  lemma NodeRowsCons(nodes: seq<TxnReceipt>, start: nat)
    requires nodes != []
    ensures NodeRows(nodes, start) ==
            OwnRows(nodes[0], start) + NodeRows(nodes[1..], start + |ShownActions(nodes[0])|)
  {
  }

  lemma AppendIndex<T>(a: seq<T>, b: seq<T>, i: nat)
    requires |a| <= i < |a| + |b|
    ensures (a + b)[i] == b[i - |a|]
  {
  }

  lemma RowOfTail(nodes: seq<TxnReceipt>, row: ReceiptRow)
    requires nodes != [] && RowOfSome(nodes[1..], row)
    ensures RowOfSome(nodes, row)
  {
    var n, a, idx :| n in nodes[1..] && a in ShownActions(n) && row == MakeRow(n, a, idx);
    assert n in nodes;
  }

  /** A receipt with no actions adds no rows of its own, but its children
      are still walked. */
  lemma EmptyReceiptWalksChildren(r: TxnReceipt, start: nat)
    requires r.actions == []
    ensures RowsFrom(r, start) == ChildrenRows(r.receipts, start)
    ensures RowCount(r) == ChildrenCount(r.receipts)
  {
    assert OwnRows(r, start) == [];
  }

  /** `actionDeposit(action)`: `args.deposit` when `args` is a record whose
      `deposit` is a string. */
  function ActionDeposit(a: ActionReceipt): (r: Option<string>)
    ensures r.Some? <==> a.args.JObj? && Get(a.args.fields, "deposit").Some? && Get(a.args.fields, "deposit").value.JStr?
    ensures r.Some? ==> Get(a.args.fields, "deposit") == Some(JStr(r.value))
  {
    match a.args
    case JObj(fields) =>
      (match Get(fields, "deposit")
       case Some(JStr(d)) => Some(d)
       case _ => None)
    case _ => None
  }
}
