/** The admin action of chain/admin.py that clears the debt of the selected
    chain nodes in one bulk update. */
module Admin {
  import opened Results
  import opened Models

  /** The table after the bulk update `debt = 0` over the selected nodes that
      exist: each of them owes nothing, every other column and every other node
      stays as it was. */
  function DebtCleared(m: map<NodeId, Node>, selection: set<NodeId>): (r: map<NodeId, Node>)
    ensures r.Keys == m.Keys
    ensures forall k | k in m && k in selection :: r[k].debt == Some(0)
    ensures forall k | k in m :: r[k].(debt := m[k].debt) == m[k]
    ensures forall k | k in m && k !in selection :: r[k] == m[k]
  {
    map k | k in m :: if k in selection then m[k].(debt := Some(0)) else m[k]
  }

  /** Clearing the same selection twice leaves the table as clearing it once. */
  lemma DebtClearedIdempotent(m: map<NodeId, Node>, selection: set<NodeId>)
    ensures DebtCleared(DebtCleared(m, selection), selection) == DebtCleared(m, selection)
  {
  }

  /** A zero debt fits its column, so the bulk update keeps the table well formed. */
  lemma DebtClearedWellFormed(m: map<NodeId, Node>, selection: set<NodeId>)
    requires WellFormed(m)
    ensures WellFormed(DebtCleared(m, selection))
  {
  }

  /** Clearing one more node is clearing the larger selection. */
  lemma DebtClearedStep(m: map<NodeId, Node>, done: set<NodeId>, k: NodeId)
    requires k in m
    ensures DebtCleared(m, done)[k := DebtCleared(m, done)[k].(debt := Some(0))] == DebtCleared(m, done + {k})
  {
  }

  /** Only the selected nodes that exist matter. */
  lemma DebtClearedExisting(m: map<NodeId, Node>, selection: set<NodeId>)
    ensures DebtCleared(m, selection * m.Keys) == DebtCleared(m, selection)
  {
  }

  /** Taking k off the pending rows adds it to the rows done. */
  lemma OneMoreDone(rows: set<NodeId>, pending: set<NodeId>, k: NodeId)
    requires k in pending && pending <= rows
    ensures (rows - pending) + {k} == rows - (pending - {k})
  {
  }

  /** clear_debt: sets the debt of every selected node that exists to zero, row
      by row, and reports how many rows it updated. */
  method ClearDebt(db: Store, selection: set<NodeId>) returns (updated: nat)
    requires db.Valid()
    modifies db
    ensures db.Valid() && db.nextId == old(db.nextId)
    ensures db.nodes == DebtCleared(old(db.nodes), selection)
    ensures updated == |selection * old(db.nodes).Keys|
  {
    ghost var start := db.nodes;
    var rows := selection * db.nodes.Keys;
    var pending := rows;
    updated := 0;
    while pending != {}
      invariant pending <= rows
      invariant db.nodes == DebtCleared(start, rows - pending)
      invariant db.nextId == old(db.nextId)
      invariant updated + |pending| == |rows|
      decreases pending
    {
      var k :| k in pending;
      DebtClearedStep(start, rows - pending, k);
      db.nodes := db.nodes[k := db.nodes[k].(debt := Some(0))];
      OneMoreDone(rows, pending, k);
      pending := pending - {k};
      updated := updated + 1;
    }
    assert rows - pending == rows;
    DebtClearedExisting(start, selection);
    DebtClearedWellFormed(start, selection);
  }
}
