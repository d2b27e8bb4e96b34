/** The records of the electronics network (chain/models.py): products, chain
    nodes, and the table that stores the nodes. */
module Models {
  import opened Results

  type NodeId = nat
  type ProductId = nat

  /** The moment a row was created, as the database clock gives it. */
  type Stamp = int

  /** A calendar date (a product's optional market release date). */
  datatype Date = Date(year: int, month: nat, day: nat)

  // ---------------------------------------------------------------------------
  // Product

  /** A product made by a factory and resold down the network.  Nodes refer to
      products by id; a product's lifetime does not depend on any node. */
  datatype Product = Product(name: string, model: string, releaseDate: Option<Date>) {
    /** The display form "name (model)". */
    function Display(): (r: string)
      ensures |r| == |name| + |model| + 3
      ensures r[..|name|] == name && r[|name|..|name| + 2] == " ("
      ensures r[|name| + 2..|r| - 1] == model && r[|r| - 1] == ')'
    {
      Parenthesized(name, model)
    }
  }

  /** `head (tail)`, the shape both display forms of this module share. */
  function Parenthesized(head: string, tail: string): (r: string)
    ensures |r| == |head| + |tail| + 3
    ensures r[..|head|] == head && r[|head|..|head| + 2] == " ("
    ensures r[|head| + 2..|r| - 1] == tail && r[|r| - 1] == ')'
  {
    head + " (" + tail + ")"
  }

  // ---------------------------------------------------------------------------
  // Node type

  /** The three kinds of node; the stored column only ever holds one of them. */
  datatype NodeType = Factory | Retail | Entrepreneur {
    /** The value stored in the node_type column. */
    function Code(): string {
      match this
      case Factory => "factory"
      case Retail => "retail"
      case Entrepreneur => "entrepreneur"
    }

    /** The human-readable label of the choice. */
    function Label(): string {
      match this
      case Factory => "Завод"
      case Retail => "Розничная сеть"
      case Entrepreneur => "Индивидуальный предприниматель"
    }
  }

  /** The choice field: a text is accepted exactly when it is the code of one of
      the three node types, and then it is read back as that type. */
  function ParseNodeType(s: string): (r: Option<NodeType>)
    ensures forall t: NodeType :: r == Some(t) <==> t.Code() == s
  {
    if s == "factory" then Some(Factory)
    else if s == "retail" then Some(Retail)
    else if s == "entrepreneur" then Some(Entrepreneur)
    else None
  }

  // ---------------------------------------------------------------------------
  // Debt

  /** Debt is a decimal with at most ten digits, two of them after the point, so
      in whole cents its magnitude stays below 10^10. */
  const DebtBound: int := 10_000_000_000

  predicate DebtInRange(cents: int) {
    -DebtBound < cents < DebtBound
  }

  // ---------------------------------------------------------------------------
  // Chain node

  /** One link of the network.  `supplier` is the node one level up (absent for a
      factory once validated), `products` the ids of the products it holds, and
      `debt` what it owes its supplier, in cents. */
  datatype Node = Node(
    name: string,
    nodeType: NodeType,
    supplier: Option<NodeId>,
    email: Option<string>,
    country: string,
    city: Option<string>,
    street: Option<string>,
    houseNumber: Option<string>,
    products: set<ProductId>,
    debt: Option<int>,
    createdAt: Stamp)
  {
    /** The display form "name (type label)". */
    function Display(): (r: string)
      ensures |r| == |name| + |nodeType.Label()| + 3
      ensures r[..|name|] == name && r[|name|..|name| + 2] == " ("
      ensures r[|name| + 2..|r| - 1] == nodeType.Label() && r[|r| - 1] == ')'
    {
      Parenthesized(name, nodeType.Label())
    }
  }

  /** A node's supplier reference, when present, names a stored node. */
  predicate SupplierKnown(m: map<NodeId, Node>, n: Node) {
    n.supplier.Some? ==> n.supplier.value in m
  }

  /** A stored debt fits the decimal column. */
  predicate DebtStored(n: Node) {
    n.debt.Some? ==> DebtInRange(n.debt.value)
  }

  /** What the database itself guarantees of the node table: every supplier
      reference is a foreign key to a stored row and every debt fits its column. */
  predicate WellFormed(m: map<NodeId, Node>) {
    forall id | id in m :: SupplierKnown(m, m[id]) && DebtStored(m[id])
  }

  /** The two tables hold the same nodes, and each node's columns agree except
      perhaps for its product set. */
  predicate SameButProducts(m: map<NodeId, Node>, m': map<NodeId, Node>) {
    m'.Keys == m.Keys && forall k | k in m :: m'[k].(products := m[k].products) == m[k]
  }

  /** Changing product sets only keeps the table well formed. */
  lemma SameButProductsWellFormed(m: map<NodeId, Node>, m': map<NodeId, Node>)
    requires WellFormed(m) && SameButProducts(m, m')
    ensures WellFormed(m')
  {
  }

  /** The table after deleting node `gone`: its clients stay, and their supplier
      reference is cleared (on_delete=SET_NULL).  Products are untouched. */
  function Deleted(m: map<NodeId, Node>, gone: NodeId): (r: map<NodeId, Node>)
    ensures r.Keys == m.Keys - {gone}
    ensures forall id | id in r :: r[id].supplier != Some(gone)
    ensures forall id | id in r && m[id].supplier == Some(gone) :: r[id].supplier == None
    ensures forall id | id in r && m[id].supplier != Some(gone) :: r[id] == m[id]
    ensures forall id | id in r :: r[id].(supplier := m[id].supplier) == m[id]
  {
    map id | id in m && id != gone ::
      if m[id].supplier == Some(gone) then m[id].(supplier := None) else m[id]
  }

  /** Deleting a node leaves no dangling supplier reference behind. */
  lemma DeletedWellFormed(m: map<NodeId, Node>, gone: NodeId)
    requires WellFormed(m)
    ensures WellFormed(Deleted(m, gone))
  {
  }

  // ---------------------------------------------------------------------------
  // The node table

  /** The database table of chain nodes: rows by primary key, and the next key
      the database will hand out. */
  class Store {
    var nodes: map<NodeId, Node>
    var nextId: NodeId

    ghost predicate Valid()
      reads this
    {
      WellFormed(nodes) && forall id | id in nodes :: id < nextId
    }

    constructor ()
      ensures Valid() && nodes == map[]
    {
      nodes := map[];
      nextId := 1;
    }

    /** Saves a new row: it gets a fresh primary key and, because created_at is
        filled on insertion, the current time, whatever the record carried. */
    method Insert(n: Node, now: Stamp) returns (id: NodeId)
      requires Valid() && SupplierKnown(nodes, n) && DebtStored(n)
      modifies this
      ensures Valid()
      ensures id !in old(nodes) && nodes == old(nodes)[id := n.(createdAt := now)]
      ensures id == old(nextId) && nextId == old(nextId) + 1
    {
      id := nextId;
      nodes := nodes[id := n.(createdAt := now)];
      nextId := nextId + 1;
    }

    /** Deletes a row; the clients of the deleted node lose their supplier. */
    method Delete(gone: NodeId)
      requires Valid()
      modifies this
      ensures Valid() && nodes == Deleted(old(nodes), gone) && nextId == old(nextId)
    {
      DeletedWellFormed(nodes, gone);
      nodes := Deleted(nodes, gone);
    }
  }
}
