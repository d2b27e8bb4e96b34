/** The write path of chain/serializers.py: request payloads, the validation
    hook, moving a product down from a supplier, the update that uses it, and
    node creation. */
module Serializers {
  import opened Results
  import opened Models

  /** Why a request is rejected. */
  datatype Error =
    | InvalidFields                           // a required field is missing, or the debt does not fit its column
    | InvalidSupplier                         // a factory names a supplier
    | MissingSupplier(nodeType: NodeType)     // a retail network or an entrepreneur names none
    | ProductConflict(product: ProductId)     // a factory claims a product that another node holds
    | NoSupplier                              // products sent to a non-factory node without a stored supplier
    | ProductNotAvailable(product: ProductId) // the supplier does not hold the product
    | ImmutableDebt                           // the general update carries a debt

  /** A request body after its fields have been parsed.  None means the key was
      absent; for a nullable column, Some(None) means it was sent as null. */
  datatype Payload = Payload(
    name: Option<string>,
    nodeType: Option<NodeType>,
    email: Option<Option<string>>,
    country: Option<string>,
    city: Option<Option<string>>,
    street: Option<Option<string>>,
    houseNumber: Option<Option<string>>,
    products: Option<seq<ProductId>>,
    supplier: Option<Option<NodeId>>,
    debt: Option<Option<int>>)

  /** A body that sends no key at all. */
  const EmptyPayload: Payload :=
    Payload(None, None, None, None, None, None, None, None, None, None)

  /** What a stored table looks like after an operation that may stop part-way:
      the rows as left behind, and the error, if any, that stopped it. */
  datatype Effect = Effect(after: map<NodeId, Node>, failure: Option<Error>)

  /** The payload names a supplier: the key is present and not null. */
  predicate NamesSupplier(p: Payload) {
    p.supplier.Some? && p.supplier.value.Some?
  }

  /** The products the payload lists, the empty list when the key is absent. */
  function ListedProducts(p: Payload): seq<ProductId> {
    p.products.GetOr([])
  }

  /** A supplier the payload names is a stored node: the primary-key field has
      already looked it up before any of the code below runs. */
  predicate SupplierResolved(m: map<NodeId, Node>, p: Payload) {
    NamesSupplier(p) ==> p.supplier.value.value in m
  }

  function Elems(qs: seq<ProductId>): set<ProductId> {
    set q | q in qs
  }

  /** A factory's supplier is absent and any other node's is present. */
  predicate Paired(n: Node) {
    n.nodeType == Factory <==> n.supplier.None?
  }

  // ---------------------------------------------------------------------------
  // Field checks run by the serializer before `validate`

  /** On creation and on a full update the name, type, country and product list
      must be sent; a debt that is sent must fit its decimal column. */
  predicate FieldsValid(p: Payload, partial: bool) {
    && (partial || (p.name.Some? && p.nodeType.Some? && p.country.Some? && p.products.Some?))
    && (p.debt.Some? && p.debt.value.Some? ==> DebtInRange(p.debt.value.value))
  }

  // ---------------------------------------------------------------------------
  // validate

  /** Some stored node other than the one being updated holds product `q`.  On
      creation there is no such node to leave out, so every holder counts. */
  predicate HeldElsewhere(m: map<NodeId, Node>, instance: Option<NodeId>, q: ProductId) {
    exists k | k in m :: Some(k) != instance && q in m[k].products
  }

  /** The index of the first product of `qs` that is held elsewhere, if any. */
  function FirstConflict(qs: seq<ProductId>, m: map<NodeId, Node>, instance: Option<NodeId>): (r: Option<nat>)
    ensures r.Some? ==> r.value < |qs| && HeldElsewhere(m, instance, qs[r.value])
    ensures forall j | 0 <= j < |qs| && (r.None? || j < r.value) :: !HeldElsewhere(m, instance, qs[j])
  {
    if qs == [] then None
    else if HeldElsewhere(m, instance, qs[0]) then Some(0)
    else match FirstConflict(qs[1..], m, instance)
      case None => None
      case Some(k) => Some(k + 1)
  }

  /** When a payload passes validation, stated on its own terms: without a type
      there is nothing to check; a factory names no supplier and claims no
      product held elsewhere; a retail network or an entrepreneur names one. */
  ghost predicate Acceptable(p: Payload, m: map<NodeId, Node>, instance: Option<NodeId>) {
    match p.nodeType
    case None => true
    case Some(t) =>
      if t == Factory then
        !NamesSupplier(p) && forall q | q in ListedProducts(p) :: !HeldElsewhere(m, instance, q)
      else NamesSupplier(p)
  }

  /** The verdict of `validate` on a payload, given the stored table and the id
      of the node being updated (None on creation).  It looks only at the
      payload's type, supplier and products, never at the stored node itself. */
  function Validation(p: Payload, m: map<NodeId, Node>, instance: Option<NodeId>): (r: Result<Payload, Error>)
    ensures r.Ok? <==> Acceptable(p, m, instance)
    ensures r.Ok? ==> r.value == p
    ensures p.nodeType.None? ==> r == Ok(p)
    ensures r == Err(InvalidSupplier) <==> p.nodeType == Some(Factory) && NamesSupplier(p)
    ensures (r.Err? && r.error.MissingSupplier?) <==> p.nodeType.Some? && p.nodeType.value != Factory && !NamesSupplier(p)
    ensures r.Err? && r.error.MissingSupplier? ==> r.error.nodeType == p.nodeType.value
    ensures r.Err? ==> r.error.InvalidSupplier? || r.error.MissingSupplier? || r.error.ProductConflict?
    ensures p.nodeType == Some(Factory) && !NamesSupplier(p) && FirstConflict(ListedProducts(p), m, instance).Some? ==>
      r == Err(ProductConflict(ListedProducts(p)[FirstConflict(ListedProducts(p), m, instance).value]))
    ensures r.Err? && r.error.ProductConflict? ==>
      && p.nodeType == Some(Factory) && !NamesSupplier(p)
      && r.error.product in ListedProducts(p) && HeldElsewhere(m, instance, r.error.product)
  {
    match p.nodeType
    case None => Ok(p)
    case Some(t) =>
      if t == Factory then
        if NamesSupplier(p) then Err(InvalidSupplier)
        else
          match FirstConflict(ListedProducts(p), m, instance)
          case Some(i) => Err(ProductConflict(ListedProducts(p)[i]))
          case None => Ok(p)
      else if NamesSupplier(p) then Ok(p)
      else Err(MissingSupplier(t))
  }

  /** validate: reads the payload and the table, raises on the first broken rule
      (the first conflicting product, in the order listed) and otherwise hands
      the payload back unchanged. */
  method Validate(p: Payload, m: map<NodeId, Node>, instance: Option<NodeId>) returns (r: Result<Payload, Error>)
    ensures r == Validation(p, m, instance)
  {
    if p.nodeType == Some(Factory) && NamesSupplier(p) {
      return Err(InvalidSupplier);
    }
    if p.nodeType.Some? && p.nodeType.value != Factory && !NamesSupplier(p) {
      return Err(MissingSupplier(p.nodeType.value));
    }
    if p.nodeType == Some(Factory) {
      var qs := ListedProducts(p);
      for i := 0 to |qs|
        invariant forall j | 0 <= j < i :: !HeldElsewhere(m, instance, qs[j])
      {
        if HeldElsewhere(m, instance, qs[i]) {
          return Err(ProductConflict(qs[i]));
        }
      }
    }
    return Ok(p);
  }

  /** Re-saving a factory with products only it holds is accepted because the
      node being updated is left out of the conflict search; the same payload
      checked with nobody left out conflicts with the factory itself. */
  lemma ResavingFactoryAccepted(m: map<NodeId, Node>, id: NodeId, p: Payload)
    requires id in m && p.nodeType == Some(Factory) && !NamesSupplier(p)
    requires forall q | q in ListedProducts(p) :: q in m[id].products
    requires forall k, q | k in m && k != id && q in m[id].products :: q !in m[k].products
    ensures Validation(p, m, Some(id)) == Ok(p)
    ensures ListedProducts(p) != [] ==> Validation(p, m, None).Err?
  {
  }

  // ---------------------------------------------------------------------------
  // move_product

  /** Moving product `q` from node `from` to node `to`: allowed only when `from`
      holds it; then it leaves `from`, joins `to`, and nothing else changes. */
  function Moved(m: map<NodeId, Node>, from: NodeId, to: NodeId, q: ProductId): (r: Result<map<NodeId, Node>, Error>)
    requires from in m && to in m
    ensures r.Ok? <==> q in m[from].products
    ensures r.Err? ==> r.error == ProductNotAvailable(q)
    ensures r.Ok? ==> SameButProducts(m, r.value)
    ensures r.Ok? ==> r.value[to].products == m[to].products + {q}
    ensures r.Ok? && from != to ==> r.value[from].products == m[from].products - {q}
    ensures r.Ok? ==> forall k | k in m && k != from && k != to :: r.value[k] == m[k]
  {
    if q in m[from].products then
      var m1 := m[from := m[from].(products := m[from].products - {q})];
      Ok(m1[to := m1[to].(products := m1[to].products + {q})])
    else
      Err(ProductNotAvailable(q))
  }

  /** move_product on the stored table. */
  method MoveProduct(db: Store, from: NodeId, to: NodeId, q: ProductId) returns (r: Result<(), Error>)
    requires db.Valid() && from in db.nodes && to in db.nodes
    modifies db
    ensures db.Valid() && db.nextId == old(db.nextId)
    ensures Moved(old(db.nodes), from, to, q).Ok? ==> r.Ok? && db.nodes == Moved(old(db.nodes), from, to, q).value
    ensures Moved(old(db.nodes), from, to, q).Err? ==> r == Err(ProductNotAvailable(q)) && db.nodes == old(db.nodes)
  {
    var supplier := db.nodes[from];
    if q in supplier.products {
      db.nodes := db.nodes[from := supplier.(products := supplier.products - {q})];
      var client := db.nodes[to];
      db.nodes := db.nodes[to := client.(products := client.products + {q})];
      SameButProductsWellFormed(old(db.nodes), db.nodes);
      r := Ok(());
    } else {
      r := Err(ProductNotAvailable(q));
    }
  }

  /** The moves of `qs`, one after the other, from `from` to `to`.  The first
      move that fails stops the sequence, and the moves before it stay done. */
  function Transferred(m: map<NodeId, Node>, from: NodeId, to: NodeId, qs: seq<ProductId>): (e: Effect)
    requires from in m && to in m
    ensures SameButProducts(m, e.after)
    ensures forall k | k in m && k != from && k != to :: e.after[k] == m[k]
    ensures forall k | k in m && k != to :: e.after[k].products <= m[k].products
    ensures m[to].products <= e.after[to].products
    ensures e.failure.Some? ==> e.failure.value.ProductNotAvailable? && e.failure.value.product in qs
    decreases |qs|
  {
    if qs == [] then Effect(m, None)
    else
      var e := Transferred(m, from, to, qs[..|qs| - 1]);
      if e.failure.Some? then e
      else
        match Moved(e.after, from, to, qs[|qs| - 1])
        case Ok(m') => Effect(m', None)
        case Err(err) => Effect(e.after, Some(err))
  }

  /** Once a prefix of the moves has failed, the later products change nothing. */
  lemma {:induction false} TransferFailureSticks(m: map<NodeId, Node>, from: NodeId, to: NodeId, qs: seq<ProductId>, k: nat)
    requires from in m && to in m && k <= |qs|
    requires Transferred(m, from, to, qs[..k]).failure.Some?
    ensures Transferred(m, from, to, qs) == Transferred(m, from, to, qs[..k])
    decreases |qs|
  {
    if k < |qs| {
      var init := qs[..|qs| - 1];
      assert init[..k] == qs[..k];
      TransferFailureSticks(m, from, to, init, k);
    } else {
      assert qs[..k] == qs;
    }
  }

  /** Product qs[i] is still at the supplier when its turn comes: the supplier
      held it at the start and no earlier entry of the list took it. */
  predicate Available(s: set<ProductId>, qs: seq<ProductId>, i: nat)
    requires i < |qs|
  {
    qs[i] in s && qs[i] !in qs[..i]
  }

  /** The products of a list are those of all but its last entry, and the last. */
  lemma ElemsInit(qs: seq<ProductId>)
    requires qs != []
    ensures Elems(qs) == Elems(qs[..|qs| - 1]) + {qs[|qs| - 1]}
  {
    assert qs == qs[..|qs| - 1] + [qs[|qs| - 1]];
  }

  /** One more move after a run of successful moves. */
  lemma TransferStep(m: map<NodeId, Node>, from: NodeId, to: NodeId, qs: seq<ProductId>)
    requires from in m && to in m && qs != []
    requires Transferred(m, from, to, qs[..|qs| - 1]).failure.None?
    ensures var before := Transferred(m, from, to, qs[..|qs| - 1]).after;
      && from in before && to in before
      && Transferred(m, from, to, qs) ==
           match Moved(before, from, to, qs[|qs| - 1])
           case Ok(m') => Effect(m', None)
           case Err(err) => Effect(before, Some(err))
  {
  }

  /** When every move finds its product, all of them move, and only them. */
  lemma {:induction false} TransferAllAvailable(m: map<NodeId, Node>, from: NodeId, to: NodeId, qs: seq<ProductId>)
    requires from in m && to in m && from != to
    requires forall i | 0 <= i < |qs| :: Available(m[from].products, qs, i)
    ensures Transferred(m, from, to, qs).failure.None?
    ensures Transferred(m, from, to, qs).after[from].products == m[from].products - Elems(qs)
    ensures Transferred(m, from, to, qs).after[to].products == m[to].products + Elems(qs)
    decreases |qs|
  {
    if qs != [] {
      var init, last := qs[..|qs| - 1], qs[|qs| - 1];
      forall i | 0 <= i < |init|
        ensures Available(m[from].products, init, i)
      {
        assert init[..i] == qs[..i];
        assert Available(m[from].products, qs, i);
      }
      TransferAllAvailable(m, from, to, init);
      var before := Transferred(m, from, to, init).after;
      assert Available(m[from].products, qs, |qs| - 1);
      assert last in before[from].products;
      TransferStep(m, from, to, qs);
      var moved := Moved(before, from, to, last);
      assert Transferred(m, from, to, qs) == Effect(moved.value, None);
      ElemsInit(qs);
    }
  }

  /** The first n entries of a list, all available, are available as a list of
      their own. */
  lemma PrefixAvailable(s: set<ProductId>, qs: seq<ProductId>, n: nat)
    requires n <= |qs|
    requires forall i | 0 <= i < n :: Available(s, qs, i)
    ensures forall i | 0 <= i < n :: Available(s, qs[..n], i)
  {
    forall i | 0 <= i < n
      ensures Available(s, qs[..n], i)
    {
      assert qs[..n][..i] == qs[..i];
      assert Available(s, qs, i);
    }
  }

  /** Dropping the last entry of the first n + 1 leaves the first n. */
  lemma PrefixOfPrefix(qs: seq<ProductId>, n: nat)
    requires n < |qs|
    ensures |qs[..n + 1]| == n + 1
    ensures qs[..n + 1][..n] == qs[..n] && qs[..n + 1][n] == qs[n]
  {
  }

  /** A transfer whose first n moves succeed and leave the supplier without
      product qs[n] stops there, with the table those n moves leave behind. */
  lemma {:induction false} TransferStopsAt(m: map<NodeId, Node>, from: NodeId, to: NodeId, qs: seq<ProductId>, n: nat, before: map<NodeId, Node>)
    requires from in m && to in m && n < |qs|
    requires Transferred(m, from, to, qs[..n]) == Effect(before, None)
    requires qs[n] !in before[from].products
    ensures Transferred(m, from, to, qs) == Effect(before, Some(ProductNotAvailable(qs[n])))
  {
    TransferPrefixStops(m, from, to, qs, n, before);
    TransferFailureSticks(m, from, to, qs, n + 1);
  }

  /** The first n + 1 moves of such a transfer end with the error on qs[n]. */
  lemma {:induction false} TransferPrefixStops(m: map<NodeId, Node>, from: NodeId, to: NodeId, qs: seq<ProductId>, n: nat, before: map<NodeId, Node>)
    requires from in m && to in m && n < |qs|
    requires Transferred(m, from, to, qs[..n]) == Effect(before, None)
    requires qs[n] !in before[from].products
    ensures Transferred(m, from, to, qs[..n + 1]) == Effect(before, Some(ProductNotAvailable(qs[n])))
  {
    PrefixOfPrefix(qs, n);
    TransferLastMissing(m, from, to, qs[..n + 1]);
  }

  /** A last product the supplier no longer holds ends the transfer with an error
      and leaves the table as the earlier moves left it. */
  lemma {:induction false} TransferLastMissing(m: map<NodeId, Node>, from: NodeId, to: NodeId, qs: seq<ProductId>)
    requires from in m && to in m && qs != []
    requires Transferred(m, from, to, qs[..|qs| - 1]).failure.None?
    requires qs[|qs| - 1] !in Transferred(m, from, to, qs[..|qs| - 1]).after[from].products
    ensures Transferred(m, from, to, qs) ==
      Effect(Transferred(m, from, to, qs[..|qs| - 1]).after, Some(ProductNotAvailable(qs[|qs| - 1])))
  {
    TransferStep(m, from, to, qs);
  }

  /** The outcome of a transfer, given the index n of the first product that is
      not available (n == |qs| when there is none): the first n products have
      moved from `from` to `to`, the table is what the first n moves alone leave
      behind (nothing is rolled back), and the error names product qs[n].  A
      product listed twice is not available the second time. */
  lemma {:induction false} TransferOutcome(m: map<NodeId, Node>, from: NodeId, to: NodeId, qs: seq<ProductId>, n: nat)
    requires from in m && to in m && from != to && n <= |qs|
    requires forall i | 0 <= i < n :: Available(m[from].products, qs, i)
    requires n < |qs| ==> !Available(m[from].products, qs, n)
    ensures Transferred(m, from, to, qs).failure == if n < |qs| then Some(ProductNotAvailable(qs[n])) else None
    ensures Transferred(m, from, to, qs).after == Transferred(m, from, to, qs[..n]).after
    ensures Transferred(m, from, to, qs).after[from].products == m[from].products - Elems(qs[..n])
    ensures Transferred(m, from, to, qs).after[to].products == m[to].products + Elems(qs[..n])
  {
    PrefixAvailable(m[from].products, qs, n);
    TransferAllAvailable(m, from, to, qs[..n]);
    if n < |qs| {
      assert qs[n] in qs[..n] ==> qs[n] in Elems(qs[..n]);
      TransferStopsAt(m, from, to, qs, n, Transferred(m, from, to, qs[..n]).after);
    } else {
      assert qs[..n] == qs;
    }
  }

  /** A node that is its own supplier: moving a product it holds takes it out
      and puts it back, so the table is unchanged. */
  lemma MovedToSelf(m: map<NodeId, Node>, k: NodeId, q: ProductId)
    requires k in m && q in m[k].products
    ensures Moved(m, k, k, q) == Ok(m)
  {
    var m1 := m[k := m[k].(products := m[k].products - {q})];
    assert (m[k].products - {q}) + {q} == m[k].products;
    assert m1[k].(products := m1[k].products + {q}) == m[k];
    assert m1[k := m[k]] == m;
  }

  /** For a node that is its own supplier, a list of products it holds moves
      without error, however often a product is listed, and the table stays. */
  lemma {:induction false} TransferToSelfAll(m: map<NodeId, Node>, k: NodeId, qs: seq<ProductId>)
    requires k in m
    requires forall i | 0 <= i < |qs| :: qs[i] in m[k].products
    ensures Transferred(m, k, k, qs) == Effect(m, None)
    decreases |qs|
  {
    if qs != [] {
      var init := qs[..|qs| - 1];
      forall i | 0 <= i < |init|
        ensures init[i] in m[k].products
      {
        assert init[i] == qs[i];
      }
      TransferToSelfAll(m, k, init);
      TransferStep(m, k, k, qs);
      MovedToSelf(m, k, qs[|qs| - 1]);
    }
  }

  /** The outcome of a transfer from a node to itself, given the index n of the
      first product it does not hold (n == |qs| when it holds them all): the
      table is unchanged, and the error, if any, names product qs[n]. */
  lemma {:induction false} TransferToSelfOutcome(m: map<NodeId, Node>, k: NodeId, qs: seq<ProductId>, n: nat)
    requires k in m && n <= |qs|
    requires forall i | 0 <= i < n :: qs[i] in m[k].products
    requires n < |qs| ==> qs[n] !in m[k].products
    ensures Transferred(m, k, k, qs) == Effect(m, if n < |qs| then Some(ProductNotAvailable(qs[n])) else None)
  {
    var pre := qs[..n];
    forall i | 0 <= i < |pre|
      ensures pre[i] in m[k].products
    {
      assert pre[i] == qs[i];
    }
    TransferToSelfAll(m, k, pre);
    if n < |qs| {
      TransferStopsAt(m, k, k, qs, n, m);
    } else {
      assert pre == qs;
    }
  }

  // ---------------------------------------------------------------------------
  // update

  /** The node after the payload's plain fields are written onto it (name, type,
      supplier, contact and address).  A key that is absent keeps the stored
      value; products, debt and the creation stamp are never among the fields. */
  function Applied(n: Node, p: Payload): (r: Node)
    ensures r.products == n.products && r.debt == n.debt && r.createdAt == n.createdAt
    ensures r.nodeType == p.nodeType.GetOr(n.nodeType) && r.supplier == p.supplier.GetOr(n.supplier)
    ensures r.name == p.name.GetOr(n.name) && r.email == p.email.GetOr(n.email) && r.country == p.country.GetOr(n.country)
    ensures r.city == p.city.GetOr(n.city) && r.street == p.street.GetOr(n.street) && r.houseNumber == p.houseNumber.GetOr(n.houseNumber)
    ensures p == EmptyPayload ==> r == n
  {
    n.(name := p.name.GetOr(n.name),
       nodeType := p.nodeType.GetOr(n.nodeType),
       supplier := p.supplier.GetOr(n.supplier),
       email := p.email.GetOr(n.email),
       country := p.country.GetOr(n.country),
       city := p.city.GetOr(n.city),
       street := p.street.GetOr(n.street),
       houseNumber := p.houseNumber.GetOr(n.houseNumber))
  }

  /** Writing the fields of a payload whose supplier is resolved keeps the table
      well formed. */
  lemma AppliedWellFormed(m: map<NodeId, Node>, id: NodeId, p: Payload)
    requires WellFormed(m) && id in m && SupplierResolved(m, p)
    ensures WellFormed(m[id := Applied(m[id], p)])
  {
  }

  /** The products step of update, which looks at the STORED node: a factory's
      product set is replaced by the listed products; any other node pulls each
      listed product, in order, from its stored supplier, and without a stored
      supplier the step is rejected. */
  function ProductsEffect(m: map<NodeId, Node>, id: NodeId, qs: seq<ProductId>): (e: Effect)
    requires WellFormed(m) && id in m
    ensures SameButProducts(m, e.after)
    ensures forall k | k in m && k != id && Some(k) != m[id].supplier :: e.after[k] == m[k]
    ensures m[id].nodeType == Factory ==>
      e.failure.None? && e.after[id].products == Elems(qs) && forall k | k in m && k != id :: e.after[k] == m[k]
    ensures m[id].nodeType != Factory ==> m[id].products <= e.after[id].products
    ensures m[id].nodeType != Factory && m[id].supplier.None? ==> e == Effect(m, Some(NoSupplier))
    ensures e.failure.Some? && !e.failure.value.ProductNotAvailable? ==> e.after == m
  {
    var n := m[id];
    if n.nodeType == Factory then Effect(m[id := n.(products := Elems(qs))], None)
    else if n.supplier.Some? then Transferred(m, n.supplier.value, id, qs)
    else Effect(m, Some(NoSupplier))
  }

  /** update: a payload that carries a debt is rejected before anything is
      touched; then the products step runs; if it succeeds the payload's plain
      fields are written.  A failing move stops the update after the earlier
      moves and writes no field. */
  function UpdateEffect(m: map<NodeId, Node>, id: NodeId, p: Payload): (e: Effect)
    requires WellFormed(m) && id in m
    ensures p.debt.Some? ==> e == Effect(m, Some(ImmutableDebt))
    ensures e.after.Keys == m.Keys
    ensures forall k | k in m :: e.after[k].debt == m[k].debt && e.after[k].createdAt == m[k].createdAt
    ensures forall k | k in m && k != id && Some(k) != m[id].supplier :: e.after[k] == m[k]
    ensures e.failure.Some? ==> SameButProducts(m, e.after)
    ensures e.failure.Some? && !e.failure.value.ProductNotAvailable? ==> e.after == m
    ensures e.failure.None? ==> p.debt.None? && e.after[id] == Applied(m[id], p).(products := e.after[id].products)
    ensures p.debt.None? && p.products.None? ==> e == Effect(m[id := Applied(m[id], p)], None)
  {
    if p.debt.Some? then Effect(m, Some(ImmutableDebt))
    else
      var moved := if p.products.Some? then ProductsEffect(m, id, p.products.value) else Effect(m, None);
      if moved.failure.Some? then moved
      else Effect(moved.after[id := Applied(moved.after[id], p)], None)
  }

  /** On a factory, update sets the product set to exactly the listed products
      and writes the fields; no other node changes. */
  lemma UpdateFactoryReplacesProducts(m: map<NodeId, Node>, id: NodeId, p: Payload)
    requires WellFormed(m) && id in m && m[id].nodeType == Factory
    requires p.debt.None? && p.products.Some?
    ensures UpdateEffect(m, id, p) == Effect(m[id := Applied(m[id], p).(products := Elems(p.products.value))], None)
  {
  }

  /** On a retail network or an entrepreneur whose stored supplier is `s`, update
      pulls the listed products from `s` in order; n is the index of the first
      one not available.  The first n products move, products the node already
      held stay, and the error, if any, names product qs[n]. */
  lemma UpdateMovesFromStoredSupplier(m: map<NodeId, Node>, id: NodeId, p: Payload, s: NodeId, qs: seq<ProductId>, n: nat)
    requires WellFormed(m) && id in m && m[id].nodeType != Factory
    requires m[id].supplier == Some(s) && s != id
    requires p.debt.None? && p.products == Some(qs) && n <= |qs|
    requires forall i | 0 <= i < n :: Available(m[s].products, qs, i)
    requires n < |qs| ==> !Available(m[s].products, qs, n)
    ensures UpdateEffect(m, id, p).failure == if n < |qs| then Some(ProductNotAvailable(qs[n])) else None
    ensures UpdateEffect(m, id, p).after[s].products == m[s].products - Elems(qs[..n])
    ensures UpdateEffect(m, id, p).after[id].products == m[id].products + Elems(qs[..n])
  {
    assert s in m;
    TransferOutcome(m, s, id, qs, n);
  }

  /** The loop of update that moves each listed product, in order, from the
      supplier to the node, stopping at the first product the supplier lacks. */
  method MoveAll(db: Store, from: NodeId, to: NodeId, qs: seq<ProductId>) returns (failure: Option<Error>)
    requires db.Valid() && from in db.nodes && to in db.nodes
    modifies db
    ensures db.Valid() && db.nextId == old(db.nextId)
    ensures Transferred(old(db.nodes), from, to, qs) == Effect(db.nodes, failure)
  {
    for i := 0 to |qs|
      invariant db.Valid() && db.nextId == old(db.nextId)
      invariant Transferred(old(db.nodes), from, to, qs[..i]) == Effect(db.nodes, None)
    {
      assert qs[..i + 1][..i] == qs[..i];
      var moved := MoveProduct(db, from, to, qs[i]);
      if moved.Err? {
        TransferFailureSticks(old(db.nodes), from, to, qs, i + 1);
        return Some(moved.error);
      }
    }
    assert qs[..|qs|] == qs;
    return None;
  }

  /** serializer.update on the stored table. */
  method Update(db: Store, id: NodeId, p: Payload) returns (r: Result<Node, Error>)
    requires db.Valid() && id in db.nodes && SupplierResolved(db.nodes, p)
    modifies db
    ensures db.Valid() && db.nextId == old(db.nextId)
    ensures db.nodes == UpdateEffect(old(db.nodes), id, p).after
    ensures UpdateEffect(old(db.nodes), id, p).failure.Some? ==> r == Err(UpdateEffect(old(db.nodes), id, p).failure.value)
    ensures UpdateEffect(old(db.nodes), id, p).failure.None? ==> r == Ok(db.nodes[id])
  {
    if p.debt.Some? {
      return Err(ImmutableDebt);
    }
    if p.products.Some? {
      var qs := p.products.value;
      var node := db.nodes[id];
      if node.nodeType == Factory {
        db.nodes := db.nodes[id := node.(products := Elems(qs))];
        SameButProductsWellFormed(old(db.nodes), db.nodes);
      } else if node.supplier.Some? {
        var failure := MoveAll(db, node.supplier.value, id, qs);
        if failure.Some? {
          return Err(failure.value);
        }
      } else {
        return Err(NoSupplier);
      }
    }
    AppliedWellFormed(db.nodes, id, p);
    db.nodes := db.nodes[id := Applied(db.nodes[id], p)];
    r := Ok(db.nodes[id]);
  }

  /** An update request end to end: the field checks, then `validate` against the
      stored table with the node itself left out of the conflict search, then
      update.  Any rejection before the moves leaves the table as it was. */
  function UpdateRequest(m: map<NodeId, Node>, id: NodeId, p: Payload, partial: bool): (e: Effect)
    requires WellFormed(m) && id in m
    ensures FieldsValid(p, partial) && Acceptable(p, m, Some(id)) ==> e == UpdateEffect(m, id, p)
    ensures !FieldsValid(p, partial) ==> e.failure == Some(InvalidFields)
    ensures FieldsValid(p, partial) && Validation(p, m, Some(id)).Err? ==> e.failure == Some(Validation(p, m, Some(id)).error)
    ensures !(FieldsValid(p, partial) && Acceptable(p, m, Some(id))) ==> e.failure.Some? && e.after == m
    ensures e.failure.None? ==> FieldsValid(p, partial) && Acceptable(p, m, Some(id)) && p.debt.None?
    ensures e.failure.Some? && !e.failure.value.ProductNotAvailable? ==> e.after == m
    ensures e.failure.Some? ==> SameButProducts(m, e.after)
    ensures e.after.Keys == m.Keys
    ensures forall k | k in m :: e.after[k].debt == m[k].debt && e.after[k].createdAt == m[k].createdAt
  {
    if !FieldsValid(p, partial) then Effect(m, Some(InvalidFields))
    else
      match Validation(p, m, Some(id))
      case Err(err) => Effect(m, Some(err))
      case Ok(_) => UpdateEffect(m, id, p)
  }

  /** A debt in an update payload is always refused and changes nothing, whatever
      its value, even the stored one. */
  lemma UpdateRejectsAnyDebt(m: map<NodeId, Node>, id: NodeId, p: Payload, partial: bool)
    requires WellFormed(m) && id in m && p.debt.Some?
    ensures UpdateRequest(m, id, p, partial).failure.Some?
    ensures UpdateRequest(m, id, p, partial).after == m
  {
  }

  /** When an accepted update sends both a type and a supplier key, the node ends
      up paired: a factory without a supplier, any other node with one. */
  lemma UpdatePairing(m: map<NodeId, Node>, id: NodeId, p: Payload, partial: bool)
    requires WellFormed(m) && id in m && p.nodeType.Some? && p.supplier.Some?
    requires UpdateRequest(m, id, p, partial).failure.None?
    ensures Paired(UpdateRequest(m, id, p, partial).after[id])
  {
  }

  /** The update request on the stored table. */
  method UpdateNode(db: Store, id: NodeId, p: Payload, partial: bool) returns (r: Result<Node, Error>)
    requires db.Valid() && id in db.nodes && SupplierResolved(db.nodes, p)
    modifies db
    ensures db.Valid() && db.nextId == old(db.nextId)
    ensures db.nodes == UpdateRequest(old(db.nodes), id, p, partial).after
    ensures UpdateRequest(old(db.nodes), id, p, partial).failure.Some? ==>
      r == Err(UpdateRequest(old(db.nodes), id, p, partial).failure.value)
    ensures UpdateRequest(old(db.nodes), id, p, partial).failure.None? ==> r == Ok(db.nodes[id])
  {
    if !FieldsValid(p, partial) {
      return Err(InvalidFields);
    }
    var checked := Validate(p, db.nodes, Some(id));
    if checked.Err? {
      return Err(checked.error);
    }
    r := Update(db, id, p);
  }

  // ---------------------------------------------------------------------------
  // create

  /** The record a creation payload describes; the stamp is replaced on insert. */
  function NewNode(p: Payload): Node
    requires p.name.Some? && p.nodeType.Some? && p.country.Some?
  {
    Node(p.name.value, p.nodeType.value, p.supplier.GetOr(None), p.email.GetOr(None),
         p.country.value, p.city.GetOr(None), p.street.GetOr(None), p.houseNumber.GetOr(None),
         Elems(ListedProducts(p)), p.debt.GetOr(None), 0)
  }

  /** A creation request: the field checks, then `validate` with no node left out
      of the conflict search, then the new record.  Creation does not go through
      update: the debt may be set, and the listed products are assigned directly,
      without being moved from a supplier. */
  function Creation(m: map<NodeId, Node>, p: Payload): (r: Result<Node, Error>)
    ensures r.Ok? <==> FieldsValid(p, false) && Acceptable(p, m, None)
    ensures !FieldsValid(p, false) ==> r == Err(InvalidFields)
    ensures FieldsValid(p, false) && Validation(p, m, None).Err? ==> r == Err(Validation(p, m, None).error)
    ensures r.Ok? ==> Paired(r.value) && DebtStored(r.value) && (SupplierResolved(m, p) ==> SupplierKnown(m, r.value))
    ensures r.Ok? ==>
      && r.value.name == p.name.value && r.value.nodeType == p.nodeType.value
      && r.value.supplier == p.supplier.GetOr(None) && r.value.country == p.country.value
    ensures r.Ok? ==>
      && r.value.email == p.email.GetOr(None) && r.value.city == p.city.GetOr(None)
      && r.value.street == p.street.GetOr(None) && r.value.houseNumber == p.houseNumber.GetOr(None)
    ensures r.Ok? ==> r.value.products == Elems(ListedProducts(p)) && r.value.debt == p.debt.GetOr(None)
    ensures r.Ok? && r.value.nodeType == Factory ==>
      forall k, q | k in m && q in r.value.products :: q !in m[k].products
  {
    if !FieldsValid(p, false) then Err(InvalidFields)
    else
      match Validation(p, m, None)
      case Err(err) => Err(err)
      case Ok(_) => Ok(NewNode(p))
  }

  /** The creation request on the stored table. */
  method CreateNode(db: Store, p: Payload, now: Stamp) returns (r: Result<NodeId, Error>)
    requires db.Valid() && SupplierResolved(db.nodes, p)
    modifies db
    ensures db.Valid()
    ensures Creation(old(db.nodes), p).Err? ==>
      r == Err(Creation(old(db.nodes), p).error) && db.nodes == old(db.nodes) && db.nextId == old(db.nextId)
    ensures Creation(old(db.nodes), p).Ok? ==>
      && r.Ok? && r.value !in old(db.nodes) && db.nodes == old(db.nodes)[r.value := Creation(old(db.nodes), p).value.(createdAt := now)]
      && r.value == old(db.nextId) && db.nextId == old(db.nextId) + 1
  {
    if !FieldsValid(p, false) {
      return Err(InvalidFields);
    }
    var checked := Validate(p, db.nodes, None);
    if checked.Err? {
      return Err(checked.error);
    }
    var id := db.Insert(NewNode(p), now);
    return Ok(id);
  }

  // ---------------------------------------------------------------------------
  // One factory per product

  /** Node k is a factory holding product q. */
  predicate FactoryHolds(m: map<NodeId, Node>, k: NodeId, q: ProductId) {
    k in m && m[k].nodeType == Factory && q in m[k].products
  }

  /** No product is held by two factories. */
  ghost predicate SingleFactory(m: map<NodeId, Node>) {
    forall a, b, q | FactoryHolds(m, a, q) && FactoryHolds(m, b, q) :: a == b
  }

  /** An accepted creation never gives a product a second factory. */
  lemma CreationKeepsSingleFactory(m: map<NodeId, Node>, p: Payload, id: NodeId, now: Stamp)
    requires SingleFactory(m) && id !in m && Creation(m, p).Ok?
    ensures SingleFactory(m[id := Creation(m, p).value.(createdAt := now)])
  {
    var n := Creation(m, p).value.(createdAt := now);
    var m' := m[id := n];
    forall a, b, q | FactoryHolds(m', a, q) && FactoryHolds(m', b, q)
      ensures a == b
    {
      if a != id && b != id {
        assert FactoryHolds(m, a, q) && FactoryHolds(m, b, q);
      }
    }
  }

  /** Pulling products down to a node that is not a factory never gives a
      product a second factory. */
  lemma TransferKeepsSingleFactory(m: map<NodeId, Node>, from: NodeId, to: NodeId, qs: seq<ProductId>)
    requires from in m && to in m && m[to].nodeType != Factory && SingleFactory(m)
    ensures SingleFactory(Transferred(m, from, to, qs).after)
  {
    var m' := Transferred(m, from, to, qs).after;
    forall a, b, q | FactoryHolds(m', a, q) && FactoryHolds(m', b, q)
      ensures a == b
    {
      assert m'[a].nodeType == m[a].nodeType && m'[b].nodeType == m[b].nodeType;
      assert FactoryHolds(m, a, q) && FactoryHolds(m, b, q);
    }
  }

  /** A node of the given type, supplier and products, its other columns fixed. */
  function SampleNode(t: NodeType, supplier: Option<NodeId>, products: set<ProductId>): Node {
    Node("n", t, supplier, None, "c", None, None, None, products, None, 0)
  }

  /** A partial update that sends only a product list sends no type, so none of
      the checks of `validate` fires, and a factory can take a product that
      another factory holds. */
  lemma PartialUpdateCanBreakSingleFactory()
    ensures var m := map[1 := SampleNode(Factory, None, {7}), 2 := SampleNode(Factory, None, {})];
            var e := UpdateRequest(m, 2, EmptyPayload.(products := Some([7])), true);
            WellFormed(m) && SingleFactory(m) && e.failure.None? && !SingleFactory(e.after)
  {
    var m := map[1 := SampleNode(Factory, None, {7}), 2 := SampleNode(Factory, None, {})];
    var p := EmptyPayload.(products := Some([7]));
    var e := UpdateRequest(m, 2, p, true);
    assert Validation(p, m, Some(2)) == Ok(p);
    assert Elems([7]) == {7} by { assert 7 in [7]; }
    UpdateFactoryReplacesProducts(m, 2, p);
    assert FactoryHolds(e.after, 1, 7) && FactoryHolds(e.after, 2, 7);
  }

  /** A full update that turns a retail network holding a factory's product into
      a factory passes `validate` when it lists no products, since only the listed
      products are checked for conflicts, and the product then has two factories. */
  lemma FullUpdateCanMakeSecondFactory()
    ensures var m := map[1 := SampleNode(Factory, None, {7}), 2 := SampleNode(Retail, Some(1), {7})];
            var p := EmptyPayload.(name := Some("n"), nodeType := Some(Factory), supplier := Some(None), country := Some("c"), products := Some([]));
            var e := UpdateRequest(m, 2, p, false);
            WellFormed(m) && SingleFactory(m) && e.failure.None? && !SingleFactory(e.after)
  {
    var m := map[1 := SampleNode(Factory, None, {7}), 2 := SampleNode(Retail, Some(1), {7})];
    var p := EmptyPayload.(name := Some("n"), nodeType := Some(Factory), supplier := Some(None), country := Some("c"), products := Some([]));
    var e := UpdateRequest(m, 2, p, false);
    assert Validation(p, m, Some(2)) == Ok(p);
    assert FactoryHolds(e.after, 1, 7) && FactoryHolds(e.after, 2, 7);
  }

  /** A full update that turns a retail network into a factory but sends no
      supplier key passes `validate` (an absent supplier counts as none) and
      keeps the stored supplier. */
  lemma FullUpdateCanLeaveSupplierOnFactory()
    ensures var m := map[1 := SampleNode(Factory, None, {}), 2 := SampleNode(Retail, Some(1), {})];
            var p := EmptyPayload.(name := Some("n"), nodeType := Some(Factory), country := Some("c"), products := Some([]));
            var e := UpdateRequest(m, 2, p, false);
            WellFormed(m) && e.failure.None? && e.after[2].nodeType == Factory && e.after[2].supplier == Some(1)
  {
  }
}
