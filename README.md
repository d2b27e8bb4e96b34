# Electronics chain: supply-chain consistency model

A Dafny model of the consistency logic of the `chain` application, a network of
electronics sellers. Factories make products. Retail networks and individual
entrepreneurs resell them. Each node of the network may name a supplier one level
up. The model covers three things:

- the node and product records and the node table (`Models`, chain/models.py);
- the write path of the node serializer (`Serializers`, chain/serializers.py):
  - the `validate` hook that pairs node types with suppliers and refuses product conflicts;
  - `move_product`, which moves one product from a supplier to a client;
  - `update`, which refuses any debt, then replaces a factory's products or pulls
    the listed products down from the stored supplier, then writes the plain fields;
  - the creation path, which runs the same `validate` but never moves products;
- the admin action `clear_debt` (`Admin`, chain/admin.py), which sets the debt of
  the selected nodes to zero and reports how many rows it updated.

The node table is a class, `Models.Store`, holding `nodes: map<NodeId, Node>` and
the next primary key. Its invariant `WellFormed` says what the database itself
guarantees: every supplier reference names a stored node, and every debt fits its
decimal column. Debt is held in whole cents, with magnitude below 10^10. Products
are referred to by id; a node holds references only, so deleting a node never
touches a product. Every operation that can fail returns a `Result`, or an
`Effect` (the table as left behind plus the error), and the error is one of
`InvalidFields`, `InvalidSupplier`, `MissingSupplier`, `ProductConflict`,
`NoSupplier`, `ProductNotAvailable` or `ImmutableDebt`.

A request body is a `Payload` in which every key may be absent. For a nullable
column, a key sent as null (`Some(None)`) is kept apart from an absent key
(`None`).

## Behaviour of the code that the model keeps

- `validate` reads the payload and the products other nodes hold; it never reads
  the stored node's own type or supplier. With no `node_type` key, as in a partial
  update, none of its three checks runs.
- The conflict search counts every other node that holds the product, of any
  type, not only other factories. On creation no node is left out of the search.
- `update` branches on the stored type and pulls from the stored supplier. The
  payload's type and supplier are written only afterwards.
- The moves of one `update` are not all-or-nothing. When product k is missing at
  the supplier, the products before k stay moved and no field is written. A
  product listed twice is missing the second time when the supplier is another
  node (`Serializers.TransferOutcome`); for a node that is its own supplier the
  repeat moves without error (`Serializers.TransferToSelfAll`).
- Creation assigns the listed products directly, even to a retail node, and may
  set a debt.
- "At most one factory per product" is not kept by every request. A partial update
  that sends only a product list lets a factory take another factory's product
  (`Serializers.PartialUpdateCanBreakSingleFactory`). A full update that makes a
  node a factory but sends no supplier key keeps the stored supplier
  (`Serializers.FullUpdateCanLeaveSupplierOnFactory`). A full update that turns a
  retail network holding a factory's product into a factory, listing no products,
  passes `validate`, since only listed products are checked, and leaves the product
  with two factories (`Serializers.FullUpdateCanMakeSecondFactory`). What does hold is proved:
  `Serializers.CreationKeepsSingleFactory`, `Serializers.TransferKeepsSingleFactory`
  and `Serializers.UpdatePairing`.

## Model

| member | source | states |
|---|---|---|
| `Models.Product.Display` | chain/models.py:25-26 | a product displays as its name, " (", its model and ")" at fixed positions |
| `Models.ParseNodeType` | chain/models.py:35-48 | a node type text is accepted exactly when it is the stored code of one of the three types, and it reads back as that type |
| `Models.Node.Display` | chain/models.py:83-84 | a node displays as its name, then " (", then the label of its type, then ")" |
| `Models.SameButProductsWellFormed` | chain/models.py:70 | changing product sets alone cannot break supplier references or debt bounds |
| `Models.Deleted` | chain/models.py:51-52 | deleting a node removes only that row; its clients stay, their supplier becomes null, and they change in no other column |
| `Models.DeletedWellFormed` | chain/models.py:51-52 | after a delete no supplier reference dangles |
| `Models.Store.Insert` | chain/models.py:77 | a new row gets the next primary key, which no stored row holds, and the current time as its creation stamp, whatever stamp it carried; the next key then moves up by one |
| `Models.Store.Delete` | chain/models.py:51-52 | deleting from the table keeps it well formed and leaves it as `Deleted` describes; the next primary key does not change, so a deleted key is never handed out again |
| `Serializers.FirstConflict` | chain/serializers.py:61-65 | the result is the index of the first listed product that some other node holds, or none when no listed product is held elsewhere |
| `Serializers.Validation` | chain/serializers.py:41-67 | the payload is accepted exactly when `Acceptable` holds and is then returned unchanged; a factory with a supplier gets InvalidSupplier, a retail node or entrepreneur without one gets MissingSupplier, a factory claiming a product another node holds gets ProductConflict for the first such product in the list; no other error occurs; with no type every payload passes |
| `Serializers.ResavingFactoryAccepted` | chain/serializers.py:63 | a factory re-sending products only it holds is accepted because it is left out of the search; with nobody left out the same payload is refused |
| `Serializers.Validate` | chain/serializers.py:41-67 | the check loop stops at the first conflicting product and returns the verdict of `Validation`, changing nothing |
| `Serializers.Moved` | chain/serializers.py:69-77 | the move succeeds exactly when the supplier holds the product; then the product leaves the supplier and joins the client and no other membership or column changes; otherwise the error is ProductNotAvailable for that product |
| `Serializers.MoveProduct` | chain/serializers.py:69-77 | on the table: on success the rows become those of `Moved`; on failure they stay as they were |
| `Serializers.Transferred` | chain/serializers.py:92-95 | a run of moves changes only product sets, only of the supplier and the client; it never adds a product to the supplier or removes one from the client, and any error is ProductNotAvailable for a listed product |
| `Serializers.TransferFailureSticks` | chain/serializers.py:94-95 | once a move has failed, the later products of the list change nothing |
| `Serializers.TransferAllAvailable` | chain/serializers.py:94-95 | when every listed product is at the supplier when its turn comes, all of them move to the client and leave the supplier |
| `Serializers.TransferStopsAt` | chain/serializers.py:94-95 | when the first n moves succeed and product n is no longer at the supplier, the whole run ends with ProductNotAvailable for it and the table the first n moves left |
| `Serializers.MovedToSelf` | chain/serializers.py:69-77 | when a node is its own supplier, moving a product it holds removes it and adds it back, so the table is unchanged |
| `Serializers.TransferToSelfAll` | chain/serializers.py:94-95 | when a node is its own supplier and holds every listed product, all the moves succeed, repeated products included, and the table is unchanged |
| `Serializers.TransferToSelfOutcome` | chain/serializers.py:94-95 | when a node is its own supplier, the table is unchanged, and the run fails exactly at the first listed product the node does not hold |
| `Serializers.TransferOutcome` | chain/serializers.py:94-95 | with n the first product not available, the first n products have moved, the table is what those n moves alone leave, and the error names product n |
| `Serializers.MoveAll` | chain/serializers.py:94-95 | the loop of moves leaves the table and the error that `Transferred` describes |
| `Serializers.Applied` | chain/serializers.py:99 | writing the payload's fields keeps products, debt and the creation stamp; each of name, type, supplier, e-mail, country, city, street and house number takes the sent value, and an absent key keeps the stored value |
| `Serializers.AppliedWellFormed` | chain/serializers.py:99 | writing fields with a resolved supplier keeps the table well formed |
| `Serializers.ProductsEffect` | chain/serializers.py:86-97 | a stored factory gets exactly the listed products and nothing else changes; a non-factory node keeps the products it had; one without a stored supplier gets NoSupplier and nothing changes; only the node and its stored supplier can change |
| `Serializers.UpdateEffect` | chain/serializers.py:79-99 | a payload with a debt is refused with nothing changed; no debt or creation stamp ever changes; only the node and its stored supplier change; a refusal other than a failed move changes nothing; on success the node carries the payload's fields |
| `Serializers.UpdateFactoryReplacesProducts` | chain/serializers.py:89-91 | updating a stored factory replaces its product set with the listed products and involves no supplier |
| `Serializers.UpdateMovesFromStoredSupplier` | chain/serializers.py:92-97 | updating a non-factory node pulls the listed products from its stored supplier up to the first one missing; products it already held stay |
| `Serializers.Update` | chain/serializers.py:79-99 | on the table, update leaves the rows and the result that `UpdateEffect` describes and keeps the table well formed |
| `Serializers.UpdateRequest` | chain/serializers.py:41-99 | a request that passes the field checks and `validate` goes on to `update` and has exactly its effect; any other request is refused with the table unchanged, with InvalidFields when a field check fails and otherwise with the error of `validate`; an accepted update sent no debt; debts and creation stamps never change |
| `Serializers.UpdateRejectsAnyDebt` | chain/serializers.py:83-84 | any debt key in an update request, whatever its value, is refused and nothing changes |
| `Serializers.UpdatePairing` | chain/serializers.py:53-58 | an accepted update that sends a type and a supplier key leaves a factory without a supplier and any other node with one |
| `Serializers.UpdateNode` | chain/serializers.py:41-99 | on the table, the update request leaves the rows and the result that `UpdateRequest` describes |
| `Serializers.Creation` | chain/serializers.py:41-67 | a creation is accepted exactly when the fields are valid and the payload is `Acceptable` with nobody left out; a refusal is InvalidFields when a field check fails and otherwise the error of `validate` (InvalidSupplier, MissingSupplier or ProductConflict); the new node has the sent name, type, supplier, e-mail, country, city, street and house number (a nullable key left out is null), is paired with a supplier correctly (a factory has none, any other type has one), holds the listed products and the sent debt, and a new factory claims no product any stored node holds |
| `Serializers.CreateNode` | chain/serializers.py:41-67 | on the table, a refused creation changes nothing and an accepted one adds the record of `Creation` under the next primary key, with the current stamp, and moves the next key up by one |
| `Serializers.CreationKeepsSingleFactory` | chain/serializers.py:61-65 | an accepted creation never gives a product a second factory |
| `Serializers.TransferKeepsSingleFactory` | chain/serializers.py:92-95 | moving products down to a node that is not a factory never gives a product a second factory |
| `Serializers.PartialUpdateCanBreakSingleFactory` | chain/serializers.py:48-65 | a partial update sending only a product list lets a factory take a product another factory holds |
| `Serializers.FullUpdateCanMakeSecondFactory` | chain/serializers.py:60-64 | a full update making a retail node that holds a factory's product into a factory, with an empty product list, is accepted and leaves the product with two factories |
| `Serializers.FullUpdateCanLeaveSupplierOnFactory` | chain/serializers.py:49-58 | a full update making a retail node a factory without a supplier key keeps its stored supplier |
| `Admin.DebtCleared` | chain/admin.py:23 | every selected stored node owes zero; no other column and no unselected node changes |
| `Admin.DebtClearedIdempotent` | chain/admin.py:23 | clearing the same selection twice gives the same table as clearing it once |
| `Admin.DebtClearedWellFormed` | chain/admin.py:23 | clearing debts keeps every debt within its column |
| `Admin.ClearDebt` | chain/admin.py:22-24 | on the table, the rows become those of `DebtCleared`, and the count is the number of selected nodes that exist |

## Left out

- The HTTP layer (chain/views.py, chain/urls.py): routing, token endpoints, list, filter and search endpoints. It is library wiring with no logic of its own.
- The access rule of chain/permissions.py, which requires an authenticated, active staff user. It is a precondition of every request and is not modelled.
- Product create, update and delete through their own serializer and view. Products are plain ids here, and deleting a product is not modelled.
- Primary-key lookup of the payload's supplier and products. The model assumes it has succeeded (`SupplierResolved`), so a request naming an unknown id is not modelled.
- Field checks the framework runs on text: blank values, maximum lengths and e-mail format. `FieldsValid` covers only the required keys and the debt range.
- Debt sent with more than two decimals. Debt is whole cents.
- The clock and the textual format of `created_at`. The current time is a parameter of `Store.Insert` and of `CreateNode`.
- The admin message after `clear_debt` and the admin list, search and filter settings.
- Database transactions, isolation and concurrent requests. Each request runs alone, and the model performs no rollback that the code does not perform.
- Serializers.TransferOutcome: gives the product sets only when the supplier is a different node. A node that is its own supplier is covered by `Serializers.TransferToSelfOutcome` instead: its table never changes, and a product listed twice moves twice without error.
- Serializers.TransferAllAvailable: same restriction. A node that is its own supplier is covered by `Serializers.TransferToSelfAll`.
- Serializers.UpdateMovesFromStoredSupplier: same restriction. For a node stored as its own supplier, the moves are those of `Serializers.TransferToSelfOutcome`.
