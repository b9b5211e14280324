/** The documents whose schemas are not part of this model (users, inventory
    items and feedback), with the fields the handlers read and write. */
module Records {
  import opened Common

  /** A user account; the password hash is opaque and not represented. */
  datatype User = User(id: Id, name: string, email: string, role: Role)

  /** A stock-keeping line of the parts store; prices are in cents. */
  datatype InventoryItem = InventoryItem(
    id: Id,
    name: string,
    partNumber: Option<string>,
    supplier: Option<string>,
    quantity: int,
    unit: string,
    costPrice: int,
    salePrice: int,
    lowStockThreshold: int)

  /** A rating left by a customer for one of their appointments. */
  datatype Feedback = Feedback(id: Id, appointment: Id, customer: Id, rating: int, comment: string)

  function UserId(u: User): Id { u.id }
  function ItemId(i: InventoryItem): Id { i.id }
  function FeedbackId(f: Feedback): Id { f.id }

  /** `quantity <= lowStockThreshold`, the low-stock condition. */
  predicate IsLowStock(i: InventoryItem)
  {
    i.quantity <= i.lowStockThreshold
  }
}
