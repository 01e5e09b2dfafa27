/** The products table: the statements of internal/product/repository_pg.go on single rows. */
module Products {
  import opened Basics

  type Id = ProductId

  datatype Product = Product(
    id: Id, sku: string, name: string, price: real, category: Option<nat>, brand: string,
    active: bool, createdAt: real)

  type Table = map<Id, Product>

  /** INSERT, refused when the ID or the SKU is taken or the price is negative. */
  predicate Insertable(t: Table, p: Product) {
    p.id !in t && p.price >= 0.0 && forall i :: i in t ==> t[i].sku != p.sku
  }

  function Inserted(t: Table, p: Product): Table {
    if Insertable(t, p) then t[p.id := p] else t
  }

  /** UPDATE by ID is refused by the CHECK on the price of the row it would write. */
  predicate Updatable(t: Table, p: Product) {
    p.id in t ==> p.price >= 0.0
  }

  /**
   UPDATE by ID, which leaves the SKU and the creation time alone, and has no effect when it is refused or
   there is no row.
   */
  function Updated(t: Table, p: Product): Table {
    if p.id in t && p.price >= 0.0 then t[p.id := p.(sku := t[p.id].sku, createdAt := t[p.id].createdAt)] else t
  }

  /** SELECT by ID among the active products. */
  function Visible(t: Table, id: Id): Option<Product> {
    if id in t && t[id].active then Some(t[id]) else None
  }
}
