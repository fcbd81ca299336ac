/**
 * The seller's product handlers of `services/seller/product_handler.go`:
 * the field check shared by create and update, the insert, the update that
 * only the owning seller can perform, and the two reads.
 */
module ProductHandler {
  import opened Wrappers
  import opened Http
  import opened Text
  import opened Store

  const InvalidInput := "Bad Request: Invalid input data"
  const MissingId := "Bad Request: Missing id"
  const InvalidProductId := "Bad Request: Product id is invalid"
  const NoRowsUpdated := "No rows were updated."
  const InvalidCategoryId := "Invalid category id"
  /** The 409 message a rejected parameter produces when the product list is read. */
  const DuplicateName := "Username already exists. Please use a different username address."

  const MinPrice := 100
  const MaxPrice := 100000000

  /**
   * The field check of `postProduct` and `updateProduct`. Lengths are Go's
   * `len`, so they count UTF-8 bytes: a name needs 6 to 99 bytes, a
   * description at most 199. Passing it guarantees, in runes, a name of 2 to
   * 99 runes (six bytes can be two 3-byte runes) and a description under 200
   * runes.
   */
  predicate InvalidFields(p: Product): (b: bool)
    ensures !b ==> 2 <= |p.name| < 100 && |p.description| < 200 && MinPrice <= p.price <= MaxPrice && p.stock >= 0
  {
    ByteLen(p.name) <= 5 || ByteLen(p.description) >= 200 || ByteLen(p.name) >= 100
    || p.price < MinPrice || p.price > MaxPrice || p.stock < 0
  }

  /** For ASCII text the byte limits are rune limits: a name of 6 to 99 letters passes. */
  lemma AsciiFields(p: Product)
    requires forall i :: 0 <= i < |p.name| ==> p.name[i] as int < 0x80
    requires forall i :: 0 <= i < |p.description| ==> p.description[i] as int < 0x80
    ensures !InvalidFields(p) <==>
      6 <= |p.name| < 100 && |p.description| < 200 && MinPrice <= p.price <= MaxPrice && p.stock >= 0
  {
    ByteLenAscii(p.name);
    ByteLenAscii(p.description);
  }

  /** The row the INSERT of `postProduct` stores: the category is not among its columns. */
  function InsertedRow(p: Product, id: string, sellerId: string): (row: Product)
    ensures row.id == id && row.sellerId == sellerId && row.categoryId == None
    ensures row.name == p.name && row.description == p.description
    ensures row.price == p.price && row.stock == p.stock
  {
    p.(id := id, sellerId := sellerId, categoryId := None)
  }

  /** Appending a row with an unused id and non-negative stock keeps the constraints. */
  lemma AppendKeepsProductsOk(ps: seq<Product>, p: Product)
    requires ProductsOk(ps) && p.id !in ProductIds(ps) && p.stock >= 0
    ensures ProductsOk(ps + [p])
  {
    assert forall i :: 0 <= i < |ps| ==> ps[i].id in ProductIds(ps);
  }

  /**
   * `postProduct`: checks the fields, then inserts the product under a fresh
   * id (`uuid.New`) for the seller. The response echoes the request with the
   * new id and seller, category included, although the stored row has none.
   */
  method PostProduct(db: Database, sellerId: string, product: Product, freshId: string, fault: Fault)
      returns (r: Response<Product>)
    requires db.Valid()
    requires freshId !in ProductIds(db.products)
    modifies db`products
    ensures db.Valid()
    ensures r == Failed(400, InvalidInput) <==> InvalidFields(product)
    ensures !InvalidFields(product) && fault.Fails(1) ==> r == Failed(500, Internal)
    ensures r.Succeeded() <==> !InvalidFields(product) && !fault.Fails(1)
    ensures r.Succeeded() ==>
      && r.data == Some(product.(id := freshId, sellerId := sellerId))
      && db.products == old(db.products) + [InsertedRow(product, freshId, sellerId)]
    ensures !r.Succeeded() ==> db.products == old(db.products)
  {
    if InvalidFields(product) {
      return Failed(400, InvalidInput);
    }
    var created := product.(id := freshId, sellerId := sellerId);
    // INSERT INTO products (id, name, description, price, stock, seller_id) VALUES (...)
    if fault.Fails(1) {
      return Failed(500, Internal);
    }
    var row := InsertedRow(product, freshId, sellerId);
    AppendKeepsProductsOk(db.products, row);
    db.products := db.products + [row];
    return Ok(created);
  }

  /**
   * `UPDATE products SET name, description, price, stock WHERE id=@id AND
   * seller_id=@sellerId`: the new table, or None when no row is affected.
   * Only a row the seller owns can change, and only in those four columns.
   */
  function UpdateOwned(ps: seq<Product>, sellerId: string, p: Product): (r: Option<seq<Product>>)
    ensures r.None? <==> forall k :: 0 <= k < |ps| ==> !OwnedBy(ps[k], p.id, sellerId)
    ensures r.Some? ==> |r.value| == |ps| && forall k :: 0 <= k < |ps| ==>
      r.value[k] == if OwnedBy(ps[k], p.id, sellerId)
                    then ps[k].(name := p.name, description := p.description, price := p.price, stock := p.stock)
                    else ps[k]
  {
    if ps == [] then None
    else
      var head := if OwnedBy(ps[0], p.id, sellerId)
                  then ps[0].(name := p.name, description := p.description, price := p.price, stock := p.stock)
                  else ps[0];
      var tail := UpdateOwned(ps[1..], sellerId, p);
      assert forall k :: 1 <= k < |ps| ==> ps[1..][k - 1] == ps[k];
      if tail.Some? then Some([head] + tail.value)
      else if OwnedBy(ps[0], p.id, sellerId) then Some([head] + ps[1..])
      else None
  }

  /** The row has the id and belongs to the seller: the WHERE clause of the update. */
  predicate OwnedBy(row: Product, id: string, sellerId: string) {
    row.id == id && row.sellerId == sellerId
  }

  /** An update with valid fields keeps the table's constraints. */
  lemma UpdateKeepsProductsOk(ps: seq<Product>, sellerId: string, p: Product)
    requires ProductsOk(ps) && p.stock >= 0
    requires UpdateOwned(ps, sellerId, p).Some?
    ensures ProductsOk(UpdateOwned(ps, sellerId, p).value)
  {
    var r := UpdateOwned(ps, sellerId, p).value;
    assert forall k :: 0 <= k < |ps| ==> r[k].id == ps[k].id && r[k].stock >= 0;
  }

  /**
   * `updateProduct`: the id must be present and a UUID, the fields valid, and
   * the product the seller's own. A failing statement affects no rows, so it
   * too is reported as "No rows were updated."; the 500 after it is never
   * reached.
   */
  method UpdateProduct(db: Database, jwtId: string, product: Product, isUuid: string -> bool, fault: Fault)
      returns (r: Response<Product>)
    requires db.Valid()
    modifies db`products
    ensures db.Valid()
    ensures r == Failed(400, MissingId) <==> product.id == []
    ensures r == Failed(400, InvalidProductId) <==> product.id != [] && !isUuid(product.id)
    ensures r == Failed(400, InvalidInput) <==> product.id != [] && isUuid(product.id) && InvalidFields(product)
    ensures r == Failed(400, NoRowsUpdated) <==>
      && product.id != [] && isUuid(product.id) && !InvalidFields(product)
      && (fault.Fails(1) || UpdateOwned(old(db.products), jwtId, product).None?)
    ensures r.Succeeded() || r == Failed(400, MissingId) || r == Failed(400, InvalidProductId)
      || r == Failed(400, InvalidInput) || r == Failed(400, NoRowsUpdated)
    ensures r.Succeeded() ==>
      && r.data == Some(product)
      && UpdateOwned(old(db.products), jwtId, product).Some?
      && db.products == UpdateOwned(old(db.products), jwtId, product).value
    ensures !r.Succeeded() ==> db.products == old(db.products)
  {
    if ByteLen(product.id) <= 0 {
      return Failed(400, MissingId);
    }
    if !isUuid(product.id) {
      return Failed(400, InvalidProductId);
    }
    if InvalidFields(product) {
      return Failed(400, InvalidInput);
    }
    // the statement's command tag reports the rows it changed; a failed statement changed none
    var updated := if fault.Fails(1) then None else UpdateOwned(db.products, jwtId, product);
    if updated.None? {
      return Failed(400, NoRowsUpdated);
    }
    UpdateKeepsProductsOk(db.products, jwtId, product);
    db.products := updated.value;
    return Ok(product);
  }

  /** `SELECT * FROM products where id = $1`: every row with this id, in table order. */
  function RowsWithId(ps: seq<Product>, id: string): (r: seq<Product>)
    ensures |r| <= |ps|
    ensures forall p :: p in r <==> p in ps && p.id == id
  {
    if ps == [] then []
    else (if ps[0].id == id then [ps[0]] else []) + RowsWithId(ps[1..], id)
  }

  /** Under the primary key at most one row comes back, and it is the one `FindProduct` finds. */
  lemma {:induction false} RowsWithIdUnique(ps: seq<Product>, id: string)
    requires ProductsOk(ps)
    ensures RowsWithId(ps, id) == if FindProduct(ps, id).Some? then [ps[FindProduct(ps, id).value]] else []
  {
    if ps != [] {
      assert ProductsOk(ps[1..]);
      RowsWithIdUnique(ps[1..], id);
      if ps[0].id == id {
        assert id !in ProductIds(ps[1..]) by {
          assert forall k :: 1 <= k < |ps| ==> ps[k].id != id;
        }
      }
    }
  }

  /**
   * `getProductById`: exactly one row is a success; no row is a response with
   * neither data nor errors and the status spelled "sucess"; more than one
   * row, or a failing query, is a 500.
   */
  function GetProductById(db: Database, id: string, fault: Fault): (r: Response<Product>)
    reads db
    ensures !fault.Healthy? ==> r == Failed(500, Internal)
    ensures fault.Healthy? && id !in ProductIds(db.products) ==> r == Response("sucess", None, None)
    ensures r.Succeeded() ==> r.data.Some? && r.data.value in db.products && r.data.value.id == id
    ensures ProductsOk(db.products) && fault.Healthy? && id in ProductIds(db.products) ==> r.Succeeded()
  {
    if !fault.Healthy? then Failed(500, Internal)
    else
      var rows := RowsWithId(db.products, id);
      if |rows| == 0 then
        Response("sucess", None, None)
      else if |rows| == 1 then
        assert rows[0] in rows;
        Ok(rows[0])
      else
        RowsWithIdCount(db.products, id);
        Failed(500, Internal)
  }

  /** More than one row with an id means the primary key is broken. */
  lemma RowsWithIdCount(ps: seq<Product>, id: string)
    ensures ProductsOk(ps) ==> |RowsWithId(ps, id)| <= 1
  {
    if ProductsOk(ps) {
      RowsWithIdUnique(ps, id);
    }
  }

  /** `SELECT * FROM products where category_id = $1`. */
  function InCategory(ps: seq<Product>, categoryId: string): (r: seq<Product>)
    ensures |r| <= |ps|
    ensures forall p :: p in r <==> p in ps && p.categoryId == Some(categoryId)
    ensures forall p :: multiset(r)[p] == if p.categoryId == Some(categoryId) then multiset(ps)[p] else 0
  {
    if ps == [] then []
    else
      assert ps == [ps[0]] + ps[1..];
      (if ps[0].categoryId == Some(categoryId) then [ps[0]] else []) + InCategory(ps[1..], categoryId)
  }

  /**
   * `getProducts`: every product when no category is given, otherwise those
   * of a category whose id is a UUID. Only the filtered query has a
   * parameter; one the database rejects as invalid text (SQLSTATE 22P02)
   * surfaces while the rows are read, as a 409 whose message speaks of
   * usernames.
   */
  function GetProducts(db: Database, categoryId: string, isUuid: string -> bool, fault: Fault)
      : (r: Response<seq<Product>>)
    reads db
    ensures categoryId != [] && !isUuid(categoryId) ==> r == Failed(400, InvalidCategoryId)
    ensures (categoryId == [] || isUuid(categoryId)) && fault.FailsAt? && fault.statement == 1
      ==> r == Failed(500, Internal)
    ensures categoryId != [] && isUuid(categoryId) && fault.InvalidTextAt? && fault.statement == 1
      ==> r == Failed(409, DuplicateName)
    ensures r.Succeeded() <==>
      if categoryId == [] then !(fault.FailsAt? && fault.statement == 1) else isUuid(categoryId) && !fault.Fails(1)
    ensures r.Succeeded() && categoryId == [] ==> r.data == Some(db.products)
    ensures r.Succeeded() && categoryId != [] ==>
      r.data.Some? && forall p :: p in r.data.value <==> p in db.products && p.categoryId == Some(categoryId)
    ensures r.Succeeded() && categoryId != [] ==> (r.data.Some? &&
      forall p :: multiset(r.data.value)[p] == if p.categoryId == Some(categoryId) then multiset(db.products)[p] else 0)
  {
    if categoryId != [] && !isUuid(categoryId) then Failed(400, InvalidCategoryId)
    else if fault.FailsAt? && fault.statement == 1 then Failed(500, Internal)
    else if categoryId == [] then Ok(db.products)
    else if fault.InvalidTextAt? && fault.statement == 1 then Failed(409, DuplicateName)
    else Ok(InCategory(db.products, categoryId))
  }
}
