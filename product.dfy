/** The product catalogue of the event-driven example: products are plain
    objects keyed by id, with a set of the SKUs handed out at creation.
    Prices are whole numbers; fresh ids and the clock are parameters. */
module Product {
  import opened Wrappers
  import opened Json

  datatype Action = Create | Get | Update | Deactivate | List

  function Name(a: Action): string {
    match a
    case Create => "create"
    case Get => "get"
    case Update => "update"
    case Deactivate => "deactivate"
    case List => "list"
  }

  /** The `switch` of `execute`. */
  function Dispatch(action: string): (r: Result<Action>)
    ensures r.Ok? ==> Name(r.value) == action
    ensures r.Err? ==> r.error == "Unknown action: " + action && forall a :: Name(a) != action
  {
    if action == "create" then Ok(Create)
    else if action == "get" then Ok(Get)
    else if action == "update" then Ok(Update)
    else if action == "deactivate" then Ok(Deactivate)
    else if action == "list" then Ok(List)
    else Err("Unknown action: " + action)
  }

  /** The object `create` stores. */
  function NewProduct(id: string, name: string, sku: string, price: int, description: string, category: string,
                      now: int): (p: Object)
    ensures |p| == 8 && UniqueKeys(p)
  {
    [Field("id", Str(id)), Field("name", Str(name)), Field("sku", Str(sku)), Field("price", Int(price)),
     Field("description", Str(description)), Field("category", Str(if category == "" then "general" else category)),
     Field("status", Str("active")), Field("createdAt", Int(now))]
  }

  /** A created product carries its SKU, is active, and lands in the
      `general` category when none is given. */
  lemma NewProductFields(id: string, name: string, sku: string, price: int, description: string, category: string,
                         now: int)
    ensures var p := NewProduct(id, name, sku, price, description, category, now);
            Json.Get(p, "sku") == Some(Str(sku)) && Json.Get(p, "description") == Some(Str(description))
            && Listed(p, "active", if category == "" then "general" else category)
  {
    var p := NewProduct(id, name, sku, price, description, category, now);
    GetAt(p, 2);
    GetAt(p, 4);
    GetAt(p, 5);
    GetAt(p, 6);
  }

  /** The two filters of `list`: the status, and the category when one is
      given. */
  predicate Listed(p: Object, status: string, category: string) {
    Json.Get(p, "status") == Some(Str(status)) && (category == "" || Json.Get(p, "category") == Some(Str(category)))
  }

  class ProductStore {
    var products: map<string, Object>
    /** The keys of `products` in insertion order, as a Map iterates. */
    var productOrder: seq<string>
    var skus: set<string>

    ghost predicate Valid()
      reads this
    {
      (forall i, j :: 0 <= i < j < |productOrder| ==> productOrder[i] != productOrder[j])
      && (forall id :: id in products <==> id in productOrder)
    }

    constructor()
      ensures products == map[] && productOrder == [] && skus == {} && Valid()
    {
      products := map[];
      productOrder := [];
      skus := {};
    }

    /** `create`: `price` is None when absent; an empty description reads as
        absent. */
    method Create(name: string, sku: string, price: Option<int>, description: string, category: string,
                  productId: string, now: int) returns (r: Result<Object>)
      requires Valid() && productId !in products
      modifies this
      ensures Valid()
      ensures r.Err? <==> name == "" || sku == "" || price.None? || sku in old(skus)
      ensures r.Err? ==> r.error == (if name == "" || sku == "" || price.None? then "Name, SKU, and price are required"
                                     else "SKU already exists")
      ensures r.Err? ==> products == old(products) && productOrder == old(productOrder) && skus == old(skus)
      ensures r.Ok? ==> r.value == NewProduct(productId, name, sku, price.value, description, category, now)
      ensures r.Ok? ==> products == old(products)[productId := r.value] && productOrder == old(productOrder) + [productId]
      ensures r.Ok? ==> skus == old(skus) + {sku}
    {
      if name == "" || sku == "" || price.None? {
        return Err("Name, SKU, and price are required");
      }
      if sku in skus {
        return Err("SKU already exists");
      }
      var p := NewProduct(productId, name, sku, price.value, description, category, now);
      products := products[productId := p];
      productOrder := productOrder + [productId];
      skus := skus + {sku};
      return Ok(p);
    }

    method GetProduct(productId: string) returns (r: Result<Object>)
      ensures r.Ok? <==> productId in products
      ensures r.Ok? ==> r.value == products[productId]
      ensures r.Err? ==> r.error == "Product not found"
    {
      if productId !in products {
        return Err("Product not found");
      }
      return Ok(products[productId]);
    }

    /** `update`: the updates overlay the product, later keys winning; the
        SKU registry is left as it is, even when the SKU changes. */
    method UpdateProduct(productId: string, updates: Object, now: int) returns (r: Result<Object>)
      requires Valid() && UniqueKeys(updates)
      modifies this`products
      ensures Valid()
      ensures r.Ok? <==> productId in old(products)
      ensures r.Err? ==> r.error == "Product not found" && products == old(products)
      ensures r.Ok? ==> r.value == Put(Merge(old(products)[productId], updates), "updatedAt", Int(now))
      ensures r.Ok? ==> products == old(products)[productId := r.value]
      ensures r.Ok? ==> forall k :: k != "updatedAt" ==>
        Json.Get(r.value, k) == if k in Keys(updates) then Json.Get(updates, k) else Json.Get(old(products)[productId], k)
    {
      if productId !in products {
        return Err("Product not found");
      }
      var p := Put(Merge(products[productId], updates), "updatedAt", Int(now));
      forall k | k != "updatedAt"
        ensures Json.Get(p, k) == if k in Keys(updates) then Json.Get(updates, k) else Json.Get(products[productId], k)
      {
        PutGet(Merge(products[productId], updates), "updatedAt", Int(now), k);
        MergeGet(products[productId], updates, k);
      }
      products := products[productId := p];
      return Ok(p);
    }

    method DeactivateProduct(productId: string, now: int) returns (r: Result<Object>)
      requires Valid()
      modifies this`products
      ensures Valid()
      ensures r.Ok? <==> productId in old(products)
      ensures r.Err? ==> r.error == "Product not found" && products == old(products)
      ensures r.Ok? ==> r.value == Put(Put(old(products)[productId], "status", Str("inactive")), "deactivatedAt", Int(now))
      ensures r.Ok? ==> Json.Get(r.value, "status") == Some(Str("inactive"))
      ensures r.Ok? ==> products == old(products)[productId := r.value]
    {
      if productId !in products {
        return Err("Product not found");
      }
      var p := Put(Put(products[productId], "status", Str("inactive")), "deactivatedAt", Int(now));
      PutGet(Put(products[productId], "status", Str("inactive")), "deactivatedAt", Int(now), "status");
      PutGet(products[productId], "status", Str("inactive"), "status");
      products := products[productId := p];
      return Ok(p);
    }

    /** `list`: the products passing both filters, in insertion order;
        `status` is "active" when absent. */
    function ListProducts(status: Option<string>, category: string): (r: seq<Object>)
      reads this
      requires Valid()
      ensures forall p :: p in r ==> Listed(p, if status.None? then "active" else status.value, category)
      ensures forall p :: p in r ==> exists id :: id in productOrder && p == products[id]
      ensures forall id :: id in products && Listed(products[id], if status.None? then "active" else status.value, category)
                ==> products[id] in r
    {
      var s := if status.None? then "active" else status.value;
      FilterListed(productOrder, s, category)
    }

    function FilterListed(ids: seq<string>, status: string, category: string): (r: seq<Object>)
      reads this
      requires forall id :: id in ids ==> id in products
      ensures |r| <= |ids|
      ensures forall p :: p in r ==> Listed(p, status, category)
      ensures forall p :: p in r ==> exists id :: id in ids && p == products[id]
      ensures forall id :: id in ids && Listed(products[id], status, category) ==> products[id] in r
      decreases |ids|
    {
      if ids == [] then []
      else
        var rest := FilterListed(ids[1..], status, category);
        assert forall id :: id in ids[1..] ==> id in ids;
        if Listed(products[ids[0]], status, category) then [products[ids[0]]] + rest else rest
    }

    /** The filter keeps the order of the ids: listing a concatenation lists
        each part in turn. With the one-id case this pins the result down to
        the order-preserving filter of `productOrder`. */
    lemma {:induction false} FilterListedAppend(a: seq<string>, b: seq<string>, status: string, category: string)
      requires forall id :: id in a + b ==> id in products
      ensures FilterListed(a + b, status, category) == FilterListed(a, status, category) + FilterListed(b, status, category)
      decreases |a|
    {
      if a == [] {
        assert a + b == b;
      } else {
        assert (a + b)[0] == a[0] && (a + b)[1..] == a[1..] + b;
        FilterListedAppend(a[1..], b, status, category);
      }
    }

    lemma FilterListedOne(id: string, status: string, category: string)
      requires id in products
      ensures FilterListed([id], status, category) == if Listed(products[id], status, category) then [products[id]] else []
    {
      assert [id][1..] == [];
    }
  }
}
