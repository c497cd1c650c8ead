/** The product routes' own logic: page and limit defaulting with `skip` and
    the page count (GET `/`), the 404 on a missing product (GET and PUT
    `/:id`), the required-field check and defaults of a new product (POST
    `/`), and the patch of an update, built one field at a time (PUT
    `/:id`). The product store is external: each route receives what the
    store answered (a value, or the error it threw), and the write routes
    receive the store operation as a function of what they send it. */
module Products {
  import opened JsValues
  import opened JsStrings
  import opened ErrorHandler

  /** A product document as the store returns it. */
  type Product = Obj

  /** What a store call does: resolve to a value, or throw an error. */
  datatype Answer<T> = Answer(value: T) | Threw(err: ErrorRecord)

  /** What a route sends. */
  datatype Reply =
    | Listing(count: nat, total: nat, page: int, pages: int, data: seq<Product>)  // 200, success: true
    | Item(status: int, product: Product)                                      // success: true
    | Failure(status: int, error: Value)                                       // success: false
    | Forward(err: ErrorRecord)                                                // next(err), to the error handler

  const NotFoundMessage := "Product not found"
  const MissingFieldsMessage := "Name, price, and category are required"

  // ---------------------------------------------------------------------
  // GET /: pagination

  /** What `validatePagination` lets through to the handler: `page`
      absent or an integer string of value at least 1, `limit` absent or an
      integer string of value 1 to 100. */
  predicate PaginationAccepted(pageQ: Option<string>, limitQ: Option<string>)
    ensures PaginationAccepted(pageQ, limitQ) ==>
      && (pageQ.Some? ==> IsIntString(pageQ.value) && ParseInt(pageQ).Num? && ParseInt(pageQ).n >= 1)
      && (limitQ.Some? ==> IsIntString(limitQ.value) && ParseInt(limitQ).Num? && 1 <= ParseInt(limitQ).n <= 100)
  {
    && (pageQ.Some? ==> IsIntString(pageQ.value) && IntValue(pageQ.value) >= 1)
    && (limitQ.Some? ==> IsIntString(limitQ.value) && 1 <= IntValue(limitQ.value) <= 100)
  }

  /** `parsed || fallback` for what `parseInt` returns (a number or NaN):
      the parsed number unless it is 0 or NaN. */
  function OrDefault(parsed: Value, fallback: int): (n: int)
    requires parsed.Num? || parsed.NaN?
    ensures parsed.Num? && parsed.n != 0 ==> n == parsed.n
    ensures parsed == Num(0) || parsed.NaN? ==> n == fallback
  {
    Or(parsed, Num(fallback)).n
  }

  datatype Paging = Paging(page: int, limit: int, skip: int)

  /** `page`, `limit` and `skip` as the handler computes them. */
  function Paginate(pageQ: Option<string>, limitQ: Option<string>): (p: Paging)
    requires PaginationAccepted(pageQ, limitQ)
    ensures p.page == (if pageQ.None? then 1 else IntValue(pageQ.value)) && p.page >= 1
    ensures p.limit == (if limitQ.None? then 10 else IntValue(limitQ.value)) && 1 <= p.limit <= 100
    ensures p.skip >= 0
  {
    var page := OrDefault(ParseInt(pageQ), 1);
    var limit := OrDefault(ParseInt(limitQ), 10);
    assert page == (if pageQ.None? then 1 else IntValue(pageQ.value));
    assert limit == (if limitQ.None? then 10 else IntValue(limitQ.value));
    var pagesBefore: nat := page - 1;
    Paging(page, limit, pagesBefore * limit)
  }

  /** `Math.ceil(total / limit)`, on exact rationals, for the positive
      limits the handler computes: the least number of `limit`-sized pages
      that hold `total` items, and 0 exactly when there are none. */
  function PageCount(total: nat, limit: int): (pages: int)
    requires limit >= 1
    ensures pages >= 0
    ensures pages * limit >= total
    ensures (pages - 1) * limit < total
    ensures pages == 0 <==> total == 0
  {
    var x := -(total as real) / (limit as real);
    assert x.Floor as real <= x < x.Floor as real + 1.0;
    QuotientBounds(-x.Floor, total, limit);
    -x.Floor
  }

  /** An integer between `t/l` and `t/l + 1` is the least count of
      `l`-sized pages that hold `t` items. */
  lemma QuotientBounds(n: int, t: nat, l: int)
    requires l >= 1
    requires -(n as real) <= -(t as real) / (l as real) < -(n as real) + 1.0
    ensures n >= 0 && n * l >= t && (n - 1) * l < t
    ensures n == 0 <==> t == 0
  {
    var q := t as real / l as real;
    assert -(t as real) / (l as real) == -q;
    assert q * l as real == t as real;
    assert n as real >= q && (n - 1) as real < q;
    MulMonotone(n as real, q, l as real);
    MulStrict((n - 1) as real, q, l as real);
    assert (n * l) as real == n as real * l as real;
    assert ((n - 1) * l) as real == (n - 1) as real * l as real;
  }

  lemma MulMonotone(a: real, b: real, c: real)
    requires a >= b && c > 0.0
    ensures a * c >= b * c
  {
  }

  lemma MulStrict(a: real, b: real, c: real)
    requires a < b && c > 0.0
    ensures a * c < b * c
  {
  }

  /** Under the validator's bounds: an absent `page` or `limit` becomes 1 or
      10, a present one is taken as written; `skip` is then non-negative and
      counts exactly the items of the preceding `page - 1` pages. */
  lemma PagingBounds(pageQ: Option<string>, limitQ: Option<string>)
    requires PaginationAccepted(pageQ, limitQ)
    ensures var p := Paginate(pageQ, limitQ);
      && p.page == (if pageQ.None? then 1 else IntValue(pageQ.value))
      && p.limit == (if limitQ.None? then 10 else IntValue(limitQ.value))
      && p.page >= 1 && 1 <= p.limit <= 100
      && p.skip >= 0
      && p.skip % p.limit == 0
      && p.skip / p.limit == p.page - 1
  {
    var p := Paginate(pageQ, limitQ);
    MultipleOf(p.page - 1, p.limit);
  }

  lemma MultipleOf(k: nat, m: int)
    requires m >= 1
    ensures (k * m) % m == 0 && (k * m) / m == k
  {
    var x := k * m;
    assert x == m * (x / m) + x % m;
    assert 0 <= x % m < m;
    assert m * (k - x / m) == x % m;
    if k - x / m >= 1 {
    } else if k - x / m <= -1 {
    }
  }

  /** The error `ProductModel.getCount()` throws: the model object has no
      `getCount` method, so the call is a call of `undefined`. */
  const GetCountMissing: ErrorRecord :=
    ErrorRecord(Str("TypeError"), Undefined, Str("ProductModel.getCount is not a function"), Undefined, None, None)

  /** GET `/` as written. `getAll` is awaited first; when it resolves, the
      next line calls `ProductModel.getCount`, which the product model does
      not define, and the resulting TypeError goes to the error handler. */
  function ListProductsAsWritten(getAll: Answer<seq<Product>>): (r: Reply)
    ensures r.Forward?
    ensures getAll.Threw? ==> r.err == getAll.err
    ensures getAll.Answer? ==> r.err == GetCountMissing
  {
    match getAll
    case Threw(e) => Forward(e)
    case Answer(_) => Forward(GetCountMissing)
  }

  /** The listing is never sent: every request the validator lets through
      ends in the error handler, and when the store answers it is answered
      500 with the TypeError's message. */
  lemma ListingNeverSent(getAll: Answer<seq<Product>>)
    ensures !ListProductsAsWritten(getAll).Listing?
    ensures getAll.Answer? ==>
      Classify(ListProductsAsWritten(getAll).err) ==
        Respond(Num(500), Str("ProductModel.getCount is not a function"), None)
  {
  }

  /** GET `/` as evidently intended, with `getCount` answering the number of
      stored products. The store's `getAll` takes no arguments, so the whole
      collection comes back whatever `limit` and `skip` are: `count` and
      `data` describe every product, and only `page` and `pages` reflect the
      query. A store error goes to the error handler. */
  function ListProducts(pageQ: Option<string>, limitQ: Option<string>,
                        getAll: Answer<seq<Product>>, getCount: Answer<nat>): (r: Reply)
    requires PaginationAccepted(pageQ, limitQ)
    ensures r.Listing? <==> getAll.Answer? && getCount.Answer?
    ensures r.Listing? ==> r.data == getAll.value && r.count == |r.data| && r.total == getCount.value
    ensures !r.Listing? ==> r.Forward?
  {
    var p := Paginate(pageQ, limitQ);
    match getAll
    case Threw(e) => Forward(e)
    case Answer(products) =>
      match getCount
      case Threw(e) => Forward(e)
      case Answer(total) => Listing(|products|, total, p.page, PageCount(total, p.limit), products)
  }

  /** The listing reports the page asked for and the least page count that
      holds every product counted; a store error is forwarded. */
  lemma ListingReply(pageQ: Option<string>, limitQ: Option<string>,
                     getAll: Answer<seq<Product>>, getCount: Answer<nat>)
    requires PaginationAccepted(pageQ, limitQ)
    ensures getAll.Threw? ==> ListProducts(pageQ, limitQ, getAll, getCount) == Forward(getAll.err)
    ensures getAll.Answer? && getCount.Threw? ==>
      ListProducts(pageQ, limitQ, getAll, getCount) == Forward(getCount.err)
    ensures getAll.Answer? && getCount.Answer? ==>
      var r := ListProducts(pageQ, limitQ, getAll, getCount);
      var limit := Paginate(pageQ, limitQ).limit;
      && r.Listing?
      && r.data == getAll.value && r.count == |getAll.value| && r.total == getCount.value
      && r.page == Paginate(pageQ, limitQ).page
      && r.pages >= 0
      && r.pages * limit >= r.total
      && (r.pages - 1) * limit < r.total
  {
  }

  // ---------------------------------------------------------------------
  // GET /:id

  /** GET `/:id`: 404 when the store finds nothing, the product otherwise;
      a store error goes to the error handler. */
  function GetProduct(fetched: Answer<Option<Product>>): (r: Reply)
    ensures r.Failure? <==> fetched == Answer(None)
    ensures r.Failure? ==> r == Failure(404, Str(NotFoundMessage))
    ensures r.Item? <==> fetched.Answer? && fetched.value.Some?
    ensures r.Item? ==> r == Item(200, fetched.value.value)
    ensures r.Forward? <==> fetched.Threw?
    ensures r.Forward? ==> r.err == fetched.err
  {
    match fetched
    case Threw(e) => Forward(e)
    case Answer(None) => Failure(404, Str(NotFoundMessage))
    case Answer(Some(p)) => Item(200, p)
  }

  /** 404 exactly when the store answers null. */
  lemma GetNotFoundIff(fetched: Answer<Option<Product>>)
    ensures GetProduct(fetched) == Failure(404, Str(NotFoundMessage)) <==> fetched == Answer(None)
    ensures fetched.Answer? && fetched.value.Some? ==> GetProduct(fetched) == Item(200, fetched.value.value)
  {
  }

  /** The store wraps every failure in `new Error(message)`, so a
      forwarded store failure reaches the error handler's default row and
      is answered 500 with that message. */
  lemma ForwardedStoreErrorIs500(fetched: Answer<Option<Product>>, message: string)
    requires message != "" && fetched == Threw(NewError(message))
    ensures GetProduct(fetched) == Forward(NewError(message))
    ensures Classify(GetProduct(fetched).err) == Respond(Num(500), Str(message), None)
  {
  }

  // ---------------------------------------------------------------------
  // POST /

  /** The document a valid request asks the store to create. */
  function NewProductData(body: Obj, parseFloat: Value -> Value): (d: Product)
    ensures d.Keys == {"name", "description", "price", "category", "sku", "barcode", "active"}
    ensures forall f :: f in {"description", "sku", "barcode"} ==> Truthy(Get(body, f)) || d[f] == Str("")
  {
    map["name" := Get(body, "name"),
        "description" := Or(Get(body, "description"), Str("")),
        "price" := parseFloat(Get(body, "price")),
        "category" := Get(body, "category"),
        "sku" := Or(Get(body, "sku"), Str("")),
        "barcode" := Or(Get(body, "barcode"), Str("")),
        "active" := Bool(true)]
  }

  /** POST `/`. `parseFloat` is JavaScript's, taken as given; `insert` is
      the store's `create` applied to the document. */
  function CreateProduct(body: Obj, parseFloat: Value -> Value, insert: Product -> Answer<Product>): (r: Reply)
    ensures r == Failure(400, Str(MissingFieldsMessage)) <==>
      !Truthy(Get(body, "name")) || !Truthy(Get(body, "price")) || !Truthy(Get(body, "category"))
    ensures r.Item? ==> r.status == 201
    ensures r.Failure? ==> r.status in {400, 500}
  {
    if !Truthy(Get(body, "name")) || !Truthy(Get(body, "price")) || !Truthy(Get(body, "category")) then
      Failure(400, Str(MissingFieldsMessage))
    else
      match insert(NewProductData(body, parseFloat))
      case Threw(e) => Failure(500, e.message)
      case Answer(p) => Item(201, p)
  }

  /** A falsy name, price or category is refused with 400 before the store
      is called: the reply is the same whatever the store would do. */
  lemma CreateRequiresFields(body: Obj, parseFloat: Value -> Value,
                             insert: Product -> Answer<Product>, insert': Product -> Answer<Product>)
    requires !Truthy(Get(body, "name")) || !Truthy(Get(body, "price")) || !Truthy(Get(body, "category"))
    ensures CreateProduct(body, parseFloat, insert) == Failure(400, Str(MissingFieldsMessage))
    ensures CreateProduct(body, parseFloat, insert) == CreateProduct(body, parseFloat, insert')
  {
  }

  /** A request with all three is sent to the store as exactly seven
      fields: name and category as given, the parsed price, description,
      sku and barcode as given or '' when falsy, and `active: true`; the
      store's answer becomes 201 or, if it throws, 500 with its message. */
  lemma CreateSendsDefaults(body: Obj, parseFloat: Value -> Value, insert: Product -> Answer<Product>)
    requires Truthy(Get(body, "name")) && Truthy(Get(body, "price")) && Truthy(Get(body, "category"))
    ensures var d := NewProductData(body, parseFloat);
      && d.Keys == {"name", "description", "price", "category", "sku", "barcode", "active"}
      && d["name"] == Get(body, "name") && d["category"] == Get(body, "category")
      && d["price"] == parseFloat(Get(body, "price"))
      && (forall f :: f in {"description", "sku", "barcode"} ==>
            d[f] == (if Truthy(Get(body, f)) then Get(body, f) else Str("")))
      && d["active"] == Bool(true)
      && CreateProduct(body, parseFloat, insert) ==
           (if insert(d).Answer? then Item(201, insert(d).value) else Failure(500, insert(d).err.message))
  {
  }

  // ---------------------------------------------------------------------
  // PUT /:id

  const UpdatableFields: set<string> := {"name", "description", "price", "category", "sku", "barcode", "active"}

  /** The value the patch gives a defined field: the body's own, except the
      price, which is parsed. */
  function PatchValue(body: Obj, parseFloat: Value -> Value, f: string): Value
  {
    if f == "price" then parseFloat(Get(body, f)) else Get(body, f)
  }

  /** The patch restricted to the fields in `fields`. */
  function PatchOver(body: Obj, parseFloat: Value -> Value, fields: set<string>): Product
  {
    map f | f in fields && Get(body, f) != Undefined :: PatchValue(body, parseFloat, f)
  }

  /** The patch an update sends: every updatable field the body defines
      (null included), with the price parsed. */
  function UpdatePatch(body: Obj, parseFloat: Value -> Value): (patch: Product)
    ensures patch.Keys <= UpdatableFields
    ensures forall f :: f in patch ==> f in body && body[f] != Undefined
  {
    PatchOver(body, parseFloat, UpdatableFields)
  }

  /** Considering one more field adds it exactly when the body defines it. */
  lemma PatchOverAdd(body: Obj, parseFloat: Value -> Value, fields: set<string>, f: string)
    ensures PatchOver(body, parseFloat, fields + {f}) ==
      if Get(body, f) != Undefined then PatchOver(body, parseFloat, fields)[f := PatchValue(body, parseFloat, f)]
      else PatchOver(body, parseFloat, fields)
  {
  }

  /** The patch holds exactly the updatable fields the body defines, each
      with the body's value (the price parsed), null kept as null; no field
      is defaulted and no other key is added. */
  lemma UpdatePatchFields(body: Obj, parseFloat: Value -> Value)
    ensures var patch := UpdatePatch(body, parseFloat);
      && patch.Keys <= UpdatableFields
      && (forall f :: f in UpdatableFields ==> (f in patch <==> f in body && body[f] != Undefined))
      && (forall f :: f in patch && f != "price" ==> patch[f] == body[f])
      && ("price" in patch ==> patch["price"] == parseFloat(body["price"]))
  {
  }

  /** A body that defines none of the fields yields an empty patch. */
  lemma EmptyBodyEmptyPatch(body: Obj, parseFloat: Value -> Value)
    requires forall f :: f in UpdatableFields ==> Get(body, f) == Undefined
    ensures UpdatePatch(body, parseFloat) == map[]
  {
  }

  /** The handler's `updateData`, built by seven conditional assignments. */
  method BuildUpdatePatch(body: Obj, parseFloat: Value -> Value) returns (patch: Product)
    ensures patch == UpdatePatch(body, parseFloat)
  {
    var name, description, price := Get(body, "name"), Get(body, "description"), Get(body, "price");
    var category, sku, barcode, active := Get(body, "category"), Get(body, "sku"), Get(body, "barcode"), Get(body, "active");
    patch := map[];
    ghost var done: set<string> := {};
    if !StrictEq(name, Undefined) { patch := patch["name" := name]; }
    PatchOverAdd(body, parseFloat, done, "name");
    done := done + {"name"};
    assert patch == PatchOver(body, parseFloat, done);
    if !StrictEq(description, Undefined) { patch := patch["description" := description]; }
    PatchOverAdd(body, parseFloat, done, "description");
    done := done + {"description"};
    assert patch == PatchOver(body, parseFloat, done);
    if !StrictEq(price, Undefined) { patch := patch["price" := parseFloat(price)]; }
    PatchOverAdd(body, parseFloat, done, "price");
    done := done + {"price"};
    assert patch == PatchOver(body, parseFloat, done);
    if !StrictEq(category, Undefined) { patch := patch["category" := category]; }
    PatchOverAdd(body, parseFloat, done, "category");
    done := done + {"category"};
    assert patch == PatchOver(body, parseFloat, done);
    if !StrictEq(sku, Undefined) { patch := patch["sku" := sku]; }
    PatchOverAdd(body, parseFloat, done, "sku");
    done := done + {"sku"};
    assert patch == PatchOver(body, parseFloat, done);
    if !StrictEq(barcode, Undefined) { patch := patch["barcode" := barcode]; }
    PatchOverAdd(body, parseFloat, done, "barcode");
    done := done + {"barcode"};
    assert patch == PatchOver(body, parseFloat, done);
    if !StrictEq(active, Undefined) { patch := patch["active" := active]; }
    PatchOverAdd(body, parseFloat, done, "active");
    done := done + {"active"};
    assert patch == PatchOver(body, parseFloat, done);
    assert done == UpdatableFields;
  }

  /** PUT `/:id`. `update` is the store's `update` followed by its re-read:
      the product after the update, null when there is none, or an error. */
  method UpdateProduct(id: string, body: Obj, parseFloat: Value -> Value,
                       update: (string, Product) -> Answer<Option<Product>>) returns (reply: Reply)
    ensures var answer := update(id, UpdatePatch(body, parseFloat));
      && (reply == Failure(404, Str(NotFoundMessage)) <==> answer == Answer(None))
      && (reply.Item? <==> answer.Answer? && answer.value.Some?)
      && (reply.Item? ==> reply == Item(200, answer.value.value))
      && (answer.Threw? ==> reply == Failure(500, answer.err.message))
  {
    var patch := BuildUpdatePatch(body, parseFloat);
    var answer := update(id, patch);
    match answer {
      case Threw(e) =>
        reply := Failure(500, e.message);
      case Answer(None) =>
        reply := Failure(404, Str(NotFoundMessage));
      case Answer(Some(p)) =>
        reply := Item(200, p);
    }
  }
}
