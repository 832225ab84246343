/**
 * The product and category routes of api/products.js: the filter, query-string suffix and
 * parameters of the product listing, the integer-id guards, the `isset` field/value arrays of
 * the two PATCH routes, and the empty-listing 404. The query executor is a parameter; the
 * validators `validateProduct`/`validateCategory` enter as their resulting message list.
 */
module Products {
  import opened Wrappers
  import opened Js
  import opened Seqs
  import opened Http
  import opened Db
  import opened Validation

  const ProductNotFound := "Product not found"
  const CategoryNotFound := "Category not found"
  const CategoriesNotFound := "Categories not found"
  const NothingToPatch := "Nothing to patch"
  const CategoryNameTaken := "Category name already exists"
  const ProductDeleted := "Product deleted"
  const CategoryDeleted := "Category deleted"

  /** A JSON body sent back by a route. */
  datatype Body<R> =
    | ErrorBody(error: string)
    | ErrorsBody(errors: seq<Message>)
    | RowBody(row: Option<R>)
    | TextBody(text: string)
    | PageBody(page: Page<R>)

  // ---------------------------------------------------------------------------
  // productsRoute

  /** The WHERE clause, the query-string suffix and the parameters built from `category` and `search`. */
  datatype Listing = Listing(filter: string, qString: string, values: seq<Value>)

  /** `%search%`, the LIKE pattern. */
  function Pattern(search: string): string
  {
    "%" + search + "%"
  }

  /** The three branches of `productsRoute` on which of `category` and `search` are given (`!= null`). */
  function ProductsFilter(category: Option<string>, search: Option<string>): (r: Listing)
    ensures category.None? && search.None? ==> r == Listing("", "", [])
    ensures |r.values| == (if category.Some? then 1 else 0) + (if search.Some? then 1 else 0)
    ensures category.Some? ==> r.values[0] == Str(category.value)
    ensures search.Some? ==> r.values[|r.values| - 1] == Str(Pattern(search.value))
    ensures QuerySuffix(r.qString)
  {
    match (category, search)
    case (Some(c), None) =>
      Listing("WHERE category = $1", "&" + "category" + "=" + c, [Str(c)])
    case (None, Some(s)) =>
      Listing("WHERE name LIKE $1 OR descr LIKE $1", "&" + "search" + "=" + s, [Str(Pattern(s))])
    case (Some(c), Some(s)) =>
      Listing("WHERE category = $1 AND (name LIKE $2 OR descr LIKE $2)",
              "&" + "category" + "=" + c + "&" + "search" + "=" + s, [Str(c), Str(Pattern(s))])
    case (None, None) =>
      Listing("", "", [])
  }

  function ProductsSql(filter: string): string
  {
    "SELECT * FROM Products " + filter + " ORDER BY created desc"
  }

  /**
   * `productsRoute`: `filter`, `qString` and `values` start empty and are reassigned or pushed
   * onto by the branch that applies; the query is then paged with them.
   */
  method ProductsRoute<R>(slug: string, offset: Option<string>, limit: Option<string>,
                          category: Option<string>, search: Option<string>, exec: Statement -> seq<R>)
    returns (r: Reply<Body<R>>)
    ensures var q := ProductsFilter(category, search);
            r == Reply(200, PageBody(Paged(ProductsSql(q.filter), slug, offset, limit, q.values, q.qString, exec)))
  {
    var filter := "";
    var qString := "";
    var values := [];
    if category.Some? && search.None? {
      filter := "WHERE category = $1";
      qString := "&" + "category" + "=" + category.value;
      values := values + [Str(category.value)];
    } else if category.None? && search.Some? {
      filter := "WHERE name LIKE $1 OR descr LIKE $1";
      qString := "&" + "search" + "=" + search.value;
      values := values + [Str(Pattern(search.value))];
    } else if category.Some? && search.Some? {
      filter := "WHERE category = $1 AND (name LIKE $2 OR descr LIKE $2)";
      qString := "&" + "category" + "=" + category.value + "&" + "search" + "=" + search.value;
      values := values + [Str(category.value)];
      values := values + [Str(Pattern(search.value))];
    }
    assert Listing(filter, qString, values) == ProductsFilter(category, search);
    var products := Paged(ProductsSql(filter), slug, offset, limit, values, qString, exec);
    r := Reply(200, PageBody(products));
  }

  /**
   * The listing statement binds the category (when given) to `$1`, the search pattern (when
   * given) to the placeholder after it, and LIMIT and OFFSET right after those.
   */
  lemma ListingBindings(category: Option<string>, search: Option<string>, limit: nat, offset: nat)
    ensures var q := ProductsFilter(category, search);
            var st := PagedStatement(ProductsSql(q.filter), q.values, limit, offset);
            var n := |q.values|;
            (category.Some? ==> Binds(st, 1, Str(category.value)))
            && (search.Some? ==> Binds(st, n, Str(Pattern(search.value))))
            && Binds(st, n + 1, IntParam(limit)) && Binds(st, n + 2, IntParam(offset))
            && |st.params| == n + 2
  {
  }

  lemma OneSegment(key: string, v: string)
    requires '&' !in key && '=' !in key && '&' !in v
    ensures Segments(key + "=" + v) == [key + "=" + v]
  {
    NoSeparatorIn('&', key, v);
  }

  /** The segments of the suffix for a category and a search term. */
  lemma TwoSegments(c: string, s: string)
    requires '&' !in c && '&' !in s
    ensures Segments("category" + "=" + c + "&" + "search" + "=" + s) == ["category" + "=" + c, "search" + "=" + s]
  {
    var first := "category" + "=" + c;
    var second := "search" + "=" + s;
    NoSeparatorIn('&', "category", c);
    assert "category" + "=" + c + "&" + "search" + "=" + s == first + "&" + second;
    SegmentsCons(first, second);
    OneSegment("search", s);
  }

  /** The segments of a one-parameter suffix `&key=v`. */
  lemma SuffixSegment(key: string, v: string)
    requires '&' !in key && '=' !in key && '&' !in v
    ensures Segments(("&" + key + "=" + v)[1..]) == [key + "=" + v]
  {
    assert ("&" + key + "=" + v)[1..] == key + "=" + v;
    OneSegment(key, v);
  }

  /** The segments of the two-parameter suffix `&category=c&search=s`. */
  lemma SuffixSegmentPair(c: string, s: string)
    requires '&' !in c && '&' !in s
    ensures Segments(("&" + "category" + "=" + c + "&" + "search" + "=" + s)[1..])
            == ["category" + "=" + c, "search" + "=" + s]
  {
    assert ("&" + "category" + "=" + c + "&" + "search" + "=" + s)[1..] == "category" + "=" + c + "&" + "search" + "=" + s;
    TwoSegments(c, s);
  }

  /** The segments the `qString` of a listing contributes to its links. */
  lemma FilterSegments(category: Option<string>, search: Option<string>)
    requires category.Some? ==> '&' !in category.value
    requires search.Some? ==> '&' !in search.value
    ensures var q := ProductsFilter(category, search).qString;
            SuffixSegments(q)
            == (if category.Some? then ["category" + "=" + category.value] else [])
               + (if search.Some? then ["search" + "=" + search.value] else [])
  {
    match (category, search)
    case (Some(c), None) =>
      SuffixSegment("category", c);
    case (None, Some(s)) =>
      SuffixSegment("search", s);
    case (Some(c), Some(s)) =>
      SuffixSegmentPair(c, s);
    case (None, None) =>
  }

  /** Looking a key up in at most two segments with other keys, or with this key first. */
  lemma LookupFilter(category: Option<string>, search: Option<string>)
    ensures var segs := (if category.Some? then ["category" + "=" + category.value] else [])
                        + (if search.Some? then ["search" + "=" + search.value] else []);
            Lookup(segs, "category") == category && Lookup(segs, "search") == search
  {
    var tail := if search.Some? then ["search" + "=" + search.value] else [];
    if search.Some? {
      KeyOf("search", search.value);
      LookupHit("search", search.value, []);
      LookupMiss("search" + "=" + search.value, [], "category");
    }
    if category.Some? {
      KeyOf("category", category.value);
      LookupHit("category", category.value, tail);
      LookupMiss("category" + "=" + category.value, tail, "search");
      assert (["category" + "=" + category.value] + tail)[1..] == tail;
    } else {
      assert [] + tail == tail;
    }
  }

  /**
   * The links of a filtered listing carry the filter: reading `category` and `search` back from
   * either link gives exactly the filter the listing was made with, absent ones included.
   */
  lemma ListingLinksKeepFilter(slug: string, o: string, l: string, category: Option<string>, search: Option<string>)
    requires '&' !in o && '&' !in l
    requires category.Some? ==> '&' !in category.value
    requires search.Some? ==> '&' !in search.value
    ensures var url := Link(slug, o, l, ProductsFilter(category, search).qString);
            QueryParam(url, "category") == category && QueryParam(url, "search") == search
  {
    var q := ProductsFilter(category, search).qString;
    LinkSuffixParam(slug, o, l, q, "category");
    LinkSuffixParam(slug, o, l, q, "search");
    FilterSegments(category, search);
    LookupFilter(category, search);
  }

  /**
   * Link values are not URL-encoded: a search text holding `&` reads back from the link cut
   * short at its first `&`, so the round trip above needs `&`-free values.
   */
  lemma SearchWithSeparatorIsCut(slug: string, o: string, l: string, before: string, after: string)
    requires '&' !in o && '&' !in l && '&' !in before
    ensures var url := Link(slug, o, l, ProductsFilter(None, Some(before + "&" + after)).qString);
            QueryParam(url, "search") == Some(before)
    ensures Some(before) != Some(before + "&" + after)
  {
    SearchKey();
    var q := ProductsFilter(None, Some(before + "&" + after)).qString;
    LinkSuffixParam(slug, o, l, q, "search");
    CutSegments("search", before, after);
    LookupHit("search", before, Segments(after));
  }

  /** `search` is a plain key, distinct from the link's own keys. */
  lemma SearchKey()
    ensures '&' !in "search" && '=' !in "search"
    ensures "search" != "offset" && "search" != "limit"
  {
    assert "search"[0] != "offset"[0] && "search"[0] != "limit"[0];
  }

  /** The segments of a one-parameter suffix whose value holds an `&`. */
  lemma CutSegments(key: string, before: string, after: string)
    requires '&' !in key && '&' !in before
    ensures SuffixSegments("&" + key + "=" + (before + "&" + after)) == [key + "=" + before] + Segments(after)
  {
    var q := "&" + key + "=" + (before + "&" + after);
    assert q[1..] == (key + "=" + before) + "&" + after;
    NoSeparatorIn('&', key, before);
    SegmentsCons(key + "=" + before, after);
  }

  // ---------------------------------------------------------------------------
  // Single products

  function SelectProduct(id: string): Statement
  {
    Statement("SELECT * FROM Products WHERE id = $1", [Str(id)])
  }

  /** `productRoute`: the id guard, then the look-up. */
  function ProductRoute<R>(id: string, exec: Statement -> seq<R>): (r: Reply<Body<R>>)
    ensures r.Reply?
    ensures r.status == 200 <==> IntegerLike(Str(id)) && exec(SelectProduct(id)) != []
    ensures r.status == 200 ==> r.body == RowBody(Some(exec(SelectProduct(id))[0]))
    ensures r.status != 200 ==> r == Reply(404, ErrorBody(ProductNotFound))
  {
    if !IntegerLike(Str(id)) then Reply(404, ErrorBody(ProductNotFound))
    else
      var product := exec(SelectProduct(id));
      if |product| == 0 then Reply(404, ErrorBody(ProductNotFound))
      else Reply(200, RowBody(Some(product[0])))
  }

  /** `productDeleteRoute`: the same guards; the DELETE it then starts is not awaited. */
  function ProductDeleteRoute<R>(id: string, exec: Statement -> seq<R>): (r: Reply<Body<R>>)
    ensures r.Reply?
    ensures r.status == 200 <==> IntegerLike(Str(id)) && exec(SelectProduct(id)) != []
    ensures r.status == 200 ==> r.body == TextBody(ProductDeleted)
    ensures r.status != 200 ==> r == Reply(404, ErrorBody(ProductNotFound))
  {
    if !IntegerLike(Str(id)) then Reply(404, ErrorBody(ProductNotFound))
    else if |exec(SelectProduct(id))| == 0 then Reply(404, ErrorBody(ProductNotFound))
    else Reply(200, TextBody(ProductDeleted))
  }

  /** A rejected id answers 404 whatever the table holds: no query result is consulted. */
  lemma RejectedIdIgnoresTable<R>(id: string, exec1: Statement -> seq<R>, exec2: Statement -> seq<R>)
    requires !IntegerLike(Str(id))
    ensures ProductRoute(id, exec1) == ProductRoute(id, exec2) == Reply(404, ErrorBody(ProductNotFound))
    ensures ProductDeleteRoute(id, exec1) == ProductDeleteRoute(id, exec2) == Reply(404, ErrorBody(ProductNotFound))
  {
  }

  /**
   * The id guard never rejects the decimal text of an integer: when the row is there,
   * the route answers 200 with that row.
   */
  lemma StoredProductFound<R>(k: int, exec: Statement -> seq<R>)
    requires exec(SelectProduct(IntToString(k))) != []
    ensures ProductRoute(IntToString(k), exec) == Reply(200, RowBody(Some(exec(SelectProduct(IntToString(k)))[0])))
  {
    IntegerTextIsIntegerLike(k);
  }

  // ---------------------------------------------------------------------------
  // productPatchRoute

  /** `isset` of the patch routes: `typeof f` is string or number (booleans are not set). */
  predicate Patchable(v: Value)
  {
    v.Str? || v.Num?
  }

  function FieldIf(v: Value, name: string): Value
  {
    if Patchable(v) then Str(name) else Null
  }

  function SanitizedIf(v: Value, xss: Value -> string): Value
  {
    if Patchable(v) then Str(xss(v)) else Null
  }

  /** The product fields a PATCH body may carry. */
  datatype ProductPatch = ProductPatch(name: Value, price: Value, descr: Value, category: Value)

  /** The `fields` array, in the order name, price, descr, category. */
  function PatchFields(b: ProductPatch): (r: seq<Value>)
    ensures |r| == 4
    ensures (r[0].Str? <==> Patchable(b.name)) && (r[1].Str? <==> Patchable(b.price))
            && (r[2].Str? <==> Patchable(b.descr)) && (r[3].Str? <==> Patchable(b.category))
    ensures forall i :: 0 <= i < 4 ==> r[i] == Null || r[i] == Str(["name", "price", "descr", "category"][i])
  {
    [FieldIf(b.name, "name"), FieldIf(b.price, "price"), FieldIf(b.descr, "descr"), FieldIf(b.category, "category")]
  }

  /** The `values` array, built with the same `isset` test. */
  function PatchValues(b: ProductPatch, xss: Value -> string): (r: seq<Value>)
    ensures |r| == 4
    ensures (r[0].Str? <==> Patchable(b.name)) && (r[1].Str? <==> Patchable(b.price))
            && (r[2].Str? <==> Patchable(b.descr)) && (r[3].Str? <==> Patchable(b.category))
    ensures forall i :: 0 <= i < 4 ==> r[i] == Null || r[i] == Str(xss([b.name, b.price, b.descr, b.category][i]))
  {
    [SanitizedIf(b.name, xss), SanitizedIf(b.price, xss), SanitizedIf(b.descr, xss), SanitizedIf(b.category, xss)]
  }

  /** Both arrays use the same `isset`, so a field name is present exactly where its value is. */
  lemma PatchArraysAligned(b: ProductPatch, xss: Value -> string)
    ensures forall i :: 0 <= i < 4 ==>
              (PatchFields(b)[i].Str? <==> PatchValues(b, xss)[i].Str?)
              && (PatchFields(b)[i].Null? <==> PatchValues(b, xss)[i].Null?)
    ensures |StringFields(PatchFields(b))| == |ScalarValues(PatchValues(b, xss))|
  {
    AlignedArraysAgree(PatchFields(b), PatchValues(b, xss));
  }

  predicate AnyPatchable(b: ProductPatch)
  {
    Patchable(b.name) || Patchable(b.price) || Patchable(b.descr) || Patchable(b.category)
  }

  /** The columns named in a product patch: exactly the fields given as a string or number, in order. */
  lemma PatchColumns(b: ProductPatch)
    ensures StringFields(PatchFields(b))
            == (if Patchable(b.name) then [Str("name")] else []) + (if Patchable(b.price) then [Str("price")] else [])
               + (if Patchable(b.descr) then [Str("descr")] else []) + (if Patchable(b.category) then [Str("category")] else [])
  {
    FilterFour(FieldIf(b.name, "name"), FieldIf(b.price, "price"), FieldIf(b.descr, "descr"),
               FieldIf(b.category, "category"), IsString);
  }

  /**
   * `productPatchRoute` without an uploaded file: the id guard, the look-up, the validation
   * messages, then `conditionalUpdate` on the `isset` arrays. The row is the one the UPDATE returns.
   */
  function ProductPatchRoute<R>(id: string, b: ProductPatch, validation: seq<Message>,
                                xss: Value -> string, exec: Statement -> seq<R>): (r: Reply<Body<R>>)
    ensures r.Reply?
    ensures !IntegerLike(Str(id)) || exec(SelectProduct(id)) == [] ==> r == Reply(404, ErrorBody(ProductNotFound))
    ensures IntegerLike(Str(id)) && exec(SelectProduct(id)) != [] && validation != [] ==> r == Reply(400, ErrorsBody(validation))
    ensures IntegerLike(Str(id)) && exec(SelectProduct(id)) != [] && validation == [] ==>
              if AnyPatchable(b) then r.status == 201 else r == Reply(400, ErrorBody(NothingToPatch))
    ensures r.status == 201 ==>
              var u := ConditionalUpdate("Products", Str(id), PatchFields(b), PatchValues(b, xss));
              u.Issue? && r.body == RowBody(FirstRow(exec(u.st)))
  {
    if !IntegerLike(Str(id)) then Reply(404, ErrorBody(ProductNotFound))
    else if |exec(SelectProduct(id))| == 0 then Reply(404, ErrorBody(ProductNotFound))
    else if |validation| > 0 then Reply(400, ErrorsBody(validation))
    else
      var fields := PatchFields(b);
      var values := PatchValues(b, xss);
      PatchArraysAligned(b, xss);
      PatchColumns(b);
      match ConditionalUpdate("Products", Str(id), fields, values)
      case NothingToUpdate => Reply(400, ErrorBody(NothingToPatch))
      case Mismatch => Thrown("fields and values must be of equal length")
      case Issue(_, st) => Reply(201, RowBody(FirstRow(exec(st))))
  }

  /** The sanitised value of a given field, or nothing. */
  function Given(v: Value, xss: Value -> string): seq<Value>
  {
    if Patchable(v) then [Str(xss(v))] else []
  }

  lemma GivenIsFiltered(v: Value, xss: Value -> string)
    ensures (if IsScalar(SanitizedIf(v, xss)) then [SanitizedIf(v, xss)] else []) == Given(v, xss)
  {
  }

  /** The patch binds the product id to `$1` and the sanitised value of each given field after it, in order. */
  lemma PatchParams(id: string, b: ProductPatch, xss: Value -> string)
    requires AnyPatchable(b)
    ensures var u := ConditionalUpdate("Products", Str(id), PatchFields(b), PatchValues(b, xss));
            u.Issue? && u.st.params
            == [Str(id)] + (Given(b.name, xss) + Given(b.price, xss) + Given(b.descr, xss) + Given(b.category, xss))
  {
    PatchArraysAligned(b, xss);
    PatchColumns(b);
    FilterFour(SanitizedIf(b.name, xss), SanitizedIf(b.price, xss), SanitizedIf(b.descr, xss),
               SanitizedIf(b.category, xss), IsScalar);
    GivenIsFiltered(b.name, xss);
    GivenIsFiltered(b.price, xss);
    GivenIsFiltered(b.descr, xss);
    GivenIsFiltered(b.category, xss);
  }

  // ---------------------------------------------------------------------------
  // Categories

  const CategoriesSql := "SELECT * from categories ORDER BY id"

  /** `categoryRoute`: the categories paged with no values and no suffix, 404 on an empty page. */
  function CategoryRoute<C>(slug: string, offset: Option<string>, limit: Option<string>,
                            exec: Statement -> seq<C>): (r: Reply<Body<C>>)
    ensures r.Reply?
    ensures var p := Paged(CategoriesSql, slug, offset, limit, [], "", exec);
            if p.items == [] then r == Reply(404, ErrorBody(CategoriesNotFound)) else r == Reply(200, PageBody(p))
  {
    var result := Paged(CategoriesSql, slug, offset, limit, [], "", exec);
    if |result.items| == 0 then Reply(404, ErrorBody(CategoriesNotFound)) else Reply(200, PageBody(result))
  }

  /** A page past the end of the categories is a 404, not an empty page, whatever the offset. */
  lemma CategoryPagePastEnd<C>(slug: string, offset: Option<string>, limit: Option<string>, exec: Statement -> seq<C>)
    requires forall st: Statement :: exec(st) == []
    ensures CategoryRoute(slug, offset, limit, exec) == Reply(404, ErrorBody(CategoriesNotFound))
  {
  }

  function SelectCategory(id: string): Statement
  {
    Statement("SELECT * FROM categories WHERE id = $1", [Str(id)])
  }

  function NameInUse(values: seq<Value>): Statement
  {
    Statement("SELECT 1 FROM categories WHERE name = $1", values)
  }

  /**
   * `categoryPatchRoute`: the id guard, the look-up (`rowCount === 0`), the validation messages,
   * the name-in-use check (`rowCount === 1`), then `conditionalUpdate` on the one-slot arrays.
   */
  function CategoryPatchRoute<C>(id: string, name: Value, validation: seq<Message>,
                                 xss: Value -> string, exec: Statement -> seq<C>): (r: Reply<Body<C>>)
    ensures r.Reply?
    ensures !IntegerLike(Str(id)) || exec(SelectCategory(id)) == [] ==> r == Reply(404, ErrorBody(CategoryNotFound))
    ensures r.status == 201 <==>
              IntegerLike(Str(id)) && exec(SelectCategory(id)) != [] && validation == []
              && |exec(NameInUse([SanitizedIf(name, xss)]))| != 1 && Patchable(name)
    ensures r == Reply(400, ErrorBody(CategoryNameTaken)) <==>
              IntegerLike(Str(id)) && exec(SelectCategory(id)) != [] && validation == []
              && |exec(NameInUse([SanitizedIf(name, xss)]))| == 1
    ensures IntegerLike(Str(id)) && exec(SelectCategory(id)) != [] && validation != [] ==>
              r == Reply(400, ErrorsBody(validation))
    ensures IntegerLike(Str(id)) && exec(SelectCategory(id)) != [] && validation == []
            && |exec(NameInUse([SanitizedIf(name, xss)]))| != 1 && !Patchable(name) ==>
              r == Reply(400, ErrorBody(NothingToPatch))
    ensures r.status == 201 ==>
              var u := ConditionalUpdate("categories", Str(id), [FieldIf(name, "name")], [SanitizedIf(name, xss)]);
              u.Issue? && u.st.params == [Str(id), Str(xss(name))] && r.body == RowBody(FirstRow(exec(u.st)))
  {
    if !IntegerLike(Str(id)) then Reply(404, ErrorBody(CategoryNotFound))
    else if |exec(SelectCategory(id))| == 0 then Reply(404, ErrorBody(CategoryNotFound))
    else if |validation| > 0 then Reply(400, ErrorsBody(validation))
    else
      var fields := [FieldIf(name, "name")];
      var values := [SanitizedIf(name, xss)];
      if |exec(NameInUse(values))| == 1 then Reply(400, ErrorBody(CategoryNameTaken))
      else
        CategoryUpdate("categories", id, name, xss);
        match ConditionalUpdate("categories", Str(id), fields, values)
        case NothingToUpdate => Reply(400, ErrorBody(NothingToPatch))
        case Mismatch => Thrown("fields and values must be of equal length")
        case Issue(_, st) => Reply(201, RowBody(FirstRow(exec(st))))
  }

  /** The one-slot update of a category: nothing to do without a name, else the name bound to `$2`. */
  lemma CategoryUpdate(table: string, id: string, name: Value, xss: Value -> string)
    ensures var u := ConditionalUpdate(table, Str(id), [FieldIf(name, "name")], [SanitizedIf(name, xss)]);
            (u.NothingToUpdate? <==> !Patchable(name))
            && (Patchable(name) ==> u.Issue? && u.st.params == [Str(id), Str(xss(name))])
  {
    CategoryNothingToUpdate(table, id, name, xss);
    if Patchable(name) {
      CategoryNameBound(table, id, name, xss);
    }
  }

  lemma CategoryNothingToUpdate(table: string, id: string, name: Value, xss: Value -> string)
    ensures ConditionalUpdate(table, Str(id), [FieldIf(name, "name")], [SanitizedIf(name, xss)]).NothingToUpdate?
            <==> !Patchable(name)
  {
    FilterSingleton(FieldIf(name, "name"), IsString);
  }

  lemma CategoryNameBound(table: string, id: string, name: Value, xss: Value -> string)
    requires Patchable(name)
    ensures var u := ConditionalUpdate(table, Str(id), [FieldIf(name, "name")], [SanitizedIf(name, xss)]);
            u.Issue? && u.st.params == [Str(id), Str(xss(name))]
  {
    FilterSingleton(FieldIf(name, "name"), IsString);
    FilterSingleton(SanitizedIf(name, xss), IsScalar);
    assert [Str(id)] + [Str(xss(name))] == [Str(id), Str(xss(name))];
  }

  /** `categoryDeleteRoute`: the same guards, then the DELETE. */
  function CategoryDeleteRoute<C>(id: string, exec: Statement -> seq<C>): (r: Reply<Body<C>>)
    ensures r.Reply?
    ensures r.status == 200 <==> IntegerLike(Str(id)) && exec(SelectCategory(id)) != []
    ensures r.status == 200 ==> r.body == TextBody(CategoryDeleted)
    ensures r.status != 200 ==> r == Reply(404, ErrorBody(CategoryNotFound))
  {
    if !IntegerLike(Str(id)) then Reply(404, ErrorBody(CategoryNotFound))
    else if |exec(SelectCategory(id))| == 0 then Reply(404, ErrorBody(CategoryNotFound))
    else Reply(200, TextBody(CategoryDeleted))
  }
}
