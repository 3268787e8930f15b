/** The catalogue page's state (app/page.tsx): the product list, the edit target and the delete
    target, the handlers that change them, and the invariant the validated form protects. */
module HomePage {
  import opened Types
  import opened Text
  import opened Numbers
  import opened Arrays
  import opened ProductForms

  /** The list the page starts with. */
  const SeedProducts: seq<Product> := [
    Product("1", "Laptop Gaming", 15000000.0, 5),
    Product("2", "Mouse Wireless", 250000.0, 20),
    Product("3", "Keyboard Mechanical", 1200000.0, 8)
  ]

  ghost predicate IdsDistinct(products: seq<Product>)
  {
    forall i, j :: 0 <= i < j < |products| ==> products[i].id != products[j].id
  }

  /** What a list built only from validated submissions satisfies: distinct ids, case-insensitively
      distinct names, no blank name, and a price and stock above 0. */
  ghost predicate WellFormed(products: seq<Product>)
  {
    && IdsDistinct(products)
    && NamesDistinct(products)
    && forall i :: 0 <= i < |products| ==>
         !IsBlank(products[i].name) && products[i].price > 0.0 && products[i].stock > 0
  }

  /** Both numeric fields parse (neither is NaN); the page's only caller, the form, ensures it. */
  predicate Parses(data: ProductFormData)
  {
    ParseFloat(data.price).Some? && ParseInt(data.stock).Some?
  }

  /** The product a submission describes, with `parseFloat(price)` and `parseInt(stock)`. */
  function Parsed(id: string, data: ProductFormData): Product
    requires Parses(data)
  {
    Product(id, data.name, ParseFloat(data.price).value, ParseInt(data.stock).value)
  }

  /** Create: `[...products, newProduct]`. */
  function Created(products: seq<Product>, data: ProductFormData, freshId: string): seq<Product>
    requires Parses(data)
  {
    products + [Parsed(freshId, data)]
  }

  /** Update: `products.map(p => p.id === target ? {...p, name, price, stock} : p)`. */
  function Updated(products: seq<Product>, targetId: string, data: ProductFormData): seq<Product>
    requires Parses(data)
  {
    seq(|products|, i requires 0 <= i < |products| =>
      if products[i].id == targetId then Parsed(targetId, data) else products[i])
  }

  /** Confirmed delete: `products.filter(p => p.id !== target)`. */
  function Removed(products: seq<Product>, targetId: string): seq<Product>
  {
    Filter(products, (p: Product) => p.id != targetId)
  }

  /** A form that passes validation parses, with a price and a stock above 0 and a non-blank name. */
  lemma ValidIsParsed(data: ProductFormData, products: seq<Product>, editingId: Option<string>)
    requires Errors(data, products, editingId) == map[]
    ensures Parses(data)
    ensures ParseFloat(data.price).value > 0.0 && ParseInt(data.stock).value > 0
    ensures !IsBlank(data.name)
    ensures forall i :: 0 <= i < |products| && Some(products[i].id) != editingId ==>
              ToLower(products[i].name) != ToLower(data.name)
  {
    ErrorsByField(data, products, editingId);
    NameErrorSpec(data.name, products, editingId);
    PriceErrorSpec(data.price);
    StockErrorSpec(data.stock);
  }

  /** The seed list satisfies the invariant. */
  lemma SeedWellFormed()
    ensures WellFormed(SeedProducts)
  {
    var names := [ToLower(SeedProducts[0].name), ToLower(SeedProducts[1].name), ToLower(SeedProducts[2].name)];
    assert names[0][0] == 'l' && names[1][0] == 'm' && names[2][0] == 'k';
    assert !IsSpace(SeedProducts[0].name[0]) && !IsSpace(SeedProducts[1].name[0]) && !IsSpace(SeedProducts[2].name[0]);
  }

  /** Create appends exactly one product at the end, with the fresh id and the parsed fields. */
  lemma CreatedSpec(products: seq<Product>, data: ProductFormData, freshId: string)
    requires Parses(data)
    ensures var r := Created(products, data, freshId);
      && |r| == |products| + 1 && r[..|products|] == products
      && r[|products|] == Product(freshId, data.name, ParseFloat(data.price).value, ParseInt(data.stock).value)
  {
    assert Created(products, data, freshId)[..|products|] == products;
  }

  /** A create that passed the form check with no edit target, given an unused id, keeps the invariant. */
  lemma CreatePreservesWellFormed(products: seq<Product>, data: ProductFormData, freshId: string)
    requires WellFormed(products)
    requires Errors(data, products, None) == map[]
    requires forall i :: 0 <= i < |products| ==> products[i].id != freshId
    ensures Parses(data) && WellFormed(Created(products, data, freshId))
  {
    ValidIsParsed(data, products, None);
    WellFormedSnoc(products, Parsed(freshId, data));
  }

  /** A product that clashes with none of a well-formed list, appended to it, keeps the invariant. */
  lemma WellFormedSnoc(products: seq<Product>, p: Product)
    requires WellFormed(products)
    requires !IsBlank(p.name) && p.price > 0.0 && p.stock > 0
    requires forall i :: 0 <= i < |products| ==> products[i].id != p.id && ToLower(products[i].name) != ToLower(p.name)
    ensures WellFormed(products + [p])
  {
    var r := products + [p];
    assert forall i :: 0 <= i < |products| ==> r[i] == products[i];
    assert r[|products|] == p;
  }

  /** Update keeps the length, every id and every position; only elements with the target id
      change, and they take the submitted name, price and stock. */
  lemma UpdatedSpec(products: seq<Product>, targetId: string, data: ProductFormData)
    requires Parses(data)
    ensures var r := Updated(products, targetId, data);
      && |r| == |products|
      && (forall i :: 0 <= i < |r| ==> r[i].id == products[i].id)
      && (forall i :: 0 <= i < |r| && products[i].id != targetId ==> r[i] == products[i])
      && (forall i :: 0 <= i < |r| && products[i].id == targetId ==>
            r[i].name == data.name && r[i].price == ParseFloat(data.price).value && r[i].stock == ParseInt(data.stock).value)
  {
  }

  /** An update that passed the form check for the edit target keeps the invariant. */
  lemma UpdatePreservesWellFormed(products: seq<Product>, targetId: string, data: ProductFormData)
    requires WellFormed(products)
    requires Errors(data, products, Some(targetId)) == map[]
    ensures Parses(data) && WellFormed(Updated(products, targetId, data))
  {
    ValidIsParsed(data, products, Some(targetId));
    var r := Updated(products, targetId, data);
    WellFormedReplace(products, targetId, Parsed(targetId, data), r);
  }

  /** Replacing the elements with one id by a product with that id and fields that clash with no
      other product keeps the invariant. */
  lemma WellFormedReplace(products: seq<Product>, targetId: string, p: Product, r: seq<Product>)
    requires WellFormed(products)
    requires p.id == targetId && !IsBlank(p.name) && p.price > 0.0 && p.stock > 0
    requires forall i :: 0 <= i < |products| && products[i].id != targetId ==> ToLower(products[i].name) != ToLower(p.name)
    requires |r| == |products|
    requires forall i :: 0 <= i < |r| ==> r[i] == if products[i].id == targetId then p else products[i]
    ensures WellFormed(r)
  {
    forall i, j | 0 <= i < j < |r|
      ensures r[i].id != r[j].id && ToLower(r[i].name) != ToLower(r[j].name)
    {
      if products[i].id == targetId {
        assert products[j].id != targetId;
      }
    }
  }

  /** Editing a product and resubmitting the seeded fields unchanged passes every rule and leaves
      the list as it was, for a whole price (which prints exactly) and a stock below 10^21 (which
      prints as plain digits). */
  lemma ResubmitUnchangedIsNoOp(products: seq<Product>, k: nat)
    requires WellFormed(products) && k < |products|
    requires products[k].price == products[k].price.Floor as real
    requires products[k].stock < PlainLimit
    ensures var data := SeedData(Some(products[k]));
      && Errors(data, products, Some(products[k].id)) == map[]
      && Parses(data)
      && Updated(products, products[k].id, data) == products
  {
    var p := products[k];
    var data := SeedData(Some(p));
    SeedDataReadsBack(p);
    OwnNameIsNoDuplicate(products, k);
    TrimEmptyIffBlank(p.name);
    ErrorsByField(data, products, Some(p.id));
    UpdatedToSame(products, k, data);
  }

  /** Resubmitting the seeded fields of a product whose stock is 10^21 or more passes every rule,
      but the stock prints in exponent form and `parseInt` reads back only its first digit: the
      update replaces the stock by a number from 1 to 9 and leaves everything else as it was. */
  lemma ResubmitLargeStockAltersIt(products: seq<Product>, k: nat)
    requires WellFormed(products) && k < |products|
    requires products[k].price == products[k].price.Floor as real
    requires products[k].stock >= PlainLimit
    ensures var data := SeedData(Some(products[k]));
      && Errors(data, products, Some(products[k].id)) == map[]
      && Parses(data)
      && var r := Updated(products, products[k].id, data);
         && |r| == |products|
         && r[k] == products[k].(stock := r[k].stock)
         && 1 <= r[k].stock <= 9 && r[k].stock != products[k].stock
         && (forall i :: 0 <= i < |r| && i != k ==> r[i] == products[i])
  {
    var p := products[k];
    var data := SeedData(Some(p));
    SeedDataReadsBack(p);
    ParseIntOfLargeIntToString(p.stock);
    OwnNameIsNoDuplicate(products, k);
    TrimEmptyIffBlank(p.name);
    ErrorsByField(data, products, Some(p.id));
    var r := Updated(products, p.id, data);
    forall i | 0 <= i < |r| && i != k
      ensures r[i] == products[i]
    {
      assert products[i].id != p.id;
    }
  }

  /** The seeded fields of a product with a whole price parse, the name and price back to its own,
      the stock back to its own exactly when it is below 10^21 in magnitude; they pass the price
      and stock rules when its price and stock are above 0. */
  lemma SeedDataReadsBack(p: Product)
    requires p.price == p.price.Floor as real
    ensures var data := SeedData(Some(p));
      && data.name == p.name && Parses(data)
      && Parsed(p.id, data).name == p.name && Parsed(p.id, data).price == p.price
      && (Parsed(p.id, data) == p <==> -(PlainLimit as int) < p.stock < PlainLimit)
      && (p.price > 0.0 ==> PriceError(data.price).None?)
      && (p.stock > 0 ==> StockError(data.stock).None?)
  {
    ParseFloatOfWhole(p.price);
    if -(PlainLimit as int) < p.stock < PlainLimit {
      ParseIntOfIntToString(p.stock);
    } else {
      ParseIntOfLargeIntToString(p.stock);
    }
    if p.price > 0.0 {
      PrintedPricePasses(p.price);
    }
    if p.stock > 0 {
      PrintedStockPasses(p.stock);
    }
  }

  /** A whole price above 0, printed, passes the price rule. */
  lemma PrintedPricePasses(x: real)
    requires x == x.Floor as real && x > 0.0
    ensures PriceError(NumberToString(x)).None?
  {
    var text := NumberToString(x);
    NumberToStringOfWhole(x);
    UnsignedFloatOfMagnitude(x.Floor);
    NotBlankFromDigit(text);
    ParseFloatOfWhole(x);
    PriceErrorSpec(text);
  }

  /** A stock above 0, printed, passes the stock rule (from 10^21 up `parseInt` reads only the
      first digit of the exponent form, which is still above 0). */
  lemma PrintedStockPasses(n: int)
    requires n > 0
    ensures StockError(IntToString(n)).None?
  {
    var text := IntToString(n);
    UnsignedFloatOfMagnitude(n);
    NotBlankFromDigit(text);
    if n < PlainLimit {
      ParseIntOfIntToString(n);
    } else {
      ParseIntOfLargeIntToString(n);
    }
    StockErrorSpec(text);
  }

  /** Text starting with a digit is not blank. */
  lemma NotBlankFromDigit(s: string)
    requires s != [] && IsDigit(s[0])
    ensures !IsBlank(s)
  {
    assert !IsSpace(s[0]);
  }

  /** With distinct ids, an update whose fields parse to the target as it is changes nothing. */
  lemma UpdatedToSame(products: seq<Product>, k: nat, data: ProductFormData)
    requires IdsDistinct(products) && k < |products|
    requires Parses(data) && Parsed(products[k].id, data) == products[k]
    ensures Updated(products, products[k].id, data) == products
  {
    var r := Updated(products, products[k].id, data);
    forall i | 0 <= i < |products|
      ensures r[i] == products[i]
    {
      if products[i].id == products[k].id {
        assert i == k;
      }
    }
  }

  /** Confirmed delete removes every element with the target id and keeps the others, in order. */
  lemma RemovedSpec(products: seq<Product>, targetId: string)
    ensures var r := Removed(products, targetId);
      && IsSubsequence(r, products)
      && (forall i :: 0 <= i < |r| ==> r[i].id != targetId)
      && (forall p: Product :: p.id != targetId ==> multiset(r)[p] == multiset(products)[p])
  {
    var keep := (p: Product) => p.id != targetId;
    FilterIsSubsequence(products, keep);
    forall p: Product | p.id != targetId ensures multiset(Removed(products, targetId))[p] == multiset(products)[p] {
      FilterCount(products, keep, p);
    }
  }

  /** With distinct ids, deleting the id at position `k` removes exactly that one element. */
  lemma RemovedOne(products: seq<Product>, k: nat)
    requires IdsDistinct(products) && k < |products|
    ensures Removed(products, products[k].id) == products[..k] + products[k + 1..]
  {
    var id := products[k].id;
    var keep := (p: Product) => p.id != id;
    assert products == products[..k] + ([products[k]] + products[k + 1..]);
    FilterConcat(products[..k], [products[k]] + products[k + 1..], keep);
    FilterConcat([products[k]], products[k + 1..], keep);
    FilterKeepsAll(products[..k], keep);
    FilterKeepsAll(products[k + 1..], keep);
    assert Filter([products[k]], keep) == [] by {
      assert [products[k]][1..] == [];
    }
  }

  /** Once the edit target has been deleted, an update for its id finds no product: the list stays
      as the delete left it. */
  lemma UpdateAfterRemoveIsNoOp(products: seq<Product>, targetId: string, data: ProductFormData)
    requires Parses(data)
    ensures Updated(Removed(products, targetId), targetId, data) == Removed(products, targetId)
  {
    RemovedSpec(products, targetId);
  }

  /** A delete keeps the invariant: removing elements breaks no distinctness and no field rule. */
  lemma RemovePreservesWellFormed(products: seq<Product>, targetId: string)
    requires WellFormed(products)
    ensures WellFormed(Removed(products, targetId))
  {
    var keep := (p: Product) => p.id != targetId;
    FilterKeepsWellFormed(products, keep);
  }

  lemma {:induction false} FilterKeepsWellFormed(products: seq<Product>, keep: Product -> bool)
    requires WellFormed(products)
    ensures WellFormed(Filter(products, keep))
  {
    if products != [] {
      var rest := products[1..];
      WellFormedTail(products);
      FilterKeepsWellFormed(rest, keep);
      if keep(products[0]) {
        var tail := Filter(rest, keep);
        forall y | y in tail
          ensures y.id != products[0].id && ToLower(y.name) != ToLower(products[0].name)
        {
          FilterMembers(rest, keep, y);
          var m :| 0 <= m < |rest| && rest[m] == y;
          assert rest[m] == products[m + 1];
        }
        WellFormedCons(products[0], tail);
      }
    }
  }

  /** Dropping the first product keeps the invariant. */
  lemma WellFormedTail(products: seq<Product>)
    requires WellFormed(products) && products != []
    ensures WellFormed(products[1..])
  {
    assert forall i :: 0 <= i < |products| - 1 ==> products[1..][i] == products[i + 1];
  }

  /** A product that clashes with none of a well-formed list extends it to a well-formed list. */
  lemma WellFormedCons(p: Product, tail: seq<Product>)
    requires WellFormed(tail)
    requires !IsBlank(p.name) && p.price > 0.0 && p.stock > 0
    requires forall y :: y in tail ==> y.id != p.id && ToLower(y.name) != ToLower(p.name)
    ensures WellFormed([p] + tail)
  {
    var r := [p] + tail;
    assert forall i :: 1 <= i < |r| ==> r[i] == tail[i - 1] && r[i] in tail;
  }

  /** The page component's state. `form` is the form component it renders. */
  class Home {
    var products: seq<Product>
    var editing: Option<Product>
    var deleting: Option<Product>
    const form: ProductForm

    ghost predicate Valid()
      reads this
    {
      WellFormed(products)
    }

    constructor ()
      ensures Valid()
      ensures products == SeedProducts && editing == None && deleting == None
      ensures fresh(form) && form.formData == EmptyForm && form.errors == map[]
    {
      products := SeedProducts;
      editing := None;
      deleting := None;
      form := new ProductForm();
      SeedWellFormed();
    }

    /** `handleSubmit` of the page: update the edit target's fields and clear the target, or append
        a new product with the given id. `freshId` stands for `Date.now().toString()`. The handler
        itself checks nothing; it keeps the invariant when the data passed the form's rules against
        the current list and edit target and, for a create, the id is unused. */
    method HandleSubmit(data: ProductFormData, freshId: string)
      requires Parses(data)
      modifies this
      ensures editing == None && deleting == old(deleting)
      ensures old(editing).Some? ==> products == Updated(old(products), old(editing).value.id, data)
      ensures old(editing).None? ==> products == Created(old(products), data, freshId)
      ensures old(Valid()) && Errors(data, old(products), EditingId(old(editing))) == map[]
        && (old(editing).None? ==> forall i :: 0 <= i < |old(products)| ==> old(products)[i].id != freshId)
        ==> Valid()
    {
      if WellFormed(products) && Errors(data, products, EditingId(editing)) == map[] {
        if editing.Some? {
          UpdatePreservesWellFormed(products, editing.value.id, data);
        } else if forall i :: 0 <= i < |products| ==> products[i].id != freshId {
          CreatePreservesWellFormed(products, data, freshId);
        }
      }
      match editing {
        case Some(target) =>
          products := Updated(products, target.id, data);
          editing := None;
        case None =>
          var newProduct := Parsed(freshId, data);
          products := products + [newProduct];
      }
    }

    /** The form's submit followed by the page's handler it calls, and the seeding effect the
        cleared edit target triggers. A submission that fails validation changes no page state. */
    method SubmitForm(freshId: string)
      requires Valid()
      requires editing.None? ==> forall i :: 0 <= i < |products| ==> products[i].id != freshId
      modifies this, form
      ensures Valid()
      ensures deleting == old(deleting)
      ensures form.errors == Errors(old(form.formData), old(products), EditingId(old(editing)))
      ensures form.errors == map[] ==>
        && Parses(old(form.formData))
        && editing == None && form.formData == EmptyForm
        && products == if old(editing).Some?
                       then Updated(old(products), old(editing).value.id, old(form.formData))
                       else Created(old(products), old(form.formData), freshId)
      ensures form.errors != map[] ==>
        products == old(products) && editing == old(editing) && form.formData == old(form.formData)
    {
      var submitted := form.Submit(products, editing);
      if submitted.Some? {
        var wasEditing := editing.Some?;
        ValidIsParsed(submitted.value, products, EditingId(editing));
        HandleSubmit(submitted.value, freshId);
        if wasEditing {
          form.Seed(None);
        }
      }
    }

    /** `handleEdit`: the product becomes the edit target; when the target changes, the form's
        effect seeds the fields from it and clears the errors. */
    method Edit(product: Product)
      modifies this, form
      ensures editing == Some(product) && products == old(products) && deleting == old(deleting)
      ensures old(editing) != Some(product) ==> form.formData == SeedData(Some(product)) && form.errors == map[]
      ensures old(editing) == Some(product) ==> form.formData == old(form.formData) && form.errors == old(form.errors)
    {
      var changed := editing != Some(product);
      editing := Some(product);
      if changed {
        form.Seed(editing);
      }
    }

    /** `handleCancel`: no edit target; the effect clears the fields and the errors. */
    method CancelEdit()
      modifies this, form
      ensures editing == None && products == old(products) && deleting == old(deleting)
      ensures old(editing).Some? ==> form.formData == EmptyForm && form.errors == map[]
      ensures old(editing).None? ==> form.formData == old(form.formData) && form.errors == old(form.errors)
    {
      var changed := editing.Some?;
      editing := None;
      if changed {
        form.Seed(None);
      }
    }

    /** `handleDelete`: the first step of a delete only marks the target. */
    method MarkDelete(product: Product)
      modifies this
      ensures deleting == Some(product) && products == old(products) && editing == old(editing)
    {
      deleting := Some(product);
    }

    /** The dialog's cancel: the mark is dropped and nothing is deleted. */
    method CancelDelete()
      modifies this
      ensures deleting == None && products == old(products) && editing == old(editing)
    {
      deleting := None;
    }

    /** `confirmDelete`: with a marked target, every product with its id goes and the mark is
        cleared; with none, nothing happens. The edit target is left as it is. */
    method ConfirmDelete()
      requires Valid()
      modifies this
      ensures Valid() && editing == old(editing)
      ensures old(deleting).Some? ==> products == Removed(old(products), old(deleting).value.id) && deleting == None
      ensures old(deleting).None? ==> products == old(products) && deleting == None
    {
      if deleting.Some? {
        RemovePreservesWellFormed(products, deleting.value.id);
        products := Removed(products, deleting.value.id);
        deleting := None;
      }
    }
  }

  /** Deleting the product being edited: `confirmDelete` leaves the edit target set, so the next
      submit of the form still counts as an update, finds no product with that id and leaves the
      list as the delete left it; a valid submit still clears the edit target and the form, and an
      invalid one stores its field errors. */
  method DeleteWhileEditing() returns (afterDelete: seq<Product>, editingAfterDelete: Option<Product>, afterSubmit: seq<Product>)
    ensures afterDelete == Removed(SeedProducts, SeedProducts[0].id)
    ensures editingAfterDelete == Some(SeedProducts[0])
    ensures afterSubmit == afterDelete
  {
    var home := new Home();
    var target := home.products[0];
    home.Edit(target);
    home.MarkDelete(target);
    home.ConfirmDelete();
    afterDelete := home.products;
    editingAfterDelete := home.editing;
    var submitted := home.form.formData;
    home.SubmitForm("4");
    if home.form.errors == map[] {
      UpdateAfterRemoveIsNoOp(SeedProducts, target.id, submitted);
    }
    afterSubmit := home.products;
  }
}
