/** The product form (components/ProductForm.tsx): the field rules, the error map they build,
    and the form component's own state (the staging record and the errors). */
module ProductForms {
  import opened Types
  import opened Text
  import opened Numbers
  import opened Arrays

  /** The keys of `Partial<ProductFormData>`. */
  datatype Field = Name | Price | Stock

  const NameRequired := "Nama produk wajib diisi"
  const NameTaken := "Nama produk sudah digunakan"
  const PriceRequired := "Harga wajib diisi"
  const PriceNotPositive := "Harga harus berupa angka positif"
  const StockRequired := "Stok wajib diisi"
  const StockNotPositive := "Stok harus berupa angka positif"

  const EmptyForm := ProductFormData("", "", "")

  /** `editingProduct?.id`: `None` (undefined) when nothing is being edited. */
  function EditingId(editing: Option<Product>): Option<string>
  {
    match editing
    case None => None
    case Some(p) => Some(p.id)
  }

  /** The duplicate test: some product other than the edited one has the same name once both
      are lower-cased. `p.id !== undefined` always holds, so with no edit target every product counts. */
  predicate IsDuplicate(name: string, products: seq<Product>, editingId: Option<string>)
  {
    Any(products, (p: Product) => ToLower(p.name) == ToLower(name) && Some(p.id) != editingId)
  }

  /** No two products' names are equal once lower-cased. */
  ghost predicate NamesDistinct(products: seq<Product>)
  {
    forall i, j :: 0 <= i < j < |products| ==> ToLower(products[i].name) != ToLower(products[j].name)
  }

  function NameError(name: string, products: seq<Product>, editingId: Option<string>): Option<string>
  {
    if Trim(name) == "" then Some(NameRequired)
    else if IsDuplicate(name, products, editingId) then Some(NameTaken)
    else None
  }

  function PriceError(price: string): Option<string>
  {
    if Trim(price) == "" then Some(PriceRequired)
    else
      match ParseFloat(price)
      case None => Some(PriceNotPositive)
      case Some(v) => if v <= 0.0 then Some(PriceNotPositive) else None
  }

  function StockError(stock: string): Option<string>
  {
    if Trim(stock) == "" then Some(StockRequired)
    else
      match ParseInt(stock)
      case None => Some(StockNotPositive)
      case Some(n) => if n <= 0 then Some(StockNotPositive) else None
  }

  /** `m` with the field's error added, when it has one. */
  function WithError(m: map<Field, string>, field: Field, error: Option<string>): map<Field, string>
  {
    if error.Some? then m[field := error.value] else m
  }

  /** The error map `validateForm` builds from nothing, one field after another. */
  function Errors(data: ProductFormData, products: seq<Product>, editingId: Option<string>): map<Field, string>
  {
    var withName := WithError(map[], Name, NameError(data.name, products, editingId));
    var withPrice := WithError(withName, Price, PriceError(data.price));
    WithError(withPrice, Stock, StockError(data.stock))
  }

  /** The staging record with one field replaced, as each input's `onChange` does. */
  function WithField(data: ProductFormData, field: Field, value: string): ProductFormData
  {
    match field
    case Name => data.(name := value)
    case Price => data.(price := value)
    case Stock => data.(stock := value)
  }

  /** What the seeding effect writes: the target's fields as text, or three empty strings. */
  function SeedData(editing: Option<Product>): ProductFormData
  {
    match editing
    case None => EmptyForm
    case Some(p) => ProductFormData(p.name, NumberToString(p.price), IntToString(p.stock))
  }

  /** Each field holds its own rule's error and nothing else: the map is empty exactly when
      all three rules pass. */
  lemma ErrorsByField(data: ProductFormData, products: seq<Product>, editingId: Option<string>)
    ensures var m := Errors(data, products, editingId);
      && (Name in m <==> NameError(data.name, products, editingId).Some?)
      && (Name in m ==> m[Name] == NameError(data.name, products, editingId).value)
      && (Price in m <==> PriceError(data.price).Some?)
      && (Price in m ==> m[Price] == PriceError(data.price).value)
      && (Stock in m <==> StockError(data.stock).Some?)
      && (Stock in m ==> m[Stock] == StockError(data.stock).value)
      && (m == map[] <==> NameError(data.name, products, editingId).None?
                          && PriceError(data.price).None? && StockError(data.stock).None?)
  {
    var m := Errors(data, products, editingId);
    if NameError(data.name, products, editingId).Some? {
      assert Name in m;
    } else if PriceError(data.price).Some? {
      assert Price in m;
    } else if StockError(data.stock).Some? {
      assert Stock in m;
    }
  }

  /** The name rule: blank after trimming gives "required"; otherwise "already in use" exactly
      when another product (by id) has the same lower-cased, untrimmed name; else no error. */
  lemma NameErrorSpec(name: string, products: seq<Product>, editingId: Option<string>)
    ensures NameError(name, products, editingId) == Some(NameRequired) <==> IsBlank(name)
    ensures NameError(name, products, editingId) == Some(NameTaken)
        <==> !IsBlank(name) && exists i :: 0 <= i < |products| && ToLower(products[i].name) == ToLower(name) && Some(products[i].id) != editingId
    ensures NameError(name, products, editingId) == None
        <==> !IsBlank(name) && forall i :: 0 <= i < |products| ==> ToLower(products[i].name) != ToLower(name) || Some(products[i].id) == editingId
  {
    TrimEmptyIffBlank(name);
    assert NameRequired != NameTaken;
  }

  /** With case-insensitively distinct names, resubmitting the edited product's own name is
      never a duplicate, because only its own id shares that name. */
  lemma OwnNameIsNoDuplicate(products: seq<Product>, k: nat)
    requires k < |products| && NamesDistinct(products)
    ensures !IsDuplicate(products[k].name, products, Some(products[k].id))
  {
    forall i | 0 <= i < |products| && ToLower(products[i].name) == ToLower(products[k].name)
      ensures Some(products[i].id) == Some(products[k].id)
    {
      assert i == k;
    }
  }

  /** The price rule: blank gives "required"; a text `parseFloat` reads as NaN or as a value
      not above 0 gives "positive number"; otherwise there is no error. */
  lemma PriceErrorSpec(price: string)
    ensures PriceError(price) == Some(PriceRequired) <==> IsBlank(price)
    ensures PriceError(price) == Some(PriceNotPositive)
        <==> !IsBlank(price) && (ParseFloat(price).None? || ParseFloat(price).value <= 0.0)
    ensures PriceError(price) == None
        <==> !IsBlank(price) && ParseFloat(price).Some? && ParseFloat(price).value > 0.0
  {
    TrimEmptyIffBlank(price);
    assert PriceRequired != PriceNotPositive;
  }

  /** The stock rule, with `parseInt` in place of `parseFloat`. */
  lemma StockErrorSpec(stock: string)
    ensures StockError(stock) == Some(StockRequired) <==> IsBlank(stock)
    ensures StockError(stock) == Some(StockNotPositive)
        <==> !IsBlank(stock) && (ParseInt(stock).None? || ParseInt(stock).value <= 0)
    ensures StockError(stock) == None
        <==> !IsBlank(stock) && ParseInt(stock).Some? && ParseInt(stock).value > 0
  {
    TrimEmptyIffBlank(stock);
    assert StockRequired != StockNotPositive;
  }

  /** `parseInt` reads only the leading digits: "0.5" is 0 and rejected, "3abc" is 3 and accepted. */
  lemma StockPrefixExamples()
    ensures StockError("0.5") == Some(StockNotPositive)
    ensures StockError("3abc") == None
  {
    assert LeadingSpaces("0.5") == 0;
    assert DigitRun("0.5") == 1 by { assert DigitRun("0.5"[1..]) == 0; }
    assert "0.5"[..1] == "0";
    assert DigitsValue("0") == 0 by { assert "0"[..0] == ""; }
    assert TrailingSpaces("0.5") == 3;
    assert LeadingSpaces("3abc") == 0;
    assert DigitRun("3abc") == 1 by { assert DigitRun("3abc"[1..]) == 0; }
    assert "3abc"[..1] == "3";
    assert DigitsValue("3") == 3 by { assert "3"[..0] == ""; }
    assert TrailingSpaces("3abc") == 4;
  }

  /** `Object.keys(m).length === 0` exactly when the map is empty. */
  lemma NoKeysIffEmpty(m: map<Field, string>)
    ensures |m| == 0 <==> m == map[]
  {
    if m != map[] {
      var f :| f in m;
      assert f in m.Keys;
    }
  }

  /** The error map built from nothing, one field after another: a field gets its message
      exactly when its rule produced one. */
  method CollectErrors(nameError: Option<string>, priceError: Option<string>, stockError: Option<string>)
    returns (newErrors: map<Field, string>)
    ensures newErrors == WithError(WithError(WithError(map[], Name, nameError), Price, priceError), Stock, stockError)
  {
    newErrors := map[];
    if nameError.Some? {
      newErrors := newErrors[Name := nameError.value];
    }
    if priceError.Some? {
      newErrors := newErrors[Price := priceError.value];
    }
    if stockError.Some? {
      newErrors := newErrors[Stock := stockError.value];
    }
  }

  /** The form component's state. */
  class ProductForm {
    var formData: ProductFormData
    var errors: map<Field, string>

    constructor ()
      ensures formData == EmptyForm && errors == map[]
    {
      formData := EmptyForm;
      errors := map[];
    }

    /** The effect on `editingProduct`: seed the fields from the target or clear them, and clear the errors. */
    method Seed(editing: Option<Product>)
      modifies this
      ensures formData == SeedData(editing) && errors == map[]
    {
      formData := SeedData(editing);
      errors := map[];
    }

    /** An input's `onChange`: one field takes the typed text. */
    method SetField(field: Field, value: string)
      modifies this
      ensures formData == WithField(old(formData), field, value) && errors == old(errors)
    {
      match field {
        case Name => formData := formData.(name := value);
        case Price => formData := formData.(price := value);
        case Stock => formData := formData.(stock := value);
      }
    }

    /** `validateForm`: rebuilds the error map from empty, stores it, and reports whether it is empty. */
    method Validate(products: seq<Product>, editing: Option<Product>) returns (ok: bool)
      modifies this
      ensures errors == Errors(formData, products, EditingId(editing))
      ensures ok <==> errors == map[]
      ensures formData == old(formData)
    {
      var newErrors := CollectErrors(NameError(formData.name, products, EditingId(editing)),
                                     PriceError(formData.price), StockError(formData.stock));
      errors := newErrors;
      ok := |newErrors| == 0;
      NoKeysIffEmpty(newErrors);
    }

    /** `handleSubmit`: when the form is valid, the current data goes to `onSubmit` (returned here)
        and the fields are cleared; otherwise nothing is submitted and the fields stay. */
    method Submit(products: seq<Product>, editing: Option<Product>) returns (submitted: Option<ProductFormData>)
      modifies this
      ensures errors == Errors(old(formData), products, EditingId(editing))
      ensures errors == map[] ==> submitted == Some(old(formData)) && formData == EmptyForm
      ensures errors != map[] ==> submitted == None && formData == old(formData)
    {
      var valid := Validate(products, editing);
      if valid {
        submitted := Some(formData);
        formData := EmptyForm;
      } else {
        submitted := None;
      }
    }
  }
}
