/** The records shared by the product pages (lib/types.ts) and the sort selector's option type. */
module Types {

  /** `T | null` in the source. */
  datatype Option<+T> = None | Some(value: T)

  /** A catalogue entry. `price` is a JavaScript number, modelled as a real;
      `stock` is the integer `parseInt` produced. */
  datatype Product = Product(id: string, name: string, price: real, stock: int)

  /** The form's staging record: the three fields as the user typed them. */
  datatype ProductFormData = ProductFormData(name: string, price: string, stock: string)

  /** 'default' | 'price-asc' | 'price-desc' | 'stock-asc' | 'stock-desc' */
  datatype SortOption = Default | PriceAsc | PriceDesc | StockAsc | StockDesc
}
