/**
 * The catalogue records the storefront passes around (`src/types/index.ts`), reduced to
 * the fields the modelled logic reads. Optional numbers are `JsNum`; an optional text
 * that the code only tests for truthiness is a `string` whose empty value stands for
 * a missing one.
 */
module Catalog {
  import opened Common
  import opened Text

  /** A product variant; `attributes` holds the text-valued attributes such as `Color` and `Size`. */
  datatype Variant = Variant(
    id: Id,
    sku: string,
    price: JsNum,
    regularPrice: JsNum,
    stockQuantity: JsNum,
    attributes: map<string, string>,
    images: seq<string>)

  /** A product as the catalogue queries return it. */
  datatype Product = Product(
    id: Id,
    name: string,
    sku: string,
    price: JsNum,
    regularPrice: JsNum,
    basePrice: JsNum,
    stockQuantity: JsNum,
    imageUrl: Option<string>,
    galleryUrls: seq<string>,
    productType: string,
    variants: seq<Variant>,
    variantMinPrice: JsNum,
    variantMaxPrice: JsNum)

  /** A row of the `categories` table. */
  datatype CategoryRow = CategoryRow(id: Id, name: string, slug: string, parent: Option<Id>, productCount: int)

  /** JavaScript truthiness of an optional text. */
  predicate StrTruthy(s: Option<string>) {
    s.Some? && s.value != ""
  }

  /** JavaScript `String(id)`. */
  function IdText(id: Id): string {
    match id
    case Str(s) => s
    case Num(n) => if n < 0 then "-" + NatToString(-n) else NatToString(n)
  }
}
