/**
 * The Vite client's product page: the quantity counter, the add-to-cart
 * action, the discount predicate and the labels of the specification keys.
 * Adding to the cart is returned as the `(productId, quantity)` pair passed
 * to the cart hook.
 */
module ProductDetail {
  import opened Wrappers
  import opened Text
  import opened Numbers
  import opened Storage

  /** `a > b` on two `parseFloat` results; any comparison with `NaN` is false. */
  predicate Greater(a: Option<real>, b: Option<real>) {
    a.Some? && b.Some? && a.value > b.value
  }

  /** `hasDiscount`: an original price that is given and is above the price. */
  function HasDiscount(p: Product): (r: bool)
    ensures r <==> (Truthy(p.originalPrice) && ParseFloat(p.originalPrice.value).Some? && ParseFloat(p.price).Some?
                    && ParseFloat(p.originalPrice.value).value > ParseFloat(p.price).value)
  {
    Truthy(p.originalPrice) && Greater(ParseFloat(p.originalPrice.value), ParseFloat(p.price))
  }

  /** On digit-string prices the discount test compares the prices' values. */
  lemma DiscountOfDigits(p: Product)
    requires p.originalPrice.Some? && p.originalPrice.value != [] && AllDigits(p.originalPrice.value)
    requires p.price != [] && AllDigits(p.price)
    ensures HasDiscount(p) <==> DigitsValue(p.originalPrice.value) > DigitsValue(p.price)
  {
    var o, q := p.originalPrice.value, p.price;
    ParseFloatOfDigits(o);
    ParseFloatOfDigits(q);
    var a, b := DigitsValue(o), DigitsValue(q);
    assert Greater(ParseFloat(o), ParseFloat(q)) <==> a as real > b as real;
  }

  /** A price that does not parse never shows a discount. */
  lemma NoDiscountWithoutPrice(p: Product)
    requires ParseFloat(p.price).None?
    ensures !HasDiscount(p)
  {
  }

  /** The add-to-cart button is disabled while the cart is busy or the product is not in stock. */
  function AddToCartDisabled(cartLoading: bool, p: Product): (r: bool)
    ensures cartLoading ==> r
    ensures p.inStock != Some(true) ==> r
    ensures !cartLoading && p.inStock == Some(true) ==> !r
  {
    cartLoading || !(p.inStock == Some(true))
  }

  /** `key.replace(/([A-Z])/g, ' $1')`: a space before every upper-case ASCII letter. */
  function SpecLabel(key: string): (r: string)
    ensures |r| >= |key|
    ensures forall i :: 0 <= i < |r| && IsUpper(r[i]) ==> i > 0 && r[i - 1] == ' '
    ensures r == [] || !IsUpper(r[0])
  {
    if key == [] then []
    else if IsUpper(key[0]) then [' ', key[0]] + SpecLabel(key[1..])
    else
      var rest := SpecLabel(key[1..]);
      assert forall i :: 1 <= i < |[key[0]] + rest| ==> ([key[0]] + rest)[i] == rest[i - 1];
      [key[0]] + rest
  }

  /** Drops every space that stands right before an upper-case letter. */
  function Unspaced(s: string): string {
    if s == [] then []
    else if |s| >= 2 && s[0] == ' ' && IsUpper(s[1]) then [s[1]] + Unspaced(s[2..])
    else [s[0]] + Unspaced(s[1..])
  }

  /** The label changes nothing but the inserted spaces: removing them gives back the key. */
  lemma {:induction false} SpecLabelUnspaced(key: string)
    ensures Unspaced(SpecLabel(key)) == key
  {
    if key != [] {
      SpecLabelUnspaced(key[1..]);
      var rest := SpecLabel(key[1..]);
      if IsUpper(key[0]) {
        assert SpecLabel(key) == [' ', key[0]] + rest;
        assert ([' ', key[0]] + rest)[2..] == rest;
      } else {
        assert SpecLabel(key) == [key[0]] + rest;
        assert ([key[0]] + rest)[1..] == rest;
        assert rest == [] || !IsUpper(rest[0]);
      }
    }
  }

  /** A key without upper-case letters is its own label. */
  lemma {:induction false} SpecLabelOfLower(key: string)
    requires forall i :: 0 <= i < |key| ==> !IsUpper(key[i])
    ensures SpecLabel(key) == key
  {
    if key != [] {
      SpecLabelOfLower(key[1..]);
    }
  }

  class ProductPage {
    var quantity: int

    predicate Valid()
      reads this
    {
      quantity >= 1
    }

    constructor ()
      ensures Valid() && quantity == 1
    {
      quantity := 1;
    }

    /** `incrementQuantity` */
    method Increment()
      modifies this
      ensures quantity == old(quantity) + 1
      ensures old(Valid()) ==> Valid()
    {
      quantity := quantity + 1;
    }

    /** `decrementQuantity`: one less, but never below 1. */
    method Decrement()
      modifies this
      ensures Valid()
      ensures old(quantity) > 1 ==> quantity == old(quantity) - 1
      ensures old(quantity) <= 1 ==> quantity == 1
    {
      quantity := if quantity - 1 >= 1 then quantity - 1 else 1;
    }

    /** `handleAddToCart`: the loaded product's id and the chosen quantity, or nothing before it loads. */
    method HandleAddToCart(product: Option<Product>) returns (line: Option<(int, int)>)
      requires Valid()
      ensures product.None? ==> line.None?
      ensures product.Some? ==> line == Some((product.value.id, quantity))
      ensures line.Some? ==> line.value.1 >= 1
    {
      if product.Some? {
        line := Some((product.value.id, quantity));
      } else {
        line := None;
      }
    }
  }
}
