/** The rules an order must satisfy before it is created
    (QuiosqueFood3000.Kitchen.Application/Validators/OrderSolicitationValidator.cs):
    the product list is not empty, and every product has a name and a
    description that are not empty or white space only. Failures are reported in rule order, per product position. */
module Validator {
  import opened Entities
  import opened Decimal

  /** One reported failure: the property path and the message. */
  datatype ValidationFailure = ValidationFailure(propertyName: string, errorMessage: string)

  const ProductsRequired := "Order must contain at least one product."
  const NameRequired := "Product name cannot be empty."
  const DescriptionRequired := "Product description cannot be empty."

  /** `char.IsWhiteSpace`: the Unicode space separators, the line and paragraph
      separators, and the control characters U+0009 to U+000D and U+0085. */
  predicate IsWhiteSpace(c: char) {
    var n := c as int;
    || 0x09 <= n <= 0x0D || n == 0x20 || n == 0x85 || n == 0xA0 || n == 0x1680
    || 0x2000 <= n <= 0x200A || n == 0x2028 || n == 0x2029 || n == 0x202F
    || n == 0x205F || n == 0x3000
  }

  /** What the `NotEmpty` rule refuses in a string: no characters, or only
      white space. */
  predicate IsBlank(s: string) {
    forall i :: 0 <= i < |s| ==> IsWhiteSpace(s[i])
  }

  /** The path of a member of the product at `index`, e.g. `Products[0].Name`. */
  function ProductPath(index: nat, member: string): string {
    "Products[" + (NatToString(index) + ("]." + member))
  }

  function NameFailure(index: nat): ValidationFailure {
    ValidationFailure(ProductPath(index, "Name"), NameRequired)
  }

  function DescriptionFailure(index: nat): ValidationFailure {
    ValidationFailure(ProductPath(index, "Description"), DescriptionRequired)
  }

  const EmptyProductsFailure := ValidationFailure("Products", ProductsRequired)

  /** The child rules applied to the product at position `index`. */
  function ProductFailures(p: Product, index: nat): seq<ValidationFailure> {
    (if IsBlank(p.name) then [NameFailure(index)] else [])
    + (if IsBlank(p.description) then [DescriptionFailure(index)] else [])
  }

  /** The child rules applied to each product of `ps`, the first at position `offset`. */
  function EachProductFailures(ps: seq<Product>, offset: nat): seq<ValidationFailure>
    decreases |ps|
  {
    if ps == [] then [] else ProductFailures(ps[0], offset) + EachProductFailures(ps[1..], offset + 1)
  }

  /** Every failure the validator reports for `o`, in the order it reports them. */
  function Validate(o: OrderSolicitation): seq<ValidationFailure> {
    (if |o.products| == 0 then [EmptyProductsFailure] else [])
    + EachProductFailures(o.products, 0)
  }

  /** The validity rule stated directly: at least one product, each with a
      name and a description that are not blank. */
  ghost predicate IsValid(o: OrderSolicitation) {
    && |o.products| > 0
    && forall i :: 0 <= i < |o.products| ==> !IsBlank(o.products[i].name) && !IsBlank(o.products[i].description)
  }

  lemma {:induction false} EachProductFailuresEmpty(ps: seq<Product>, offset: nat)
    ensures EachProductFailures(ps, offset) == []
        <==> forall i :: 0 <= i < |ps| ==> !IsBlank(ps[i].name) && !IsBlank(ps[i].description)
    decreases |ps|
  {
    if ps != [] {
      EachProductFailuresEmpty(ps[1..], offset + 1);
      assert forall i :: 1 <= i < |ps| ==> ps[i] == ps[1..][i - 1];
    }
  }

  /** The validator reports nothing exactly for the valid orders. */
  lemma ValidateAcceptsExactlyValid(o: OrderSolicitation)
    ensures Validate(o) == [] <==> IsValid(o)
  {
    EachProductFailuresEmpty(o.products, 0);
  }

  /** An order without products is rejected with the products message on
      `Products`, and with nothing else. */
  lemma EmptyProductsRejected(o: OrderSolicitation)
    requires o.products == []
    ensures Validate(o) == [EmptyProductsFailure]
  {
  }

  /** A digit string followed by text that starts with ']' can be split only
      one way. */
  lemma DigitsBeforeBracket(x: string, y: string, t: string, u: string)
    requires forall k :: 0 <= k < |x| ==> IsDigit(x[k])
    requires forall k :: 0 <= k < |y| ==> IsDigit(y[k])
    requires |t| > 0 && t[0] == ']' && |u| > 0 && u[0] == ']'
    requires x + t == y + u
    ensures x == y && t == u
  {
    // Where the shorter digit string ends, one side shows ']' and the other a digit.
    var m := if |x| <= |y| then |x| else |y|;
    assert (x + t)[m] == (y + u)[m];
    assert |x| == |y|;
    assert x == (x + t)[..|x|] && y == (y + u)[..|y|];
    assert t == (x + t)[|x|..] && u == (y + u)[|y|..];
  }

  /** The per-product paths of two positions coincide only when the positions and
      the members do. */
  lemma ProductPathInjective(i: nat, j: nat, a: string, b: string)
    requires ProductPath(i, a) == ProductPath(j, b)
    ensures i == j && a == b
  {
    var si, sj := NatToString(i), NatToString(j);
    var t, u := "]." + a, "]." + b;
    var prefix := "Products[";
    assert ProductPath(i, a) == prefix + (si + t);
    assert si + t == ProductPath(i, a)[|prefix|..];
    assert sj + u == ProductPath(j, b)[|prefix|..];
    DigitsBeforeBracket(si, sj, t, u);
    NatToStringInjective(i, j);
    assert a == t[2..] && b == u[2..];
  }

  /** The name failure for position `i` comes only from the product at `i`. */
  lemma NameFailureAt(p: Product, index: nat, i: nat)
    ensures NameFailure(i) in ProductFailures(p, index) <==> i == index && IsBlank(p.name)
  {
    if NameFailure(i) in ProductFailures(p, index) {
      assert NameFailure(i) == NameFailure(index) || NameFailure(i) == DescriptionFailure(index);
      if NameFailure(i) == NameFailure(index) {
        ProductPathInjective(i, index, "Name", "Name");
      }
    }
  }

  /** The description failure for position `i` comes only from the product at `i`. */
  lemma DescriptionFailureAt(p: Product, index: nat, i: nat)
    ensures DescriptionFailure(i) in ProductFailures(p, index) <==> i == index && IsBlank(p.description)
  {
    if DescriptionFailure(i) in ProductFailures(p, index) {
      assert DescriptionFailure(i) == NameFailure(index) || DescriptionFailure(i) == DescriptionFailure(index);
      if DescriptionFailure(i) == DescriptionFailure(index) {
        ProductPathInjective(i, index, "Description", "Description");
      }
    }
  }

  lemma {:induction false} EachNameFailureAt(ps: seq<Product>, offset: nat, i: nat)
    ensures NameFailure(i) in EachProductFailures(ps, offset)
        <==> offset <= i < offset + |ps| && IsBlank(ps[i - offset].name)
    decreases |ps|
  {
    if ps != [] {
      var head, tail := ProductFailures(ps[0], offset), EachProductFailures(ps[1..], offset + 1);
      assert EachProductFailures(ps, offset) == head + tail;
      assert NameFailure(i) in head + tail <==> NameFailure(i) in head || NameFailure(i) in tail;
      NameFailureAt(ps[0], offset, i);
      EachNameFailureAt(ps[1..], offset + 1, i);
      if offset + 1 <= i < offset + |ps| {
        assert ps[1..][i - (offset + 1)] == ps[i - offset];
      }
    }
  }

  lemma {:induction false} EachDescriptionFailureAt(ps: seq<Product>, offset: nat, i: nat)
    ensures DescriptionFailure(i) in EachProductFailures(ps, offset)
        <==> offset <= i < offset + |ps| && IsBlank(ps[i - offset].description)
    decreases |ps|
  {
    if ps != [] {
      var head, tail := ProductFailures(ps[0], offset), EachProductFailures(ps[1..], offset + 1);
      assert EachProductFailures(ps, offset) == head + tail;
      assert DescriptionFailure(i) in head + tail <==> DescriptionFailure(i) in head || DescriptionFailure(i) in tail;
      DescriptionFailureAt(ps[0], offset, i);
      EachDescriptionFailureAt(ps[1..], offset + 1, i);
      if offset + 1 <= i < offset + |ps| {
        assert ps[1..][i - (offset + 1)] == ps[i - offset];
      }
    }
  }

  /** The name rule and the description rule apply to each position on its own:
      a failure is reported at `Products[i].Name` exactly when product `i` has a
      blank name, and at `Products[i].Description` exactly when it has a blank
      description. */
  lemma FailuresArePerPosition(o: OrderSolicitation, i: nat)
    ensures NameFailure(i) in Validate(o) <==> i < |o.products| && IsBlank(o.products[i].name)
    ensures DescriptionFailure(i) in Validate(o) <==> i < |o.products| && IsBlank(o.products[i].description)
  {
    EachNameFailureAt(o.products, 0, i);
    EachDescriptionFailureAt(o.products, 0, i);
    assert NameFailure(i) != EmptyProductsFailure;
    assert DescriptionFailure(i) != EmptyProductsFailure;
  }

  /** Only the product list matters: orders that agree on it are reported alike,
      whatever their identifier, status, dates or customer. */
  lemma ValidityDependsOnlyOnProducts(o1: OrderSolicitation, o2: OrderSolicitation)
    requires o1.products == o2.products
    ensures Validate(o1) == Validate(o2)
  {
  }

  /** A name of spaces alone is refused like an empty one, while a name with any
      other character passes the rule. */
  lemma BlankNameRejected(o: OrderSolicitation, name: string)
    requires |o.products| == 1 && o.products[0].name == name
    ensures NameFailure(0) in Validate(o) <==> forall i :: 0 <= i < |name| ==> IsWhiteSpace(name[i])
  {
    FailuresArePerPosition(o, 0);
  }

  /** A freshly constructed order has no products and is therefore rejected. */
  lemma DefaultOrderRejected()
    ensures Validate(NewOrderSolicitation()) == [EmptyProductsFailure]
    ensures !IsValid(NewOrderSolicitation())
  {
  }

  /** The paths of the first product's members. */
  lemma FirstProductPaths()
    ensures ProductPath(0, "Name") == "Products[0].Name"
    ensures ProductPath(0, "Description") == "Products[0].Description"
  {
    assert NatToString(0) == "0";
  }

  /** A freshly constructed product breaks both child rules. */
  lemma DefaultProductRejected(o: OrderSolicitation)
    requires o.products == [NewProduct()]
    ensures Validate(o) == [ValidationFailure("Products[0].Name", NameRequired),
                            ValidationFailure("Products[0].Description", DescriptionRequired)]
  {
    var p := NewProduct();
    assert EachProductFailures(o.products, 0) == ProductFailures(p, 0) + EachProductFailures([], 1);
    assert ProductFailures(p, 0) == [NameFailure(0), DescriptionFailure(0)];
    FirstProductPaths();
  }
}
