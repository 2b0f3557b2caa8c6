/**
 * product-detail.component.ts: the page of one product. The route's `id`
 * is converted with `Number`; an id that is not a positive number is
 * refused at once, any other is looked up in the catalogue and shown with
 * its price doubled, or reported as not found. The Observable chain is
 * represented by the state each route emission leaves: the product the
 * page shows (None when nothing or `undefined` was emitted), the error
 * message and the loading flag.
 */
module ProductDetail {
  import opened Common
  import opened ProductService

  const InvalidId := "ID de produit invalide."

  /** A JavaScript number restricted to what `Number` yields on the texts modelled here. */
  datatype JsNumber = Finite(n: int) | NaN

  /** A sign followed by at least one decimal digit. */
  predicate SignedDigits(s: string) {
    |s| > 1 && (s[0] == '-' || s[0] == '+') && IsDigits(s[1..])
  }

  /**
   * `Number(param)`: null and the empty text are 0; an optional sign
   * followed by decimal digits is that integer; any other text is NaN.
   * Unlike `parseInt`, nothing may follow the digits.
   */
  function NumberOf(param: Option<string>): (r: JsNumber)
    ensures param.None? || param == Some("") ==> r == Finite(0)
    ensures param.Some? && |param.value| > 0 && IsDigits(param.value) ==> r == Finite(ParseDigits(param.value))
    ensures param.Some? && SignedDigits(param.value) ==>
              r == Finite(if param.value[0] == '-' then -(ParseDigits(param.value[1..]) as int) else ParseDigits(param.value[1..]))
    ensures r.NaN? <==> param.Some? && !IsDigits(param.value) && !SignedDigits(param.value)
  {
    match param
    case None => Finite(0)
    case Some(s) =>
      if s == "" then Finite(0)
      else if IsDigits(s) then Finite(ParseDigits(s))
      else if SignedDigits(s) then
        var magnitude: int := ParseDigits(s[1..]);
        Finite(if s[0] == '-' then -magnitude else magnitude)
      else NaN
  }

  /** `Number` reads back the text a template string writes for an integer. */
  lemma NumberOfIntToString(n: int)
    ensures NumberOf(Some(IntToString(n))) == Finite(n)
  {
    if n < 0 {
      var t := NatToString(-n);
      ParseNatToString(-n);
      var s := "-" + t;
      assert s[0] == '-' && s[1..] == t;
    } else {
      ParseNatToString(n);
    }
  }

  /** `Produit avec l'ID ${id} non trouvé.` */
  function NotFoundMessage(id: int): string {
    "Produit avec l'ID " + IntToString(id) + " non trouvé."
  }

  /** Different ids give different not-found messages. */
  lemma NotFoundNamesId(a: int, b: int)
    requires NotFoundMessage(a) == NotFoundMessage(b)
    ensures a == b
  {
    var p := "Produit avec l'ID ";
    var q := " non trouvé.";
    var x := IntToString(a);
    var y := IntToString(b);
    assert p + x + q == p + (x + q) && p + y + q == p + (y + q);
    AppendCancel(p, x + q, y + q);
    assert |x| == |y|;
    assert x == (x + q)[..|x|] && y == (y + q)[..|y|];
    IntToStringInjective(a, b);
  }

  /** `{ ...product, price: product.price * 2 }`: a new record, twice the price, every other field kept. */
  function Doubled(p: Product): (r: Product)
    ensures r.price == 2 * p.price
    ensures r.(price := p.price) == p
  {
    p.(price := p.price * 2)
  }

  class ProductDetailComponent {
    /** The value `product$` delivered to the template; None before, or for `undefined`. */
    var product: Option<Product>
    var loading: bool
    var errorMessage: Option<string>

    constructor ()
      ensures product == None && !loading && errorMessage == None
    {
      product := None;
      loading := false;
      errorMessage := None;
    }

    /**
     * `ngOnInit`, before the route emits: loading starts, the message is
     * cleared, and the new `product$` has delivered nothing yet. This reset
     * happens once; later route emissions run only `HandleParam`.
     */
    method NgOnInit()
      modifies this
      ensures loading && errorMessage == None && product == None
    {
      loading := true;
      errorMessage := None;
      product := None;
    }

    /**
     * The `switchMap` handler, run each time the route emits its `id`.
     * NaN or an id of at most 0 sets the invalid-id message and emits
     * nothing, so the product shown before stays. Otherwise an id the
     * catalogue has emits that product with its price doubled and leaves
     * the message as it was; any other id emits `undefined` and sets the
     * not-found message. Loading ends either way. Nothing clears a message
     * an earlier emission set.
     */
    method HandleParam(param: Option<string>)
      modifies this
      ensures !loading
      ensures NumberOf(param).NaN? || NumberOf(param).n <= 0 ==>
                product == old(product) && errorMessage == Some(InvalidId)
      ensures NumberOf(param).Finite? && NumberOf(param).n > 0 && GetProductById(NumberOf(param).n).Some? ==>
                product == Some(Doubled(GetProductById(NumberOf(param).n).value)) && errorMessage == old(errorMessage)
      ensures NumberOf(param).Finite? && NumberOf(param).n > 0 && GetProductById(NumberOf(param).n).None? ==>
                product == None && errorMessage == Some(NotFoundMessage(NumberOf(param).n))
    {
      var id := NumberOf(param);
      match id {
        case NaN =>
          errorMessage := Some(InvalidId);
          loading := false;
        case Finite(n) =>
          if n <= 0 {
            errorMessage := Some(InvalidId);
            loading := false;
            return;
          }
          var found := GetProductById(n);
          var shown := match found
            case Some(p) => Some(Doubled(p))
            case None => None;
          if shown.None? {
            errorMessage := Some(NotFoundMessage(n));
          }
          product := shown;
          loading := false;
      }
    }
  }

  /**
   * Opening the page of a catalogue product by the id the list links to
   * shows that product, with its price doubled and nothing else changed.
   */
  method OpenListedProduct(i: nat) returns (page: ProductDetailComponent)
    requires i < |Catalogue|
    ensures fresh(page)
    ensures page.product.Some? && page.product.value.id == Catalogue[i].id
    ensures page.product.value.price == 2 * Catalogue[i].price
    ensures page.errorMessage == None && !page.loading
  {
    assert Catalogue[i].id == i + 1 by {
      assert forall k :: 0 <= k < |Catalogue| ==> Catalogue[k].id == k + 1;
    }
    NumberOfIntToString(Catalogue[i].id);
    page := new ProductDetailComponent();
    page.NgOnInit();
    page.HandleParam(Some(IntToString(Catalogue[i].id)));
  }

  /**
   * An invalid id followed by a valid one: the second product shows, but
   * the invalid-id message set by the first emission stays beside it.
   */
  method InvalidThenListed() returns (page: ProductDetailComponent)
    ensures fresh(page)
    ensures page.product == Some(Doubled(Laptop))
    ensures page.errorMessage == Some(InvalidId) && !page.loading
  {
    page := new ProductDetailComponent();
    page.NgOnInit();
    assert !IsDigits("abc") by {
      assert !('0' <= "abc"[0] <= '9');
    }
    page.HandleParam(Some("abc"));
    assert IsDigits("1") && ParseDigits("1") == 1;
    page.HandleParam(Some("1"));
  }
}
