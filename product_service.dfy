/**
 * product.service.ts: a fixed catalogue of five products, handed out whole
 * or looked up by id with `Array.prototype.find`. The `Product` record is
 * the interface of models/product.model.ts; its price, a JavaScript number,
 * is an integer here since every catalogue price is one.
 */
module ProductService {
  import opened Common

  datatype Product = Product(
    id: int,
    name: string,
    price: int,
    category: string,
    description: string,
    imageUrl: Option<string>)

  const Laptop := Product(1, "Ordinateur Portable XYZ", 1200, "Électronique",
    "Un ordinateur portable puissant pour le travail et le jeu.",
    Some("https://placehold.co/100x100/ADD8E6/000000?text=PC"))
  const Smartphone := Product(2, "Smartphone Galaxy S", 800, "Électronique",
    "Dernier modèle de smartphone avec appareil photo haute résolution.",
    Some("https://placehold.co/100x100/F08080/000000?text=Phone"))
  const AngularBook := Product(3, "Livre \"Angular Pro\"", 30, "Livres",
    "Guide complet pour maîtriser Angular.",
    Some("https://placehold.co/100x100/90EE90/000000?text=Book"))
  const Headset := Product(4, "Casque Audio BT-500", 150, "Accessoires",
    "Casque sans fil avec annulation de bruit active.",
    Some("https://placehold.co/100x100/DDA0DD/000000?text=Headset"))
  const Mouse := Product(5, "Souris Ergonomique", 45, "Accessoires",
    "Souris confortable pour de longues sessions de travail.",
    Some("https://placehold.co/100x100/FFDAB9/000000?text=Mouse"))

  /** The catalogue, in the order it is declared. */
  const Catalogue: seq<Product> := [Laptop, Smartphone, AngularBook, Headset, Mouse]

  /** `getProducts`: the five products, ids 1 to 5 in order. */
  function GetProducts(): (r: seq<Product>)
    ensures |r| == 5
    ensures forall i :: 0 <= i < |r| ==> r[i].id == i + 1
  {
    Catalogue
  }

  /** `getProductById`: a product exactly for the ids 1 to 5, and then the one with that id. */
  function GetProductById(id: int): (r: Option<Product>)
    ensures r.Some? <==> 1 <= id <= 5
    ensures r.Some? ==> r.value == Catalogue[id - 1] && r.value.id == id
  {
    FindInCatalogue(id);
    FindFirst(Catalogue, (p: Product) => p.id == id)
  }

  lemma FindInCatalogue(id: int)
    ensures 1 <= id <= 5 ==> FindFirst(Catalogue, (p: Product) => p.id == id) == Some(Catalogue[id - 1])
    ensures 1 <= id <= 5 ==> Catalogue[id - 1].id == id
    ensures !(1 <= id <= 5) ==> FindFirst(Catalogue, (p: Product) => p.id == id) == None
  {
    var c := Catalogue;
    var m := (p: Product) => p.id == id;
    assert forall i :: 0 <= i < |c| ==> c[i].id == i + 1;
    if 1 <= id <= 5 {
      FindFirstAt(c, m, id - 1);
    }
  }

  /** No two catalogue products share an id, so a lookup can match at most one. */
  lemma CatalogueIdsUnique()
    ensures forall i, j :: 0 <= i < j < |Catalogue| ==> Catalogue[i].id != Catalogue[j].id
  {
    assert forall i :: 0 <= i < |Catalogue| ==> Catalogue[i].id == i + 1;
  }

  /** Every catalogue price is above 20, so the product list's price filter keeps all five. */
  lemma CataloguePassesPriceFilter()
    ensures Filter(GetProducts(), (p: Product) => p.price > 20) == Catalogue
  {
    var c := Catalogue;
    assert forall p :: p in c ==> p.price > 20;
    FilterKeepsAll(c, (p: Product) => p.price > 20);
  }
}
