/**
 * JSON values as the scripts read and write them, and the typed shape of the bot catalog
 * (`{"packages": [{"package", "packageId", "categories": [{"category", "bots": [...]}]}]}`).
 */
module Json {
  import opened Dict

  /** A JSON value; objects keep their keys in insertion order. */
  datatype Json = JNull | JBool(b: bool) | JNum(n: int) | JStr(s: string) | JArr(items: seq<Json>) | JObj(fields: Dict<Json>)

  /** A JSON object: one bot record, for instance. */
  type Obj = Dict<Json>

  datatype Category = Category(category: string, bots: seq<Obj>)

  datatype Package = Package(package: string, packageId: Json, categories: seq<Category>)

  /** The `packages` list of a catalog. */
  type Catalog = seq<Package>

  /** A dict of strings as a JSON object of strings, entry for entry. */
  function StrObj(d: Dict<string>): (r: Obj)
    ensures |r| == |d|
    ensures forall i :: 0 <= i < |d| ==> r[i] == (d[i].0, JStr(d[i].1))
  {
    seq(|d|, i requires 0 <= i < |d| => (d[i].0, JStr(d[i].1)))
  }

  /** The number of bots in a list of categories. */
  function CategoriesBotCount(cats: seq<Category>): nat
    decreases |cats|
  {
    if cats == [] then 0 else CategoriesBotCount(cats[..|cats| - 1]) + |cats[|cats| - 1].bots|
  }

  /** The number of bots in a catalog: the dry run's `Bots:` figure. */
  function CatalogBotCount(c: Catalog): nat
    decreases |c|
  {
    if c == [] then 0 else CatalogBotCount(c[..|c| - 1]) + CategoriesBotCount(c[|c| - 1].categories)
  }

  lemma CategoriesBotCountAppend(cats: seq<Category>, c: Category)
    ensures CategoriesBotCount(cats + [c]) == CategoriesBotCount(cats) + |c.bots|
  {
    assert (cats + [c])[..|cats|] == cats;
  }

  /** Replacing one category changes the count by the difference of the two. */
  lemma {:induction false} CategoriesBotCountUpdate(cats: seq<Category>, j: nat, c: Category)
    requires j < |cats|
    ensures CategoriesBotCount(cats[j := c]) + |cats[j].bots| == CategoriesBotCount(cats) + |c.bots|
    decreases |cats|
  {
    var n := |cats| - 1;
    if j == n {
      assert cats[j := c][..n] == cats[..n];
    } else {
      assert cats[j := c][..n] == cats[..n][j := c];
      CategoriesBotCountUpdate(cats[..n], j, c);
    }
  }
}
