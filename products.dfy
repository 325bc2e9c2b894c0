/**
 * The product catalog (src/products.js): entries built from `PRODUCT_*` variables, every alias
 * mapped to the same entry, exact lookup, and sentence detection through the longest-first
 * alternation of all keys.
 */
module Products {
  import opened Strings
  import opened Wrappers
  import Config
  import Alternation
  import C = Constants

  /** The product object; `mainKey` is the lower-cased configured key, `name` the key as spelled. */
  datatype Product = Product(mainKey: string, name: string, description: string, icon: string)

  // ---------------------------------------------------------------- one product from the environment

  /** `key.toUpperCase().replace(/\s+/g, "_")`: the suffix of the product's variables. */
  function ProductId(key: string): (r: string)
    ensures |r| <= |key| && forall i :: 0 <= i < |r| ==> !IsSpace(r[i])
    ensures (forall i :: 0 <= i < |key| ==> !IsSpace(key[i])) ==> r == Upper(key)
  {
    CollapseSpaces(Upper(key))
  }

  function Description(env: Config.Env, key: string): string {
    Config.EnvOr(env, "PRODUCT_" + ProductId(key) + "_TEXT", "")
  }

  /** A key yields a product only when its description has text (lines 30-33). */
  predicate Listed(env: Config.Env, key: string) {
    Trim(Description(env, key)) != ""
  }

  /** The icon of the product's category (PRODUCT_CATEGORY_<id>, then CATEGORY_ICON_<CATEGORY>), or `""`. */
  function CategoryIcon(env: Config.Env, key: string): string {
    var category := Trim(Config.EnvOr(env, "PRODUCT_CATEGORY_" + ProductId(key), ""));
    var iconKey := if category != "" then "CATEGORY_ICON_" + Upper(category) else "";
    if iconKey != "" then Trim(Config.EnvOr(env, iconKey, "")) else ""
  }

  /** `process.env.CATEGORY_ICON_DEFAULT || DEFAULTS.CATEGORY_ICON_DEFAULT`. */
  function DefaultIcon(env: Config.Env): (icon: string)
    ensures icon != ""
  {
    var name := "CATEGORY_ICON_DEFAULT";
    if name in env && env[name] != "" then env[name] else C.DefaultCategoryIcon
  }

  /** The category icon, else the default icon: never empty. */
  function Icon(env: Config.Env, key: string): (icon: string)
    ensures icon != ""
  {
    var own := CategoryIcon(env, key);
    if own != "" then own else DefaultIcon(env)
  }

  function MakeProduct(env: Config.Env, key: string): (p: Product)
    ensures p.mainKey == Lower(key) && p.name == key && IsTrimmed(p.description) && p.icon != ""
  {
    Product(Lower(key), key, Trim(Description(env, key)), Icon(env, key))
  }

  /** PRODUCT_ALIAS_<id>, trimmed; when non-empty, split, trimmed, lower-cased and filtered. */
  function Aliases(env: Config.Env, key: string): (r: seq<string>)
    ensures forall i :: 0 <= i < |r| ==> r[i] != "" && IsLower(r[i])
  {
    var raw := Trim(Config.EnvOr(env, "PRODUCT_ALIAS_" + ProductId(key), ""));
    if raw == "" then [] else Config.TriggerList(raw)
  }

  /** The map keys a listed product is stored under, in assignment order: its main key, then its aliases. */
  function Claims(env: Config.Env, key: string): (cs: seq<string>)
    ensures |cs| >= 1 && cs[0] == Lower(key)
    ensures forall i :: 0 <= i < |cs| ==> IsLower(cs[i])
    ensures key != "" ==> forall i :: 0 <= i < |cs| ==> cs[i] != ""
  {
    LowerIsLower(key);
    var aliases := Aliases(env, key);
    LowerClaims(Lower(key), aliases);
    [Lower(key)] + aliases
  }

  lemma LowerClaims(head: string, aliases: seq<string>)
    requires IsLower(head) && forall i :: 0 <= i < |aliases| ==> aliases[i] != "" && IsLower(aliases[i])
    ensures forall i :: 0 <= i < |[head] + aliases| ==> IsLower(([head] + aliases)[i])
    ensures head != "" ==> forall i :: 0 <= i < |[head] + aliases| ==> ([head] + aliases)[i] != ""
  {
    var cs := [head] + aliases;
    assert forall i :: 1 <= i < |cs| ==> cs[i] == aliases[i - 1];
  }

  /** `key` is listed and stores its product under `k`. */
  predicate ClaimsKey(env: Config.Env, key: string, k: string) {
    Listed(env, key) && k in Claims(env, key)
  }

  // ---------------------------------------------------------------- the map and its key order

  /** `map[c] = product` for every `c` of `claims`. */
  function Assign(m: map<string, Product>, claims: seq<string>, p: Product): (r: map<string, Product>)
    ensures forall k :: k in r <==> k in m || k in claims
    ensures forall k :: k in r ==> r[k] == if k in claims then p else m[k]
  {
    map k | k in m.Keys + (set c | c in claims) :: if k in claims then p else m[k]
  }

  /** What one configured key contributes: the map keys it claims (none when unlisted) and its product. */
  datatype Entry = Entry(claims: seq<string>, product: Product)

  function EntryFor(env: Config.Env, key: string): Entry {
    Entry(if Listed(env, key) then Claims(env, key) else [], MakeProduct(env, key))
  }

  /** The entry of every configured key. */
  function EntryMaker(env: Config.Env): string -> Entry {
    key => EntryFor(env, key)
  }

  /** The entries of the configured keys, in order. */
  function Entries(f: string -> Entry, keys: seq<string>): (es: seq<Entry>)
    ensures |es| == |keys|
    decreases |keys|
  {
    if keys == [] then [] else Entries(f, keys[..|keys| - 1]) + [f(keys[|keys| - 1])]
  }

  lemma {:induction false} EntriesAt(f: string -> Entry, keys: seq<string>)
    ensures forall i :: 0 <= i < |keys| ==> Entries(f, keys)[i] == f(keys[i])
    decreases |keys|
  {
    if keys != [] {
      var init := keys[..|keys| - 1];
      EntriesAt(f, init);
      assert forall i :: 0 <= i < |init| ==> init[i] == keys[i];
    }
  }

  lemma EntriesSnoc(f: string -> Entry, keys: seq<string>, i: int)
    requires 0 <= i < |keys|
    ensures Entries(f, keys[..i + 1]) == Entries(f, keys[..i]) + [f(keys[i])]
  {
    assert keys[..i + 1][..i] == keys[..i];
  }

  /** The assignments of a series of entries, in order. */
  function Fold(es: seq<Entry>): map<string, Product>
    decreases |es|
  {
    if es == [] then map[]
    else Assign(Fold(es[..|es| - 1]), es[|es| - 1].claims, es[|es| - 1].product)
  }

  /** The resulting property order of a series of entries. */
  function FoldOrder(es: seq<Entry>): seq<string>
    decreases |es|
  {
    if es == [] then []
    else AppendNew(FoldOrder(es[..|es| - 1]), es[|es| - 1].claims)
  }

  /** buildProducts: the loop over the configured keys, as a fold. */
  function ProductMap(env: Config.Env, keys: seq<string>): (r: map<string, Product>)
    ensures keys == [] ==> r == map[]
  {
    Fold(Entries(EntryMaker(env), keys))
  }

  /** `Object.keys(products)`, for keys that are not array indices: each key once, in assignment order. */
  function KeyOrder(env: Config.Env, keys: seq<string>): (r: seq<string>)
    ensures NoDup(r)
    ensures forall k :: k in r <==> k in ProductMap(env, keys)
  {
    FoldOrderListsKeys(Entries(EntryMaker(env), keys));
    FoldOrder(Entries(EntryMaker(env), keys))
  }

  /** Property insertion order: a key joins the order when it is first assigned. */
  function AppendNew(order: seq<string>, claims: seq<string>): (r: seq<string>)
    ensures forall k :: k in r <==> k in order || k in claims
    ensures NoDup(order) ==> NoDup(r)
    ensures |order| <= |r| && r[..|order|] == order
    decreases |claims|
  {
    if claims == [] then order
    else
      var o := AppendNew(order, claims[..|claims| - 1]);
      var c := claims[|claims| - 1];
      assert forall k :: k in claims <==> k in claims[..|claims| - 1] || k == c;
      if c in o then o else o + [c]
  }

  predicate NoDup<T(==)>(s: seq<T>) {
    forall i, j :: 0 <= i < j < |s| ==> s[i] != s[j]
  }

  /** The order lists every key of the fold exactly once. */
  lemma {:induction false} FoldOrderListsKeys(es: seq<Entry>)
    ensures NoDup(FoldOrder(es))
    ensures forall k :: k in FoldOrder(es) <==> k in Fold(es)
    decreases |es|
  {
    if es != [] {
      FoldOrderListsKeys(es[..|es| - 1]);
    }
  }

  /** A key is in the fold exactly when some entry claims it; it holds the last claimer's product. */
  lemma FoldLookup(es: seq<Entry>, k: string)
    ensures k in Fold(es) <==> exists i :: 0 <= i < |es| && k in es[i].claims
    ensures k in Fold(es) ==>
      exists i :: (0 <= i < |es| && k in es[i].claims && Fold(es)[k] == es[i].product
                   && forall j :: i < j < |es| ==> k !in es[j].claims)
  {
    FoldDomain(es, k);
    if k in Fold(es) {
      FoldLast(es, k);
    }
  }

  lemma {:induction false} FoldDomain(es: seq<Entry>, k: string)
    ensures k in Fold(es) <==> exists i :: 0 <= i < |es| && k in es[i].claims
    decreases |es|
  {
    if es != [] {
      var n := |es| - 1;
      var init := es[..n];
      FoldDomain(init, k);
      assert forall i :: 0 <= i < n ==> init[i] == es[i];
      if k in es[n].claims {
        assert 0 <= n < |es| && k in es[n].claims;
      }
    }
  }

  lemma {:induction false} FoldLast(es: seq<Entry>, k: string)
    requires k in Fold(es)
    ensures exists i :: (0 <= i < |es| && k in es[i].claims && Fold(es)[k] == es[i].product
                         && forall j :: i < j < |es| ==> k !in es[j].claims)
    decreases |es|
  {
    var n := |es| - 1;
    var init := es[..n];
    if k in es[n].claims {
      assert Fold(es)[k] == es[n].product;
      assert 0 <= n < |es| && k in es[n].claims && Fold(es)[k] == es[n].product;
    } else {
      assert k in Fold(init) && Fold(es)[k] == Fold(init)[k];
      FoldLast(init, k);
      var i :| 0 <= i < n && k in init[i].claims && Fold(init)[k] == init[i].product
               && forall j :: i < j < n ==> k !in init[j].claims;
      assert init[i] == es[i];
      forall j | i < j < |es|
        ensures k !in es[j].claims
      {
        if j < n {
          assert es[j] == init[j];
        }
      }
    }
  }

  /** The entries claim what the listed products claim, and carry their products. */
  lemma EntriesClaim(env: Config.Env, keys: seq<string>, k: string)
    ensures forall i :: 0 <= i < |keys| ==>
      (ClaimsKey(env, keys[i], k) <==> k in Entries(EntryMaker(env), keys)[i].claims)
      && Entries(EntryMaker(env), keys)[i].product == MakeProduct(env, keys[i])
  {
    EntriesAt(EntryMaker(env), keys);
    forall i | 0 <= i < |keys|
      ensures (ClaimsKey(env, keys[i], k) <==> k in Entries(EntryMaker(env), keys)[i].claims)
              && Entries(EntryMaker(env), keys)[i].product == MakeProduct(env, keys[i])
    {
      EntryForClaims(env, keys[i], k);
    }
  }

  /** `k` is a key of the map exactly when some listed product claims it. */
  lemma ProductMapKeys(env: Config.Env, keys: seq<string>, k: string)
    ensures k in ProductMap(env, keys) <==> exists i :: 0 <= i < |keys| && ClaimsKey(env, keys[i], k)
  {
    FoldLookup(Entries(EntryMaker(env), keys), k);
    EntriesClaim(env, keys, k);
  }

  /** A key's entry is the product of the last listed key claiming it. */
  lemma ProductMapLookup(env: Config.Env, keys: seq<string>, k: string)
    requires k in ProductMap(env, keys)
    ensures exists i :: (0 <= i < |keys| && ClaimsKey(env, keys[i], k)
                         && ProductMap(env, keys)[k] == MakeProduct(env, keys[i])
                         && forall j :: i < j < |keys| ==> !ClaimsKey(env, keys[j], k))
  {
    var es := Entries(EntryMaker(env), keys);
    FoldLookup(es, k);
    EntriesClaim(env, keys, k);
    var i :| 0 <= i < |es| && k in es[i].claims && Fold(es)[k] == es[i].product
             && forall j :: i < j < |es| ==> k !in es[j].claims;
    assert ClaimsKey(env, keys[i], k);
  }

  lemma EntryForClaims(env: Config.Env, key: string, k: string)
    ensures k in EntryFor(env, key).claims <==> ClaimsKey(env, key, k)
    ensures EntryFor(env, key).product == MakeProduct(env, key)
  {
  }

  /** Every key a product claims, and that no later product claims again, holds that product. */
  lemma SharedEntry(env: Config.Env, keys: seq<string>, i: int, c: string)
    requires 0 <= i < |keys| && ClaimsKey(env, keys[i], c)
    requires forall j :: i < j < |keys| ==> !ClaimsKey(env, keys[j], c)
    ensures c in ProductMap(env, keys)
    ensures ProductMap(env, keys)[c] == MakeProduct(env, keys[i])
    ensures ProductMap(env, keys)[c].mainKey == Lower(keys[i])
  {
    ProductMapKeys(env, keys, c);
    ProductMapLookup(env, keys, c);
    var i' :| 0 <= i' < |keys| && ClaimsKey(env, keys[i'], c)
              && ProductMap(env, keys)[c] == MakeProduct(env, keys[i'])
              && forall j :: i' < j < |keys| ==> !ClaimsKey(env, keys[j], c);
    assert i' == i;
  }

  /** A key whose description is blank contributes nothing: no entry carries its name. */
  lemma BlankDescriptionAbsent(env: Config.Env, keys: seq<string>, key: string)
    requires !Listed(env, key)
    ensures forall k :: k in ProductMap(env, keys) ==> ProductMap(env, keys)[k].name != key
  {
    forall k | k in ProductMap(env, keys)
      ensures ProductMap(env, keys)[k].name != key
    {
      ProductMapLookup(env, keys, k);
    }
  }

  /** Map keys are lower-case, and non-empty when the configured keys are. */
  lemma MapKeysLower(env: Config.Env, keys: seq<string>)
    ensures forall k :: k in ProductMap(env, keys) ==> IsLower(k)
    ensures (forall i :: 0 <= i < |keys| ==> keys[i] != "") ==> forall k :: k in ProductMap(env, keys) ==> k != ""
  {
    forall k | k in ProductMap(env, keys)
      ensures IsLower(k) && ((forall i :: 0 <= i < |keys| ==> keys[i] != "") ==> k != "")
    {
      ProductMapKeys(env, keys, k);
      var i :| 0 <= i < |keys| && ClaimsKey(env, keys[i], k);
      ClaimIsLower(env, keys[i], k);
    }
  }

  /** What a key claims is lower-case, and non-empty when the key is. */
  lemma ClaimIsLower(env: Config.Env, key: string, k: string)
    requires ClaimsKey(env, key, k)
    ensures IsLower(k) && (key != "" ==> k != "")
  {
    var cs := Claims(env, key);
    var j :| 0 <= j < |cs| && cs[j] == k;
  }

  /** Every entry is stored under its own main key as well. */
  lemma EntriesUnderMainKey(env: Config.Env, keys: seq<string>, k: string)
    requires k in ProductMap(env, keys)
    ensures ProductMap(env, keys)[k].mainKey in ProductMap(env, keys)
  {
    ProductMapLookup(env, keys, k);
    var i :| 0 <= i < |keys| && ClaimsKey(env, keys[i], k) && ProductMap(env, keys)[k] == MakeProduct(env, keys[i]);
    assert ClaimsKey(env, keys[i], Lower(keys[i]));
    ProductMapKeys(env, keys, Lower(keys[i]));
  }

  // ---------------------------------------------------------------- building, imperatively

  /** The forEach over a product's claims: each is assigned the product in turn. */
  method AssignClaims(m0: map<string, Product>, order0: seq<string>, claims: seq<string>, product: Product)
    returns (m: map<string, Product>, order: seq<string>)
    ensures m == Assign(m0, claims, product) && order == AppendNew(order0, claims)
  {
    m, order := m0, order0;
    for j := 0 to |claims|
      invariant m == Assign(m0, claims[..j], product)
      invariant order == AppendNew(order0, claims[..j])
    {
      assert claims[..j + 1] == claims[..j] + [claims[j]];
      AssignSnoc(m0, claims[..j], claims[j], product);
      AppendNewSnoc(order0, claims[..j], claims[j]);
      m := m[claims[j] := product];
      order := if claims[j] in order then order else order + [claims[j]];
    }
    assert claims[..|claims|] == claims;
  }

  lemma FoldSnoc(es: seq<Entry>, e: Entry)
    ensures Fold(es + [e]) == Assign(Fold(es), e.claims, e.product)
    ensures FoldOrder(es + [e]) == AppendNew(FoldOrder(es), e.claims)
  {
    assert (es + [e])[..|es|] == es;
  }

  /** One more key extends the fold by that key's entry. */
  lemma FoldStep(f: string -> Entry, keys: seq<string>, i: int)
    requires 0 <= i < |keys|
    ensures Fold(Entries(f, keys[..i + 1])) == Assign(Fold(Entries(f, keys[..i])), f(keys[i]).claims, f(keys[i]).product)
    ensures FoldOrder(Entries(f, keys[..i + 1])) == AppendNew(FoldOrder(Entries(f, keys[..i])), f(keys[i]).claims)
  {
    EntriesSnoc(f, keys, i);
    FoldSnoc(Entries(f, keys[..i]), f(keys[i]));
  }

  lemma AssignNothing(m: map<string, Product>, p: Product)
    ensures Assign(m, [], p) == m
  {
    assert Assign(m, [], p).Keys == m.Keys;
  }

  lemma AssignSnoc(m: map<string, Product>, claims: seq<string>, c: string, p: Product)
    ensures Assign(m, claims + [c], p) == Assign(m, claims, p)[c := p]
  {
    var l, r := Assign(m, claims + [c], p), Assign(m, claims, p)[c := p];
    assert forall k :: k in claims + [c] <==> k in claims || k == c;
    assert l.Keys == r.Keys;
    forall k | k in l
      ensures l[k] == r[k]
    {
    }
  }

  lemma AppendNewSnoc(order: seq<string>, claims: seq<string>, c: string)
    ensures AppendNew(order, claims + [c]) ==
      var o := AppendNew(order, claims); if c in o then o else o + [c]
  {
    assert (claims + [c])[..|claims|] == claims;
  }

  /** One pass of buildProducts' loop: a listed key assigns its claims, any other key is skipped. */
  method AddProduct(env: Config.Env, key: string, m0: map<string, Product>, order0: seq<string>)
    returns (m: map<string, Product>, order: seq<string>)
    ensures m == Assign(m0, EntryMaker(env)(key).claims, EntryMaker(env)(key).product)
    ensures order == AppendNew(order0, EntryMaker(env)(key).claims)
  {
    var id := ProductId(key);
    var desc := Config.EnvOr(env, "PRODUCT_" + id + "_TEXT", "");
    if Trim(desc) != "" {
      var product := MakeProduct(env, key);
      var aliasRaw := Trim(Config.EnvOr(env, "PRODUCT_ALIAS_" + id, ""));
      var aliases := if aliasRaw != "" then Config.TriggerList(aliasRaw) else [];
      m, order := AssignClaims(m0, order0, [Lower(key)] + aliases, product);
    } else {
      AssignNothing(m0, MakeProduct(env, key));
      m, order := m0, order0;
    }
  }

  /** The map and the order after the loop has handled the first `i` configured keys. */
  ghost predicate BuiltUpTo(env: Config.Env, keys: seq<string>, i: int, m: map<string, Product>, order: seq<string>)
    requires 0 <= i <= |keys|
  {
    m == Fold(Entries(EntryMaker(env), keys[..i])) && order == FoldOrder(Entries(EntryMaker(env), keys[..i]))
  }

  /** buildProducts: the loop over the configured keys, assigning every claim of every listed product. */
  method BuildProducts(env: Config.Env, productKeys: seq<string>) returns (m: map<string, Product>, order: seq<string>)
    ensures m == ProductMap(env, productKeys)
    ensures order == KeyOrder(env, productKeys)
  {
    m, order := map[], [];
    for i := 0 to |productKeys|
      invariant BuiltUpTo(env, productKeys, i, m, order)
    {
      FoldStep(EntryMaker(env), productKeys, i);
      m, order := AddProduct(env, productKeys[i], m, order);
    }
    assert productKeys[..|productKeys|] == productKeys;
  }

  // ---------------------------------------------------------------- boot information

  /** `Array.from(new Set(xs))`: first occurrences, in order. */
  function Dedupe(xs: seq<string>): (r: seq<string>)
    ensures NoDup(r)
    ensures forall x :: x in r <==> x in xs
    decreases |xs|
  {
    if xs == [] then []
    else
      var r := Dedupe(xs[..|xs| - 1]);
      var x := xs[|xs| - 1];
      assert forall y :: y in xs <==> y in xs[..|xs| - 1] || y == x;
      if x in r then r else r + [x]
  }

  /** `keys.map(k => products[k]?.mainKey).filter(Boolean)`, deduplicated. */
  function UniqueMain(products: map<string, Product>, order: seq<string>): (r: seq<string>)
    requires forall k :: k in order ==> k in products
    ensures NoDup(r)
    ensures order == [] ==> r == []
  {
    Dedupe(MainKeys(products, order))
  }

  function MainKeys(products: map<string, Product>, order: seq<string>): (r: seq<string>)
    requires forall k :: k in order ==> k in products
    ensures forall x :: x in r <==> exists k :: k in order && products[k].mainKey == x && x != ""
    decreases |order|
  {
    if order == [] then []
    else
      var rest := MainKeys(products, order[1..]);
      assert forall k :: k in order <==> k == order[0] || k in order[1..];
      var x := products[order[0]].mainKey;
      if x != "" then [x] + rest else rest
  }

  /** A list without repetitions is as long as the set of its elements. */
  lemma {:induction false} NoDupCard(s: seq<string>)
    requires NoDup(s)
    ensures |set x | x in s| == |s|
    decreases |s|
  {
    if s != [] {
      var init := s[..|s| - 1];
      NoDupCard(init);
      assert (set x | x in s) == (set x | x in init) + {s[|s| - 1]};
      assert s[|s| - 1] !in init;
    }
  }

  /** The set of main keys the catalog holds. */
  function MainKeySet(products: map<string, Product>): set<string> {
    set k | k in products && products[k].mainKey != "" :: products[k].mainKey
  }

  /**
   * initProducts' boot counts: `productCount` is the number of distinct main keys and
   * `aliasCount` the number of map keys.
   */
  lemma BootCounts(env: Config.Env, keys: seq<string>)
    ensures var products, order := ProductMap(env, keys), KeyOrder(env, keys);
      && (forall k :: k in order ==> k in products)
      && |order| == |products|
      && |UniqueMain(products, order)| == |MainKeySet(products)|
  {
    CountsOf(ProductMap(env, keys), KeyOrder(env, keys));
  }

  /** The counts for any map listed once each by `order`. */
  lemma CountsOf(products: map<string, Product>, order: seq<string>)
    requires NoDup(order) && forall k :: k in order <==> k in products
    ensures |order| == |products|
    ensures |UniqueMain(products, order)| == |MainKeySet(products)|
  {
    NoDupCard(order);
    assert (set x | x in order) == products.Keys;
    UniqueMainCount(products, order);
  }

  /**
   * The catalog's keys, reordered longest first, make its pattern, and the distinct main keys
   * read off them are as many as the catalog has.
   */
  lemma SortedPattern(products: map<string, Product>, keys: seq<string>, sorted: seq<string>)
    requires NoDup(keys) && forall k :: k in keys <==> k in products
    requires forall k :: k in products ==> IsLower(k) && k != ""
    requires multiset(sorted) == multiset(keys) && Alternation.LongestFirst(sorted)
    ensures PatternFor(products, if sorted == [] then None else Some(sorted))
    ensures forall k :: k in sorted <==> k in products
    ensures |UniqueMain(products, sorted)| == |MainKeySet(products)|
  {
    SameMembers(sorted, keys);
    assert |sorted| == |keys| by {
      assert |multiset(sorted)| == |multiset(keys)|;
    }
    NoDupCard(keys);
    assert (set x | x in keys) == products.Keys;
    UniqueMainCount(products, sorted);
  }

  /** Two orderings of one multiset hold the same members. */
  lemma SameMembers(s: seq<string>, t: seq<string>)
    requires multiset(s) == multiset(t)
    ensures forall k :: k in s <==> k in t
  {
    forall k
      ensures k in s <==> k in t
    {
      assert k in s <==> multiset(s)[k] > 0;
      assert k in t <==> multiset(t)[k] > 0;
    }
  }

  /** Listing every key, in any order and with any repetitions, gives one entry per main key. */
  lemma UniqueMainCount(products: map<string, Product>, order: seq<string>)
    requires forall k :: k in order <==> k in products
    ensures |UniqueMain(products, order)| == |MainKeySet(products)|
  {
    var u := UniqueMain(products, order);
    NoDupCard(u);
    assert (set x | x in u) == MainKeySet(products);
  }

  // ---------------------------------------------------------------- the pattern

  /** The entries of `s` that are `n` characters long, in order. */
  function OfLength(s: seq<string>, n: nat): seq<string>
    decreases |s|
  {
    if s == [] then [] else (if |s[0]| == n then [s[0]] else []) + OfLength(s[1..], n)
  }

  lemma {:induction false} OfLengthAppend(a: seq<string>, b: seq<string>, n: nat)
    ensures OfLength(a + b, n) == OfLength(a, n) + OfLength(b, n)
  {
    if a != [] {
      assert (a + b)[0] == a[0] && (a + b)[1..] == a[1..] + b;
      OfLengthAppend(a[1..], b, n);
    } else {
      assert a + b == b;
    }
  }

  /**
   * A stable reordering by length: among entries of any one length the order is kept. Together
   * with a longest-first result this is what JavaScript's stable `sort` by length yields.
   */
  ghost predicate SameOrderPerLength(s: seq<string>, t: seq<string>) {
    forall n: nat :: OfLength(s, n) == OfLength(t, n)
  }

  /** Swapping neighbours of different lengths keeps the order within every length. */
  lemma SwapDifferentLengths(s: seq<string>, j: int)
    requires 0 < j < |s| && |s[j - 1]| != |s[j]|
    ensures SameOrderPerLength(s[j - 1 := s[j]][j := s[j - 1]], s)
  {
    var t := s[j - 1 := s[j]][j := s[j - 1]];
    assert s == s[..j - 1] + ([s[j - 1]] + [s[j]]) + s[j + 1..];
    assert t == s[..j - 1] + ([s[j]] + [s[j - 1]]) + s[j + 1..];
    forall n: nat ensures OfLength(t, n) == OfLength(s, n) {
      OfLengthAppend(s[..j - 1] + ([s[j - 1]] + [s[j]]), s[j + 1..], n);
      OfLengthAppend(s[..j - 1], [s[j - 1]] + [s[j]], n);
      OfLengthAppend(s[..j - 1] + ([s[j]] + [s[j - 1]]), s[j + 1..], n);
      OfLengthAppend(s[..j - 1], [s[j]] + [s[j - 1]], n);
      OfLengthAppend([s[j - 1]], [s[j]], n);
      OfLengthAppend([s[j]], [s[j - 1]], n);
      assert [s[j - 1]][1..] == [] && [s[j]][1..] == [];
    }
  }

  /** The in-place sort of buildProductRegex: longest key first, stable as JavaScript's sort is. */
  method SortLongestFirst(a: array<string>)
    modifies a
    ensures Alternation.LongestFirst(a[..])
    ensures multiset(a[..]) == multiset(old(a[..]))
    ensures SameOrderPerLength(a[..], old(a[..]))
  {
    if a.Length == 0 {
      return;
    }
    for i := 1 to a.Length
      invariant SortedUpTo(a[..], i)
      invariant multiset(a[..]) == multiset(old(a[..]))
      invariant SameOrderPerLength(a[..], old(a[..]))
    {
      HoleOpens(a[..], i);
      var j := i;
      while j > 0 && |a[j - 1]| < |a[j]|
        invariant 0 <= j <= i
        invariant SortedExcept(a[..], i + 1, j)
        invariant multiset(a[..]) == multiset(old(a[..]))
        invariant SameOrderPerLength(a[..], old(a[..]))
      {
        ghost var before := a[..];
        a[j - 1], a[j] := a[j], a[j - 1];
        assert a[..] == before[j - 1 := before[j]][j := before[j - 1]];
        SwapStep(before, i + 1, j);
        SwapDifferentLengths(before, j);
        j := j - 1;
      }
      HoleSettled(a[..], i + 1, j);
    }
  }

  /** The next element joins the sorted prefix as the hole. */
  lemma HoleOpens(s: seq<string>, i: int)
    requires 0 <= i < |s| && SortedUpTo(s, i)
    ensures SortedExcept(s, i + 1, i)
  {
  }

  /** Swapping a longer hole with its shorter left neighbour moves the hole left. */
  lemma SwapStep(s: seq<string>, n: int, j: int)
    requires 0 < j < n <= |s| && SortedExcept(s, n, j) && |s[j - 1]| < |s[j]|
    ensures SortedExcept(s[j - 1 := s[j]][j := s[j - 1]], n, j - 1)
    ensures multiset(s[j - 1 := s[j]][j := s[j - 1]]) == multiset(s)
  {
  }

  /** A hole no longer than its left neighbour leaves the prefix sorted. */
  lemma HoleSettled(s: seq<string>, n: int, j: int)
    requires 0 <= j < n <= |s| && SortedExcept(s, n, j) && (j == 0 || |s[j - 1]| >= |s[j]|)
    ensures SortedUpTo(s, n)
  {
  }

  /** The first `n` elements are longest first. */
  predicate SortedUpTo(s: seq<string>, n: int)
    requires 0 <= n <= |s|
  {
    forall i, j :: 0 <= i < j < n ==> |s[i]| >= |s[j]|
  }

  /** The first `n` elements are longest first, leaving out the one at `hole` that is still moving left. */
  predicate SortedExcept(s: seq<string>, n: int, hole: int)
    requires 0 <= hole < n <= |s|
  {
    && (forall i, j :: 0 <= i < j < n && i != hole && j != hole ==> |s[i]| >= |s[j]|)
    && (forall j :: hole < j < n ==> |s[hole]| >= |s[j]|)
  }

  /**
   * buildProductRegex: `None` (null) for no keys, else the keys longest first. Like the source,
   * it sorts the array it is given in place, so the caller's key list is left in that order too.
   */
  /**
   * initProducts' `keys` array handed to buildProductRegex: sorted in place, then read back in
   * its new order.
   */
  method SortKeysArray(keys: seq<string>) returns (pattern: Option<seq<string>>, sorted: seq<string>)
    ensures pattern.None? <==> keys == []
    ensures pattern.Some? ==> pattern.value == sorted
    ensures Alternation.LongestFirst(sorted) && multiset(sorted) == multiset(keys)
    ensures SameOrderPerLength(sorted, keys)
  {
    var a := new string[|keys|](i requires 0 <= i < |keys| => keys[i]);
    assert a[..] == keys;
    pattern := BuildProductRegex(a);
    sorted := a[..];
  }

  method BuildProductRegex(keys: array<string>) returns (pattern: Option<seq<string>>)
    modifies keys
    ensures pattern.None? <==> keys.Length == 0
    ensures pattern.Some? ==> pattern.value == keys[..]
    ensures Alternation.LongestFirst(keys[..]) && multiset(keys[..]) == multiset(old(keys[..]))
    ensures SameOrderPerLength(keys[..], old(keys[..]))
  {
    if keys.Length == 0 {
      return None;
    }
    SortLongestFirst(keys);
    return Some(keys[..]);
  }

  // ---------------------------------------------------------------- lookup and detection

  /** getProduct, on the catalog's own keys only. */
  function GetProduct(products: map<string, Product>, key: string): (r: Option<Product>)
    ensures r.Some? <==> key in products
    ensures r.Some? ==> r.value == products[key]
  {
    if key in products then Some(products[key]) else None
  }

  /** The names an empty JavaScript object answers through `Object.prototype`. */
  const PrototypeMembers: set<string> := {
    "constructor", "__proto__", "hasOwnProperty", "isPrototypeOf", "propertyIsEnumerable",
    "toLocaleString", "toString", "valueOf", "__defineGetter__", "__defineSetter__",
    "__lookupGetter__", "__lookupSetter__"}

  /** What `products[key] || null` yields in JavaScript: an own entry, an inherited member, or null. */
  datatype Lookup = Own(product: Product) | Inherited(member: string) | NoEntry

  /** getProduct as written: the plain property read also answers the inherited prototype members. */
  function GetProductAsWritten(products: map<string, Product>, key: string): (r: Lookup)
    ensures r.Own? <==> key in products
    ensures r.Inherited? <==> key !in products && key in PrototypeMembers
  {
    if key in products then Own(products[key])
    else if key in PrototypeMembers then Inherited(key)
    else NoEntry
  }

  /** The discrepancy: with no products configured at all, `constructor` still gets an answer. */
  lemma PrototypeLookupAnswers()
    ensures GetProductAsWritten(map[], "constructor") == Inherited("constructor")
    ensures GetProduct(map[], "constructor") == None
  {
  }

  /** The finding's corrected lookup answers exactly the catalog's own keys. */
  lemma GetProductOnlyOwnKeys(env: Config.Env, keys: seq<string>, key: string)
    ensures GetProduct(ProductMap(env, keys), key).Some? <==> exists i :: 0 <= i < |keys| && ClaimsKey(env, keys[i], key)
  {
    ProductMapKeys(env, keys, key);
  }

  /**
   * detectProductInText: the alternation's match, lower-cased, unless it is the whole text,
   * looked up in the catalog.
   */
  function Detect(products: map<string, Product>, pattern: Option<seq<string>>, textLower: string): (r: Option<Product>)
    ensures pattern.None? ==> r.None?
    ensures r.Some? ==> exists k, p :: k in products && r.value == products[k] && k != textLower
                                      && OccursAt(Lower(textLower), k, p)
  {
    if pattern.None? then None
    else
      match Alternation.Exec(textLower, pattern.value)
      case None => None
      case Some(m) =>
        ExecBounds(textLower, pattern.value);
        SliceOccurs(textLower, m.at, m.at + |m.alt|);
        var matched := Lower(textLower[m.at..m.at + |m.alt|]);
        if textLower == matched then None else GetProduct(products, matched)
  }

  /** Detection once the alternation has matched: the matched text, lower-cased, unless it is the whole text. */
  lemma DetectOfMatch(products: map<string, Product>, alts: seq<string>, textLower: string, m: Alternation.Match)
    requires Alternation.Exec(textLower, alts) == Some(m)
    ensures m.at + |m.alt| <= |textLower|
    ensures Detect(products, Some(alts), textLower) ==
      var matched := Lower(textLower[m.at..m.at + |m.alt|]);
      if textLower == matched then None else GetProduct(products, matched)
  {
  }

  /** The catalog state initProducts leaves: a pattern exactly over the map's keys, longest first. */
  ghost predicate PatternFor(products: map<string, Product>, pattern: Option<seq<string>>) {
    && (pattern.None? <==> products == map[])
    && (pattern.Some? ==> Alternation.LongestFirst(pattern.value)
                          && forall k :: k in pattern.value <==> k in products)
    && (forall k :: k in products ==> IsLower(k) && k != "")
  }

  /**
   * Detection finds the product of the key matching at the leftmost position where any key
   * occurs, the longest key there; no key occurs earlier in the text.
   */
  lemma DetectLeftmostLongest(products: map<string, Product>, pattern: Option<seq<string>>, textLower: string)
    requires PatternFor(products, pattern)
    requires Detect(products, pattern, textLower).Some?
    ensures exists k, p :: (k in products && Detect(products, pattern, textLower).value == products[k]
                            && OccursAt(Lower(textLower), k, p)
                            && (forall q, k' :: 0 <= q < p && k' in products ==> !OccursAt(Lower(textLower), k', q))
                            && forall k' :: k' in products && OccursAt(Lower(textLower), k', p) ==> |k'| <= |k|)
  {
    var alts := pattern.value;
    DetectIsExecMatch(products, pattern, textLower);
    Alternation.ExecLeftmostLongest(textLower, alts);
    var m := Alternation.Exec(textLower, alts).value;
    LowerKeyMatches(textLower, m.alt, m.at);
    forall q, k' | 0 <= q < m.at && k' in products
      ensures !OccursAt(Lower(textLower), k', q)
    {
      LowerKeyMatches(textLower, k', q);
      var i :| 0 <= i < |alts| && alts[i] == k';
    }
    forall k' | k' in products && OccursAt(Lower(textLower), k', m.at)
      ensures |k'| <= |m.alt|
    {
      LowerKeyMatches(textLower, k', m.at);
    }
  }

  /** A detected product is the entry of the key the alternation matched. */
  lemma DetectIsExecMatch(products: map<string, Product>, pattern: Option<seq<string>>, textLower: string)
    requires pattern.Some? ==> forall a :: a in pattern.value ==> a in products && IsLower(a)
    requires Detect(products, pattern, textLower).Some?
    ensures pattern.Some? && Alternation.Exec(textLower, pattern.value).Some?
    ensures var m := Alternation.Exec(textLower, pattern.value).value;
      m.alt in products && Detect(products, pattern, textLower).value == products[m.alt]
  {
    DetectNeedsMatch(products, pattern, textLower);
    var alts := pattern.value;
    var m := Alternation.Exec(textLower, alts).value;
    ExecSlice(textLower, alts);
    DetectOfMatch(products, alts, textLower, m);
  }

  /** Detection finds something only through a match of the alternation. */
  lemma DetectNeedsMatch(products: map<string, Product>, pattern: Option<seq<string>>, textLower: string)
    requires Detect(products, pattern, textLower).Some?
    ensures pattern.Some? && Alternation.Exec(textLower, pattern.value).Some?
  {
  }

  /** Where the alternation matches, the text holds the alternative there, ignoring case. */
  lemma ExecBounds(s: string, alts: seq<string>)
    requires Alternation.Exec(s, alts).Some?
    ensures var m := Alternation.Exec(s, alts).value;
      m.alt in alts && m.at + |m.alt| <= |s| && Alternation.MatchesAt(s, m.alt, m.at)
  {
  }

  /** With lower-case alternatives, the lower-cased matched text is the alternative itself. */
  lemma ExecSlice(s: string, alts: seq<string>)
    requires forall a :: a in alts ==> IsLower(a)
    requires Alternation.Exec(s, alts).Some?
    ensures var m := Alternation.Exec(s, alts).value;
      m.alt in alts && m.at + |m.alt| <= |s| && Lower(s[m.at..m.at + |m.alt|]) == m.alt
  {
    var m := Alternation.Exec(s, alts).value;
    ExecBounds(s, alts);
    MatchedSlice(s, m.alt, m.at);
  }

  /** Where a lower-case key matches, the lower-cased text there is the key itself. */
  lemma MatchedSlice(s: string, k: string, p: int)
    requires IsLower(k) && Alternation.MatchesAt(s, k, p)
    ensures 0 <= p && p + |k| <= |s| && Lower(s[p..p + |k|]) == k
  {
    LowerKeyMatches(s, k, p);
    LowerSlice(s, p, p + |k|);
  }

  /** A lower-case key matches case-insensitively exactly where it occurs in the lower-cased text. */
  lemma LowerKeyMatches(s: string, k: string, q: int)
    requires IsLower(k)
    ensures Alternation.MatchesAt(s, k, q) <==> OccursAt(Lower(s), k, q)
  {
    LowerOfLower(k);
  }

  /** The lower-cased slice occurs, where it was cut, in the lower-cased text. */
  lemma SliceOccurs(s: string, i: int, j: int)
    requires 0 <= i <= j <= |s|
    ensures OccursAt(Lower(s), Lower(s[i..j]), i)
  {
    LowerSlice(s, i, j);
  }

  lemma LowerSlice(s: string, i: int, j: int)
    requires 0 <= i <= j <= |s|
    ensures Lower(s[i..j]) == Lower(s)[i..j]
  {
  }

  lemma LowerOfLower(s: string)
    requires IsLower(s)
    ensures Lower(s) == s
  {
  }

  /** A text that is itself a key is left to the exact lookup: detection yields nothing. */
  lemma DetectWholeKeyNone(products: map<string, Product>, pattern: Option<seq<string>>, textLower: string)
    requires PatternFor(products, pattern)
    requires textLower in products
    ensures Detect(products, pattern, textLower).None?
  {
    WholeMatchNone(products, pattern.value, textLower);
  }

  /** A lower-case alternative that is the whole text matches it whole, so nothing is detected. */
  lemma WholeMatchNone(products: map<string, Product>, alts: seq<string>, textLower: string)
    requires Alternation.LongestFirst(alts) && textLower in alts && IsLower(textLower)
    ensures Detect(products, Some(alts), textLower).None?
  {
    LowerOfLower(textLower);
    assert Alternation.MatchesAt(textLower, textLower, 0);
    Alternation.ExecLeftmostLongest(textLower, alts);
    var m := Alternation.Exec(textLower, alts).value;
    assert m.at == 0;
    assert |m.alt| == |textLower|;
    assert textLower[m.at..m.at + |m.alt|] == textLower;
  }

  /** With no keys at all there is no pattern, and detection never finds anything. */
  lemma EmptyCatalogDetectsNothing(env: Config.Env, textLower: string)
    ensures ProductMap(env, []) == map[]
    ensures Detect(map[], None, textLower).None?
  {
  }

  // ---------------------------------------------------------------- the module state

  /** The module state of src/products.js: the catalog map, its pattern and the boot information. */
  /**
   * The body of initProducts: the map from buildProducts, the pattern from the key array that
   * buildProductRegex sorts in place, and the boot counts and list read off that sorted array.
   */
  method BuildCatalog(env: Config.Env, productKeys: seq<string>)
    returns (products: map<string, Product>, pattern: Option<seq<string>>, productList: seq<string>,
             productCount: nat, aliasCount: nat)
    requires forall i :: 0 <= i < |productKeys| ==> productKeys[i] != ""
    ensures products == ProductMap(env, productKeys)
    ensures PatternFor(products, pattern)
    ensures forall k :: k in KeyOrder(env, productKeys) ==> k in products
    ensures productList == UniqueMain(products, if pattern.Some? then pattern.value else [])
    ensures pattern.Some? ==> SameOrderPerLength(pattern.value, KeyOrder(env, productKeys))
    ensures productCount == |MainKeySet(products)| && aliasCount == |products|
  {
    var keys;
    products, keys := BuildProducts(env, productKeys);
    var sorted;
    pattern, sorted := SortKeysArray(keys);
    BootCounts(env, productKeys);
    MapKeysLower(env, productKeys);
    SortedPattern(products, keys, sorted);
    productList := UniqueMain(products, sorted);
    productCount, aliasCount := |productList|, |keys|;
  }

  class Catalog {
    var products: map<string, Product>
    /** `productRegex`: the alternatives of the pattern, or `None` for null. */
    var pattern: Option<seq<string>>
    var productCount: nat
    var aliasCount: nat
    var productList: seq<string>

    constructor ()
      ensures products == map[] && pattern.None? && productCount == 0 && aliasCount == 0 && productList == []
    {
      products := map[];
      pattern := None;
      productCount := 0;
      aliasCount := 0;
      productList := [];
    }

    /**
     * initProducts over the configured keys (each non-empty, as the configuration delivers them):
     * the catalog is rebuilt, its pattern covers exactly its keys longest first, and the boot
     * counts are the distinct main keys and the number of keys. The product list reads the key
     * array after buildProductRegex has sorted it, so it follows the pattern's order: longest key
     * first, keys of one length in insertion order.
     */
    method InitProducts(env: Config.Env, productKeys: seq<string>)
      requires forall i :: 0 <= i < |productKeys| ==> productKeys[i] != ""
      modifies this
      ensures products == ProductMap(env, productKeys)
      ensures PatternFor(products, pattern)
      ensures forall k :: k in KeyOrder(env, productKeys) ==> k in products
      ensures productList == UniqueMain(products, if pattern.Some? then pattern.value else [])
      ensures pattern.Some? ==> SameOrderPerLength(pattern.value, KeyOrder(env, productKeys))
      ensures productCount == |MainKeySet(products)| && aliasCount == |products|
    {
      products, pattern, productList, productCount, aliasCount := BuildCatalog(env, productKeys);
    }
  }
}
