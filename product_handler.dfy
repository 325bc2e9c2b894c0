/** Product questions (src/handlers/productHandler.js): exact key first, then a key inside the sentence. */
module ProductHandler {
  import opened Strings
  import opened Wrappers
  import opened Replies
  import opened Products
  import Alternation
  import Cooldown
  import SendQueue

  /** The reply text: the icon, the name in asterisks, a blank line, then the description. */
  function ProductText(p: Product): (text: string)
    ensures StartsWith(text, p.icon) && EndsWith(text, p.description)
    ensures OccursAt(text, " *" + p.name + "*\n\n", |p.icon|)
    ensures |text| == |p.icon| + |p.name| + |p.description| + 5
  {
    var head := p.icon + " *" + p.name + "*\n\n";
    assert (head + p.description)[..|head|] == head;
    assert head[|p.icon|..] == " *" + p.name + "*\n\n";
    head + p.description
  }

  /** The product a text asks for: its exact entry, or else the one detected in the sentence. */
  function ChooseProduct(products: map<string, Product>, pattern: Option<seq<string>>, lowerText: string): (r: Option<Product>)
    ensures lowerText in products ==> r == Some(products[lowerText])
  {
    match GetProduct(products, lowerText)
    case Some(p) => Some(p)
    case None => Detect(products, pattern, lowerText)
  }

  /**
   * With the catalog initProducts builds, a product is chosen exactly when the text is a key or
   * some key occurs in it, case-insensitively and with no word boundaries.
   */
  lemma ChooseProductIff(products: map<string, Product>, pattern: Option<seq<string>>, lowerText: string)
    requires PatternFor(products, pattern)
    ensures ChooseProduct(products, pattern, lowerText).Some? <==>
      lowerText in products || exists k, p :: k in products && OccursAt(Lower(lowerText), k, p)
  {
    if lowerText !in products && exists k, p :: k in products && OccursAt(Lower(lowerText), k, p) {
      var k, p :| k in products && OccursAt(Lower(lowerText), k, p);
      DetectFindsOccurrence(products, pattern, lowerText, k, p);
    }
  }

  /** An occurring key makes the alternation match, and in a text that is not a key the match is looked up. */
  lemma DetectFindsOccurrence(products: map<string, Product>, pattern: Option<seq<string>>, lowerText: string, k: string, p: int)
    requires PatternFor(products, pattern)
    requires lowerText !in products && k in products && OccursAt(Lower(lowerText), k, p)
    ensures Detect(products, pattern, lowerText).Some?
  {
    var alts := pattern.value;
    LowerKeyMatches(lowerText, k, p);
    assert !Alternation.NoneBetween(lowerText, alts, 0, |lowerText| + 1) by {
      var i :| 0 <= i < |alts| && alts[i] == k;
    }
    Alternation.ExecLeftmostLongest(lowerText, alts);
    var m := Alternation.Exec(lowerText, alts).value;
    assert m.alt in products;
    ExecSlice(lowerText, alts);
    var matched := Lower(lowerText[m.at..m.at + |m.alt|]);
    assert matched == m.alt;
    assert lowerText != matched;
    assert GetProduct(products, matched).Some?;
    DetectOfMatch(products, alts, lowerText, m);
  }

  /**
   * A text that is not itself a key gets the product of the key at the leftmost position where
   * any key occurs, the longest key there.
   */
  lemma SentenceChoiceLeftmostLongest(products: map<string, Product>, pattern: Option<seq<string>>, lowerText: string)
    requires PatternFor(products, pattern)
    requires lowerText !in products && ChooseProduct(products, pattern, lowerText).Some?
    ensures exists k, p :: (k in products && ChooseProduct(products, pattern, lowerText).value == products[k]
                            && OccursAt(Lower(lowerText), k, p)
                            && (forall q, k' :: 0 <= q < p && k' in products ==> !OccursAt(Lower(lowerText), k', q))
                            && forall k' :: k' in products && OccursAt(Lower(lowerText), k', p) ==> |k'| <= |k|)
  {
    DetectLeftmostLongest(products, pattern, lowerText);
  }

  /**
   * handleProduct at clock readings `now` and `sentAt`. Nothing chosen: `false`. The chosen
   * product's cooldown, keyed by its main key whichever alias was asked, running: `"cooldown"`,
   * nothing sent. Otherwise its text is sent and its main key stamped once the send resolved.
   */
  method HandleProduct(store: Cooldown.Store, q: SendQueue.Queue, catalog: Catalog, jid: string, lowerText: string,
                       net: SendQueue.Job -> bool, now: int, sentAt: int) returns (r: Reply)
    requires store.Valid() && q.Valid() && q.AtRest()
    modifies store, q
    ensures store.Valid() && q.Valid() && q.AtRest() && store.written == old(store.written)
    ensures var choice := ChooseProduct(catalog.products, catalog.pattern, lowerText);
      if choice.None? then
        r == No && q.executed == old(q.executed) && store.data == old(store.data)
      else if !old(store.CanSendProduct(jid, choice.value.mainKey, now)) then
        r == Cooldown && q.executed == old(q.executed) && store.data == old(store.data)
      else
        var job := SendQueue.Job(jid, SendQueue.Text(ProductText(choice.value)));
        && q.executed == old(q.executed) + [job]
        && r == (if net(job) then Yes else Threw)
        && store.data == if net(job) then Cooldown.Stamp(old(store.data), jid, Cooldown.ProductKey(choice.value.mainKey), sentAt)
                         else old(store.data)
  {
    var choice := ChooseProduct(catalog.products, catalog.pattern, lowerText);
    if choice.None? {
      return No;
    }
    var product := choice.value;
    if !store.CanSendProduct(jid, product.mainKey, now) {
      return Cooldown;
    }
    var ok := q.Await(SendQueue.Job(jid, SendQueue.Text(ProductText(product))), net);
    if !ok {
      return Threw;
    }
    store.MarkProductSent(jid, product.mainKey, sentAt);
    return Yes;
  }
}
