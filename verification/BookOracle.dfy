/** The atomic batch as it runs: copies of both sides, one pass over the changes, one crossing test. */
module BookOracles {
  import opened Common
  import opened Text
  import opened Book
  import Canonical

  /** The input maps are values and stay as they are; only an accepted batch yields new ones. */
  method ApplyBatchInOrder(bids: Levels, asks: Levels, changes: seq<Change>) returns (r: Result)
    ensures r == ApplyBatch(State(bids, asks), changes)
  {
    var candidateBids, candidateAsks := bids, asks;
    for i := 0 to |changes|
      invariant Fold(State(bids, asks), changes) == Fold(State(candidateBids, candidateAsks), changes[i..])
    {
      var c := changes[i];
      assert changes[i..][0] == c && changes[i..][1..] == changes[i + 1..];
      if c.price <= 0 { return Raised(PriceNotPositive); }
      if c.qty < 0 { return Raised(QuantityNegative); }
      var levels := if c.isBid then candidateBids else candidateAsks;
      if c.qty == 0 { levels := levels - {c.price}; } else { levels := levels[c.price := c.qty]; }
      if c.isBid { candidateBids := levels; } else { candidateAsks := levels; }
    }
    if candidateBids != map[] && candidateAsks != map[] && Largest(candidateBids.Keys) >= Smallest(candidateAsks.Keys) {
      return Raised(BookWouldCross);
    }
    return Ok(State(candidateBids, candidateAsks));
  }

  method BookBytes(book: State) returns (bytes: string)
    ensures bytes == Canonical.BookBytes(book)
  {
    hide Render, Line, Str;
    bytes := "";
    var prices := SortedIds(book.bids.Keys);
    ghost var bids := Canonical.Section(book.bids, prices, Canonical.BidRecord);
    ghost var nothing: seq<Record> := [];
    NoRecords();
    RenderStart(nothing, bids);
    for i := 0 to |prices|
      invariant bytes == Render(nothing + bids[..i])
    {
      bytes := bytes + Line(["b", Str(prices[i]), Str(book.bids[prices[i]])]);
      assert bids[i] == Canonical.BidRecord(prices[i], book.bids[prices[i]]);
      RenderNext(nothing, bids, i);
    }
    assert nothing + bids == bids;
    prices := SortedIds(book.asks.Keys);
    ghost var asks := Canonical.Section(book.asks, prices, Canonical.AskRecord);
    RenderStart(bids, asks);
    for i := 0 to |prices|
      invariant bytes == Render(bids + asks[..i])
    {
      bytes := bytes + Line(["a", Str(prices[i]), Str(book.asks[prices[i]])]);
      assert asks[i] == Canonical.AskRecord(prices[i], book.asks[prices[i]]);
      RenderNext(bids, asks, i);
    }
  }

  lemma NoRecords()
    ensures Render([]) == ""
  {
  }
}
