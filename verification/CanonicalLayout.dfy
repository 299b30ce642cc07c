/** The canonical bytes spelled out piece by piece, as the format strings of the original write them: which
    fields, in which order, with which names and separators. */
module CanonicalLayout {
  import opened Common
  import opened Text
  import opened Reservation
  import opened Canonical
  import Q = PublicQueue
  import S = Scheduler
  import R = Risk
  import P = Portfolio
  import A = Accounting
  import B = Book

  // ----- lines -----

  lemma JoinMore(a: string, rest: seq<string>)
    requires rest != []
    ensures Join([a] + rest, ':') == a + ":" + Join(rest, ':')
  {
    assert ([a] + rest)[1..] == rest;
    assert ":" == [':'];
  }

  lemma LineOfTwo(a: string, b: string)
    ensures Line([a, b]) == a + ":" + b + ";"
  {
    JoinMore(a, [b]);
    assert [a] + [b] == [a, b];
    assert ";" == [';'];
  }

  lemma LineOfThree(a: string, b: string, c: string)
    ensures Line([a, b, c]) == a + ":" + b + ":" + c + ";"
  {
    LineOfTwo(b, c);
    JoinMore(a, [b, c]);
    assert [a] + [b, c] == [a, b, c];
    assert a + ":" + (b + ":" + c + ";") == a + ":" + b + ":" + c + ";";
    assert (a + ":" + Join([b, c], ':')) + ";" == a + ":" + (Join([b, c], ':') + ";");
  }

  lemma LineOfFour(a: string, b: string, c: string, d: string)
    ensures Line([a, b, c, d]) == a + ":" + b + ":" + c + ":" + d + ";"
  {
    LineOfThree(b, c, d);
    JoinMore(a, [b, c, d]);
    assert [a] + [b, c, d] == [a, b, c, d];
    assert a + ":" + (b + ":" + c + ":" + d + ";") == a + ":" + b + ":" + c + ":" + d + ";";
    assert (a + ":" + Join([b, c, d], ':')) + ";" == a + ":" + (Join([b, c, d], ':') + ";");
  }

  lemma LineOfFive(a: string, b: string, c: string, d: string, e: string)
    ensures Line([a, b, c, d, e]) == a + ":" + b + ":" + c + ":" + d + ":" + e + ";"
  {
    LineOfFour(b, c, d, e);
    JoinMore(a, [b, c, d, e]);
    assert [a] + [b, c, d, e] == [a, b, c, d, e];
    assert a + ":" + (b + ":" + c + ":" + d + ":" + e + ";") == a + ":" + b + ":" + c + ":" + d + ":" + e + ";";
    assert (a + ":" + Join([b, c, d, e], ':')) + ";" == a + ":" + (Join([b, c, d, e], ':') + ";");
  }

  lemma LineOfSix(a: string, b: string, c: string, d: string, e: string, f: string)
    ensures Line([a, b, c, d, e, f]) == a + ":" + b + ":" + c + ":" + d + ":" + e + ":" + f + ";"
  {
    LineOfFive(b, c, d, e, f);
    JoinMore(a, [b, c, d, e, f]);
    assert [a] + [b, c, d, e, f] == [a, b, c, d, e, f];
    assert a + ":" + (b + ":" + c + ":" + d + ":" + e + ":" + f + ";") ==
      a + ":" + b + ":" + c + ":" + d + ":" + e + ":" + f + ";";
    assert (a + ":" + Join([b, c, d, e, f], ':')) + ";" == a + ":" + (Join([b, c, d, e, f], ':') + ";");
  }

  /** A list of ids is their decimals with a comma between neighbours. */
  lemma CommasForm(x: int, rest: seq<int>)
    ensures Commas([]) == "" && Commas([x]) == Str(x)
    ensures rest != [] ==> Commas([x] + rest) == Str(x) + "," + Commas(rest)
  {
    assert Strs([x]) == [Str(x)] && Strs([]) == [];
    assert Strs([x] + rest) == [Str(x)] + Strs(rest);
    assert ([Str(x)] + Strs(rest))[1..] == Strs(rest);
  }

  // ----- sections -----

  /** One line per entry, in the given key order. */
  function Lines<V>(m: map<int, V>, keys: seq<int>, f: (int, V) -> string): string
    requires forall i :: 0 <= i < |keys| ==> keys[i] in m
  {
    if keys == [] then "" else f(keys[0], m[keys[0]]) + Lines(m, keys[1..], f)
  }

  lemma {:induction false} RenderConcat(a: seq<Record>, b: seq<Record>)
    ensures Render(a + b) == Render(a) + Render(b)
  {
    if a == [] {
      assert a + b == b;
    } else {
      assert (a + b)[1..] == a[1..] + b;
      RenderConcat(a[1..], b);
      assert Line(a[0]) + (Render(a[1..]) + Render(b)) == (Line(a[0]) + Render(a[1..])) + Render(b);
    }
  }

  ghost predicate Prints<V(!new)>(record: (int, V) -> Record, line: (int, V) -> string) {
    forall k, v :: Line(record(k, v)) == line(k, v)
  }

  lemma {:induction false} RenderSection<V(!new)>(m: map<int, V>, keys: seq<int>,
        record: (int, V) -> Record, line: (int, V) -> string)
    requires Prints(record, line) && forall i :: 0 <= i < |keys| ==> keys[i] in m
    ensures Render(Section(m, keys, record)) == Lines(m, keys, line)
  {
    if keys == [] {
      assert Section(m, keys, record) == [];
    } else {
      var k, v := keys[0], m[keys[0]];
      assert Line(record(k, v)) == line(k, v);
      hide Line, Prints;
      RenderSection(m, keys[1..], record, line);
      var section := Section(m, keys, record);
      assert section[1..] == Section(m, keys[1..], record);
      assert section[0] == record(k, v);
      assert Render(section) == Line(section[0]) + Render(section[1..]);
    }
  }

  // ----- the format strings -----

  function QueueOrderLine(id: int, o: Q.Order): string {
    "order:" + Str(id) + ":" + Str(o.ahead) + ":" + Str(o.remaining) + ":" +
    (match o.state
     case Live => "live"
     case Filled => "filled"
     case Cancelled => "cancelled"
     case EpochInvalidated => "epoch_invalidated") + ";"
  }

  function ActionLine(id: int, a: S.Action): string {
    "action:" + Str(id) + ":" + Str(a.due.ns) + ":" + Str(a.due.seqno) + ":" + Str(a.insertion) + ";"
  }

  function Side(isBid: bool): string { if isBid then "bid" else "ask" }

  function Standing(st: OrderState): string {
    match st
    case Live => "live"
    case PendingCancel => "pending_cancel"
    case Filled => "filled"
    case Cancelled => "cancelled"
    case EpochInvalidated => "epoch_invalidated"
  }

  function RiskOrderLine(id: int, o: R.Order): string {
    "order:" + Str(id) + ":" + Side(o.isBid) + ":" + Str(o.remaining) + ":" + Standing(o.state) + ";"
  }

  function PortfolioOrderLine(id: int, o: P.Order): string {
    "order:" + Str(id) + ":" + Str(o.symbol) + ":" + Side(o.isBid) + ":" + Str(o.remaining) + ":"
      + Standing(o.state) + ";"
  }

  function InventoryLine(symbol: int, units: int): string { "inventory:" + Str(symbol) + ":" + Str(units) + ";" }

  function MarkLine(symbol: int, price: int): string { "mark:" + Str(symbol) + ":" + Str(price) + ";" }

  function PositionLine(symbol: int, p: A.Position): string {
    "position:" + Str(symbol) + ":" + Str(p.lots) + ":" + Str(p.basis) + ";"
  }

  function BidLine(price: int, qty: int): string { "b:" + Str(price) + ":" + Str(qty) + ";" }

  function AskLine(price: int, qty: int): string { "a:" + Str(price) + ":" + Str(qty) + ";" }

  function SeenLine(seen: set<int>): string { "seen:" + Commas(SortedIds(seen)) + ";" }

  lemma QueueOrderPrints()
    ensures Prints(QueueOrderRecord, QueueOrderLine)
  {
    hide Line, Str;
    forall k, v: Q.Order ensures Line(QueueOrderRecord(k, v)) == QueueOrderLine(k, v) {
      LineOfFive("order", Str(k), Str(v.ahead), Str(v.remaining), QueueStateName(v.state));
    }
  }

  lemma ActionPrints()
    ensures Prints(ActionRecord, ActionLine)
  {
    hide Line, Str;
    forall k, v: S.Action ensures Line(ActionRecord(k, v)) == ActionLine(k, v) {
      LineOfFive("action", Str(k), Str(v.due.ns), Str(v.due.seqno), Str(v.insertion));
    }
  }

  lemma RiskOrderPrints()
    ensures Prints(RiskOrderRecord, RiskOrderLine)
  {
    hide Line, Str;
    forall k, v: R.Order ensures Line(RiskOrderRecord(k, v)) == RiskOrderLine(k, v) {
      LineOfFive("order", Str(k), SideName(v.isBid), Str(v.remaining), ReservationStateName(v.state));
    }
  }

  lemma PortfolioOrderPrint(id: int, o: P.Order)
    ensures Line(PortfolioOrderRecord(id, o)) == PortfolioOrderLine(id, o)
  {
    hide Line, Str;
    LineOfSix("order", Str(id), Str(o.symbol), SideName(o.isBid), Str(o.remaining), ReservationStateName(o.state));
  }

  lemma PortfolioOrderPrints()
    ensures Prints(PortfolioOrderRecord, PortfolioOrderLine)
  {
    hide Line, Str, PortfolioOrderLine, PortfolioOrderRecord;
    forall k, v: P.Order ensures Line(PortfolioOrderRecord(k, v)) == PortfolioOrderLine(k, v) {
      PortfolioOrderPrint(k, v);
    }
  }

  lemma PairsPrint()
    ensures Prints(InventoryRecord, InventoryLine) && Prints(MarkRecord, MarkLine)
    ensures Prints(BidRecord, BidLine) && Prints(AskRecord, AskLine)
  {
    hide Line, Str;
    forall k: int, v: int
      ensures Line(InventoryRecord(k, v)) == InventoryLine(k, v)
    {
      LineOfThree("inventory", Str(k), Str(v));
    }
    forall k: int, v: int ensures Line(MarkRecord(k, v)) == MarkLine(k, v) { LineOfThree("mark", Str(k), Str(v)); }
    forall k: int, v: int ensures Line(BidRecord(k, v)) == BidLine(k, v) { LineOfThree("b", Str(k), Str(v)); }
    forall k: int, v: int ensures Line(AskRecord(k, v)) == AskLine(k, v) { LineOfThree("a", Str(k), Str(v)); }
  }

  lemma PositionPrints()
    ensures Prints(PositionRecord, PositionLine)
  {
    hide Line, Str;
    forall k, v: A.Position ensures Line(PositionRecord(k, v)) == PositionLine(k, v) {
      LineOfFour("position", Str(k), Str(v.lots), Str(v.basis));
    }
  }

  lemma SeenPrints(seen: set<int>)
    ensures Line(SeenRecord(seen)) == SeenLine(seen)
  {
    LineOfTwo("seen", Commas(SortedIds(seen)));
  }

  // ----- whole states -----

  /** Seen ids, the line, then one order line per id in increasing order. */
  lemma QueueLayout(s: Q.State)
    ensures QueueBytes(s) == SeenLine(s.seen) + ("queue:" + Commas(s.queue) + ";") +
      Lines(s.orders, SortedIds(s.orders.Keys), QueueOrderLine)
  {
    hide Render, Line, Lines, Section, SeenLine, SeenRecord;
    var a, b := SeenRecord(s.seen), ["queue", Commas(s.queue)];
    SeenPrints(s.seen);
    LineOfTwo("queue", Commas(s.queue));
    RenderTwo(a, b);
    QueueOrderPrints();
    RenderSection(s.orders, SortedIds(s.orders.Keys), QueueOrderRecord, QueueOrderLine);
    RenderConcat([a, b], Sorted(s.orders, QueueOrderRecord));
  }

  /** The counter, seen ids, then one action line per pending action, earliest first. */
  lemma SchedulerLayout(s: S.State)
    ensures SchedulerBytes(s) == ("next:" + Str(s.next) + ";") + SeenLine(s.seen) +
      Lines(s.pending, S.InOrder(s.pending), ActionLine)
  {
    hide Render, Line, Lines, Section, SeenLine, SeenRecord, Str, S.InOrder;
    var a, b := ["next", Str(s.next)], SeenRecord(s.seen);
    LineOfTwo("next", Str(s.next));
    SeenPrints(s.seen);
    RenderTwo(a, b);
    ActionPrints();
    RenderSection(s.pending, S.InOrder(s.pending), ActionRecord, ActionLine);
    RenderConcat([a, b], Section(s.pending, S.InOrder(s.pending), ActionRecord));
  }

  /** Limit, position, seen ids, then one order line per id in increasing order. */
  lemma RiskLayout(s: R.State)
    ensures RiskBytes(s) == ("max:" + Str(s.limit) + ";") + ("position:" + Str(s.position) + ";") + SeenLine(s.seen) +
      Lines(s.orders, SortedIds(s.orders.Keys), RiskOrderLine)
  {
    hide Render, Line, Lines, Section, SeenLine, SeenRecord, Str;
    var a, b, c := ["max", Str(s.limit)], ["position", Str(s.position)], SeenRecord(s.seen);
    LineOfTwo("max", Str(s.limit));
    LineOfTwo("position", Str(s.position));
    SeenPrints(s.seen);
    RenderThree(a, b, c);
    RiskOrderPrints();
    RenderSection(s.orders, SortedIds(s.orders.Keys), RiskOrderRecord, RiskOrderLine);
    RenderConcat([a, b, c], Sorted(s.orders, RiskOrderRecord));
  }

  /** Limit, inventory by symbol, seen ids, then one order line per id in increasing order. */
  lemma PortfolioLayout(s: P.State)
    ensures PortfolioBytes(s) == ("max:" + Str(s.limit) + ";") +
      (Lines(s.inventory, SortedIds(s.inventory.Keys), InventoryLine) +
        (SeenLine(s.seen) + Lines(s.orders, SortedIds(s.orders.Keys), PortfolioOrderLine)))
  {
    hide Render, Line, Lines, Section, SeenLine, SeenRecord, Str, SortedIds, InventoryRecord, PortfolioOrderRecord;
    var max, seen := ["max", Str(s.limit)], SeenRecord(s.seen);
    var inventory, orders := Sorted(s.inventory, InventoryRecord), Sorted(s.orders, PortfolioOrderRecord);
    LineOfTwo("max", Str(s.limit));
    SeenPrints(s.seen);
    RenderTwo(max, max);
    RenderTwo(seen, seen);
    PairsPrint();
    PortfolioOrderPrints();
    RenderSection(s.inventory, SortedIds(s.inventory.Keys), InventoryRecord, InventoryLine);
    RenderSection(s.orders, SortedIds(s.orders.Keys), PortfolioOrderRecord, PortfolioOrderLine);
    RenderConcat([seen], orders);
    RenderConcat(inventory, [seen] + orders);
    RenderConcat([max], inventory + ([seen] + orders));
  }

  lemma TotalsPrint(s: A.State)
    ensures Render(AccountingHead(s)) == ("realized:" + Str(s.realized) + ";") + ("fees:" + Str(s.fees) + ";") +
      ("markout:" + Str(s.markoutCash) + ":" + Str(s.markoutQty) + ";")
  {
    hide Render, Line, Str;
    LineOfTwo("realized", Str(s.realized));
    LineOfTwo("fees", Str(s.fees));
    LineOfThree("markout", Str(s.markoutCash), Str(s.markoutQty));
    RenderThree(["realized", Str(s.realized)], ["fees", Str(s.fees)],
                ["markout", Str(s.markoutCash), Str(s.markoutQty)]);
  }

  /** Realized PnL, fees, markout totals, then marks and positions by symbol. */
  lemma AccountingLayout(s: A.State)
    ensures AccountingBytes(s) ==
      (("realized:" + Str(s.realized) + ";") + ("fees:" + Str(s.fees) + ";") +
        ("markout:" + Str(s.markoutCash) + ":" + Str(s.markoutQty) + ";")) +
      (Lines(s.marks, SortedIds(s.marks.Keys), MarkLine) +
        Lines(s.positions, SortedIds(s.positions.Keys), PositionLine))
  {
    var marks, positions := Sorted(s.marks, MarkRecord), Sorted(s.positions, PositionRecord);
    assert AccountingRecords(s) == AccountingHead(s) + (marks + positions);
    TotalsPrint(s);
    hide Render, Line, Lines, Section, Str, AccountingHead;
    PairsPrint();
    PositionPrints();
    RenderSection(s.marks, SortedIds(s.marks.Keys), MarkRecord, MarkLine);
    RenderSection(s.positions, SortedIds(s.positions.Keys), PositionRecord, PositionLine);
    RenderConcat(marks, positions);
    RenderConcat(AccountingHead(s), marks + positions);
  }

  /** Bids, then asks, each by increasing price. */
  lemma BookLayout(s: B.State)
    ensures BookBytes(s) == Lines(s.bids, SortedIds(s.bids.Keys), BidLine)
      + Lines(s.asks, SortedIds(s.asks.Keys), AskLine)
  {
    hide Render, Line, Lines, Section;
    PairsPrint();
    RenderSection(s.bids, SortedIds(s.bids.Keys), BidRecord, BidLine);
    RenderSection(s.asks, SortedIds(s.asks.Keys), AskRecord, AskLine);
    RenderConcat(Sorted(s.bids, BidRecord), Sorted(s.asks, AskRecord));
  }
}
