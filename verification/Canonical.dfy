/** The canonical_bytes of every component as records, and the proof that each one determines the
    whole abstract state of its component. */
module Canonical {
  import opened Common
  import opened Text
  import opened Reservation
  import Q = PublicQueue
  import S = Scheduler
  import R = Risk
  import P = Portfolio
  import A = Accounting
  import B = Book

  // ----- names -----

  function QueueStateName(st: Q.OrderState): string {
    match st
    case Live => "live"
    case Filled => "filled"
    case Cancelled => "cancelled"
    case EpochInvalidated => "epoch_invalidated"
  }

  function ReservationStateName(st: OrderState): string {
    match st
    case Live => "live"
    case PendingCancel => "pending_cancel"
    case Filled => "filled"
    case Cancelled => "cancelled"
    case EpochInvalidated => "epoch_invalidated"
  }

  function SideName(isBid: bool): string { if isBid then "bid" else "ask" }

  // ----- one record per entry -----

  function QueueOrderRecord(id: int, o: Q.Order): Record {
    ["order", Str(id), Str(o.ahead), Str(o.remaining), QueueStateName(o.state)]
  }

  function ActionRecord(id: int, a: S.Action): Record {
    ["action", Str(id), Str(a.due.ns), Str(a.due.seqno), Str(a.insertion)]
  }

  function RiskOrderRecord(id: int, o: R.Order): Record {
    ["order", Str(id), SideName(o.isBid), Str(o.remaining), ReservationStateName(o.state)]
  }

  function PortfolioOrderRecord(id: int, o: P.Order): Record {
    ["order", Str(id), Str(o.symbol), SideName(o.isBid), Str(o.remaining), ReservationStateName(o.state)]
  }

  function InventoryRecord(symbol: int, units: int): Record { ["inventory", Str(symbol), Str(units)] }

  function MarkRecord(symbol: int, price: int): Record { ["mark", Str(symbol), Str(price)] }

  function PositionRecord(symbol: int, p: A.Position): Record {
    ["position", Str(symbol), Str(p.lots), Str(p.basis)]
  }

  function BidRecord(price: int, qty: int): Record { ["b", Str(price), Str(qty)] }

  function AskRecord(price: int, qty: int): Record { ["a", Str(price), Str(qty)] }

  /** One record per entry of a dictionary, in the given key order. */
  function Section<V>(m: map<int, V>, keys: seq<int>, f: (int, V) -> Record): seq<Record>
    requires forall i :: 0 <= i < |keys| ==> keys[i] in m
  {
    seq(|keys|, i requires 0 <= i < |keys| => f(keys[i], m[keys[i]]))
  }

  function Sorted<V>(m: map<int, V>, f: (int, V) -> Record): seq<Record> {
    Section(m, SortedIds(m.Keys), f)
  }

  function SeenRecord(seen: set<int>): Record { ["seen", Commas(SortedIds(seen))] }

  // ----- whole states -----

  function QueueRecords(s: Q.State): seq<Record> {
    [SeenRecord(s.seen), ["queue", Commas(s.queue)]] + Sorted(s.orders, QueueOrderRecord)
  }

  function SchedulerRecords(s: S.State): seq<Record> {
    [["next", Str(s.next)], SeenRecord(s.seen)] + Section(s.pending, S.InOrder(s.pending), ActionRecord)
  }

  function RiskRecords(s: R.State): seq<Record> {
    [["max", Str(s.limit)], ["position", Str(s.position)], SeenRecord(s.seen)] + Sorted(s.orders, RiskOrderRecord)
  }

  function PortfolioRecords(s: P.State): seq<Record> {
    [["max", Str(s.limit)]] + (Sorted(s.inventory, InventoryRecord) +
      ([SeenRecord(s.seen)] + Sorted(s.orders, PortfolioOrderRecord)))
  }

  function AccountingRecords(s: A.State): seq<Record> {
    [["realized", Str(s.realized)], ["fees", Str(s.fees)], ["markout", Str(s.markoutCash), Str(s.markoutQty)]] +
      (Sorted(s.marks, MarkRecord) + Sorted(s.positions, PositionRecord))
  }

  function BookRecords(s: B.State): seq<Record> { Sorted(s.bids, BidRecord) + Sorted(s.asks, AskRecord) }

  function QueueBytes(s: Q.State): string { Render(QueueRecords(s)) }

  function SchedulerBytes(s: S.State): string { Render(SchedulerRecords(s)) }

  function RiskBytes(s: R.State): string { Render(RiskRecords(s)) }

  function PortfolioBytes(s: P.State): string { Render(PortfolioRecords(s)) }

  function AccountingBytes(s: A.State): string { Render(AccountingRecords(s)) }

  function BookBytes(s: B.State): string { Render(BookRecords(s)) }

  // ----- records are plain, so rendering them loses nothing -----

  ghost predicate AllPlain(rs: seq<Record>) { forall i :: 0 <= i < |rs| ==> PlainRecord(rs[i]) }

  lemma PlainEntries(k: int, x: int, y: int, z: int)
    ensures Clean(Str(k)) && Clean(Str(x)) && Clean(Str(y)) && Clean(Str(z))
  {
    StrClean(k); StrClean(x); StrClean(y); StrClean(z);
  }

  /** A record printer is faithful when its records are plain and determine key and value; its tag opens every
      record. */
  ghost predicate Faithful<V(!new)>(f: (int, V) -> Record, tag: string) {
    && (forall k, v :: PlainRecord(f(k, v)) && f(k, v)[0] == tag)
    && (forall k, v, k', v' :: f(k, v) == f(k', v') ==> k == k' && v == v')
  }

  ghost predicate Tagged(rs: seq<Record>, tag: string) {
    forall i :: 0 <= i < |rs| ==> PlainRecord(rs[i]) && rs[i][0] == tag
  }

  lemma SectionPlain<V(!new)>(m: map<int, V>, keys: seq<int>, f: (int, V) -> Record, tag: string)
    requires Faithful(f, tag) && forall i :: 0 <= i < |keys| ==> keys[i] in m
    ensures Tagged(Section(m, keys, f), tag)
  {
    var rs := Section(m, keys, f);
    forall i | 0 <= i < |rs| ensures PlainRecord(rs[i]) && rs[i][0] == tag {
      var k, v := keys[i], m[keys[i]];
      assert PlainRecord(f(k, v)) && rs[i] == f(k, v);
    }
  }

  lemma SectionInjective<V(!new)>(a: map<int, V>, ka: seq<int>, b: map<int, V>, kb: seq<int>,
        f: (int, V) -> Record, tag: string)
    requires Faithful(f, tag)
    requires forall i :: 0 <= i < |ka| ==> ka[i] in a
    requires forall i :: 0 <= i < |kb| ==> kb[i] in b
    requires forall k :: k in a ==> k in ka
    requires forall k :: k in b ==> k in kb
    requires Section(a, ka, f) == Section(b, kb, f)
    ensures a == b
  {
    var ra, rb := Section(a, ka, f), Section(b, kb, f);
    assert |ka| == |ra| == |rb| == |kb|;
    forall i | 0 <= i < |ka| ensures ka[i] == kb[i] && a[ka[i]] == b[kb[i]] {
      assert ra[i] == f(ka[i], a[ka[i]]) && rb[i] == f(kb[i], b[kb[i]]);
    }
    assert ka == kb;
    forall k | k in a || k in b ensures k in a && k in b && a[k] == b[k] {
      assert k in ka && k in kb;
      var i :| 0 <= i < |ka| && ka[i] == k;
    }
  }

  lemma SortedInjective<V(!new)>(a: map<int, V>, b: map<int, V>, f: (int, V) -> Record, tag: string)
    requires Faithful(f, tag) && Sorted(a, f) == Sorted(b, f)
    ensures a == b
  {
    SectionInjective(a, SortedIds(a.Keys), b, SortedIds(b.Keys), f, tag);
  }

  lemma SortedPlain<V(!new)>(m: map<int, V>, f: (int, V) -> Record, tag: string)
    requires Faithful(f, tag)
    ensures Tagged(Sorted(m, f), tag)
  {
    SectionPlain(m, SortedIds(m.Keys), f, tag);
  }

  lemma SeenInjective(a: set<int>, b: set<int>)
    requires SeenRecord(a) == SeenRecord(b)
    ensures a == b
  {
    assert SeenRecord(a)[1] == SeenRecord(b)[1];
    CommasInjective(SortedIds(a), SortedIds(b));
    assert forall x :: x in a <==> x in SortedIds(a);
  }

  /** Two tagged sections in a row can only be cut apart in one place. */
  lemma SplitByTag(a: seq<Record>, x: seq<Record>, b: seq<Record>, y: seq<Record>, tag: string, next: string)
    requires a + x == b + y && tag != next
    requires Tagged(a, tag) && Tagged(b, tag)
    requires |x| > 0 ==> PlainRecord(x[0]) && x[0][0] == next
    requires |y| > 0 ==> PlainRecord(y[0]) && y[0][0] == next
    ensures a == b && x == y
  {
    var s, t := a + x, b + y;
    assert |s| == |t|;
    assert |x| > 0 ==> s[|a|] == x[0];
    assert |y| > 0 ==> t[|b|] == y[0];
    assert forall i :: 0 <= i < |a| ==> s[i] == a[i];
    assert forall i :: 0 <= i < |b| ==> t[i] == b[i];
    assert |a| == |b|;
    assert a == s[..|a|] && b == t[..|b|] && x == s[|a|..] && y == t[|b|..];
  }

  lemma RecordsEqual(a: seq<Record>, b: seq<Record>)
    requires AllPlain(a) && AllPlain(b) && Render(a) == Render(b)
    ensures a == b
  {
    RenderInjective(a, b);
  }

  // ----- each printer is faithful -----

  lemma Numbers(r: Record, r': Record, i: nat, x: int, y: int)
    requires r == r' && i < |r| && r[i] == Str(x) && r'[i] == Str(y)
    ensures x == y
  {
    StrInjective(x, y);
  }

  lemma QueueOrderFaithful()
    ensures Faithful(QueueOrderRecord, "order")
  {
    forall id, o: Q.Order
      ensures PlainRecord(QueueOrderRecord(id, o)) && QueueOrderRecord(id, o)[0] == "order"
    {
      QueueOrderPlain(id, o);
    }
    forall id, o: Q.Order, id', o': Q.Order | QueueOrderRecord(id, o) == QueueOrderRecord(id', o')
      ensures id == id' && o == o'
    {
      QueueOrderDetermined(id, o, id', o');
    }
  }

  lemma QueueOrderPlain(id: int, o: Q.Order)
    ensures PlainRecord(QueueOrderRecord(id, o)) && QueueOrderRecord(id, o)[0] == "order"
  {
    PlainEntries(id, o.ahead, o.remaining, 0);
  }

  lemma QueueOrderDetermined(id: int, o: Q.Order, id': int, o': Q.Order)
    requires QueueOrderRecord(id, o) == QueueOrderRecord(id', o')
    ensures id == id' && o == o'
  {
    var r, r' := QueueOrderRecord(id, o), QueueOrderRecord(id', o');
    Numbers(r, r', 1, id, id');
    Numbers(r, r', 2, o.ahead, o'.ahead);
    Numbers(r, r', 3, o.remaining, o'.remaining);
    assert r[4] == r'[4];
  }

  lemma ActionFaithful()
    ensures Faithful(ActionRecord, "action")
  {
    forall id, a: S.Action
      ensures PlainRecord(ActionRecord(id, a)) && ActionRecord(id, a)[0] == "action"
    {
      PlainEntries(id, a.due.ns, a.due.seqno, a.insertion);
    }
    forall id, a: S.Action, id', a': S.Action | ActionRecord(id, a) == ActionRecord(id', a')
      ensures id == id' && a == a'
    {
      var r, r' := ActionRecord(id, a), ActionRecord(id', a');
      Numbers(r, r', 1, id, id');
      Numbers(r, r', 2, a.due.ns, a'.due.ns);
      Numbers(r, r', 3, a.due.seqno, a'.due.seqno);
      Numbers(r, r', 4, a.insertion, a'.insertion);
    }
  }

  lemma RiskOrderFaithful()
    ensures Faithful(RiskOrderRecord, "order")
  {
    forall id, o: R.Order
      ensures PlainRecord(RiskOrderRecord(id, o)) && RiskOrderRecord(id, o)[0] == "order"
    {
      RiskOrderPlain(id, o);
    }
    forall id, o: R.Order, id', o': R.Order | RiskOrderRecord(id, o) == RiskOrderRecord(id', o')
      ensures id == id' && o == o'
    {
      RiskOrderDetermined(id, o, id', o');
    }
  }

  lemma RiskOrderPlain(id: int, o: R.Order)
    ensures PlainRecord(RiskOrderRecord(id, o)) && RiskOrderRecord(id, o)[0] == "order"
  {
    PlainEntries(id, o.remaining, 0, 0);
  }

  lemma RiskOrderDetermined(id: int, o: R.Order, id': int, o': R.Order)
    requires RiskOrderRecord(id, o) == RiskOrderRecord(id', o')
    ensures id == id' && o == o'
  {
    var r, r' := RiskOrderRecord(id, o), RiskOrderRecord(id', o');
    Numbers(r, r', 1, id, id');
    Numbers(r, r', 3, o.remaining, o'.remaining);
    assert r[2] == r'[2] && r[4] == r'[4];
  }

  lemma PortfolioOrderFaithful()
    ensures Faithful(PortfolioOrderRecord, "order")
  {
    forall id, o: P.Order
      ensures PlainRecord(PortfolioOrderRecord(id, o)) && PortfolioOrderRecord(id, o)[0] == "order"
    {
      PortfolioOrderPlain(id, o);
    }
    forall id, o: P.Order, id', o': P.Order | PortfolioOrderRecord(id, o) == PortfolioOrderRecord(id', o')
      ensures id == id' && o == o'
    {
      PortfolioOrderDetermined(id, o, id', o');
    }
  }

  lemma PortfolioOrderPlain(id: int, o: P.Order)
    ensures PlainRecord(PortfolioOrderRecord(id, o)) && PortfolioOrderRecord(id, o)[0] == "order"
  {
    PlainEntries(id, o.symbol, o.remaining, 0);
  }

  lemma PortfolioOrderDetermined(id: int, o: P.Order, id': int, o': P.Order)
    requires PortfolioOrderRecord(id, o) == PortfolioOrderRecord(id', o')
    ensures id == id' && o == o'
  {
    var r, r' := PortfolioOrderRecord(id, o), PortfolioOrderRecord(id', o');
    Numbers(r, r', 1, id, id');
    Numbers(r, r', 2, o.symbol, o'.symbol);
    Numbers(r, r', 4, o.remaining, o'.remaining);
    assert r[3] == r'[3] && r[5] == r'[5];
  }

  lemma PositionFaithful()
    ensures Faithful(PositionRecord, "position")
  {
    forall k, p: A.Position
      ensures PlainRecord(PositionRecord(k, p)) && PositionRecord(k, p)[0] == "position"
    {
      PlainEntries(k, p.lots, p.basis, 0);
    }
    forall k, p: A.Position, k', p': A.Position | PositionRecord(k, p) == PositionRecord(k', p')
      ensures k == k' && p == p'
    {
      var r, r' := PositionRecord(k, p), PositionRecord(k', p');
      Numbers(r, r', 1, k, k');
      Numbers(r, r', 2, p.lots, p'.lots);
      Numbers(r, r', 3, p.basis, p'.basis);
    }
  }

  function PairRecord(tag: string, k: int, v: int): Record { [tag, Str(k), Str(v)] }

  lemma PairInjective(tag: string, k: int, v: int, k': int, v': int)
    requires PairRecord(tag, k, v) == PairRecord(tag, k', v')
    ensures k == k' && v == v'
  {
    var r, r' := PairRecord(tag, k, v), PairRecord(tag, k', v');
    Numbers(r, r', 1, k, k');
    Numbers(r, r', 2, v, v');
  }

  lemma PairPlain(tag: string, k: int, v: int)
    requires ':' !in tag && ';' !in tag
    ensures PlainRecord(PairRecord(tag, k, v))
  {
    PlainEntries(k, v, 0, 0);
  }

  lemma InventoryFaithful()
    ensures Faithful(InventoryRecord, "inventory")
  {
    forall k, v
      ensures PlainRecord(InventoryRecord(k, v)) && InventoryRecord(k, v)[0] == "inventory"
    {
      PairPlain("inventory", k, v);
    }
    forall k, v, k', v' | InventoryRecord(k, v) == InventoryRecord(k', v') ensures k == k' && v == v' {
      PairInjective("inventory", k, v, k', v');
    }
  }

  lemma MarkFaithful()
    ensures Faithful(MarkRecord, "mark")
  {
    forall k, v
      ensures PlainRecord(MarkRecord(k, v)) && MarkRecord(k, v)[0] == "mark"
    {
      PairPlain("mark", k, v);
    }
    forall k, v, k', v' | MarkRecord(k, v) == MarkRecord(k', v') ensures k == k' && v == v' {
      PairInjective("mark", k, v, k', v');
    }
  }

  lemma BidFaithful()
    ensures Faithful(BidRecord, "b")
  {
    forall k, v
      ensures PlainRecord(BidRecord(k, v)) && BidRecord(k, v)[0] == "b"
    {
      PairPlain("b", k, v);
    }
    forall k, v, k', v' | BidRecord(k, v) == BidRecord(k', v') ensures k == k' && v == v' {
      PairInjective("b", k, v, k', v');
    }
  }

  lemma AskFaithful()
    ensures Faithful(AskRecord, "a")
  {
    forall k, v
      ensures PlainRecord(AskRecord(k, v)) && AskRecord(k, v)[0] == "a"
    {
      PairPlain("a", k, v);
    }
    forall k, v, k', v' | AskRecord(k, v) == AskRecord(k', v') ensures k == k' && v == v' {
      PairInjective("a", k, v, k', v');
    }
  }

  lemma HeaderPlain(n: int, m: int, ids: seq<int>, seen: set<int>)
    ensures PlainRecord(["max", Str(n)]) && PlainRecord(["next", Str(n)]) && PlainRecord(["position", Str(n)])
    ensures PlainRecord(["realized", Str(n)]) && PlainRecord(["fees", Str(n)])
      && PlainRecord(["markout", Str(n), Str(m)])
    ensures PlainRecord(["queue", Commas(ids)]) && PlainRecord(SeenRecord(seen))
  {
    StrClean(n);
    StrClean(m);
    CommasPlain(ids);
    CommasPlain(SortedIds(seen));
  }

  // ----- the main results -----

  /** Equal queue bytes mean equal queue states. */
  lemma QueueBytesComplete(a: Q.State, b: Q.State)
    requires QueueBytes(a) == QueueBytes(b)
    ensures a == b
  {
    QueueOrderFaithful();
    HeaderPlain(0, 0, a.queue, a.seen);
    HeaderPlain(0, 0, b.queue, b.seen);
    SortedPlain(a.orders, QueueOrderRecord, "order");
    SortedPlain(b.orders, QueueOrderRecord, "order");
    var ra, rb := QueueRecords(a), QueueRecords(b);
    RecordsEqual(ra, rb);
    assert ra[2..] == Sorted(a.orders, QueueOrderRecord) && rb[2..] == Sorted(b.orders, QueueOrderRecord);
    SortedInjective(a.orders, b.orders, QueueOrderRecord, "order");
    assert ra[0] == rb[0] && ra[1][1] == rb[1][1];
    SeenInjective(a.seen, b.seen);
    CommasInjective(a.queue, b.queue);
  }

  /** Equal scheduler bytes mean equal next insertion number, seen ids and pending actions. */
  lemma SchedulerBytesComplete(a: S.State, b: S.State)
    requires SchedulerBytes(a) == SchedulerBytes(b)
    ensures a == b
  {
    ActionFaithful();
    HeaderPlain(a.next, 0, [], a.seen);
    HeaderPlain(b.next, 0, [], b.seen);
    SectionPlain(a.pending, S.InOrder(a.pending), ActionRecord, "action");
    SectionPlain(b.pending, S.InOrder(b.pending), ActionRecord, "action");
    var ra, rb := SchedulerRecords(a), SchedulerRecords(b);
    RecordsEqual(ra, rb);
    assert ra[2..] == Section(a.pending, S.InOrder(a.pending), ActionRecord);
    assert rb[2..] == Section(b.pending, S.InOrder(b.pending), ActionRecord);
    SectionInjective(a.pending, S.InOrder(a.pending), b.pending, S.InOrder(b.pending), ActionRecord, "action");
    assert ra[0] == rb[0] && ra[1] == rb[1];
    Numbers(ra[0], rb[0], 1, a.next, b.next);
    SeenInjective(a.seen, b.seen);
  }

  /** Equal risk-ledger bytes mean equal ledgers. */
  lemma RiskBytesComplete(a: R.State, b: R.State)
    requires RiskBytes(a) == RiskBytes(b)
    ensures a == b
  {
    RiskOrderFaithful();
    HeaderPlain(a.limit, 0, [], a.seen);
    HeaderPlain(b.limit, 0, [], b.seen);
    HeaderPlain(a.position, 0, [], {});
    HeaderPlain(b.position, 0, [], {});
    SortedPlain(a.orders, RiskOrderRecord, "order");
    SortedPlain(b.orders, RiskOrderRecord, "order");
    var ra, rb := RiskRecords(a), RiskRecords(b);
    RecordsEqual(ra, rb);
    assert ra[3..] == Sorted(a.orders, RiskOrderRecord) && rb[3..] == Sorted(b.orders, RiskOrderRecord);
    SortedInjective(a.orders, b.orders, RiskOrderRecord, "order");
    assert ra[0] == rb[0] && ra[1] == rb[1] && ra[2] == rb[2];
    Numbers(ra[0], rb[0], 1, a.limit, b.limit);
    Numbers(ra[1], rb[1], 1, a.position, b.position);
    SeenInjective(a.seen, b.seen);
  }

  /** The records in the order in which they are printed. */
  lemma PortfolioRecordsInOrder(s: P.State)
    ensures PortfolioBytes(s) ==
      Render([["max", Str(s.limit)]] + Sorted(s.inventory, InventoryRecord) + [SeenRecord(s.seen)]
             + Sorted(s.orders, PortfolioOrderRecord))
  {
    var max, inv := [["max", Str(s.limit)]], Sorted(s.inventory, InventoryRecord);
    var seen, orders := [SeenRecord(s.seen)], Sorted(s.orders, PortfolioOrderRecord);
    assert max + (inv + (seen + orders)) == max + inv + seen + orders;
  }

  function PortfolioTail(s: P.State): seq<Record> { [SeenRecord(s.seen)] + Sorted(s.orders, PortfolioOrderRecord) }

  lemma PortfolioPlain(s: P.State)
    ensures AllPlain(PortfolioRecords(s))
    ensures Tagged(Sorted(s.inventory, InventoryRecord), "inventory")
    ensures |PortfolioTail(s)| > 0 && PlainRecord(PortfolioTail(s)[0]) && PortfolioTail(s)[0][0] == "seen"
    ensures PortfolioRecords(s)[1..] == Sorted(s.inventory, InventoryRecord) + PortfolioTail(s)
  {
    PortfolioOrderFaithful();
    InventoryFaithful();
    HeaderPlain(s.limit, 0, [], s.seen);
    SortedPlain(s.orders, PortfolioOrderRecord, "order");
    SortedPlain(s.inventory, InventoryRecord, "inventory");
  }

  /** Equal portfolio-ledger bytes mean equal ledgers. */
  lemma PortfolioBytesComplete(a: P.State, b: P.State)
    requires PortfolioBytes(a) == PortfolioBytes(b)
    ensures a == b
  {
    PortfolioPlain(a);
    PortfolioPlain(b);
    RecordsEqual(PortfolioRecords(a), PortfolioRecords(b));
    var ta, tb := PortfolioTail(a), PortfolioTail(b);
    SplitByTag(Sorted(a.inventory, InventoryRecord), ta, Sorted(b.inventory, InventoryRecord), tb, "inventory", "seen");
    PortfolioParts(a, b, PortfolioRecords(a)[0], PortfolioRecords(b)[0], ta, tb);
  }

  lemma PortfolioParts(a: P.State, b: P.State, ha: Record, hb: Record, ta: seq<Record>, tb: seq<Record>)
    requires ha == ["max", Str(a.limit)] && hb == ["max", Str(b.limit)] && ha == hb
    requires ta == PortfolioTail(a) && tb == PortfolioTail(b) && ta == tb
    requires Sorted(a.inventory, InventoryRecord) == Sorted(b.inventory, InventoryRecord)
    ensures a == b
  {
    PortfolioOrderFaithful();
    InventoryFaithful();
    SortedInjective(a.inventory, b.inventory, InventoryRecord, "inventory");
    assert ta[1..] == Sorted(a.orders, PortfolioOrderRecord) && tb[1..] == Sorted(b.orders, PortfolioOrderRecord);
    SortedInjective(a.orders, b.orders, PortfolioOrderRecord, "order");
    assert ta[0] == tb[0];
    Numbers(ha, hb, 1, a.limit, b.limit);
    SeenInjective(a.seen, b.seen);
  }

  function AccountingHead(s: A.State): seq<Record> {
    [["realized", Str(s.realized)], ["fees", Str(s.fees)], ["markout", Str(s.markoutCash), Str(s.markoutQty)]]
  }

  lemma AccountingRecordsInOrder(s: A.State)
    ensures AccountingBytes(s) ==
      Render(AccountingHead(s) + Sorted(s.marks, MarkRecord) + Sorted(s.positions, PositionRecord))
  {
    var head, marks, positions := AccountingHead(s), Sorted(s.marks, MarkRecord), Sorted(s.positions, PositionRecord);
    assert head + (marks + positions) == head + marks + positions;
  }

  function AccountingTail(s: A.State): seq<Record> { Sorted(s.marks, MarkRecord) + Sorted(s.positions, PositionRecord) }

  lemma AccountingPlain(s: A.State)
    ensures AllPlain(AccountingRecords(s)) && AccountingRecords(s)[3..] == AccountingTail(s)
    ensures Tagged(Sorted(s.marks, MarkRecord), "mark") && Tagged(Sorted(s.positions, PositionRecord), "position")
  {
    MarkFaithful();
    PositionFaithful();
    HeaderPlain(s.realized, 0, [], {});
    HeaderPlain(s.fees, 0, [], {});
    HeaderPlain(s.markoutCash, s.markoutQty, [], {});
    SortedPlain(s.marks, MarkRecord, "mark");
    SortedPlain(s.positions, PositionRecord, "position");
    ThreePlain(AccountingRecords(s), Sorted(s.marks, MarkRecord), Sorted(s.positions, PositionRecord));
  }

  lemma ThreePlain(rs: seq<Record>, x: seq<Record>, y: seq<Record>)
    requires |rs| >= 3 && PlainRecord(rs[0]) && PlainRecord(rs[1]) && PlainRecord(rs[2])
    requires rs[3..] == x + y && AllPlain(x) && AllPlain(y)
    ensures AllPlain(rs)
  {
    forall i | 0 <= i < |rs| ensures PlainRecord(rs[i]) {
      if i >= 3 { assert rs[i] == (x + y)[i - 3]; }
    }
  }

  /** Equal accounting bytes mean equal books of account. */
  lemma AccountingBytesComplete(a: A.State, b: A.State)
    requires AccountingBytes(a) == AccountingBytes(b)
    ensures a == b
  {
    AccountingPlain(a);
    AccountingPlain(b);
    var ra, rb := AccountingRecords(a), AccountingRecords(b);
    RecordsEqual(ra, rb);
    SplitByTag(Sorted(a.marks, MarkRecord), Sorted(a.positions, PositionRecord),
               Sorted(b.marks, MarkRecord), Sorted(b.positions, PositionRecord), "mark", "position");
    MarkFaithful();
    SortedInjective(a.marks, b.marks, MarkRecord, "mark");
    PositionFaithful();
    SortedInjective(a.positions, b.positions, PositionRecord, "position");
    AccountingHeader(a, b, ra[0], rb[0], ra[1], rb[1], ra[2], rb[2]);
  }

  lemma AccountingHeader(a: A.State, b: A.State, r: Record, r': Record, f: Record, f': Record, m: Record, m': Record)
    requires r == r' == ["realized", Str(a.realized)] && r' == ["realized", Str(b.realized)]
    requires f == f' == ["fees", Str(a.fees)] && f' == ["fees", Str(b.fees)]
    requires m == m' == ["markout", Str(a.markoutCash), Str(a.markoutQty)]
      && m' == ["markout", Str(b.markoutCash), Str(b.markoutQty)]
    ensures a.realized == b.realized && a.fees == b.fees && a.markoutCash == b.markoutCash
      && a.markoutQty == b.markoutQty
  {
    Numbers(r, r', 1, a.realized, b.realized);
    Numbers(f, f', 1, a.fees, b.fees);
    Numbers(m, m', 1, a.markoutCash, b.markoutCash);
    Numbers(m, m', 2, a.markoutQty, b.markoutQty);
  }

  /** Equal book bytes mean equal books. */
  lemma BookBytesComplete(a: B.State, b: B.State)
    requires BookBytes(a) == BookBytes(b)
    ensures a == b
  {
    BidFaithful();
    AskFaithful();
    SortedPlain(a.bids, BidRecord, "b");
    SortedPlain(b.bids, BidRecord, "b");
    SortedPlain(a.asks, AskRecord, "a");
    SortedPlain(b.asks, AskRecord, "a");
    RecordsEqual(BookRecords(a), BookRecords(b));
    SplitByTag(Sorted(a.bids, BidRecord), Sorted(a.asks, AskRecord),
               Sorted(b.bids, BidRecord), Sorted(b.asks, AskRecord), "b", "a");
    SortedInjective(a.bids, b.bids, BidRecord, "b");
    SortedInjective(a.asks, b.asks, AskRecord, "a");
  }
}
