/**
 Paper positions against the fill ledger: the simulated connector (internal/exchange/paper.go, lines 56-164), the
 runner's order routing in front of it (internal/app/runner.go, lines 579-653), the fills table and its net-quantity
 query (internal/storage/store.go, lines 69-74 and 121-148), and the drift check that compares the two
 (internal/app/runner.go, lines 738-795). The table is a sequence of rows and the query a fold over it.
 */
module PaperLedger {
  import opened Types
  import opened RealMath
  import VenueRouting

  const PAPER := "PAPER"

  /**
   What an order meets outside: the book its price comes from, its identifier, the context's state, and the table's.
   */
  datatype OrderEnv = OrderEnv(book: Option<BookTop>, id: string, ctxDone: bool, writeOK: bool)

  datatype Position = Position(instrument: Instrument, qty: real, avgEntry: real)

  datatype Order = Order(id: string, exchangeID: string, intent: OrderIntent, filledQty: real, avgPrice: real,
                         feesPaid: real)

  datatype Fill = Fill(orderID: string, instrument: Instrument, side: Side, price: real, qty: real, fee: real)

  function Signed(side: Side, qty: real): real {
    if side == Sell then -qty else qty
  }

  // ---------- the connector ----------

  function FillPrice(o: OrderIntent, book: BookTop): real {
    if o.orderType == Limit && o.limitPrice > 0.0 then o.limitPrice else (book.bidPrice + book.askPrice) / 2.0
  }

  /** The simulated taker fee. */
  function Fee(price: real, qty: real): real {
    price * qty * 0.0004
  }

  function OrderFor(o: OrderIntent, env: OrderEnv): Order
    requires env.book.Some?
  {
    var price := FillPrice(o, env.book.value);
    Order(env.id, "paper-" + env.id, o, o.quantity, price, Fee(price, o.quantity))
  }

  type Positions = map<string, Position>

  function QtyOf(positions: Positions, symbol: string): real {
    if symbol in positions then positions[symbol].qty else 0.0
  }

  /** The positions after an order; without a book nothing changes. */
  function PositionsAfter(positions: Positions, o: OrderIntent, env: OrderEnv): Positions {
    if env.book.None? then positions
    else
      var symbol := o.instrument.symbol;
      var pos := if symbol in positions then positions[symbol] else Position(o.instrument, 0.0, 0.0);
      var qty := pos.qty + Signed(o.side, o.quantity);
      var avg := if qty != 0.0 then FillPrice(o, env.book.value) else pos.avgEntry;
      positions[symbol := Position(pos.instrument, qty, avg)]
  }

  /** The order that closes a position. */
  function ClosingIntent(p: Position): OrderIntent {
    OrderIntent("nuke", p.instrument, if p.qty < 0.0 then Buy else Sell, Market, Abs(p.qty), 0.0, true, 100.0, 0.0, 0.0)
  }

  /** Each position is stored under its own instrument's symbol. */
  ghost predicate KeyedBySymbol(positions: Positions) {
    forall k :: k in positions ==> positions[k].instrument.symbol == k
  }

  /** A closing order brings its own position to zero and touches no other. */
  lemma CloseOne(positions: Positions, k: string, env: OrderEnv)
    requires KeyedBySymbol(positions) && k in positions && env.book.Some?
    ensures var after := PositionsAfter(positions, ClosingIntent(positions[k]), env);
            && KeyedBySymbol(after) && after.Keys == positions.Keys && after[k].qty == 0.0
            && forall j :: j in positions && j != k ==> after[j] == positions[j]
  {
  }

  /** Every position is untouched, or was open and is now zero. */
  ghost predicate OnlyClosed(before: Positions, after: Positions) {
    && after.Keys == before.Keys
    && forall k :: k in before ==> after[k].qty == before[k].qty || (after[k].qty == 0.0 && Abs(before[k].qty) >= 1e-12)
  }

  lemma StillOnlyClosed(start: Positions, before: Positions, after: Positions, k: string)
    requires OnlyClosed(start, before) && k in start && before[k] == start[k] && Abs(start[k].qty) >= 1e-12
    requires after.Keys == before.Keys && forall j :: j in before && j != k ==> after[j] == before[j]
    requires after[k].qty == 0.0 || after[k].qty == before[k].qty
    ensures OnlyClosed(start, after)
  {
  }

  ghost predicate Flat(p: Position) {
    Abs(p.qty) < 1e-12
  }

  /** The n-th order meets a book, and a context that is still live. */
  predicate AnswersWell(env: nat -> OrderEnv, n: nat) {
    env(n).book.Some? && !env(n).ctxDone
  }

  class PaperConnector {
    var positions: Positions
    var orders: map<string, Order>

    constructor ()
      ensures positions == map[] && orders == map[]
    {
      positions, orders := map[], map[];
    }

    method PlaceOrder(o: OrderIntent, env: OrderEnv) returns (ord: Option<Order>, failed: bool)
      modifies this
      ensures positions == PositionsAfter(old(positions), o, env)
      ensures failed <==> env.book.None? || env.ctxDone
      ensures env.book.Some? ==> ord == Some(OrderFor(o, env)) && orders == old(orders)[env.id := OrderFor(o, env)]
      ensures env.book.None? ==> ord == None && orders == old(orders)
    {
      if env.book.None? {
        return None, true;
      }
      var book := env.book.value;
      var price := (book.bidPrice + book.askPrice) / 2.0;
      if o.orderType == Limit && o.limitPrice > 0.0 {
        price := o.limitPrice;
      }
      var placed := Order(env.id, "paper-" + env.id, o, o.quantity, price, Fee(price, o.quantity));
      orders := orders[env.id := placed];
      var key := o.instrument.symbol;
      var pos := if key in positions then positions[key] else Position(o.instrument, 0.0, 0.0);
      pos := pos.(qty := pos.qty + Signed(o.side, o.quantity));
      if pos.qty != 0.0 {
        pos := pos.(avgEntry := price);
      }
      positions := positions[key := pos];
      return Some(placed), env.ctxDone;
    }

    /**
     Closes every open position, in no particular order, stopping at the first failure. `env(k)` is what the k-th
     order meets, and `ctxDone` what the context says at the end. Positions are only ever closed or left alone, and
     without a failure none is left open.
     */
    method FlattenAll(fetchFails: bool, env: nat -> OrderEnv, ctxDone: bool) returns (failed: bool)
      requires KeyedBySymbol(positions)
      modifies this
      ensures KeyedBySymbol(positions) && OnlyClosed(old(positions), positions)
      ensures !failed ==> forall k :: k in positions ==> Flat(positions[k])
      ensures fetchFails ==> failed && positions == old(positions)
      ensures !fetchFails && (forall n :: AnswersWell(env, n)) ==>
                (failed <==> ctxDone) && forall k :: k in positions ==> Flat(positions[k])
      ensures !failed ==> !ctxDone
    {
      if fetchFails {
        return true;
      }
      ghost var start := positions;
      var todo, n := positions, 0;
      while todo.Keys != {}
        invariant KeyedBySymbol(positions) && OnlyClosed(start, positions)
        invariant forall k :: k in todo ==> k in positions && todo[k] == positions[k] == start[k]
        invariant forall k :: k in positions && k !in todo ==> Flat(positions[k])
        decreases todo.Keys
      {
        var k :| k in todo.Keys;
        var x := todo[k];
        todo := todo - {k};
        if Abs(x.qty) < 1e-12 {
          assert Flat(positions[k]);
          continue;
        }
        ghost var before := positions;
        var bad := ClosePosition(k, x, env(n));
        StillOnlyClosed(start, before, positions, k);
        if bad {
          assert !AnswersWell(env, n);
          return true;
        }
        n := n + 1;
      }
      return ctxDone;
    }

    /** One order of the loop: the position is closed, whatever the context says, unless there is no book. */
    method ClosePosition(k: string, x: Position, env: OrderEnv) returns (bad: bool)
      requires KeyedBySymbol(positions) && k in positions && x == positions[k]
      modifies this
      ensures KeyedBySymbol(positions) && positions.Keys == old(positions).Keys
      ensures forall j :: j in positions && j != k ==> positions[j] == old(positions)[j]
      ensures positions[k].qty == if env.book.Some? then 0.0 else x.qty
      ensures bad <==> env.book.None? || env.ctxDone
    {
      ghost var before := positions;
      var ord;
      ord, bad := PlaceOrder(ClosingIntent(x), env);
      if env.book.Some? {
        CloseOne(before, k, env);
      }
    }
  }

  // ---------- the ledger ----------

  function RowKey(f: Fill): string {
    f.instrument.venue + ":" + f.instrument.symbol
  }

  /** Buys less sells over the rows with a key. */
  function NetOf(fills: seq<Fill>, key: string): real {
    if fills == [] then 0.0
    else
      var last := fills[|fills| - 1];
      NetOf(fills[..|fills| - 1], key) + if RowKey(last) == key then Signed(last.side, last.qty) else 0.0
  }

  /** The query's result: one entry per key that has rows. */
  function NetOpenQty(fills: seq<Fill>): (m: map<string, real>)
    ensures forall k :: k in m <==> exists i :: 0 <= i < |fills| && RowKey(fills[i]) == k
    ensures forall k :: k in m ==> m[k] == NetOf(fills, k)
  {
    map i | 0 <= i < |fills| :: RowKey(fills[i]) := NetOf(fills, RowKey(fills[i]))
  }

  class Store {
    var fills: seq<Fill>

    constructor (rows: seq<Fill>)
      ensures fills == rows
    {
      fills := rows;
    }

    method LogFill(f: Fill, writeOK: bool)
      modifies this
      ensures fills == if writeOK then old(fills) + [f] else old(fills)
    {
      if writeOK {
        fills := fills + [f];
      }
    }
  }

  // ---------- the runner's order routing ----------

  datatype Mode = PaperMode | LiveMode | BacktestMode

  datatype Destination = ToPaper | Suppressed | ToVenues

  /** Where an order goes: its venue, an empty one reading as PAPER, decides; other venues only in live mode. */
  function Route(mode: Mode, venue: string): Destination {
    if venue == "" || venue == PAPER then ToPaper else if mode == LiveMode then ToVenues else Suppressed
  }

  /** The row the runner logs for a filled order. */
  function FillOf(o: OrderIntent, env: OrderEnv): Fill
    requires env.book.Some?
  {
    var ord := OrderFor(o, env);
    Fill(ord.id, o.instrument, o.side, ord.avgPrice, ord.filledQty, ord.feesPaid)
  }

  predicate Logged(o: OrderIntent, env: OrderEnv) {
    env.book.Some? && !env.ctxDone && o.quantity > 0.0 && env.writeOK
  }

  function FillsAfter(fills: seq<Fill>, o: OrderIntent, env: OrderEnv): seq<Fill> {
    if Logged(o, env) then fills + [FillOf(o, env)] else fills
  }

  class Desk {
    const mode: Mode
    const paper: PaperConnector
    const store: Store

    constructor (mode: Mode, paper: PaperConnector, store: Store)
      ensures this.mode == mode && this.paper == paper && this.store == store
    {
      this.mode, this.paper, this.store := mode, paper, store;
    }

    /** One order intent; outside live mode nothing ever goes to another venue. */
    method PlaceOrder(o: OrderIntent, env: OrderEnv) returns (sentToVenues: bool)
      modifies paper, store
      ensures sentToVenues <==> Route(mode, o.instrument.venue) == ToVenues
      ensures sentToVenues <==> mode == LiveMode && o.instrument.venue != "" && o.instrument.venue != "PAPER"
      ensures mode != LiveMode ==> !sentToVenues
      ensures o.instrument.venue != "" && o.instrument.venue != "PAPER" ==>
                paper.positions == old(paper.positions) && store.fills == old(store.fills)
      ensures var before, after := Books(old(paper.positions), old(store.fills)), Books(paper.positions, store.fills);
              after == if Route(mode, o.instrument.venue) == ToPaper then Step(before, ViaRunner(o, env)) else before
    {
      var v := if o.instrument.venue == "" then PAPER else o.instrument.venue;
      if v == PAPER {
        var ord, failed := paper.PlaceOrder(o, env);
        if failed {
          return false;
        }
        if ord.value.filledQty > 0.0 {
          var x := ord.value;
          store.LogFill(Fill(x.id, o.instrument, o.side, x.avgPrice, x.filledQty, x.feesPaid), env.writeOK);
        }
        return false;
      }
      return mode == LiveMode;
    }
  }

  /** The price an order fills at: its limit, if it has one, or the middle of the book. */
  ghost predicate FillsAt(o: OrderIntent, book: BookTop, price: real) {
    if o.orderType == Limit && o.limitPrice > 0.0 then price == o.limitPrice
    else price + price == book.bidPrice + book.askPrice
  }

  /** Four hundredths of a percent of what changes hands. */
  ghost predicate FeeOf(fee: real, price: real, qty: real) {
    10000.0 * fee == 4.0 * (price * qty)
  }

  /** What is recorded and logged of an order that fills: all of it, at that price and fee. */
  lemma OrderFillsWhole(o: OrderIntent, env: OrderEnv, price: real)
    requires env.book.Some? && FillsAt(o, env.book.value, price)
    ensures var ord := OrderFor(o, env);
            && ord.id == env.id && ord.exchangeID == "paper-" + env.id && ord.intent == o
            && ord.filledQty == o.quantity && ord.avgPrice == price && FeeOf(ord.feesPaid, price, o.quantity)
    ensures var row := FillOf(o, env);
            && row.orderID == env.id && row.instrument == o.instrument && row.side == o.side
            && row.price == price && row.qty == o.quantity && FeeOf(row.fee, price, o.quantity)
  {
    assert FillPrice(o, env.book.value) == price;
    FeeInTerms(price, o.quantity);
  }

  lemma FeeInTerms(price: real, qty: real)
    ensures FeeOf(Fee(price, qty), price, qty)
  {
    var value := price * qty;
    assert Fee(price, qty) == value * 0.0004;
  }

  /**
   What it does to the positions: its symbol's grows by what is bought or shrinks by what is sold, and carries the
   latest price unless it is closed; the others stay.
   */
  lemma FillMovesOnePosition(positions: Positions, o: OrderIntent, env: OrderEnv, price: real, before: real)
    requires env.book.Some? && FillsAt(o, env.book.value, price)
    requires before == if o.instrument.symbol in positions then positions[o.instrument.symbol].qty else 0.0
    ensures var after, symbol := PositionsAfter(positions, o, env), o.instrument.symbol;
            && after.Keys == positions.Keys + {symbol}
            && (forall k :: k in positions && k != symbol ==> after[k] == positions[k])
            && after[symbol].qty == (if o.side == Buy then before + o.quantity else before - o.quantity)
            && (after[symbol].qty != 0.0 ==> after[symbol].avgEntry == price)
            && (after[symbol].qty == 0.0 && symbol in positions ==>
                after[symbol].avgEntry == positions[symbol].avgEntry)
            && after[symbol].instrument == if symbol in positions then positions[symbol].instrument else o.instrument
  {
    assert FillPrice(o, env.book.value) == price;
  }

  // ---------- runs ----------

  datatype Books = Books(positions: Positions, fills: seq<Fill>)

  /**
   An order that reaches the connector: through the runner, which logs it, or directly, as flattening does. In live mode
   the runner's order may name another venue, when that venue's chain falls back to PAPER.
   */
  datatype Event = ViaRunner(o: OrderIntent, env: OrderEnv) | Direct(o: OrderIntent, env: OrderEnv)

  function Step(b: Books, e: Event): Books {
    Books(PositionsAfter(b.positions, e.o, e.env), if e.ViaRunner? then FillsAfter(b.fills, e.o, e.env) else b.fills)
  }

  /** From an empty connector and a table that may hold rows of earlier runs. */
  function After(start: seq<Fill>, events: seq<Event>): Books {
    if events == [] then Books(map[], start) else Step(After(start, events[..|events| - 1]), events[|events| - 1])
  }

  predicate PaperVenue(venue: string) {
    venue == "" || venue == PAPER
  }

  /** Venues without a colon, as parsing gives them. */
  ghost predicate PlainVenues(events: seq<Event>) {
    forall i :: 0 <= i < |events| ==> ':' !in events[i].o.instrument.venue
  }

  /** What an event adds to a symbol's position. */
  function PositionMove(e: Event, symbol: string): real {
    if e.env.book.None? || e.o.instrument.symbol != symbol then 0.0 else Signed(e.o.side, e.o.quantity)
  }

  /** What it adds to the net of that symbol's PAPER rows. */
  function RowGain(e: Event, symbol: string): real {
    if e.ViaRunner? && Logged(e.o, e.env) && RowKey(FillOf(e.o, e.env)) == PaperKey(symbol)
    then Signed(e.o.side, e.o.quantity) else 0.0
  }

  function Unaccounted(e: Event, symbol: string): real {
    PositionMove(e, symbol) - RowGain(e, symbol)
  }

  function UnaccountedTotal(events: seq<Event>, symbol: string): real {
    if events == [] then 0.0
    else UnaccountedTotal(events[..|events| - 1], symbol) + Unaccounted(events[|events| - 1], symbol)
  }

  function PaperKey(symbol: string): string {
    PAPER + ":" + symbol
  }

  /** Names joined by a colon come apart again when neither first part has one. */
  lemma JoinIsInjective(v: string, x: string, v': string, x': string)
    requires ':' !in v && ':' !in v'
    ensures v + ":" + x == v' + ":" + x' <==> v == v' && x == x'
  {
    var s, s' := v + ":" + x, v' + ":" + x';
    if s == s' {
      assert s[|v|] == ':' && s'[|v'|] == ':';
      assert forall i :: 0 <= i < |v| ==> s[i] == v[i] && v[i] in v;
      assert forall i :: 0 <= i < |v'| ==> s'[i] == v'[i] && v'[i] in v';
      assert |v| == |v'|;
      assert s[..|v|] == v && s'[..|v'|] == v' && s[|v| + 1..] == x && s'[|v'| + 1..] == x';
    }
  }

  lemma PaperKeyMatches(venue: string, x: string, symbol: string)
    requires ':' !in venue
    ensures venue + ":" + x == PaperKey(symbol) <==> venue == PAPER && x == symbol
  {
    JoinIsInjective(venue, x, PAPER, symbol);
  }

  /**
   Conservation: a symbol's position is what its PAPER rows gained since the start, plus what was never accounted for.
   */
  lemma {:induction false} PositionsAgainstLedger(start: seq<Fill>, events: seq<Event>, symbol: string)
    ensures QtyOf(After(start, events).positions, symbol)
         == NetOf(After(start, events).fills, PaperKey(symbol)) - NetOf(start, PaperKey(symbol))
          + UnaccountedTotal(events, symbol)
  {
    if events != [] {
      var before, e := events[..|events| - 1], events[|events| - 1];
      PositionsAgainstLedger(start, before, symbol);
      StepMoves(After(start, before), e, symbol);
    }
  }

  /** What one event does to both sides. */
  lemma StepMoves(b: Books, e: Event, symbol: string)
    ensures QtyOf(Step(b, e).positions, symbol) == QtyOf(b.positions, symbol) + PositionMove(e, symbol)
    ensures NetOf(Step(b, e).fills, PaperKey(symbol)) == NetOf(b.fills, PaperKey(symbol)) + RowGain(e, symbol)
  {
    if e.ViaRunner? && Logged(e.o, e.env) {
      assert (b.fills + [FillOf(e.o, e.env)])[..|b.fills|] == b.fills;
    }
  }

  ghost predicate VenuesIn(p: Positions, venues: string -> bool) {
    forall k :: k in p ==> venues(p[k].instrument.venue)
  }

  lemma PositionsStayIn(p: Positions, o: OrderIntent, env: OrderEnv, venues: string -> bool)
    requires venues(o.instrument.venue) && VenuesIn(p, venues) && KeyedBySymbol(p)
    ensures VenuesIn(PositionsAfter(p, o, env), venues) && KeyedBySymbol(PositionsAfter(p, o, env))
  {
  }

  /** Every position is under its own symbol, and of a venue some order named. */
  lemma {:induction false} PositionsComeFromOrders(start: seq<Fill>, events: seq<Event>, venues: string -> bool)
    requires forall i :: 0 <= i < |events| ==> venues(events[i].o.instrument.venue)
    ensures KeyedBySymbol(After(start, events).positions) && VenuesIn(After(start, events).positions, venues)
  {
    if events != [] {
      var before, e := events[..|events| - 1], events[|events| - 1];
      PositionsComeFromOrders(start, before, venues);
      PositionsStayIn(After(start, before).positions, e.o, e.env, venues);
    }
  }

  // ---------- the drift check ----------

  function DriftPositionKey(venue: string, ins: Instrument): string {
    (if ins.venue == "" then venue else ins.venue) + ":" + ins.symbol
  }

  predicate HasPrefix(s: string, prefix: string) {
    prefix <= s
  }

  function Threshold(minUnits: real): (t: real)
    ensures t > 0.0
  {
    if minUnits <= 0.0 then 1e-9 else minUnits
  }

  ghost predicate DistinctDriftKeys(venue: string, p: Positions) {
    forall j, k :: j in p && k in p && j != k ==>
      DriftPositionKey(venue, p[j].instrument) != DriftPositionKey(venue, p[k].instrument)
  }

  /** The map holds each position's quantity under its drift key, and nothing else. */
  ghost predicate ByDriftKey(venue: string, p: Positions, broker: map<string, real>) {
    && (forall k :: k in p ==> DriftPositionKey(venue, p[k].instrument) in broker
                               && broker[DriftPositionKey(venue, p[k].instrument)] == p[k].qty)
    && (forall key :: key in broker ==> exists k :: k in p && DriftPositionKey(venue, p[k].instrument) == key)
  }

  /** The quantity of the last listed position with a key. */
  function LastQty(venue: string, ps: seq<Position>, key: string): Option<real> {
    if ps == [] then None
    else if DriftPositionKey(venue, ps[|ps| - 1].instrument) == key then Some(ps[|ps| - 1].qty)
    else LastQty(venue, ps[..|ps| - 1], key)
  }

  /** The check's first loop, over the fetched positions: among those that share a key the last one counts. */
  method CollectBroker(venue: string, ps: seq<Position>) returns (broker: map<string, real>)
    ensures forall key :: (if key in broker then Some(broker[key]) else None) == LastQty(venue, ps, key)
  {
    broker := map[];
    for i := 0 to |ps|
      invariant forall key :: (if key in broker then Some(broker[key]) else None) == LastQty(venue, ps[..i], key)
    {
      assert ps[..i + 1][..i] == ps[..i];
      broker := broker[DriftPositionKey(venue, ps[i].instrument) := ps[i].qty];
    }
    assert ps[..|ps|] == ps;
  }

  /** The list holds a connector's positions, in any order. */
  ghost predicate Lists(ps: seq<Position>, p: Positions) {
    && (forall i :: 0 <= i < |ps| ==> exists k :: k in p && p[k] == ps[i])
    && (forall k :: k in p ==> p[k] in ps)
  }

  lemma {:induction false} LastQtyIsListed(venue: string, ps: seq<Position>, key: string) returns (x: Option<Position>)
    ensures x.Some? ==> x.value in ps && DriftPositionKey(venue, x.value.instrument) == key
    ensures x.Some? ==> LastQty(venue, ps, key) == Some(x.value.qty)
    ensures x.None? ==> LastQty(venue, ps, key) == None
    ensures x.None? ==> forall y :: y in ps ==> DriftPositionKey(venue, y.instrument) != key
  {
    if ps == [] {
      x := None;
    } else if DriftPositionKey(venue, ps[|ps| - 1].instrument) == key {
      x := Some(ps[|ps| - 1]);
    } else {
      x := LastQtyIsListed(venue, ps[..|ps| - 1], key);
      assert forall y :: y in ps ==> y == ps[|ps| - 1] || y in ps[..|ps| - 1];
    }
  }

  /** When no two positions share a key, the check sees each of them. */
  lemma CollectedByDriftKey(venue: string, ps: seq<Position>, p: Positions, broker: map<string, real>)
    requires Lists(ps, p) && DistinctDriftKeys(venue, p)
    requires forall key :: (if key in broker then Some(broker[key]) else None) == LastQty(venue, ps, key)
    ensures ByDriftKey(venue, p, broker)
  {
    forall k | k in p
      ensures DriftPositionKey(venue, p[k].instrument) in broker
      ensures broker[DriftPositionKey(venue, p[k].instrument)] == p[k].qty
    {
      var key := DriftPositionKey(venue, p[k].instrument);
      var x := LastQtyIsListed(venue, ps, key);
      assert p[k] in ps;
      assert key in broker && broker[key] == x.value.qty;
      var j :| j in p && p[j] == x.value;
      assert j == k;
    }
    forall key | key in broker
      ensures exists k :: k in p && DriftPositionKey(venue, p[k].instrument) == key
    {
      var x := LastQtyIsListed(venue, ps, key);
      assert x.Some?;
      var k :| k in p && p[k] == x.value;
    }
  }

  function ValueOr0(m: map<string, real>, k: string): real {
    if k in m then m[k] else 0.0
  }

  /** Whether the check warns about a key, given both sides by key. */
  predicate Warns(venue: string, broker: map<string, real>, ledger: map<string, real>, minUnits: real, k: string) {
    && (k in broker || k in ledger) && HasPrefix(k, venue + ":")
    && Abs(ValueOr0(broker, k) - ValueOr0(ledger, k)) >= Threshold(minUnits)
  }

  /** The check's other loops: the keys of its venue on either side, and those whose sides differ too much. */
  method DriftedKeys(venue: string, broker: map<string, real>, ledger: map<string, real>, minUnits: real)
    returns (warned: set<string>)
    ensures forall k :: k in warned <==> Warns(venue, broker, ledger, minUnits, k)
  {
    var keys := set k | k in broker.Keys + ledger.Keys && HasPrefix(k, venue + ":");
    var todo := keys;
    warned := {};
    while todo != {}
      invariant todo <= keys
      invariant forall k :: k in warned <==> k in keys && k !in todo && Warns(venue, broker, ledger, minUnits, k)
      decreases todo
    {
      var k :| k in todo;
      todo := todo - {k};
      var d := Abs(ValueOr0(broker, k) - ValueOr0(ledger, k));
      if d < Threshold(minUnits) {
        continue;
      }
      warned := warned + {k};
    }
  }

  /** When it warns: about a key of the venue on either side, whose two quantities differ by the threshold or more. */
  lemma WarnsExactlyWhen(venue: string, broker: map<string, real>, ledger: map<string, real>, minUnits: real, k: string,
                         held: real, logged: real, threshold: real)
    requires held == (if k in broker then broker[k] else 0.0) && logged == (if k in ledger then ledger[k] else 0.0)
    requires threshold == if minUnits <= 0.0 then 0.000000001 else minUnits
    ensures Warns(venue, broker, ledger, minUnits, k) <==>
            && (k in broker || k in ledger)
            && (exists symbol :: k == venue + ":" + symbol)
            && (held - logged >= threshold || logged - held >= threshold)
  {
    var prefix := venue + ":";
    if HasPrefix(k, prefix) {
      assert k == prefix + k[|prefix|..];
    }
    if symbol :| k == venue + ":" + symbol {
      assert k == prefix + symbol && HasPrefix(k, prefix);
    }
  }

  lemma {:induction false} NoRowsNoNet(fills: seq<Fill>, key: string)
    requires forall i :: 0 <= i < |fills| ==> RowKey(fills[i]) != key
    ensures NetOf(fills, key) == 0.0
  {
    if fills != [] {
      NoRowsNoNet(fills[..|fills| - 1], key);
    }
  }

  /** What the check of the paper venue does not see of a symbol: a position that an order for another venue opened. */
  function Hidden(p: Positions, symbol: string): real {
    if symbol in p && !PaperVenue(p[symbol].instrument.venue) then p[symbol].qty else 0.0
  }

  /**
   The drift check on the paper venue fires for a symbol exactly when what was never accounted for, less what is hidden,
   differs by the threshold or more from what the table held for that symbol when the process started.
   */
  lemma DriftFiresExactlyWhen(start: seq<Fill>, events: seq<Event>, b: Books, broker: map<string, real>,
                              ledger: map<string, real>, minUnits: real, symbol: string, drift: real)
    requires PlainVenues(events) && b == After(start, events)
    requires ByDriftKey(PAPER, b.positions, broker) && ledger == NetOpenQty(b.fills)
    requires drift == UnaccountedTotal(events, symbol) - Hidden(b.positions, symbol) - NetOf(start, PaperKey(symbol))
    ensures Warns(PAPER, broker, ledger, minUnits, PaperKey(symbol)) <==> Abs(drift) >= Threshold(minUnits)
  {
    assert ValueOr0(broker, PaperKey(symbol)) - ValueOr0(ledger, PaperKey(symbol)) == drift by {
      PositionsComeFromOrders(start, events, v => ':' !in v);
      BrokerValue(b.positions, broker, symbol);
      LedgerValue(b.fills, PaperKey(symbol));
      PositionsAgainstLedger(start, events, symbol);
    }
    WarnsOnDifference(broker, ledger, minUnits, symbol, drift);
  }

  /** The connector's positions never collide on their drift keys, so the check sees every one of them. */
  lemma PaperKeysNeverCollide(start: seq<Fill>, events: seq<Event>, p: Positions)
    requires PlainVenues(events) && p == After(start, events).positions
    ensures DistinctDriftKeys(PAPER, p)
  {
    PositionsComeFromOrders(start, events, v => ':' !in v);
    forall j, k | j in p && k in p && j != k
      ensures DriftPositionKey(PAPER, p[j].instrument) != DriftPositionKey(PAPER, p[k].instrument)
    {
      JoinIsInjective(VenueRouting.OrPaper(p[j].instrument.venue), j, VenueRouting.OrPaper(p[k].instrument.venue), k);
    }
  }

  lemma WarnsOnDifference(broker: map<string, real>, ledger: map<string, real>, minUnits: real, symbol: string,
                          drift: real)
    requires drift == ValueOr0(broker, PaperKey(symbol)) - ValueOr0(ledger, PaperKey(symbol))
    ensures Warns(PAPER, broker, ledger, minUnits, PaperKey(symbol)) <==> Abs(drift) >= Threshold(minUnits)
  {
    assert HasPrefix(PaperKey(symbol), PAPER + ":");
  }

  lemma BrokerValue(p: Positions, broker: map<string, real>, symbol: string)
    requires ByDriftKey(PAPER, p, broker) && KeyedBySymbol(p) && VenuesIn(p, v => ':' !in v)
    ensures ValueOr0(broker, PaperKey(symbol)) == QtyOf(p, symbol) - Hidden(p, symbol)
  {
    forall k | k in p
      ensures DriftPositionKey(PAPER, p[k].instrument) == PaperKey(symbol) <==>
              PaperVenue(p[k].instrument.venue) && k == symbol
    {
      PaperKeyMatches(VenueRouting.OrPaper(p[k].instrument.venue), k, symbol);
    }
  }

  lemma LedgerValue(fills: seq<Fill>, key: string)
    ensures ValueOr0(NetOpenQty(fills), key) == NetOf(fills, key)
  {
    if key !in NetOpenQty(fills) {
      NoRowsNoNet(fills, key);
    }
  }

  /** Orders on PAPER instruments through the runner, each of them logged when it fills. */
  ghost predicate Clean(events: seq<Event>) {
    forall i :: 0 <= i < |events| ==>
      && events[i].ViaRunner? && events[i].o.instrument.venue == PAPER
      && (events[i].env.book.Some? ==> Logged(events[i].o, events[i].env))
  }

  /** In a clean run over a fresh table every position equals the signed sum of its logged fills. */
  lemma {:induction false} CleanRunsNeverDrift(events: seq<Event>, symbol: string)
    requires Clean(events)
    ensures UnaccountedTotal(events, symbol) == 0.0
    ensures QtyOf(After([], events).positions, symbol) == NetOf(After([], events).fills, PaperKey(symbol))
  {
    if events != [] {
      CleanRunsNeverDrift(events[..|events| - 1], symbol);
      PaperKeyMatches(PAPER, events[|events| - 1].o.instrument.symbol, symbol);
    }
    PositionsAgainstLedger([], events, symbol);
  }

  lemma PrefixedIsPaperKey(key: string) returns (symbol: string)
    requires HasPrefix(key, PAPER + ":")
    ensures key == PaperKey(symbol)
  {
    symbol := key[6..];
  }

  /** And the drift check never fires, for any key. */
  lemma CleanRunsNeverWarn(events: seq<Event>, b: Books, broker: map<string, real>, ledger: map<string, real>,
                           minUnits: real, key: string)
    requires Clean(events) && b == After([], events)
    requires ByDriftKey(PAPER, b.positions, broker) && ledger == NetOpenQty(b.fills)
    ensures !Warns(PAPER, broker, ledger, minUnits, key)
  {
    if HasPrefix(key, PAPER + ":") {
      var symbol := PrefixedIsPaperKey(key);
      CleanRunsNeverDrift(events, symbol);
      PositionsComeFromOrders([], events, PaperVenue);
      DriftFiresExactlyWhen([], events, b, broker, ledger, minUnits, symbol, 0.0);
    }
  }

  /** A context that ends while an order is being placed leaves a position without a row, and the check fires. */
  lemma CancelledOrderDrifts(o: OrderIntent, book: BookTop, id: string)
    requires o.instrument.venue == PAPER && o.side == Buy && o.quantity == 1.0
    ensures var events := [ViaRunner(o, OrderEnv(Some(book), id, true, true))];
            && QtyOf(After([], events).positions, o.instrument.symbol) == 1.0
            && After([], events).fills == []
            && Abs(UnaccountedTotal(events, o.instrument.symbol)) >= Threshold(0.0)
  {
    var events := [ViaRunner(o, OrderEnv(Some(book), id, true, true))];
    assert events[..0] == [];
    assert After([], events) == Step(After([], []), events[0]);
    assert UnaccountedTotal(events, o.instrument.symbol) == UnaccountedTotal([], o.instrument.symbol) + 1.0;
  }

  /** A fill for another venue that falls back to the paper connector opens a position the check does not see. */
  lemma FallbackFillIsHidden(o: OrderIntent, book: BookTop, id: string, b: Books, broker: map<string, real>,
                             ledger: map<string, real>, minUnits: real)
    requires ':' !in o.instrument.venue && !PaperVenue(o.instrument.venue) && o.side == Buy && o.quantity == 1.0
    requires b == After([], [ViaRunner(o, OrderEnv(Some(book), id, false, true))])
    requires ByDriftKey(PAPER, b.positions, broker) && ledger == NetOpenQty(b.fills)
    ensures QtyOf(b.positions, o.instrument.symbol) == 1.0
    ensures !Warns(PAPER, broker, ledger, minUnits, PaperKey(o.instrument.symbol))
  {
    var symbol := o.instrument.symbol;
    var events := [ViaRunner(o, OrderEnv(Some(book), id, false, true))];
    assert events[..0] == [];
    assert After([], events) == Step(After([], []), events[0]);
    PaperKeyMatches(o.instrument.venue, symbol, symbol);
    assert UnaccountedTotal(events, symbol) == UnaccountedTotal([], symbol) + 1.0;
    DriftFiresExactlyWhen([], events, b, broker, ledger, minUnits, symbol, 0.0);
  }
}
