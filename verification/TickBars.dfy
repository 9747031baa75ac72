/**
 Bars built from a stream of ticks (scripts/truefx_to_bot_ohlcv.py, `aggregate`, lines 65-89): one mutable bar for each
 bucket of time, kept in a dictionary. The independent form groups the ticks first and reads each bar off its group.
 */
module TickBars {
  import opened RealMath

  datatype Tick = Tick(time: real, bid: real, ask: real)

  datatype Candle = Candle(open: real, high: real, low: real, close: real, volume: nat)

  /** Python's `int` of a float: towards zero. */
  function Truncate(t: real): int {
    if t >= 0.0 then t.Floor else -((-t).Floor)
  }

  /** Python's `%` with a positive modulus is Dafny's. */
  function FloorBarStart(sec: int, barSeconds: int): int
    requires barSeconds > 0
  {
    sec - sec % barSeconds
  }

  function BucketOf(t: Tick, barSeconds: int): int
    requires barSeconds > 0
  {
    FloorBarStart(Truncate(t.time), barSeconds)
  }

  function PriceOf(t: Tick, price: string): real {
    if price == "bid" then t.bid else if price == "ask" then t.ask else (t.bid + t.ask) / 2.0
  }

  // ---------- the independent form ----------

  /** The prices of one bucket's ticks, in the order they came. */
  function Group(ticks: seq<Tick>, barSeconds: int, price: string, key: int): seq<real>
    requires barSeconds > 0
  {
    if ticks == [] then []
    else
      var before, t := Group(ticks[..|ticks| - 1], barSeconds, price, key), ticks[|ticks| - 1];
      if BucketOf(t, barSeconds) == key then before + [PriceOf(t, price)] else before
  }

  /** First, last and extreme prices of a group, and how many there are. */
  ghost predicate Summarises(c: Candle, prices: seq<real>) {
    && prices != []
    && c.open == prices[0] && c.close == prices[|prices| - 1] && c.volume == |prices|
    && c.high in prices && c.low in prices
    && forall p :: p in prices ==> c.low <= p <= c.high
  }

  /** A group has one summary. */
  lemma SummaryIsUnique(c: Candle, d: Candle, prices: seq<real>)
    requires Summarises(c, prices) && Summarises(d, prices)
    ensures c == d
  {
  }

  ghost predicate GroupedInto(bars: map<int, Candle>, ticks: seq<Tick>, barSeconds: int, price: string)
    requires barSeconds > 0
  {
    && (forall k :: k in bars <==> Group(ticks, barSeconds, price, k) != [])
    && forall k :: k in bars ==> Summarises(bars[k], Group(ticks, barSeconds, price, k))
  }

  // ---------- the program ----------

  class Bar {
    var open: real
    var high: real
    var low: real
    var close: real
    var volume: nat

    constructor (px: real)
      ensures Value() == Candle(px, px, px, px, 1)
    {
      open, high, low, close, volume := px, px, px, px, 1;
    }

    function Value(): Candle
      reads this
    {
      Candle(open, high, low, close, volume)
    }

    method Absorb(px: real)
      modifies this
      ensures Value() == old(Value()).(high := Max(old(high), px), low := Min(old(low), px), close := px,
                                       volume := old(volume) + 1)
    {
      high := Max(high, px);
      low := Min(low, px);
      close := px;
      volume := volume + 1;
    }
  }

  ghost function Values(bars: map<int, Bar>): map<int, Candle>
    reads bars.Values
  {
    map k | k in bars :: bars[k].Value()
  }

  /** No two buckets share a bar. */
  ghost predicate Distinct(bars: map<int, Bar>) {
    forall j, k :: j in bars && k in bars && j != k ==> bars[j] != bars[k]
  }

  method Aggregate(ticks: seq<Tick>, barSeconds: int, price: string) returns (bars: map<int, Bar>)
    requires barSeconds > 0
    ensures Distinct(bars) && fresh(bars.Values)
    ensures GroupedInto(Values(bars), ticks, barSeconds, price)
  {
    bars := map[];
    for i := 0 to |ticks|
      invariant Distinct(bars) && fresh(bars.Values)
      invariant GroupedInto(Values(bars), ticks[..i], barSeconds, price)
    {
      var px := PriceOf(ticks[i], price);
      var start := BucketOf(ticks[i], barSeconds);
      OneMoreTick(Values(bars), ticks, i, barSeconds, price);
      bars := AddPrice(bars, start, px);
    }
    assert ticks[..|ticks|] == ticks;
  }

  /** The bucket's bar takes the price; a bucket without one gets a new bar. */
  method AddPrice(bars: map<int, Bar>, start: int, px: real) returns (after: map<int, Bar>)
    requires Distinct(bars)
    modifies bars.Values
    ensures Distinct(after) && fresh(after.Values - bars.Values)
    ensures Values(after) == old(Values(bars))[start := Taken(old(Values(bars)), start, px)]
  {
    ghost var before := Values(bars);
    if start in bars {
      bars[start].Absorb(px);
      assert forall k :: k in bars && k != start ==> bars[k].Value() == before[k];
      after := bars;
    } else {
      var b := new Bar(px);
      assert forall k :: k in bars ==> bars[k] != b && bars[k].Value() == before[k];
      after := bars[start := b];
    }
  }

  /** What a tick makes of its bucket's bar. */
  ghost function Taken(bars: map<int, Candle>, key: int, px: real): Candle {
    if key in bars then Grown(bars[key], px) else Candle(px, px, px, px, 1)
  }

  ghost function Grown(c: Candle, px: real): Candle {
    c.(high := Max(c.high, px), low := Min(c.low, px), close := px, volume := c.volume + 1)
  }

  lemma GrownSummarises(c: Candle, prices: seq<real>, px: real)
    requires Summarises(c, prices)
    ensures Summarises(Grown(c, px), prices + [px])
  {
  }

  lemma GroupOfMore(ticks: seq<Tick>, i: nat, barSeconds: int, price: string, key: int)
    requires barSeconds > 0 && i < |ticks|
    ensures Group(ticks[..i + 1], barSeconds, price, key) ==
            if BucketOf(ticks[i], barSeconds) == key
            then Group(ticks[..i], barSeconds, price, key) + [PriceOf(ticks[i], price)]
            else Group(ticks[..i], barSeconds, price, key)
  {
    assert ticks[..i + 1][..i] == ticks[..i];
  }

  lemma OneMoreTick(bars: map<int, Candle>, ticks: seq<Tick>, i: nat, barSeconds: int, price: string)
    requires barSeconds > 0 && i < |ticks| && GroupedInto(bars, ticks[..i], barSeconds, price)
    ensures var k := BucketOf(ticks[i], barSeconds);
            GroupedInto(bars[k := Taken(bars, k, PriceOf(ticks[i], price))], ticks[..i + 1], barSeconds, price)
  {
    var key, px := BucketOf(ticks[i], barSeconds), PriceOf(ticks[i], price);
    var after := bars[key := Taken(bars, key, px)];
    forall k
      ensures k in after <==> Group(ticks[..i + 1], barSeconds, price, k) != []
      ensures k in after ==> Summarises(after[k], Group(ticks[..i + 1], barSeconds, price, k))
    {
      GroupOfMore(ticks, i, barSeconds, price, k);
      if k == key && key in bars {
        GrownSummarises(bars[key], Group(ticks[..i], barSeconds, price, key), px);
      }
    }
  }

  // ---------- what the bars add up to ----------

  /** Every tick is in the group of its bucket and in no other. */
  lemma {:induction false} TickIsInItsGroup(ticks: seq<Tick>, j: nat, barSeconds: int, price: string)
    requires barSeconds > 0 && j < |ticks|
    ensures PriceOf(ticks[j], price) in Group(ticks, barSeconds, price, BucketOf(ticks[j], barSeconds))
    decreases |ticks|
  {
    if j < |ticks| - 1 {
      TickIsInItsGroup(ticks[..|ticks| - 1], j, barSeconds, price);
    }
  }

  /** How many ticks the buckets in a list have between them. */
  ghost function Sizes(ticks: seq<Tick>, barSeconds: int, price: string, keys: seq<int>): nat
    requires barSeconds > 0
  {
    if keys == [] then 0 else |Group(ticks, barSeconds, price, keys[0])| + Sizes(ticks, barSeconds, price, keys[1..])
  }

  ghost function TotalVolume(bars: map<int, Candle>, keys: seq<int>): nat {
    if keys == [] then 0 else (if keys[0] in bars then bars[keys[0]].volume else 0) + TotalVolume(bars, keys[1..])
  }

  ghost predicate NoRepeats(keys: seq<int>) {
    forall i, j :: 0 <= i < j < |keys| ==> keys[i] != keys[j]
  }

  /** One more tick adds one to the list's total if its bucket is listed. */
  lemma {:induction false} SizesGrow(ticks: seq<Tick>, i: nat, barSeconds: int, price: string, keys: seq<int>)
    requires barSeconds > 0 && i < |ticks| && NoRepeats(keys)
    ensures Sizes(ticks[..i + 1], barSeconds, price, keys) ==
            Sizes(ticks[..i], barSeconds, price, keys) + if BucketOf(ticks[i], barSeconds) in keys then 1 else 0
  {
    if keys != [] {
      GroupOfMore(ticks, i, barSeconds, price, keys[0]);
      SizesGrow(ticks, i, barSeconds, price, keys[1..]);
      assert keys == [keys[0]] + keys[1..];
    }
  }

  lemma {:induction false} SizesAddUp(ticks: seq<Tick>, i: nat, barSeconds: int, price: string, keys: seq<int>)
    requires barSeconds > 0 && i <= |ticks| && NoRepeats(keys)
    requires forall j :: 0 <= j < |ticks| ==> BucketOf(ticks[j], barSeconds) in keys
    ensures Sizes(ticks[..i], barSeconds, price, keys) == i
  {
    if i == 0 {
      NothingToCount(barSeconds, price, keys);
      assert ticks[..0] == [];
    } else {
      SizesAddUp(ticks, i - 1, barSeconds, price, keys);
      SizesGrow(ticks, i - 1, barSeconds, price, keys);
    }
  }

  lemma {:induction false} NothingToCount(barSeconds: int, price: string, keys: seq<int>)
    requires barSeconds > 0
    ensures Sizes([], barSeconds, price, keys) == 0
  {
    if keys != [] {
      NothingToCount(barSeconds, price, keys[1..]);
    }
  }

  lemma {:induction false} VolumesAreSizes(bars: map<int, Candle>, ticks: seq<Tick>, barSeconds: int, price: string,
                                           keys: seq<int>)
    requires barSeconds > 0 && GroupedInto(bars, ticks, barSeconds, price) && forall k :: k in keys ==> k in bars
    ensures TotalVolume(bars, keys) == Sizes(ticks, barSeconds, price, keys)
  {
    if keys != [] {
      VolumesAreSizes(bars, ticks, barSeconds, price, keys[1..]);
    }
  }

  /** However the bars are listed, their volumes add up to the number of ticks. */
  lemma VolumesAddUp(bars: map<int, Candle>, ticks: seq<Tick>, barSeconds: int, price: string, keys: seq<int>)
    requires barSeconds > 0 && GroupedInto(bars, ticks, barSeconds, price)
    requires NoRepeats(keys) && forall k :: k in keys <==> k in bars
    ensures TotalVolume(bars, keys) == |ticks|
  {
    VolumesAreSizes(bars, ticks, barSeconds, price, keys);
    forall j | 0 <= j < |ticks| ensures BucketOf(ticks[j], barSeconds) in keys {
      TickIsInItsGroup(ticks, j, barSeconds, price);
    }
    SizesAddUp(ticks, |ticks|, barSeconds, price, keys);
    assert ticks[..|ticks|] == ticks;
  }

  /** A bar's key is the key of one of its ticks, so it is a multiple of the bar length. */
  lemma {:induction false} GroupHasTick(ticks: seq<Tick>, barSeconds: int, price: string, key: int) returns (j: nat)
    requires barSeconds > 0 && Group(ticks, barSeconds, price, key) != []
    ensures j < |ticks| && BucketOf(ticks[j], barSeconds) == key && key % barSeconds == 0
    decreases |ticks|
  {
    j := |ticks| - 1;
    if BucketOf(ticks[j], barSeconds) != key {
      j := GroupHasTick(ticks[..j], barSeconds, price, key);
    } else {
      FloorIsMultiple(Truncate(ticks[j].time), barSeconds);
    }
  }

  lemma FloorIsMultiple(sec: int, barSeconds: int)
    requires barSeconds > 0
    ensures FloorBarStart(sec, barSeconds) % barSeconds == 0
    ensures FloorBarStart(sec, barSeconds) <= sec < FloorBarStart(sec, barSeconds) + barSeconds
  {
    var q, r := sec / barSeconds, sec % barSeconds;
    MultipleLeavesNothing(q, barSeconds);
    assert sec - r == q * barSeconds;
  }

  lemma MultipleLeavesNothing(q: int, m: int)
    requires m > 0
    ensures q * m % m == 0
  {
    var d, r := q - q * m / m, q * m % m;
    assert d * m == r;
    AtLeastOneMultiple(d, m);
  }

  lemma AtLeastOneMultiple(d: int, m: int)
    requires m > 0
    ensures d >= 1 ==> d * m >= m
    ensures d <= -1 ==> d * m <= -m
  {
  }

  /**
   When a tick lies in its bar's stretch of time. It always does from 1970 on. Before, seconds are cut towards zero, and
   a tick less than a second ahead of a bar is put into that bar.
   */
  lemma TickLiesInItsBar(t: Tick, barSeconds: int)
    requires barSeconds > 0
    ensures var key := BucketOf(t, barSeconds);
            key as real <= t.time < (key + barSeconds) as real <==>
            t.time >= 0.0 || t.time == t.time.Floor as real || Truncate(t.time) % barSeconds != 0
  {
    var sec := Truncate(t.time);
    FloorIsMultiple(sec, barSeconds);
    TruncateBounds(t.time, sec);
    LiesInBar(t.time, sec, sec - sec % barSeconds, barSeconds);
  }

  /** Cutting towards zero, from either side. */
  lemma TruncateBounds(x: real, sec: int)
    requires sec == Truncate(x)
    ensures x >= 0.0 ==> sec as real <= x < (sec + 1) as real
    ensures x < 0.0 ==> (sec - 1) as real < x <= sec as real
    ensures x == sec as real <==> x == x.Floor as real
  {
    if x >= 0.0 {
      FloorBounds(x);
    } else {
      FloorBounds(-x);
      FloorOfWhole(x, sec);
    }
  }

  lemma FloorBounds(x: real)
    ensures x.Floor as real <= x < (x.Floor + 1) as real
  {
  }

  lemma FloorOfWhole(x: real, sec: int)
    requires (sec - 1) as real < x <= sec as real
    ensures x == sec as real <==> x == x.Floor as real
  {
    var f := x.Floor;
    FloorBounds(x);
    if x == sec as real {
      IntegersOrdered(f, sec + 1);
      IntegersOrdered(sec, f + 1);
    } else if x == f as real {
      IntegersOrdered(sec - 1, f);
      IntegersOrdered(f, sec);
    }
  }

  lemma IntegersOrdered(a: int, b: int)
    ensures a as real < b as real ==> a < b
  {
  }

  /** A time near its second lies in a bar around that second unless it is just ahead of the bar's start. */
  lemma LiesInBar(x: real, sec: int, key: int, barSeconds: int)
    requires barSeconds > 0 && key <= sec < key + barSeconds
    requires x >= 0.0 ==> sec as real <= x < (sec + 1) as real
    requires x < 0.0 ==> (sec - 1) as real < x <= sec as real
    ensures key as real <= x < (key + barSeconds) as real <==> x >= 0.0 || x == sec as real || key != sec
  {
    if x < 0.0 && key != sec {
      assert key as real <= (sec - 1) as real;
    }
  }

  lemma TickAheadOfItsBar()
    ensures var t := Tick(-0.5, 1.0, 1.0); BucketOf(t, 60) == 0 && t.time < 0.0
  {
  }

  /** The quote a bar is built from: the bid, the ask, or the middle. */
  lemma PriceExactly(t: Tick, price: string, px: real)
    ensures PriceOf(t, price) == px <==>
            (price == "bid" && px == t.bid) || (price == "ask" && px == t.ask)
            || (price != "bid" && price != "ask" && px + px == t.bid + t.ask)
  {
  }

  /** A tick's bucket starts at the last multiple of the bar length not after its whole seconds. */
  lemma BucketExactly(t: Tick, barSeconds: int, key: int, sec: int)
    requires barSeconds > 0
    requires if t.time >= 0.0 then sec as real <= t.time < (sec + 1) as real
            else (sec - 1) as real < t.time <= sec as real
    ensures BucketOf(t, barSeconds) == key <==> key % barSeconds == 0 && key <= sec < key + barSeconds
  {
    TruncateBounds(t.time, Truncate(t.time));
    IntegersOrdered(sec, Truncate(t.time) + 1);
    IntegersOrdered(Truncate(t.time), sec + 1);
    IntegersOrdered(sec - 1, Truncate(t.time));
    IntegersOrdered(Truncate(t.time) - 1, sec);
    FloorIsMultiple(sec, barSeconds);
    if key % barSeconds == 0 && key <= sec < key + barSeconds {
      MultipleIsFloor(sec, key, barSeconds);
    }
  }

  lemma MultipleIsFloor(sec: int, key: int, m: int)
    requires m > 0 && key % m == 0 && key <= sec < key + m
    ensures key == FloorBarStart(sec, m)
  {
    var q, p := key / m, sec / m;
    assert key == q * m && sec == p * m + sec % m;
    AtLeastOneMultiple(p - q, m);
  }

  /** The bar of a bucket, straight from the ticks: which of them it holds, in order. */
  ghost predicate Members(ticks: seq<Tick>, barSeconds: int, key: int, at: seq<nat>)
    requires barSeconds > 0
  {
    && (forall i :: 0 <= i < |at| ==> at[i] < |ticks| && BucketOf(ticks[at[i]], barSeconds) == key)
    && (forall i, j :: 0 <= i < j < |at| ==> at[i] < at[j])
    && forall k :: 0 <= k < |ticks| && BucketOf(ticks[k], barSeconds) == key ==> k in at
  }

  /** A bucket's group is the prices of its ticks. */
  lemma {:induction false} GroupExactly(ticks: seq<Tick>, barSeconds: int, price: string, key: int)
    returns (at: seq<nat>)
    requires barSeconds > 0
    ensures Members(ticks, barSeconds, key, at) && |at| == |Group(ticks, barSeconds, price, key)|
    ensures forall i :: 0 <= i < |at| ==> Group(ticks, barSeconds, price, key)[i] == PriceOf(ticks[at[i]], price)
  {
    at := [];
    if ticks != [] {
      var n := |ticks| - 1;
      at := GroupExactly(ticks[..n], barSeconds, price, key);
      if BucketOf(ticks[n], barSeconds) == key {
        at := at + [n];
      }
    }
  }
}
