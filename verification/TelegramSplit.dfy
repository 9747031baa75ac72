/**
 The message splitter (internal/notify/telegram.go, lines 284-327): greedy chunks of a byte string, cut where decoding
 stands, each within a budget of UTF-16 units. Bytes that do not decode count for nothing.
 */
module TelegramSplit {
  import opened Utf8
  import opened GreedyCuts
  import Utf16

  const MIN_BUDGET: nat := 256

  /** What the first code point, or error byte, of a text weighs. */
  function FirstUnits(s: Text): (u: nat)
    requires s != []
    ensures u <= HEAVIEST
  {
    if IsError(Decode(s)) then 0 else Utf16Len(Decode(s).rune)
  }

  /** UTF-16 units of the code points in a text, decoded from its start. */
  ghost function Units(s: Text): nat {
    if s == [] then 0 else FirstUnits(s) + Units(s[Decode(s).width..])
  }

  ghost function TapeOf(s: Text): (t: Tape)
    ensures Lawful(t) && t.size == |s|
  {
    Tape(|s|,
         (i: nat) => if i < |s| then Decode(s[i..]).width else 0,
         (i: nat) => if i < |s| then FirstUnits(s[i..]) else 0)
  }

  /** The pieces of a text between cuts, from position `i` on. */
  ghost function Pieces(s: Text, i: nat, cuts: seq<nat>): seq<Text>
    decreases |cuts|
  {
    if cuts == [] then [] else [Piece(s, i, cuts[0])] + Pieces(s, cuts[0], cuts[1..])
  }

  ghost function Piece(s: Text, i: nat, j: nat): Text {
    if i <= j <= |s| then s[i..j] else []
  }

  ghost function Chunks(s: Text, i: nat, budget: nat): seq<Text>
    requires i <= |s| && budget >= HEAVIEST
  {
    ChunksOn(TapeOf(s), s, i, budget)
  }

  /** The greedy pieces of a text along a tape. */
  ghost function ChunksOn(t: Tape, s: Text, i: nat, budget: nat): seq<Text>
    requires Lawful(t) && t.size == |s| && i <= |s| && budget >= HEAVIEST
  {
    Pieces(s, i, Greedy(t, i, budget))
  }

  function Budget(maxUTF16: int): (b: nat)
    ensures b == if maxUTF16 < 256 then 256 else maxUTF16
  {
    if maxUTF16 < MIN_BUDGET then MIN_BUDGET else maxUTF16
  }

  lemma ChunksUnfold(s: Text, i: nat, end: nat, budget: nat)
    requires i < |s| && budget >= HEAVIEST && end == Reach(TapeOf(s), i, 0, budget)
    ensures i < end <= |s| && Chunks(s, i, budget) == [s[i..end]] + Chunks(s, end, budget)
  {
    ChunksOnUnfold(TapeOf(s), s, i, end, budget);
  }

  lemma ChunksOnUnfold(t: Tape, s: Text, i: nat, end: nat, budget: nat)
    requires Lawful(t) && t.size == |s| && i < |s| && budget >= HEAVIEST && end == Reach(t, i, 0, budget)
    ensures i < end <= |s| && ChunksOn(t, s, i, budget) == [s[i..end]] + ChunksOn(t, s, end, budget)
  {
    GreedyUnfolds(t, i, end, budget);
    var rest := Greedy(t, end, budget);
    assert ([end] + rest)[1..] == rest;
  }

  // ---------- the splitter ----------

  method Split(text: Text, maxUTF16: int) returns (out: seq<Text>)
    ensures out == Chunks(text, 0, Budget(maxUTF16))
    ensures Concat(out) == text
    ensures forall c :: c in out ==> c != [] && Utf16Size(c) <= if maxUTF16 < 256 then 256 else maxUTF16
  {
    ChunksFitUtf16(text, Budget(maxUTF16));
    if text == [] {
      return [];
    }
    var max := maxUTF16;
    if max < 256 {
      max := 256;
    }
    DecoderReads(text);
    out := CutAll(DecodeRune, text, max, TapeOf(text));
  }

  /** The outer loop, for any decoder and a tape it reads. The chunk is never empty: the early exit is never taken. */
  method CutAll(decode: Text -> Decoded, text: Text, max: nat, ghost t: Tape) returns (out: seq<Text>)
    requires Lawful(t) && max >= MIN_BUDGET && ReadsOff(decode, text, t, 0)
    ensures out == ChunksOn(t, text, 0, max)
  {
    var s := text;
    ghost var at := 0;
    out := [];
    while |s| > 0
      invariant at <= |text| && s == text[at..]
      invariant out + ChunksOn(t, text, at, max) == ChunksOn(t, text, 0, max)
      decreases |s|
    {
      ghost var whole := out + ChunksOn(t, text, at, max);
      SuffixReadsOff(decode, text, t, at);
      var i, nRunes := ScanChunk(decode, s, max, t, at);
      NextPiece(s, text, t, at, i, max);
      if nRunes == 0 {
        if i == 0 {
          break;
        }
      }
      OneMore(out, s[..i], ChunksOn(t, text, at + i, max));
      out := out + [s[..i]];
      s := s[i..];
      at := at + i;
      assert out + ChunksOn(t, text, at, max) == whole;
    }
  }

  lemma NextPiece(s: Text, text: Text, t: Tape, at: nat, i: nat, budget: nat)
    requires Lawful(t) && t.size == |text| && budget >= HEAVIEST && at < |text| && s == text[at..]
    requires at + i == Reach(t, at, 0, budget)
    ensures 0 < i <= |s| && s[i..] == text[at + i..]
    ensures ChunksOn(t, text, at, budget) == [s[..i]] + ChunksOn(t, text, at + i, budget)
  {
    ChunksOnUnfold(t, text, at, at + i, budget);
    assert text[at..at + i] == s[..i];
  }

  lemma OneMore<T>(xs: seq<T>, x: T, rest: seq<T>)
    ensures xs + ([x] + rest) == xs + [x] + rest
  {
  }

  /** A decoder reads an item off a tape. */
  predicate Reading(t: Tape, p: nat, d: Decoded) {
    t.width(p) == d.width && t.units(p) == if IsError(d) then 0 else Utf16Len(d.rune)
  }

  /** It does so at every position of a text that starts at `at` on the tape. */
  ghost predicate ReadsOff(decode: Text -> Decoded, s: Text, t: Tape, at: nat) {
    at + |s| == t.size && forall k: nat :: k < |s| ==> Reading(t, at + k, decode(s[k..]))
  }

  lemma DecoderReads(text: Text)
    ensures ReadsOff(DecodeRune, text, TapeOf(text), 0)
  {
  }

  lemma SuffixReadsOff(decode: Text -> Decoded, text: Text, t: Tape, at: nat)
    requires ReadsOff(decode, text, t, 0) && at <= |text|
    ensures ReadsOff(decode, text[at..], t, at)
  {
    var s := text[at..];
    forall k: nat | k < |s| ensures Reading(t, at + k, decode(s[k..])) {
      assert s[k..] == text[at + k..];
      assert Reading(t, 0 + (at + k), decode(text[at + k..]));
    }
  }

  /** The inner loop: how far the next chunk reaches, and how many code points it holds. */
  method ScanChunk(decode: Text -> Decoded, s: Text, max: nat, ghost t: Tape, ghost at: nat)
    returns (i: nat, nRunes: nat)
    requires Lawful(t) && max >= MIN_BUDGET && ReadsOff(decode, s, t, at)
    ensures at + i == Reach(t, at, 0, max)
  {
    var u16: nat := 0;
    i, nRunes := 0, 0;
    while i < |s|
      invariant i <= |s| && u16 <= max
      invariant Reach(t, at + i, u16, max) == Reach(t, at, 0, max)
      invariant nRunes == 0 ==> u16 == 0
      decreases |s| - i
    {
      var d := decode(s[i..]);
      assert Reading(t, at + i, d);
      if IsError(d) {
        i := i + d.width;
        continue;
      }
      var ru := Utf16Len(d.rune);
      if u16 + ru > max && nRunes > 0 {
        break;
      }
      u16 := u16 + ru;
      nRunes := nRunes + 1;
      i := i + d.width;
    }
  }

  // ---------- what it promises ----------

  /** `parts` divide the text from `i` on: every cut where decoding the text stands, every piece within the budget. */
  ghost predicate Division(text: Text, i: nat, parts: seq<Text>, budget: nat)
    requires i <= |text|
    decreases |parts|
  {
    if parts == [] then i == |text|
    else
      var e := i + |parts[0]|;
      && e <= |text| && parts[0] == text[i..e] && Reads(TapeOf(text), i, e)
      && Units(parts[0]) <= budget
      && Division(text, e, parts[1..], budget)
  }

  function Concat<T>(parts: seq<seq<T>>): seq<T> {
    if parts == [] then [] else parts[0] + Concat(parts[1..])
  }

  /** A piece's first item is the one the text has there, by either count. */
  lemma ItemOfPiece(text: Text, a: nat, b: nat, c: nat)
    requires a < b <= |text| && c == a + Decode(text[a..]).width <= b
    ensures text[a..b] != [] && Decode(text[a..b]) == Decode(text[a..]) && text[a..b][c - a..] == text[c..b]
  {
    assert text[a..][..b - a] == text[a..b];
    DecodeOfPrefix(text[a..], b - a);
  }

  lemma UnitsUnfold(text: Text, a: nat, b: nat, c: nat)
    requires a < b <= |text| && c == a + TapeOf(text).width(a) <= b
    ensures Units(text[a..b]) == TapeOf(text).units(a) + Units(text[c..b])
    ensures CountedUnits(text[a..b]) == CountedTape(text).units(a) + CountedUnits(text[c..b])
  {
    ItemOfPiece(text, a, b, c);
  }

  /** Between two cuts where decoding stands, a piece read by itself weighs what its stretch of the text does. */
  lemma {:induction false} UnitsOfPiece(text: Text, a: nat, b: nat)
    requires a <= b <= |text| && Reads(TapeOf(text), a, b)
    ensures Units(text[a..b]) == Weight(TapeOf(text), a, b)
    decreases b - a
  {
    if a < b {
      var c := a + TapeOf(text).width(a);
      UnitsUnfold(text, a, b, c);
      UnitsOfPiece(text, c, b);
    }
  }

  /** Any division joins up to the text. */
  lemma {:induction false} DivisionKeepsText(text: Text, i: nat, parts: seq<Text>, budget: nat)
    requires i <= |text| && Division(text, i, parts, budget)
    ensures Concat(parts) == text[i..]
    decreases |parts|
  {
    if parts != [] {
      var e := i + |parts[0]|;
      DivisionKeepsText(text, e, parts[1..], budget);
      assert text[i..e] + text[e..] == text[i..];
    }
  }

  /** The chunks are a division of the text, and none is empty. */
  lemma {:induction false} ChunksDivide(text: Text, i: nat, budget: nat)
    requires i <= |text| && budget >= HEAVIEST
    ensures Division(text, i, Chunks(text, i, budget), budget)
    ensures forall c :: c in Chunks(text, i, budget) ==> c != []
    decreases |text| - i
  {
    if i < |text| {
      var e := Reach(TapeOf(text), i, 0, budget);
      ChunksUnfold(text, i, e, budget);
      ChunksDivide(text, e, budget);
      ReachFits(TapeOf(text), i, 0, budget);
      UnitsOfPiece(text, i, e);
      DivisionGrows(text, i, e, Chunks(text, e, budget), budget);
    }
  }

  lemma DivisionGrows(text: Text, i: nat, e: nat, rest: seq<Text>, budget: nat)
    requires i <= e <= |text| && Reads(TapeOf(text), i, e) && Units(text[i..e]) <= budget
    requires Division(text, e, rest, budget)
    ensures Division(text, i, [text[i..e]] + rest, budget)
  {
    var parts := [text[i..e]] + rest;
    assert parts[0] == text[i..e] && parts[1..] == rest;
  }

  lemma {:induction false} ChunksAreCounted(s: Text, i: nat, cuts: seq<nat>)
    ensures |Pieces(s, i, cuts)| == |cuts|
    decreases |cuts|
  {
    if cuts != [] {
      ChunksAreCounted(s, cuts[0], cuts[1..]);
    }
  }

  /** No division of the text has fewer pieces. */
  lemma {:induction false} ChunksAreFewest(text: Text, i: nat, parts: seq<Text>, budget: nat)
    requires i <= |text| && budget >= HEAVIEST && Division(text, i, parts, budget)
    ensures |Chunks(text, i, budget)| <= |parts|
    decreases |parts|
  {
    ChunksAreCounted(text, i, Greedy(TapeOf(text), i, budget));
    if parts != [] && i < |text| {
      var e := i + |parts[0]|;
      UnitsOfPiece(text, i, e);
      ChunksAreFewest(text, e, parts[1..], budget);
      ChunksAreCounted(text, e, Greedy(TapeOf(text), e, budget));
      FirstCutNeedsNoMore(TapeOf(text), i, e, budget);
    }
  }

  lemma {:induction false} PiecesFit(text: Text, i: nat, parts: seq<Text>, budget: nat)
    requires i <= |text| && Division(text, i, parts, budget)
    ensures forall c :: c in parts ==> Units(c) <= budget
    decreases |parts|
  {
    if parts != [] {
      PiecesFit(text, i + |parts[0]|, parts[1..], budget);
    }
  }

  /** What the splitter sends joins up to the text, in non-empty chunks within the budget. */
  lemma ChunksKeepText(text: Text, budget: nat)
    requires budget >= HEAVIEST
    ensures Concat(Chunks(text, 0, budget)) == text
    ensures forall c :: c in Chunks(text, 0, budget) ==> c != [] && Units(c) <= budget
  {
    ChunksDivide(text, 0, budget);
    DivisionKeepsText(text, 0, Chunks(text, 0, budget), budget);
    PiecesFit(text, 0, Chunks(text, 0, budget), budget);
  }

  // ---------- the same in UTF-16 ----------

  /** The code points of a text, decoded from its start; bytes that do not decode give none. */
  ghost function CodePoints(s: Text): (rs: seq<int>)
    ensures Utf16.AllScalars(rs)
  {
    if s == [] then []
    else
      var d := Decode(s);
      if IsError(d) then CodePoints(s[d.width..])
      else
        EncodeOfDecode(s);
        [d.rune] + CodePoints(s[d.width..])
  }

  /** How many UTF-16 units the code points of a text take. */
  ghost function Utf16Size(s: Text): nat {
    |Utf16.EncodeAll(CodePoints(s))|
  }

  /** The splitter's count of a code point is the length of its encoding. */
  lemma UnitsOfCodePoint(r: int)
    requires IsScalar(r)
    ensures Utf16Len(r) == |Utf16.EncodeOne(r)|
  {
  }

  lemma {:induction false} UnitsAreUtf16(s: Text)
    ensures Units(s) == Utf16Size(s)
    decreases |s|
  {
    if s != [] {
      var d := Decode(s);
      UnitsAreUtf16(s[d.width..]);
      if !IsError(d) {
        EncodeOfDecode(s);
        UnitsOfCodePoint(d.rune);
        Utf16.LengthOfMore(d.rune, CodePoints(s[d.width..]));
      }
    }
  }

  /** Decoding on from `a` stands at `b`. */
  ghost predicate DecodesThrough(text: Text, a: nat, b: nat)
    requires a <= |text|
    decreases |text| - a
  {
    a == b || (a < |text| && a + Decode(text[a..]).width <= b && DecodesThrough(text, a + Decode(text[a..]).width, b))
  }

  lemma {:induction false} DecodingIsReading(text: Text, a: nat, b: nat)
    requires a <= |text|
    ensures DecodesThrough(text, a, b) <==> Reads(TapeOf(text), a, b)
    decreases |text| - a
  {
    if a < |text| && a + Decode(text[a..]).width <= b {
      DecodingIsReading(text, a + Decode(text[a..]).width, b);
    }
  }

  /** `parts` divide the text from `i` on, cut where decoding stands, each of at most `limit` UTF-16 units. */
  ghost predicate Utf16Division(text: Text, i: nat, parts: seq<Text>, limit: nat)
    requires i <= |text|
    decreases |parts|
  {
    if parts == [] then i == |text|
    else
      var e := i + |parts[0]|;
      && e <= |text| && parts[0] == text[i..e] && DecodesThrough(text, i, e)
      && Utf16Size(parts[0]) <= limit
      && Utf16Division(text, e, parts[1..], limit)
  }

  lemma {:induction false} DivisionsAgree(text: Text, i: nat, parts: seq<Text>, limit: nat)
    requires i <= |text|
    ensures Utf16Division(text, i, parts, limit) <==> Division(text, i, parts, limit)
    decreases |parts|
  {
    if parts != [] && i + |parts[0]| <= |text| {
      DecodingIsReading(text, i, i + |parts[0]|);
      UnitsAreUtf16(parts[0]);
      DivisionsAgree(text, i + |parts[0]|, parts[1..], limit);
    }
  }

  /** The chunks join up to the text, none is empty, and none takes more than the limit in UTF-16. */
  lemma ChunksFitUtf16(text: Text, limit: nat)
    requires limit >= HEAVIEST
    ensures Concat(Chunks(text, 0, limit)) == text && Utf16Division(text, 0, Chunks(text, 0, limit), limit)
    ensures forall c :: c in Chunks(text, 0, limit) ==> c != [] && Utf16Size(c) <= limit
  {
    ChunksKeepText(text, limit);
    ChunksDivide(text, 0, limit);
    DivisionsAgree(text, 0, Chunks(text, 0, limit), limit);
    forall c | c in Chunks(text, 0, limit) ensures Utf16Size(c) <= limit {
      UnitsAreUtf16(c);
    }
  }

  /** And no division of the text into pieces that fit in UTF-16 has fewer. */
  lemma ChunksAreFewestInUtf16(text: Text, parts: seq<Text>, limit: nat)
    requires limit >= HEAVIEST && Utf16Division(text, 0, parts, limit)
    ensures |Chunks(text, 0, limit)| <= |parts|
  {
    DivisionsAgree(text, 0, parts, limit);
    ChunksAreFewest(text, 0, parts, limit);
  }

  /** The code points when each byte that does not decode is replaced by U+FFFD. */
  ghost function Replaced(s: Text): (rs: seq<int>)
    ensures Utf16.AllScalars(rs)
  {
    if s == [] then []
    else
      if !IsError(Decode(s)) then
        EncodeOfDecode(s);
        [Decode(s).rune] + Replaced(s[Decode(s).width..])
      else
        [0xFFFD] + Replaced(s[Decode(s).width..])
  }

  /** Counting those bytes as one unit each is counting the replaced text in UTF-16. */
  lemma {:induction false} CountedAreUtf16(s: Text)
    ensures CountedUnits(s) == |Utf16.EncodeAll(Replaced(s))|
    decreases |s|
  {
    if s != [] {
      var d := Decode(s);
      CountedAreUtf16(s[d.width..]);
      if !IsError(d) {
        EncodeOfDecode(s);
        UnitsOfCodePoint(d.rune);
        Utf16.LengthOfMore(d.rune, Replaced(s[d.width..]));
      } else {
        Utf16.LengthOfMore(0xFFFD, Replaced(s[d.width..]));
      }
    }
  }

  // ---------- bytes that do not decode ----------

  /** The units of the first item when an error byte counts for one. */
  function FirstCounted(s: Text): (u: nat)
    requires s != []
    ensures 1 <= u <= HEAVIEST
  {
    if IsError(Decode(s)) then 1 else Utf16Len(Decode(s).rune)
  }

  /** Units of a text when every byte that does not decode counts for one. */
  ghost function CountedUnits(s: Text): nat {
    if s == [] then 0 else FirstCounted(s) + CountedUnits(s[Decode(s).width..])
  }

  ghost function CountedTape(s: Text): (t: Tape)
    ensures Lawful(t) && t.size == |s|
  {
    Tape(|s|,
         (i: nat) => if i < |s| then Decode(s[i..]).width else 0,
         (i: nat) => if i < |s| then FirstCounted(s[i..]) else 0)
  }

  lemma CountedIsHeavier(s: Text)
    ensures Heavier(TapeOf(s), CountedTape(s))
  {
  }

  /** A chunk never ends just before a byte that does not decode: what follows a cut is well formed. */
  lemma {:induction false} NoCutBeforeError(text: Text, i: nat, used: nat, budget: nat)
    requires i <= |text| && used <= budget
    requires Reach(TapeOf(text), i, used, budget) < |text|
    ensures WellFormedStart(text[Reach(TapeOf(text), i, used, budget)..])
    decreases |text| - i
  {
    var t := TapeOf(text);
    if used + t.units(i) > budget {
      ErrorIsIllFormed(text[i..]);
    } else {
      NoCutBeforeError(text, i + t.width(i), used + t.units(i), budget);
    }
  }

  lemma {:induction false} CountedOfPiece(text: Text, a: nat, b: nat)
    requires a <= b <= |text| && Reads(TapeOf(text), a, b)
    ensures CountedUnits(text[a..b]) == Weight(CountedTape(text), a, b)
    decreases b - a
  {
    if a < b {
      var c := a + TapeOf(text).width(a);
      UnitsUnfold(text, a, b, c);
      CountedOfPiece(text, c, b);
    }
  }

  /**
   A piece keeps the limit, counting those bytes, exactly when it ends no later than a chunk of the counted tape would.
   */
  lemma PieceKeepsLimitIff(text: Text, i: nat, e: nat, budget: nat)
    requires i <= e <= |text| && Reads(TapeOf(text), i, e)
    ensures CountedUnits(text[i..e]) <= budget <==> e <= Reach(CountedTape(text), i, 0, budget)
  {
    var h := CountedTape(text);
    var f := Reach(h, i, 0, budget);
    CountedOfPiece(text, i, e);
    CountedIsHeavier(text);
    SameReads(TapeOf(text), h, i, e);
    ReachFits(h, i, 0, budget);
    if e <= f {
      LongerWeighsMore(h, i, e, f);
    } else if Weight(h, i, e) <= budget {
      ReachIsLongest(h, i, 0, budget, e);
    }
  }

  ghost predicate AllKeepLimit(parts: seq<Text>, budget: nat) {
    forall c :: c in parts ==> CountedUnits(c) <= budget
  }

  /** All the chunks keep the limit exactly when counting those bytes would have led to the same cuts. */
  lemma {:induction false} ChunksKeepLimitIff(text: Text, i: nat, budget: nat)
    requires i <= |text| && budget >= HEAVIEST
    ensures AllKeepLimit(Chunks(text, i, budget), budget) <==>
            Greedy(TapeOf(text), i, budget) == Greedy(CountedTape(text), i, budget)
    decreases |text| - i
  {
    if i < |text| {
      var t, h := TapeOf(text), CountedTape(text);
      var e, f := Reach(t, i, 0, budget), Reach(h, i, 0, budget);
      ChunksUnfold(text, i, e, budget);
      FirstKeepsIff(text[i..e], Chunks(text, e, budget), budget);
      ReachFits(t, i, 0, budget);
      PieceKeepsLimitIff(text, i, e, budget);
      CountedIsHeavier(text);
      HeavierReachesLess(t, h, i, 0, 0, budget);
      GreedyUnfolds(t, i, e, budget);
      GreedyUnfolds(h, i, f, budget);
      ChunksKeepLimitIff(text, e, budget);
      SameTail(e, Greedy(t, e, budget), f, Greedy(h, f, budget));
    }
  }

  lemma FirstKeepsIff(first: Text, rest: seq<Text>, budget: nat)
    ensures AllKeepLimit([first] + rest, budget) <==> CountedUnits(first) <= budget && AllKeepLimit(rest, budget)
  {
    var all := [first] + rest;
    assert first in all;
    assert forall c :: c in rest ==> c in all;
  }

  lemma SameTail(x: nat, xs: seq<nat>, y: nat, ys: seq<nat>)
    ensures [x] + xs == [y] + ys <==> x == y && xs == ys
  {
    assert ([x] + xs)[0] == x && ([y] + ys)[0] == y;
    assert ([x] + xs)[1..] == xs && ([y] + ys)[1..] == ys;
  }

  /** Every item read from `i` on decodes. */
  ghost predicate AllDecode(text: Text, i: nat)
    requires i <= |text|
    decreases |text| - i
  {
    i == |text| || (!IsError(Decode(text[i..])) && AllDecode(text, i + Decode(text[i..]).width))
  }

  lemma {:induction false} DecodedWeighsSame(text: Text, i: nat)
    requires i <= |text| && AllDecode(text, i)
    ensures Heavier(TapeOf(text), CountedTape(text)) && SameFrom(TapeOf(text), CountedTape(text), i)
    decreases |text| - i
  {
    CountedIsHeavier(text);
    if i < |text| {
      DecodedWeighsSame(text, i + Decode(text[i..]).width);
    }
  }

  /** So a text that decodes throughout always keeps the limit. */
  lemma DecodedTextKeepsLimit(text: Text, budget: nat)
    requires budget >= HEAVIEST && AllDecode(text, 0)
    ensures AllKeepLimit(Chunks(text, 0, budget), budget)
  {
    DecodedWeighsSame(text, 0);
    SameCuts(TapeOf(text), CountedTape(text), 0, budget);
    ChunksKeepLimitIff(text, 0, budget);
  }

  /** None of the bytes from `a` to `b` decodes. */
  ghost predicate ErrorRun(text: Text, a: nat, b: nat) {
    a <= b <= |text| && forall p :: a <= p < b ==> IsError(Decode(text[p..]))
  }

  lemma {:induction false} ErrorRunIsCounted(text: Text, a: nat, b: nat)
    requires ErrorRun(text, a, b)
    ensures Reads(CountedTape(text), a, b) && Weight(CountedTape(text), a, b) == b - a
    decreases b - a
  {
    if a < b {
      ErrorRunIsCounted(text, a + 1, b);
    }
  }

  /** And more of them in a row than the budget always break it: they all end up in one chunk. */
  lemma {:induction false} LongErrorRunBreaksLimit(text: Text, i: nat, a: nat, b: nat, budget: nat)
    requires budget >= HEAVIEST && i <= a && ErrorRun(text, a, b) && b - a > budget
    requires Reads(TapeOf(text), i, a)
    ensures !AllKeepLimit(Chunks(text, i, budget), budget)
    decreases |text| - i
  {
    var t := TapeOf(text);
    var e := Reach(t, i, 0, budget);
    ChunksUnfold(text, i, e, budget);
    FirstKeepsIff(text[i..e], Chunks(text, e, budget), budget);
    ReachFits(t, i, 0, budget);
    if e <= a {
      ReadsSplit(t, i, e, a);
      LongErrorRunBreaksLimit(text, e, a, b, budget);
    } else {
      CutIsPastRun(text, i, a, b, budget);
      HoldsRun(text, i, a, b, e);
    }
  }

  lemma CutIsPastRun(text: Text, i: nat, a: nat, b: nat, budget: nat)
    requires i <= |text| && ErrorRun(text, a, b) && a < Reach(TapeOf(text), i, 0, budget)
    ensures b <= Reach(TapeOf(text), i, 0, budget)
  {
    var e := Reach(TapeOf(text), i, 0, budget);
    if e < b {
      NoCutBeforeError(text, i, 0, budget);
      ErrorIsIllFormed(text[e..]);
    }
  }

  /** A piece that holds a run counts at least its length. */
  lemma HoldsRun(text: Text, i: nat, a: nat, b: nat, e: nat)
    requires i <= a && ErrorRun(text, a, b) && b <= e <= |text|
    requires Reads(TapeOf(text), i, a) && Reads(TapeOf(text), i, e)
    ensures CountedUnits(text[i..e]) >= b - a
  {
    var h := CountedTape(text);
    CountedOfPiece(text, i, e);
    CountedIsHeavier(text);
    SameReads(TapeOf(text), h, i, a);
    LaterWeighsNoMore(h, i, a, e);
    ErrorRunIsCounted(text, a, b);
    LongerWeighsMore(h, a, b, e);
  }
}
