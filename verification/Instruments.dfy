/**
 Instruments as configuration names them (internal/strategy/factory.go, lines 67-119), how bars are matched to them, and
 the keys of their states (internal/strategy/ema_cross_atr.go, lines 51-53 and 146-156).
 */
module Instruments {
  import opened Types

  /** Unicode white space, as the trimming of symbols uses it. */
  predicate IsSpace(c: char) {
    || '\U{9}' <= c <= '\U{D}'
    || c in {'\U{20}', '\U{85}', '\U{A0}', '\U{1680}', '\U{2028}', '\U{2029}', '\U{202F}', '\U{205F}', '\U{3000}'}
    || '\U{2000}' <= c <= '\U{200A}'
  }

  function TrimLeft(s: string): string {
    if s != "" && IsSpace(s[0]) then TrimLeft(s[1..]) else s
  }

  function TrimRight(s: string): string {
    if s != "" && IsSpace(s[|s| - 1]) then TrimRight(s[..|s| - 1]) else s
  }

  function TrimSpace(s: string): string {
    TrimRight(TrimLeft(s))
  }

  function InstKey(ins: Instrument): string {
    ins.venue + "|" + TrimSpace(ins.symbol)
  }

  predicate Matches(ins: Instrument, b: Bar) {
    ins.venue == b.instrument.venue && ins.symbol == b.instrument.symbol
  }

  /** The first configured instrument with the bar's venue and symbol. */
  function Target(universe: seq<Instrument>, b: Bar): (t: Option<Instrument>)
    ensures t.Some? ==> t.value in universe && Matches(t.value, b)
    ensures t.None? ==> forall i :: 0 <= i < |universe| ==> !Matches(universe[i], b)
    ensures t.Some? ==> t.value.venue == b.instrument.venue && t.value.symbol == b.instrument.symbol
    ensures t.None? ==> forall i :: 0 <= i < |universe| ==>
              !(universe[i].venue == b.instrument.venue && universe[i].symbol == b.instrument.symbol)
  {
    if universe == [] then None
    else if Matches(universe[0], b) then Some(universe[0])
    else Target(universe[1..], b)
  }

  // ---------- parsing ----------

  /** Where the first colon is, or the length. */
  function FirstColon(s: string): (i: nat)
    ensures i <= |s| && (i < |s| ==> s[i] == ':')
  {
    if s == "" || s[0] == ':' then 0 else 1 + FirstColon(s[1..])
  }

  /** `VENUE:PAIR`, or a bare pair, which is PAPER's. `upper` is the conversion to upper case. */
  function ParseSymbol(s: string, upper: string -> string): Option<Instrument> {
    var rest := TrimSpace(s);
    var i := FirstColon(rest);
    var venue := if i < |rest| then upper(rest[..i]) else "PAPER";
    var symbol := TrimSpace(if i < |rest| then rest[i + 1..] else rest);
    if rest == "" || symbol == "" then None else Some(Instrument(venue, symbol, Spot))
  }

  lemma {:induction false} TrimRightIsTrimmed(s: string)
    ensures TrimRight(s) <= s
    ensures TrimRight(s) != "" ==> !IsSpace(TrimRight(s)[|TrimRight(s)| - 1])
  {
    if s != "" && IsSpace(s[|s| - 1]) {
      TrimRightIsTrimmed(s[..|s| - 1]);
    }
  }

  lemma {:induction false} TrimLeftIsTrimmed(s: string)
    ensures TrimLeft(s) != "" ==> !IsSpace(TrimLeft(s)[0])
  {
    if s != "" && IsSpace(s[0]) {
      TrimLeftIsTrimmed(s[1..]);
    }
  }

  /** Trimming twice is trimming once. */
  lemma TrimmedStaysTrimmed(s: string)
    ensures TrimSpace(TrimSpace(s)) == TrimSpace(s)
  {
    TrimLeftIsTrimmed(s);
    TrimRightIsTrimmed(TrimLeft(s));
  }

  /** So a parsed instrument's symbol has no space around it. */
  lemma ParsedIsTrimmed(s: string, upper: string -> string)
    requires ParseSymbol(s, upper).Some?
    ensures TrimSpace(ParseSymbol(s, upper).value.symbol) == ParseSymbol(s, upper).value.symbol
  {
    var rest := TrimSpace(s);
    var i := FirstColon(rest);
    TrimmedStaysTrimmed(if i < |rest| then rest[i + 1..] else rest);
  }

  lemma {:induction false} NoEarlierColon(s: string)
    ensures ':' !in s[..FirstColon(s)]
  {
    if s != "" && s[0] != ':' {
      NoEarlierColon(s[1..]);
      assert s[..FirstColon(s)] == [s[0]] + s[1..][..FirstColon(s[1..])];
    }
  }

  /** And its venue has no colon, if upper-casing adds none. */
  lemma ParsedVenueHasNoColon(s: string, upper: string -> string)
    requires ParseSymbol(s, upper).Some?
    requires forall x :: ':' !in x ==> ':' !in upper(x)
    ensures ':' !in ParseSymbol(s, upper).value.venue
  {
    NoEarlierColon(TrimSpace(s));
  }

  /** Nothing but white space, listed by number. */
  ghost predicate Blank(s: string) {
    forall i :: 0 <= i < |s| ==>
      s[i] as int in {9, 10, 11, 12, 13, 32, 0x85, 0xA0, 0x1680, 0x2000, 0x2001, 0x2002, 0x2003, 0x2004, 0x2005, 0x2006,
                      0x2007, 0x2008, 0x2009, 0x200A, 0x2028, 0x2029, 0x202F, 0x205F, 0x3000}
  }

  /** Text that neither starts nor ends with white space. */
  ghost predicate Bare(s: string) {
    s != "" ==> !Blank([s[0]]) && !Blank([s[|s| - 1]])
  }

  lemma BlankChar(c: char)
    ensures Blank([c]) <==> IsSpace(c)
  {
    assert [c][0] == c;
    assert IsSpace(c) ==> Blank([c]);
  }

  lemma {:induction false} TrimLeftExactly(blank: string, rest: string)
    requires Blank(blank) && (rest != "" ==> !Blank([rest[0]]))
    ensures TrimLeft(blank + rest) == rest
  {
    if blank == "" {
      assert blank + rest == rest;
      if rest != "" {
        BlankChar(rest[0]);
      }
    } else {
      assert (blank + rest)[1..] == blank[1..] + rest;
      TrimLeftExactly(blank[1..], rest);
      BlankChar(blank[0]);
    }
  }

  lemma {:induction false} TrimRightExactly(rest: string, blank: string)
    requires Blank(blank) && (rest != "" ==> !Blank([rest[|rest| - 1]]))
    ensures TrimRight(rest + blank) == rest
  {
    if blank == "" {
      assert rest + blank == rest;
      if rest != "" {
        BlankChar(rest[|rest| - 1]);
      }
    } else {
      var n := |blank| - 1;
      assert (rest + blank)[..|rest + blank| - 1] == rest + blank[..n];
      TrimRightExactly(rest, blank[..n]);
      BlankChar(blank[n]);
    }
  }

  /** Trimming takes the white space round a text away, and nothing else. */
  lemma TrimExactly(before: string, core: string, after: string)
    requires Blank(before) && Bare(core) && core != "" && Blank(after)
    ensures TrimSpace(before + core + after) == core
  {
    assert before + core + after == before + (core + after) && (core + after)[0] == core[0];
    TrimLeftExactly(before, core + after);
    TrimRightExactly(core, after);
  }

  lemma TrimOfBlank(s: string)
    requires Blank(s)
    ensures TrimSpace(s) == ""
  {
    assert s + "" == s;
    TrimLeftExactly(s, "");
  }

  lemma {:induction false} FirstColonAt(v: string, x: string)
    requires ':' !in v
    ensures FirstColon(v + ":" + x) == |v|
  {
    if v != "" {
      assert (v + ":" + x)[1..] == v[1..] + ":" + x;
      FirstColonAt(v[1..], x);
    }
  }

  lemma {:induction false} NoColon(s: string)
    requires ':' !in s
    ensures FirstColon(s) == |s|
  {
    if s != "" {
      NoColon(s[1..]);
    }
  }

  /** `VENUE:PAIR` with white space round it and before the pair: the upper-case venue, and the pair. */
  lemma ParsesPair(before: string, venue: string, gap: string, pair: string, after: string, upper: string -> string)
    requires Blank(before) && Blank(gap) && Blank(after) && ':' !in venue && pair != "" && Bare(pair)
    requires venue != "" ==> !Blank([venue[0]])
    ensures ParseSymbol(before + (venue + ":" + (gap + pair)) + after, upper)
         == Some(Instrument(upper(venue), pair, Spot))
  {
    var rest := venue + ":" + (gap + pair);
    assert rest[|rest| - 1] == pair[|pair| - 1] && rest[0] == if venue != "" then venue[0] else ':';
    TrimExactly(before, rest, after);
    FirstColonAt(venue, gap + pair);
    assert rest[..|venue|] == venue && rest[|venue| + 1..] == gap + pair;
    assert gap + pair == gap + pair + "";
    TrimExactly(gap, pair, "");
  }

  /** A name without a colon is PAPER's. */
  lemma ParsesBareName(before: string, pair: string, after: string, upper: string -> string)
    requires Blank(before) && Blank(after) && ':' !in pair && pair != "" && Bare(pair)
    ensures ParseSymbol(before + pair + after, upper) == Some(Instrument("PAPER", pair, Spot))
  {
    TrimExactly(before, pair, after);
    NoColon(pair);
    assert pair == "" + pair + "";
    TrimExactly("", pair, "");
  }

  /** Nothing, or a venue with nothing after it, is refused. */
  lemma ParsesNothing(before: string, venue: string, after: string, upper: string -> string)
    requires Blank(before) && Blank(after) && ':' !in venue && (venue != "" ==> !Blank([venue[0]]))
    ensures ParseSymbol(before, upper) == None
    ensures ParseSymbol(before + (venue + ":") + after, upper) == None
  {
    TrimOfBlank(before);
    var rest := venue + ":";
    assert rest[|rest| - 1] == ':' && rest[0] == if venue != "" then venue[0] else ':';
    TrimExactly(before, rest, after);
    assert rest == venue + ":" + "";
    FirstColonAt(venue, "");
    assert rest[|venue| + 1..] == "";
  }

  /** A bar is matched to the first configured instrument with its venue and symbol. */
  lemma {:induction false} TargetIsFirst(universe: seq<Instrument>, b: Bar, i: nat)
    requires i < |universe|
    requires universe[i].venue == b.instrument.venue && universe[i].symbol == b.instrument.symbol
    requires forall j :: 0 <= j < i ==> !(universe[j].venue == b.instrument.venue
                                          && universe[j].symbol == b.instrument.symbol)
    ensures Target(universe, b) == Some(universe[i])
  {
    if i > 0 {
      TargetIsFirst(universe[1..], b, i - 1);
    }
  }

  // ---------- shared keys ----------

  /** `b`'s venue is `a`'s with a bar and more, and `a`'s symbol starts with that more and a bar. */
  predicate Straddles(a: Instrument, b: Instrument) {
    var n := |a.venue|;
    && n < |b.venue| && b.venue[..n] == a.venue && b.venue[n] == '|'
    && TrimSpace(a.symbol) == b.venue[n + 1..] + "|" + TrimSpace(b.symbol)
  }

  /** Two instruments share a key exactly when they agree on venue and trimmed symbol, or one straddles the other. */
  lemma KeysAgreeExactlyWhen(a: Instrument, b: Instrument)
    ensures InstKey(a) == InstKey(b) <==>
            (a.venue == b.venue && TrimSpace(a.symbol) == TrimSpace(b.symbol)) || Straddles(a, b) || Straddles(b, a)
  {
    if |a.venue| <= |b.venue| {
      JoinedEqual(a.venue, TrimSpace(a.symbol), b.venue, TrimSpace(b.symbol));
    } else {
      JoinedEqual(b.venue, TrimSpace(b.symbol), a.venue, TrimSpace(a.symbol));
    }
  }

  lemma JoinedEqual(v: string, s: string, v': string, s': string)
    requires |v| <= |v'|
    ensures v + "|" + s == v' + "|" + s' <==>
            (v == v' && s == s')
            || (|v| < |v'| && v'[..|v|] == v && v'[|v|] == '|' && s == v'[|v| + 1..] + "|" + s')
  {
    var n, x, y := |v|, v + "|" + s, v' + "|" + s';
    assert x[..n] == v && x[n] == '|' && x[n + 1..] == s;
    if n < |v'| {
      assert y[..n] == v'[..n] && y[n] == v'[n] && y[n + 1..] == v'[n + 1..] + "|" + s';
      if v'[..n] == v && v'[n] == '|' && s == v'[n + 1..] + "|" + s' {
        assert x == x[..n] + [x[n]] + x[n + 1..] && y == y[..n] + [y[n]] + y[n + 1..];
      }
    } else {
      assert y[..n] == v' && y[n + 1..] == s';
    }
  }

  /** Parsed instruments whose venues have no bar in them share a key exactly when they are the same. */
  lemma ParsedKeysAgreeIff(s: string, s': string, upper: string -> string)
    requires ParseSymbol(s, upper).Some? && ParseSymbol(s', upper).Some?
    requires '|' !in ParseSymbol(s, upper).value.venue && '|' !in ParseSymbol(s', upper).value.venue
    ensures var a, b := ParseSymbol(s, upper).value, ParseSymbol(s', upper).value;
            InstKey(a) == InstKey(b) <==> a == b
  {
    KeysAgreeExactlyWhen(ParseSymbol(s, upper).value, ParseSymbol(s', upper).value);
    ParsedIsTrimmed(s, upper);
    ParsedIsTrimmed(s', upper);
  }

  lemma TrimOfPlain(s: string)
    requires s != "" && !IsSpace(s[0]) && !IsSpace(s[|s| - 1])
    ensures TrimSpace(s) == s
  {
  }

  /** Two instruments that parse, differ and share a key. */
  lemma ParsedPairSharesKey(upper: string -> string)
    requires upper("A|B") == "A|B" && upper("A") == "A"
    ensures ParseSymbol("A|B:X", upper) == Some(Instrument("A|B", "X", Spot))
    ensures ParseSymbol("A:B|X", upper) == Some(Instrument("A", "B|X", Spot))
    ensures InstKey(Instrument("A|B", "X", Spot)) == InstKey(Instrument("A", "B|X", Spot))
  {
    var s, s' := "A|B:X", "A:B|X";
    TrimOfPlain(s);
    TrimOfPlain(s');
    TrimOfPlain("X");
    TrimOfPlain("B|X");
    assert s[1..][1..][1..][0] == ':' && s[1..][1..][0] == 'B' && s[1..][0] == '|';
    assert FirstColon(s) == 3 && s[..3] == "A|B" && s[4..] == "X";
    assert s'[1..][0] == ':';
    assert FirstColon(s') == 1 && s'[..1] == "A" && s'[2..] == "B|X";
  }
}
