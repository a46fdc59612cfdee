/** Gradient overlays to SVG gradients (p2s_gradient.py): colour and opacity
    stops are merged by location, each location's colour and opacity are
    resolved by direct hit, clamping or interpolation, positions are
    normalised to [0, 1], optionally blended against a base colour and
    reversed, and the gradient's options are checked before a linear or a
    radial gradient is built. */
module SvgGradient {
  import opened Base
  import opened PsdPrimitive
  import opened SvgUtil

  /** A 'Clrs' item: an integer location and its colour. */
  datatype ColorStop = ColorStop(location: int, color: Color)

  /** A 'Trns' item: an integer location and its opacity in percent. */
  datatype OpacityStop = OpacityStop(location: int, opacity: real)

  function ColorKey(c: ColorStop): int { c.location }

  function OpacityKey(t: OpacityStop): int { t.location }

  // ---------------------------------------------------------------------------
  // sorted(..., key=lambda x: x['Lctn']): a stable sort by location.

  ghost predicate SortedBy<T>(s: seq<T>, key: T -> int) {
    forall i, j | 0 <= i < j < |s| :: key(s[i]) <= key(s[j])
  }

  /** x placed before the first element whose key is not smaller. */
  function InsertBy<T>(x: T, s: seq<T>, key: T -> int): (r: seq<T>)
    ensures multiset(r) == multiset(s) + multiset{x}
    decreases |s|
  {
    if |s| == 0 || key(x) <= key(s[0]) then [x] + s
    else
      assert s == [s[0]] + s[1..];
      [s[0]] + InsertBy(x, s[1..], key)
  }

  /** Insertion sort: each element goes in front of the equal ones after it. */
  function SortBy<T>(s: seq<T>, key: T -> int): (r: seq<T>)
    ensures multiset(r) == multiset(s)
    ensures |r| == |s|
    decreases |s|
  {
    if |s| == 0 then []
    else
      assert s == [s[0]] + s[1..];
      InsertBy(s[0], SortBy(s[1..], key), key)
  }

  lemma {:induction false} InsertSorted<T>(x: T, s: seq<T>, key: T -> int)
    requires SortedBy(s, key)
    ensures SortedBy(InsertBy(x, s, key), key)
    decreases |s|
  {
    if |s| > 0 && key(x) > key(s[0]) {
      var rest := InsertBy(x, s[1..], key);
      InsertSorted(x, s[1..], key);
      forall k | 0 <= k < |rest|
        ensures key(s[0]) <= key(rest[k])
      {
        assert rest[k] in multiset(rest);
        assert rest[k] == x || rest[k] in multiset(s[1..]);
      }
    }
  }

  /** The result of the sort is ordered by key. */
  lemma {:induction false} SortBySorted<T>(s: seq<T>, key: T -> int)
    ensures SortedBy(SortBy(s, key), key)
    decreases |s|
  {
    if |s| > 0 {
      SortBySorted(s[1..], key);
      InsertSorted(s[0], SortBy(s[1..], key), key);
    }
  }

  /** The elements with key k, in order. */
  function KeyFilter<T>(s: seq<T>, key: T -> int, k: int): seq<T>
    decreases |s|
  {
    if |s| == 0 then []
    else (if key(s[0]) == k then [s[0]] else []) + KeyFilter(s[1..], key, k)
  }

  lemma {:induction false} InsertFilter<T>(x: T, s: seq<T>, key: T -> int, k: int)
    ensures KeyFilter(InsertBy(x, s, key), key, k) == (if key(x) == k then [x] else []) + KeyFilter(s, key, k)
    decreases |s|
  {
    if |s| == 0 || key(x) <= key(s[0]) {
      assert ([x] + s)[1..] == s;
    } else {
      var rest := InsertBy(x, s[1..], key);
      InsertFilter(x, s[1..], key, k);
      assert ([s[0]] + rest)[1..] == rest;
      var head := if key(s[0]) == k then [s[0]] else [];
      var mine := if key(x) == k then [x] else [];
      assert KeyFilter([s[0]] + rest, key, k) == head + KeyFilter(rest, key, k);
      assert KeyFilter(s, key, k) == head + KeyFilter(s[1..], key, k);
      var tail := KeyFilter(s[1..], key, k);
      if key(s[0]) == k {
        assert mine == [];
        assert head + (mine + tail) == head + tail == mine + (head + tail);
      } else {
        assert head == [];
        assert head + (mine + tail) == mine + tail == mine + (head + tail);
      }
    }
  }

  /** Stability: the sort keeps the relative order of elements with equal keys. */
  lemma {:induction false} SortByStable<T>(s: seq<T>, key: T -> int, k: int)
    ensures KeyFilter(SortBy(s, key), key, k) == KeyFilter(s, key, k)
    decreases |s|
  {
    if |s| > 0 {
      SortByStable(s[1..], key, k);
      InsertFilter(s[0], SortBy(s[1..], key), key, k);
    }
  }

  /** The last element with key k, if any. */
  function LastWithKey<T>(s: seq<T>, key: T -> int, k: int): (r: Option<T>)
    ensures r.Some? ==> key(r.value) == k
    decreases |s|
  {
    if |s| == 0 then None
    else
      var later := LastWithKey(s[1..], key, k);
      if later.Some? then later else if key(s[0]) == k then Some(s[0]) else None
  }

  /** The keys that occur. */
  function Keys<T>(s: seq<T>, key: T -> int): set<int> {
    set i | 0 <= i < |s| :: key(s[i])
  }

  /** The last element with a key is the last of the elements with that key;
      there is one exactly when the key occurs. */
  lemma {:induction false} LastWithKeyFilter<T>(s: seq<T>, key: T -> int, k: int)
    ensures var f := KeyFilter(s, key, k);
      LastWithKey(s, key, k) == (if |f| == 0 then None else Some(f[|f| - 1]))
    ensures LastWithKey(s, key, k).Some? <==> k in Keys(s, key)
    decreases |s|
  {
    if |s| > 0 {
      LastWithKeyFilter(s[1..], key, k);
      assert forall i | 1 <= i < |s| :: s[i] == s[1..][i - 1];
      assert k in Keys(s, key) <==> key(s[0]) == k || k in Keys(s[1..], key);
    }
  }

  /** Sorting keeps, for every location, which element is the last one there. */
  lemma SortedLast<T>(s: seq<T>, key: T -> int, k: int)
    ensures LastWithKey(SortBy(s, key), key, k) == LastWithKey(s, key, k)
    ensures k in Keys(SortBy(s, key), key) <==> k in Keys(s, key)
  {
    SortByStable(s, key, k);
    LastWithKeyFilter(s, key, k);
    LastWithKeyFilter(SortBy(s, key), key, k);
  }

  // ---------------------------------------------------------------------------
  // lctn_map: for each location, its colour stop and its opacity stop.

  datatype Entry = Entry(clr: Option<ColorStop>, trns: Option<OpacityStop>)

  /** The colour loop: each colour stop replaces the entry at its location. */
  function StoreColors(m: map<int, Entry>, clrs: seq<ColorStop>): map<int, Entry>
    decreases |clrs|
  {
    if |clrs| == 0 then m
    else StoreColors(m[clrs[0].location := Entry(Some(clrs[0]), None)], clrs[1..])
  }

  /** The opacity loop: each opacity stop is merged into the entry at its location. */
  function StoreOpacities(m: map<int, Entry>, trns: seq<OpacityStop>): map<int, Entry>
    decreases |trns|
  {
    if |trns| == 0 then m
    else
      var t := trns[0];
      var e := if t.location in m then m[t.location] else Entry(None, None);
      StoreOpacities(m[t.location := e.(trns := Some(t))], trns[1..])
  }

  function LocationMap(clrs: seq<ColorStop>, trns: seq<OpacityStop>): map<int, Entry> {
    StoreOpacities(StoreColors(map[], clrs), trns)
  }

  lemma {:induction false} StoreColorsAt(m: map<int, Entry>, clrs: seq<ColorStop>, l: int)
    ensures l in StoreColors(m, clrs) <==> l in m || l in Keys(clrs, ColorKey)
    ensures LastWithKey(clrs, ColorKey, l).Some? ==>
      l in StoreColors(m, clrs) && StoreColors(m, clrs)[l] == Entry(LastWithKey(clrs, ColorKey, l), None)
    ensures LastWithKey(clrs, ColorKey, l).None? && l in m ==> StoreColors(m, clrs)[l] == m[l]
    decreases |clrs|
  {
    LastWithKeyFilter(clrs, ColorKey, l);
    if |clrs| > 0 {
      StoreColorsAt(m[clrs[0].location := Entry(Some(clrs[0]), None)], clrs[1..], l);
      LastWithKeyFilter(clrs[1..], ColorKey, l);
    }
  }

  lemma {:induction false} StoreOpacitiesAt(m: map<int, Entry>, trns: seq<OpacityStop>, l: int)
    ensures l in StoreOpacities(m, trns) <==> l in m || l in Keys(trns, OpacityKey)
    ensures l in StoreOpacities(m, trns) ==>
      StoreOpacities(m, trns)[l].clr == (if l in m then m[l].clr else None)
    ensures LastWithKey(trns, OpacityKey, l).Some? ==>
      l in StoreOpacities(m, trns) && StoreOpacities(m, trns)[l].trns == LastWithKey(trns, OpacityKey, l)
    ensures LastWithKey(trns, OpacityKey, l).None? && l in m ==> StoreOpacities(m, trns)[l].trns == m[l].trns
    decreases |trns|
  {
    LastWithKeyFilter(trns, OpacityKey, l);
    if |trns| > 0 {
      var t := trns[0];
      var e := if t.location in m then m[t.location] else Entry(None, None);
      StoreOpacitiesAt(m[t.location := e.(trns := Some(t))], trns[1..], l);
      LastWithKeyFilter(trns[1..], OpacityKey, l);
    }
  }

  /** The map holds exactly the locations of the two lists; at each, the last
      colour stop and the last opacity stop there, if any. */
  lemma LocationMapAt(clrs: seq<ColorStop>, trns: seq<OpacityStop>, l: int)
    ensures l in LocationMap(clrs, trns) <==> l in Keys(clrs, ColorKey) || l in Keys(trns, OpacityKey)
    ensures l in LocationMap(clrs, trns) ==>
      && LocationMap(clrs, trns)[l].clr == LastWithKey(clrs, ColorKey, l)
      && LocationMap(clrs, trns)[l].trns == LastWithKey(trns, OpacityKey, l)
  {
    StoreColorsAt(map[], clrs, l);
    StoreOpacitiesAt(StoreColors(map[], clrs), trns, l);
    LastWithKeyFilter(clrs, ColorKey, l);
    LastWithKeyFilter(trns, OpacityKey, l);
  }

  /** The two loops that fill lctn_map. */
  method BuildLocationMap(clrs: seq<ColorStop>, trns: seq<OpacityStop>) returns (m: map<int, Entry>)
    ensures m == LocationMap(clrs, trns)
  {
    m := map[];
    var i := 0;
    while i < |clrs|
      invariant 0 <= i <= |clrs|
      invariant StoreColors(m, clrs[i..]) == StoreColors(map[], clrs)
    {
      assert clrs[i..][1..] == clrs[i + 1..];
      m := m[clrs[i].location := Entry(Some(clrs[i]), None)];
      i := i + 1;
    }
    assert clrs[i..] == [];
    ghost var colored := m;
    var j := 0;
    while j < |trns|
      invariant 0 <= j <= |trns|
      invariant StoreOpacities(m, trns[j..]) == StoreOpacities(colored, trns)
    {
      assert trns[j..][1..] == trns[j + 1..];
      var lctn := trns[j].location;
      var entry := if lctn in m then m[lctn] else Entry(None, None);
      entry := entry.(trns := Some(trns[j]));
      m := m[lctn := entry];
      j := j + 1;
    }
    assert trns[j..] == [];
  }

  // ---------------------------------------------------------------------------
  // Interpolation between two stops.

  /** The value at l on the straight line from (lo, a) to (hi, b). */
  function Lerp(lo: int, hi: int, l: int, a: real, b: real): real
    requires lo < hi
  {
    ((hi - l) as real * a + (l - lo) as real * b) / (hi - lo) as real
  }

  lemma DivBetween(x: real, len: real, a: real, b: real)
    requires len > 0.0
    ensures len * a <= x ==> a <= x / len
    ensures x <= len * b ==> x / len <= b
  {
  }

  /** The line meets its two ends and, between them, stays between them. */
  lemma LerpBounds(lo: int, hi: int, l: int, a: real, b: real)
    requires lo < hi
    ensures Lerp(lo, hi, lo, a, b) == a && Lerp(lo, hi, hi, a, b) == b
    ensures lo <= l <= hi && a <= b ==> a <= Lerp(lo, hi, l, a, b) <= b
    ensures lo <= l <= hi && b <= a ==> b <= Lerp(lo, hi, l, a, b) <= a
  {
    var len := (hi - lo) as real;
    var w := (l - lo) as real;
    DivBetween(len * a, len, a, a);
    DivBetween(len * b, len, b, b);
    assert Lerp(lo, hi, lo, a, b) == (len * a) / len;
    assert Lerp(lo, hi, hi, a, b) == (len * b) / len;
    if lo <= l <= hi {
      var x := (len - w) * a + w * b;
      assert (hi - l) as real == len - w;
      assert (hi - l) as real * a + (l - lo) as real * b == x;
      assert Lerp(lo, hi, l, a, b) == x / len;
      assert x == len * a + w * (b - a);
      assert x == len * b - (len - w) * (b - a);
      if a <= b {
        MulNonneg(w, b - a);
        MulNonneg(len - w, b - a);
        DivBetween(x, len, a, b);
      } else {
        MulNonneg(w, a - b);
        MulNonneg(len - w, a - b);
        DivBetween(x, len, b, a);
      }
    }
  }

  /** The colour between two stops as the interpolation loop writes it: the
      weight (l - lo)/len goes to the lower stop's colour a and (hi - l)/len
      to the upper stop's colour b, which makes it the straight line from b
      at lo to a at hi. */
  function MixAsWritten(lo: int, hi: int, l: int, a: Color, b: Color): (c: Color)
    requires lo < hi
    ensures c == Color(Lerp(lo, hi, l, b.red, a.red), Lerp(lo, hi, l, b.green, a.green), Lerp(lo, hi, l, b.blue, a.blue))
  {
    ChannelSwapped(lo, hi, l, a.red, b.red);
    ChannelSwapped(lo, hi, l, a.green, b.green);
    ChannelSwapped(lo, hi, l, a.blue, b.blue);
    var len := (hi - lo) as real;
    var aw := (l - lo) as real / len;
    var bw := (hi - l) as real / len;
    Color(aw * a.red + bw * b.red, aw * a.green + bw * b.green, aw * a.blue + bw * b.blue)
  }

  /** One channel as written: weight (l - lo)/len on u and (hi - l)/len on v
      is the interpolation from v at lo to u at hi. */
  lemma ChannelSwapped(lo: int, hi: int, l: int, u: real, v: real)
    requires lo < hi
    ensures (l - lo) as real / (hi - lo) as real * u + (hi - l) as real / (hi - lo) as real * v
            == Lerp(lo, hi, l, v, u)
  {
    var len := (hi - lo) as real;
    var x := (l - lo) as real;
    var y := (hi - l) as real;
    assert x / len * u == (x * u) / len;
    assert y / len * v == (y * v) / len;
    assert (x * u) / len + (y * v) / len == (y * v + x * u) / len;
  }

  /** The weights as written are in [0, 1] and sum to 1, but they are the
      wrong way round: the result is the interpolation with the two colours
      exchanged, so at the lower stop's own location it gives the upper
      stop's colour. */
  lemma MixAsWrittenSwapped(lo: int, hi: int, l: int, a: Color, b: Color)
    requires lo < hi
    ensures var len := (hi - lo) as real;
      lo <= l <= hi ==> 0.0 <= (l - lo) as real / len <= 1.0 && 0.0 <= (hi - l) as real / len <= 1.0
    ensures (l - lo) as real / (hi - lo) as real + (hi - l) as real / (hi - lo) as real == 1.0
    ensures MixAsWritten(lo, hi, l, a, b) == Mix(lo, hi, l, b, a)
    ensures MixAsWritten(lo, hi, lo, a, b) == b
  {
    var len := (hi - lo) as real;
    var x := (l - lo) as real;
    var y := (hi - l) as real;
    assert x / len + y / len == (x + y) / len;
    assert (x + y) / len == 1.0;
    if lo <= l <= hi {
      DivBetween(x, len, 0.0, 1.0);
      DivBetween(y, len, 0.0, 1.0);
    }
    ChannelSwapped(lo, hi, l, a.red, b.red);
    ChannelSwapped(lo, hi, l, a.green, b.green);
    ChannelSwapped(lo, hi, l, a.blue, b.blue);
    LerpBounds(lo, hi, l, b.red, a.red);
    LerpBounds(lo, hi, l, b.green, a.green);
    LerpBounds(lo, hi, l, b.blue, a.blue);
  }

  /** Black at 0 and white at 100: a quarter of the way from black the loop
      as written gives a grey of 191.25, three quarters of the way to white. */
  lemma MixAsWrittenExample()
    ensures MixAsWritten(0, 100, 25, Color(0.0, 0.0, 0.0), Color(255.0, 255.0, 255.0)).red == 191.25
    ensures Mix(0, 100, 25, Color(0.0, 0.0, 0.0), Color(255.0, 255.0, 255.0)).red == 63.75
  {
  }

  /** The colour between two stops, each weighted by its nearness to l (the
      weighting the opacity loop uses). */
  function Mix(lo: int, hi: int, l: int, a: Color, b: Color): (c: Color)
    requires lo < hi
    ensures c == Color(Lerp(lo, hi, l, a.red, b.red), Lerp(lo, hi, l, a.green, b.green), Lerp(lo, hi, l, a.blue, b.blue))
  {
    var len := (hi - lo) as real;
    var aw := (hi - l) as real / len;
    var bw := (l - lo) as real / len;
    assert aw * a.red + bw * b.red == Lerp(lo, hi, l, a.red, b.red);
    assert aw * a.green + bw * b.green == Lerp(lo, hi, l, a.green, b.green);
    assert aw * a.blue + bw * b.blue == Lerp(lo, hi, l, a.blue, b.blue);
    Color(aw * a.red + bw * b.red, aw * a.green + bw * b.green, aw * a.blue + bw * b.blue)
  }

  /** The opacity between two stops as the loop writes it: each weight is
      one minus the distance to its stop over the distance between stops. */
  function OpacityMix(lo: int, hi: int, l: int, a: real, b: real): (o: real)
    requires lo < hi
    ensures o == Lerp(lo, hi, l, a, b)
  {
    var len := (hi - lo) as real;
    var aw := 1.0 - (l - lo) as real / len;
    var bw := 1.0 - (hi - l) as real / len;
    assert aw == (hi - l) as real / len && bw == (l - lo) as real / len by {
      assert len / len == 1.0;
      assert len / len - (l - lo) as real / len == (len - (l - lo) as real) / len;
      assert len / len - (hi - l) as real / len == (len - (hi - l) as real) / len;
    }
    aw * a + bw * b
  }

  // ---------------------------------------------------------------------------
  // color_at_lctn and opacity_at_lctn.

  /** The first stop after l, the search starting at index i; l lies at or
      after stop i - 1 and before the last stop. */
  function ColorSearch(clrs: seq<ColorStop>, l: int, i: nat): Color
    requires 1 <= i < |clrs|
    requires clrs[i - 1].location <= l < clrs[|clrs| - 1].location
    decreases |clrs| - i
  {
    if l < clrs[i].location then MixAsWritten(clrs[i - 1].location, clrs[i].location, l, clrs[i - 1].color, clrs[i].color)
    else ColorSearch(clrs, l, i + 1)
  }

  /** The colour at l: a colour stop at l, else the first colour before the
      first stop, the last colour from the last stop on, and otherwise the
      interpolation between the stops around l. No colour stop at all
      fails the indexing of the first one. */
  function ColorAt(clrs: seq<ColorStop>, m: map<int, Entry>, l: int): Result<Color> {
    if l in m && m[l].clr.Some? then Success(m[l].clr.value.color)
    else if |clrs| == 0 then Failure(IndexOutOfRange)
    else if l < clrs[0].location then Success(clrs[0].color)
    else if l >= clrs[|clrs| - 1].location then Success(clrs[|clrs| - 1].color)
    else Success(ColorSearch(clrs, l, 1))
  }

  /** The search finds the stops around l: the pair i - 1, i with
      clrs[i - 1] <= l < clrs[i], the first i past l, and mixes them with
      the weights as written, which is the straight line from the upper
      stop's colour at clrs[i - 1] to the lower stop's at clrs[i]. */
  lemma {:induction false} ColorSearchBrackets(clrs: seq<ColorStop>, l: int, i: nat) returns (k: nat)
    requires 1 <= i < |clrs|
    requires clrs[i - 1].location <= l < clrs[|clrs| - 1].location
    ensures i <= k < |clrs|
    ensures clrs[k - 1].location <= l < clrs[k].location
    ensures forall j | i <= j < k :: clrs[j].location <= l
    ensures ColorSearch(clrs, l, i) == MixAsWritten(clrs[k - 1].location, clrs[k].location, l, clrs[k - 1].color, clrs[k].color)
    ensures ColorSearch(clrs, l, i) == Mix(clrs[k - 1].location, clrs[k].location, l, clrs[k].color, clrs[k - 1].color)
    decreases |clrs| - i
  {
    if l >= clrs[i].location {
      k := ColorSearchBrackets(clrs, l, i + 1);
    } else {
      k := i;
      MixAsWrittenSwapped(clrs[k - 1].location, clrs[k].location, l, clrs[k - 1].color, clrs[k].color);
    }
  }

  /** color_at_lctn, with its search loop. */
  method ColorAtLocation(clrs: seq<ColorStop>, m: map<int, Entry>, l: int) returns (r: Result<Color>)
    ensures r == ColorAt(clrs, m, l)
  {
    if l in m && m[l].clr.Some? {
      return Success(m[l].clr.value.color);
    }
    if |clrs| == 0 {
      return Failure(IndexOutOfRange);
    }
    if l < clrs[0].location {
      return Success(clrs[0].color);
    }
    if l >= clrs[|clrs| - 1].location {
      return Success(clrs[|clrs| - 1].color);
    }
    var i := 1;
    while i < |clrs|
      invariant 1 <= i < |clrs|
      invariant clrs[i - 1].location <= l
      invariant ColorSearch(clrs, l, i) == ColorSearch(clrs, l, 1)
      decreases |clrs| - i
    {
      if l < clrs[i].location {
        var a := clrs[i - 1];
        var b := clrs[i];
        return Success(MixAsWritten(a.location, b.location, l, a.color, b.color));
      }
      i := i + 1;
    }
    assert false;
  }

  /** The opacity stops' search, as ColorSearch. */
  function OpacitySearch(trns: seq<OpacityStop>, l: int, i: nat): real
    requires 1 <= i < |trns|
    requires trns[i - 1].location <= l < trns[|trns| - 1].location
    decreases |trns| - i
  {
    if l < trns[i].location
    then OpacityMix(trns[i - 1].location, trns[i].location, l, trns[i - 1].opacity / 100.0, trns[i].opacity / 100.0)
    else OpacitySearch(trns, l, i + 1)
  }

  /** The opacity at l, as a fraction: an opacity stop at l, else clamped to
      the first and last stops, else interpolated. */
  function OpacityAt(trns: seq<OpacityStop>, m: map<int, Entry>, l: int): Result<real> {
    if l in m && m[l].trns.Some? then Success(m[l].trns.value.opacity / 100.0)
    else if |trns| == 0 then Failure(IndexOutOfRange)
    else if l < trns[0].location then Success(trns[0].opacity / 100.0)
    else if l >= trns[|trns| - 1].location then Success(trns[|trns| - 1].opacity / 100.0)
    else Success(OpacitySearch(trns, l, 1))
  }

  lemma {:induction false} OpacitySearchBrackets(trns: seq<OpacityStop>, l: int, i: nat) returns (k: nat)
    requires 1 <= i < |trns|
    requires trns[i - 1].location <= l < trns[|trns| - 1].location
    ensures i <= k < |trns|
    ensures trns[k - 1].location <= l < trns[k].location
    ensures forall j | i <= j < k :: trns[j].location <= l
    ensures OpacitySearch(trns, l, i)
      == Lerp(trns[k - 1].location, trns[k].location, l, trns[k - 1].opacity / 100.0, trns[k].opacity / 100.0)
    decreases |trns| - i
  {
    if l >= trns[i].location {
      k := OpacitySearchBrackets(trns, l, i + 1);
    } else {
      k := i;
    }
  }

  /** opacity_at_lctn, with its search loop. */
  method OpacityAtLocation(trns: seq<OpacityStop>, m: map<int, Entry>, l: int) returns (r: Result<real>)
    ensures r == OpacityAt(trns, m, l)
  {
    if l in m && m[l].trns.Some? {
      return Success(m[l].trns.value.opacity / 100.0);
    }
    if |trns| == 0 {
      return Failure(IndexOutOfRange);
    }
    if l < trns[0].location {
      return Success(trns[0].opacity / 100.0);
    }
    if l >= trns[|trns| - 1].location {
      return Success(trns[|trns| - 1].opacity / 100.0);
    }
    var i := 1;
    while i < |trns|
      invariant 1 <= i < |trns|
      invariant trns[i - 1].location <= l
      invariant OpacitySearch(trns, l, i) == OpacitySearch(trns, l, 1)
      decreases |trns| - i
    {
      if l < trns[i].location {
        var a := trns[i - 1].opacity / 100.0;
        var b := trns[i].opacity / 100.0;
        return Success(OpacityMix(trns[i - 1].location, trns[i].location, l, a, b));
      }
      i := i + 1;
    }
    assert false;
  }

  // ---------------------------------------------------------------------------
  // blend_with_base_color.

  /** Without a base colour the stop passes through; with one, the opacity
      (scaled by the gradient's own opacity, in percent) mixes the stop's
      colour over the base and the result is opaque. */
  function Blend(c: Color, o: real, base: Option<Color>, globalOpacity: real): (Color, real) {
    if base.None? then (c, o)
    else
      var w := o * (globalOpacity / 100.0);
      (Color(c.red * w + base.value.red * (1.0 - w), c.green * w + base.value.green * (1.0 - w),
             c.blue * w + base.value.blue * (1.0 - w)), 1.0)
  }

  /** Blending over a base is opaque; a fully opaque stop keeps its colour,
      a fully transparent one shows the base, and in between each channel
      lies between the two. */
  lemma BlendBounds(c: Color, o: real, base: Color, globalOpacity: real)
    ensures Blend(c, o, Some(base), globalOpacity).1 == 1.0
    ensures var w := o * (globalOpacity / 100.0);
      && (w == 1.0 ==> Blend(c, o, Some(base), globalOpacity).0 == c)
      && (w == 0.0 ==> Blend(c, o, Some(base), globalOpacity).0 == base)
      && (0.0 <= w <= 1.0 && base.red <= c.red ==>
            base.red <= Blend(c, o, Some(base), globalOpacity).0.red <= c.red)
      && (0.0 <= w <= 1.0 && c.red <= base.red ==>
            c.red <= Blend(c, o, Some(base), globalOpacity).0.red <= base.red)
  {
    var w := o * (globalOpacity / 100.0);
    assert c.red * w + base.red * (1.0 - w) == base.red + w * (c.red - base.red);
    if 0.0 <= w <= 1.0 {
      assert c.red * w + base.red * (1.0 - w) == c.red - (1.0 - w) * (c.red - base.red);
      if base.red <= c.red {
        MulNonneg(w, c.red - base.red);
        MulNonneg(1.0 - w, c.red - base.red);
      } else {
        MulNonneg(w, base.red - c.red);
        MulNonneg(1.0 - w, base.red - c.red);
      }
    }
  }

  // ---------------------------------------------------------------------------
  // The stops.

  ghost predicate Increasing(r: seq<int>) {
    forall i, j | 0 <= i < j < |r| :: r[i] < r[j]
  }

  /** x added to a strictly increasing list, unless already there. */
  function InsertUnique(x: int, r: seq<int>): (q: seq<int>)
    requires Increasing(r)
    ensures Increasing(q)
    ensures forall y :: y in q <==> y == x || y in r
    decreases |r|
  {
    if |r| == 0 || x < r[0] then [x] + r
    else if x == r[0] then r
    else
      var rest := InsertUnique(x, r[1..]);
      assert forall k | 0 <= k < |rest| :: r[0] < rest[k] by {
        forall k | 0 <= k < |rest|
          ensures r[0] < rest[k]
        {
          assert rest[k] in rest;
          if rest[k] != x {
            var j :| 0 <= j < |r[1..]| && r[1..][j] == rest[k];
            assert r[0] < r[j + 1];
          }
        }
      }
      [r[0]] + rest
  }

  /** The distinct values of ws in increasing order: sorted() of the set of them. */
  function SortedDistinct(ws: seq<int>): (r: seq<int>)
    ensures Increasing(r)
    ensures forall y :: y in r <==> y in ws
    decreases |ws|
  {
    if |ws| == 0 then []
    else InsertUnique(ws[0], SortedDistinct(ws[1..]))
  }

  /** A strictly increasing list has as many elements as values. */
  lemma {:induction false} IncreasingCard(r: seq<int>)
    requires Increasing(r)
    ensures |set y | y in r| == |r|
    decreases |r|
  {
    if |r| > 0 {
      IncreasingCard(r[1..]);
      assert (set y | y in r) == {r[0]} + (set y | y in r[1..]);
      assert r[0] !in (set y | y in r[1..]);
    }
  }

  /** Every stop's location, colour stops first: the keys of lctn_map. */
  function Locations(clrs: seq<ColorStop>, trns: seq<OpacityStop>): (ws: seq<int>)
    ensures forall l :: l in ws <==> l in Keys(clrs, ColorKey) || l in Keys(trns, OpacityKey)
  {
    var cs := seq(|clrs|, i requires 0 <= i < |clrs| => clrs[i].location);
    var ts := seq(|trns|, i requires 0 <= i < |trns| => trns[i].location);
    assert forall l :: l in cs <==> l in Keys(clrs, ColorKey) by {
      forall l | l in Keys(clrs, ColorKey)
        ensures l in cs
      {
        var i :| 0 <= i < |clrs| && clrs[i].location == l;
        assert cs[i] == l;
      }
    }
    assert forall l :: l in ts <==> l in Keys(trns, OpacityKey) by {
      forall l | l in Keys(trns, OpacityKey)
        ensures l in ts
      {
        var i :| 0 <= i < |trns| && trns[i].location == l;
        assert ts[i] == l;
      }
    }
    cs + ts
  }

  /** A gradient stop: its position in [0, 1], its stop-color text and its opacity. */
  datatype Stop = Stop(offset: real, color: string, opacity: real)

  /** What every stop is resolved against: the sorted stop lists, lctn_map,
      the base colour, the gradient's opacity and the extreme locations. */
  datatype StopContext = StopContext(clrs: seq<ColorStop>, trns: seq<OpacityStop>, m: map<int, Entry>,
                                     base: Option<Color>, globalOpacity: real, lo: int, hi: int)

  /** A location's position between the extreme locations. */
  function Position(lo: int, hi: int, l: int): real
    requires hi != lo
  {
    (l - lo) as real / (hi - lo) as real
  }

  /** Between distinct extremes, positions run from 0 at the least location
      to 1 at the greatest, in the order of the locations. */
  lemma PositionOrder(lo: int, hi: int, a: int, b: int)
    requires lo < hi
    ensures Position(lo, hi, lo) == 0.0 && Position(lo, hi, hi) == 1.0
    ensures a < b ==> Position(lo, hi, a) < Position(lo, hi, b)
    ensures lo <= a <= hi ==> 0.0 <= Position(lo, hi, a) <= 1.0
  {
    var d := (hi - lo) as real;
    assert d / d == 1.0;
    if a < b {
      DivLess((a - lo) as real, (b - lo) as real, d);
    }
    DivBetween((a - lo) as real, d, 0.0, 1.0);
  }

  /** The stop st carries the colour and opacity found at l, blended with
      the base; with no base they are the colour and opacity as found. */
  predicate Resolved(ctx: StopContext, l: int, st: Stop) {
    && ColorAt(ctx.clrs, ctx.m, l).Success? && OpacityAt(ctx.trns, ctx.m, l).Success?
    && var blended := Blend(ColorAt(ctx.clrs, ctx.m, l).value, OpacityAt(ctx.trns, ctx.m, l).value, ctx.base, ctx.globalOpacity);
       st.color == ParseColor(blended.0) && st.opacity == blended.1
  }

  /** One location's stop: its colour, its opacity, the blend, and its
      position between the extreme locations (which must differ). With both
      kinds of stop present every location resolves, so only coinciding
      extremes fail. */
  function StopAt(ctx: StopContext, l: int): (r: Result<Stop>)
    ensures r.Success? ==> ctx.hi != ctx.lo && r.value.offset == Position(ctx.lo, ctx.hi, l)
    ensures r.Success? ==> Resolved(ctx, l, r.value)
    ensures r.Success? && ctx.base.None? ==>
      r.value.color == ParseColor(ColorAt(ctx.clrs, ctx.m, l).value) && r.value.opacity == OpacityAt(ctx.trns, ctx.m, l).value
    ensures r.Success? && ctx.base.Some? ==> r.value.opacity == 1.0
    ensures |ctx.clrs| > 0 && |ctx.trns| > 0 && ctx.hi == ctx.lo ==> r == Failure(DivisionByZero)
    ensures |ctx.clrs| > 0 && |ctx.trns| > 0 && ctx.hi != ctx.lo ==> r.Success?
  {
    var c :- ColorAt(ctx.clrs, ctx.m, l);
    var o :- OpacityAt(ctx.trns, ctx.m, l);
    var blended := Blend(c, o, ctx.base, ctx.globalOpacity);
    if ctx.hi == ctx.lo then Failure(DivisionByZero)
    else Success(Stop(Position(ctx.lo, ctx.hi, l), ParseColor(blended.0), blended.1))
  }

  /** The stops of the locations, in order; the first failure aborts. */
  function StopsFrom(lctns: seq<int>, ctx: StopContext): Result<seq<Stop>>
    decreases |lctns|
  {
    if |lctns| == 0 then Success([])
    else
      var st :- StopAt(ctx, lctns[0]);
      Glue([st], StopsFrom(lctns[1..], ctx))
  }

  /** construct_gradient_stops as a function of its inputs. */
  function StopsOf(clrs0: seq<ColorStop>, trns0: seq<OpacityStop>, base: Option<Color>, globalOpacity: real)
    : Result<seq<Stop>>
  {
    var clrs := SortBy(clrs0, ColorKey);
    var trns := SortBy(trns0, OpacityKey);
    var m := LocationMap(clrs, trns);
    var lctns := SortedDistinct(Locations(clrs0, trns0));
    if |lctns| == 0 then Failure(IndexOutOfRange)
    else StopsFrom(lctns, StopContext(clrs, trns, m, base, globalOpacity, lctns[0], lctns[|lctns| - 1]))
  }

  /** construct_gradient_stops, with its loop over the sorted locations. */
  method ConstructGradientStops(clrs0: seq<ColorStop>, trns0: seq<OpacityStop>, base: Option<Color>,
                                globalOpacity: real) returns (r: Result<seq<Stop>>)
    ensures r == StopsOf(clrs0, trns0, base, globalOpacity)
  {
    var clrs := SortBy(clrs0, ColorKey);
    var trns := SortBy(trns0, OpacityKey);
    var m := BuildLocationMap(clrs, trns);
    var lctns := SortedDistinct(Locations(clrs0, trns0));
    if |lctns| == 0 {
      return Failure(IndexOutOfRange);
    }
    var minLctn := lctns[0];
    var maxLctn := lctns[|lctns| - 1];
    ghost var ctx := StopContext(clrs, trns, m, base, globalOpacity, minLctn, maxLctn);
    assert StopsOf(clrs0, trns0, base, globalOpacity) == StopsFrom(lctns, ctx);
    var stops: seq<Stop> := [];
    GlueEmpty(StopsFrom(lctns, ctx));
    var i := 0;
    while i < |lctns|
      invariant 0 <= i <= |lctns|
      invariant Glue(stops, StopsFrom(lctns[i..], ctx)) == StopsFrom(lctns, ctx)
    {
      var lctn := lctns[i];
      var color := ColorAtLocation(clrs, m, lctn);
      if color.Failure? {
        StopsFromFailAt(lctns, i, ctx, stops, color.error);
        return Failure(color.error);
      }
      var opacity := OpacityAtLocation(trns, m, lctn);
      if opacity.Failure? {
        StopsFromFailAt(lctns, i, ctx, stops, opacity.error);
        return Failure(opacity.error);
      }
      var blended := Blend(color.value, opacity.value, base, globalOpacity);
      if maxLctn == minLctn {
        StopsFromFailAt(lctns, i, ctx, stops, DivisionByZero);
        return Failure(DivisionByZero);
      }
      var pos := Position(minLctn, maxLctn, lctn);
      StopsFromStep(lctns, i, ctx, stops, Stop(pos, ParseColor(blended.0), blended.1));
      stops := stops + [Stop(pos, ParseColor(blended.0), blended.1)];
      i := i + 1;
    }
    assert lctns[i..] == [];
    assert stops + [] == stops;
    r := Success(stops);
  }

  /** A location whose stop fails ends the run with that failure. */
  lemma StopsFromFailAt(lctns: seq<int>, i: nat, ctx: StopContext, stops: seq<Stop>, e: Error)
    requires i < |lctns| && StopAt(ctx, lctns[i]) == Failure(e)
    ensures Glue(stops, StopsFrom(lctns[i..], ctx)) == Failure(e)
  {
    assert lctns[i..][0] == lctns[i];
  }

  /** A location whose stop is st adds st to the stops made so far. */
  lemma StopsFromStep(lctns: seq<int>, i: nat, ctx: StopContext, stops: seq<Stop>, st: Stop)
    requires i < |lctns| && StopAt(ctx, lctns[i]) == Success(st)
    ensures Glue(stops + [st], StopsFrom(lctns[i + 1..], ctx)) == Glue(stops, StopsFrom(lctns[i..], ctx))
  {
    assert lctns[i..][0] == lctns[i] && lctns[i..][1..] == lctns[i + 1..];
    GlueGlue(stops, [st], StopsFrom(lctns[i + 1..], ctx));
  }

  /** A successful run gives one stop per location, positioned at it. */
  lemma {:induction false} StopsFromOffsets(lctns: seq<int>, ctx: StopContext)
    requires StopsFrom(lctns, ctx).Success?
    ensures |StopsFrom(lctns, ctx).value| == |lctns|
    ensures ctx.hi != ctx.lo || |lctns| == 0
    ensures forall k | 0 <= k < |lctns| :: StopsFrom(lctns, ctx).value[k].offset == Position(ctx.lo, ctx.hi, lctns[k])
    ensures ctx.base.Some? ==> forall k | 0 <= k < |lctns| :: StopsFrom(lctns, ctx).value[k].opacity == 1.0
    decreases |lctns|
  {
    if |lctns| > 0 {
      StopsFromOffsets(lctns[1..], ctx);
      var st := StopAt(ctx, lctns[0]).value;
      var rest := StopsFrom(lctns[1..], ctx).value;
      assert StopsFrom(lctns, ctx).value == [st] + rest;
      assert forall k | 1 <= k < |lctns| :: lctns[k] == lctns[1..][k - 1];
    }
  }

  /** A successful run holds, at index k, the stop built for location k. */
  lemma {:induction false} StopsFromElement(lctns: seq<int>, ctx: StopContext, k: nat)
    requires StopsFrom(lctns, ctx).Success? && k < |lctns|
    ensures |StopsFrom(lctns, ctx).value| == |lctns|
    ensures StopAt(ctx, lctns[k]) == Success(StopsFrom(lctns, ctx).value[k])
    decreases k
  {
    StopsFromOffsets(lctns, ctx);
    var st := StopAt(ctx, lctns[0]).value;
    var rest := StopsFrom(lctns[1..], ctx).value;
    assert StopsFrom(lctns, ctx).value == [st] + rest;
    if k > 0 {
      StopsFromElement(lctns[1..], ctx, k - 1);
      assert lctns[k] == lctns[1..][k - 1];
    }
  }


  /** A successful run gives, at each location, the colour and opacity found
      there, blended with the base. */
  lemma StopsFromColors(lctns: seq<int>, ctx: StopContext)
    requires StopsFrom(lctns, ctx).Success?
    ensures |StopsFrom(lctns, ctx).value| == |lctns|
    ensures forall k | 0 <= k < |lctns| ::
      && ColorAt(ctx.clrs, ctx.m, lctns[k]).Success? && OpacityAt(ctx.trns, ctx.m, lctns[k]).Success?
      && var blended := Blend(ColorAt(ctx.clrs, ctx.m, lctns[k]).value, OpacityAt(ctx.trns, ctx.m, lctns[k]).value,
                              ctx.base, ctx.globalOpacity);
         StopsFrom(lctns, ctx).value[k].color == ParseColor(blended.0)
         && StopsFrom(lctns, ctx).value[k].opacity == blended.1
  {
    StopsFromOffsets(lctns, ctx);
    var stops := StopsFrom(lctns, ctx).value;
    forall k | 0 <= k < |lctns|
      ensures && ColorAt(ctx.clrs, ctx.m, lctns[k]).Success? && OpacityAt(ctx.trns, ctx.m, lctns[k]).Success?
              && var blended := Blend(ColorAt(ctx.clrs, ctx.m, lctns[k]).value, OpacityAt(ctx.trns, ctx.m, lctns[k]).value,
                                      ctx.base, ctx.globalOpacity);
                 stops[k].color == ParseColor(blended.0) && stops[k].opacity == blended.1
    {
      StopsFromElement(lctns, ctx, k);
    }
  }

  /** The run fails exactly when some location's colour or opacity cannot be
      resolved or the extreme locations coincide. */
  lemma {:induction false} StopsFromFails(lctns: seq<int>, ctx: StopContext)
    requires |lctns| > 0
    ensures ctx.hi == ctx.lo && |ctx.clrs| > 0 && |ctx.trns| > 0 ==> StopsFrom(lctns, ctx) == Failure(DivisionByZero)
    ensures ctx.hi != ctx.lo && |ctx.clrs| > 0 && |ctx.trns| > 0 ==> StopsFrom(lctns, ctx).Success?
    decreases |lctns|
  {
    if |lctns| > 1 {
      StopsFromFails(lctns[1..], ctx);
    }
  }

  lemma DivLess(a: real, b: real, d: real)
    requires d > 0.0 && a < b
    ensures a / d < b / d
  {
  }

  /** Two strictly increasing lists with the same values are the same list. */
  lemma {:induction false} IncreasingUnique(a: seq<int>, b: seq<int>)
    requires Increasing(a) && Increasing(b)
    requires forall y :: y in a <==> y in b
    ensures a == b
    decreases |a|
  {
    IncreasingCard(a);
    IncreasingCard(b);
    assert (set y | y in a) == (set y | y in b);
    if |a| > 0 {
      assert a[0] in a && b[0] in b;
      var i :| 0 <= i < |b| && b[i] == a[0];
      var j :| 0 <= j < |a| && a[j] == b[0];
      assert a[0] == b[0] by {
        assert b[0] <= b[i] && a[0] <= a[j];
      }
      forall y
        ensures y in a[1..] <==> y in b[1..]
      {
        assert y in a[1..] <==> y in a && y != a[0];
        assert y in b[1..] <==> y in b && y != b[0];
      }
      IncreasingUnique(a[1..], b[1..]);
      assert a == [a[0]] + a[1..] && b == [b[0]] + b[1..];
    }
  }

  /** The sorted distinct locations of the given lists are those of the
      sorted lists, and they are exactly the keys of lctn_map. */
  lemma SortedLocations(clrs0: seq<ColorStop>, trns0: seq<OpacityStop>)
    ensures var ls := SortedDistinct(Locations(clrs0, trns0));
      && SortedDistinct(Locations(SortBy(clrs0, ColorKey), SortBy(trns0, OpacityKey))) == ls
      && (forall l :: l in ls <==> l in LocationMap(SortBy(clrs0, ColorKey), SortBy(trns0, OpacityKey)))
  {
    var clrs := SortBy(clrs0, ColorKey);
    var trns := SortBy(trns0, OpacityKey);
    var ls := SortedDistinct(Locations(clrs0, trns0));
    var ls' := SortedDistinct(Locations(clrs, trns));
    forall l
      ensures l in ls' <==> l in ls
      ensures l in ls <==> l in LocationMap(clrs, trns)
    {
      LocationMapAt(clrs, trns, l);
      SortedLast(clrs0, ColorKey, l);
      SortedLast(trns0, OpacityKey, l);
    }
    IncreasingUnique(ls', ls);
  }

  /** One location per distinct stop location, and some exactly when there
      are stops. */
  lemma LocationCount(clrs: seq<ColorStop>, trns: seq<OpacityStop>)
    ensures |SortedDistinct(Locations(clrs, trns))| == |Keys(clrs, ColorKey) + Keys(trns, OpacityKey)|
    ensures |SortedDistinct(Locations(clrs, trns))| == 0 <==> |clrs| == 0 && |trns| == 0
  {
    var ls := SortedDistinct(Locations(clrs, trns));
    IncreasingCard(ls);
    assert (set y | y in ls) == Keys(clrs, ColorKey) + Keys(trns, OpacityKey);
    if |clrs| > 0 {
      assert clrs[0].location in Keys(clrs, ColorKey);
    } else if |trns| > 0 {
      assert trns[0].location in Keys(trns, OpacityKey);
    }
  }

  /** With no stop of one kind, no location resolves. */
  lemma MissingKind(ctx: StopContext, l: int)
    requires ctx.m == LocationMap(ctx.clrs, ctx.trns)
    requires |ctx.clrs| == 0 || |ctx.trns| == 0
    ensures StopAt(ctx, l) == Failure(IndexOutOfRange)
  {
    LocationMapAt(ctx.clrs, ctx.trns, l);
  }

  /** What StopsOf resolves its stops against: the sorted distinct locations
      of both lists, and a context holding the sorted lists, their lctn_map,
      and the extreme locations. */
  lemma StopsOfContext(clrs0: seq<ColorStop>, trns0: seq<OpacityStop>, base: Option<Color>, globalOpacity: real)
    returns (ctx: StopContext)
    ensures var ls := SortedDistinct(Locations(clrs0, trns0));
      && |ctx.clrs| == |clrs0| && |ctx.trns| == |trns0| && ctx.base == base
      && ctx.m == LocationMap(ctx.clrs, ctx.trns)
      && (|ls| == 0 ==> StopsOf(clrs0, trns0, base, globalOpacity) == Failure(IndexOutOfRange))
      && (|ls| > 0 ==>
            && ctx.lo == ls[0] && ctx.hi == ls[|ls| - 1]
            && StopsOf(clrs0, trns0, base, globalOpacity) == StopsFrom(ls, ctx))
  {
    var clrs := SortBy(clrs0, ColorKey);
    var trns := SortBy(trns0, OpacityKey);
    var m := LocationMap(clrs, trns);
    var ls := SortedDistinct(Locations(clrs0, trns0));
    if |ls| == 0 {
      ctx := StopContext(clrs, trns, m, base, globalOpacity, 0, 0);
    } else {
      ctx := StopContext(clrs, trns, m, base, globalOpacity, ls[0], ls[|ls| - 1]);
    }
  }

  /** The merged stop list exists exactly when there are colour stops,
      opacity stops and at least two distinct locations among them: with
      either kind missing the lookup of the first location fails, and with
      a single location its position divides by zero. */
  lemma StopsErrors(clrs0: seq<ColorStop>, trns0: seq<OpacityStop>, base: Option<Color>, globalOpacity: real)
    ensures var all := Keys(clrs0, ColorKey) + Keys(trns0, OpacityKey);
      StopsOf(clrs0, trns0, base, globalOpacity).Success? <==> |clrs0| > 0 && |trns0| > 0 && |all| >= 2
    ensures (|clrs0| == 0 || |trns0| == 0) ==> StopsOf(clrs0, trns0, base, globalOpacity) == Failure(IndexOutOfRange)
    ensures var all := Keys(clrs0, ColorKey) + Keys(trns0, OpacityKey);
      |clrs0| > 0 && |trns0| > 0 && |all| == 1 ==> StopsOf(clrs0, trns0, base, globalOpacity) == Failure(DivisionByZero)
  {
    var ctx := StopsOfContext(clrs0, trns0, base, globalOpacity);
    var ls := SortedDistinct(Locations(clrs0, trns0));
    LocationCount(clrs0, trns0);
    if |ls| == 0 {
    } else if |clrs0| == 0 || |trns0| == 0 {
      MissingKind(ctx, ls[0]);
      assert StopsFrom(ls, ctx) == Failure(IndexOutOfRange);
    } else if |ls| == 1 {
      StopsFromFails(ls, ctx);
    } else {
      assert ls[0] < ls[|ls| - 1];
      StopsFromFails(ls, ctx);
    }
  }

  /** Stops placed at the positions of strictly increasing locations run
      from 0 to 1, strictly increasing. */
  lemma PlacedStops(stops: seq<Stop>, ls: seq<int>)
    requires Increasing(ls) && |ls| >= 2 && |stops| == |ls|
    requires forall k | 0 <= k < |ls| :: stops[k].offset == Position(ls[0], ls[|ls| - 1], ls[k])
    ensures stops[0].offset == 0.0 && stops[|stops| - 1].offset == 1.0
    ensures forall j, k | 0 <= j < k < |stops| :: stops[j].offset < stops[k].offset
    ensures forall k | 0 <= k < |stops| :: 0.0 <= stops[k].offset <= 1.0
  {
    var lo, hi := ls[0], ls[|ls| - 1];
    PositionOrder(lo, hi, lo, hi);
    forall j, k | 0 <= j < k < |stops|
      ensures stops[j].offset < stops[k].offset
    {
      PositionOrder(lo, hi, ls[j], ls[k]);
    }
    forall k | 0 <= k < |stops|
      ensures 0.0 <= stops[k].offset <= 1.0
    {
      assert lo <= ls[k] <= hi by {
        if 0 < k < |ls| - 1 {
          assert ls[0] < ls[k] < ls[|ls| - 1];
        }
      }
      PositionOrder(lo, hi, ls[k], ls[k]);
    }
  }

  /** The stop at location l carries the colour and opacity found at l in
      the sorted lists and their map, blended with the base. */
  lemma StopsColors(clrs0: seq<ColorStop>, trns0: seq<OpacityStop>, base: Option<Color>, globalOpacity: real)
    requires StopsOf(clrs0, trns0, base, globalOpacity).Success?
    ensures var stops := StopsOf(clrs0, trns0, base, globalOpacity).value;
      var ls := SortedDistinct(Locations(clrs0, trns0));
      var clrs := SortBy(clrs0, ColorKey);
      var trns := SortBy(trns0, OpacityKey);
      var m := LocationMap(clrs, trns);
      |stops| == |ls| &&
      forall k | 0 <= k < |stops| ::
        && ColorAt(clrs, m, ls[k]).Success? && OpacityAt(trns, m, ls[k]).Success?
        && var blended := Blend(ColorAt(clrs, m, ls[k]).value, OpacityAt(trns, m, ls[k]).value, base, globalOpacity);
           stops[k].color == ParseColor(blended.0) && stops[k].opacity == blended.1
  {
    var clrs := SortBy(clrs0, ColorKey);
    var trns := SortBy(trns0, OpacityKey);
    var ls := SortedDistinct(Locations(clrs0, trns0));
    var ctx := StopContext(clrs, trns, LocationMap(clrs, trns), base, globalOpacity, ls[0], ls[|ls| - 1]);
    assert StopsOf(clrs0, trns0, base, globalOpacity) == StopsFrom(ls, ctx);
    StopsFromColors(ls, ctx);
  }

  /** A successful run over strictly increasing locations, placed between
      the first and the last of them, as StopsShape states it. */
  lemma StopsFromPlaced(ls: seq<int>, ctx: StopContext)
    requires StopsFrom(ls, ctx).Success? && Increasing(ls) && |ls| > 0
    requires ctx.lo == ls[0] && ctx.hi == ls[|ls| - 1]
    ensures var stops := StopsFrom(ls, ctx).value;
      && |stops| == |ls| >= 2
      && (forall k | 0 <= k < |ls| :: stops[k].offset == Position(ls[0], ls[|ls| - 1], ls[k]))
      && stops[0].offset == 0.0 && stops[|stops| - 1].offset == 1.0
      && (forall j, k | 0 <= j < k < |stops| :: stops[j].offset < stops[k].offset)
      && (forall k | 0 <= k < |stops| :: 0.0 <= stops[k].offset <= 1.0)
      && (ctx.base.Some? ==> forall k | 0 <= k < |stops| :: stops[k].opacity == 1.0)
  {
    StopsFromOffsets(ls, ctx);
    var stops := StopsFrom(ls, ctx).value;
    assert |ls| >= 2 by {
      assert ls[0] != ls[|ls| - 1];
    }
    PlacedStops(stops, ls);
  }

  /** The offsets and opacities of a merged stop list, as StopsShape states them. */
  lemma StopsPlaced(clrs0: seq<ColorStop>, trns0: seq<OpacityStop>, base: Option<Color>, globalOpacity: real)
    requires StopsOf(clrs0, trns0, base, globalOpacity).Success?
    ensures var stops := StopsOf(clrs0, trns0, base, globalOpacity).value;
      var ls := SortedDistinct(Locations(clrs0, trns0));
      && |stops| == |ls| >= 2
      && (forall k | 0 <= k < |ls| :: stops[k].offset == Position(ls[0], ls[|ls| - 1], ls[k]))
      && stops[0].offset == 0.0 && stops[|stops| - 1].offset == 1.0
      && (forall j, k | 0 <= j < k < |stops| :: stops[j].offset < stops[k].offset)
      && (forall k | 0 <= k < |stops| :: 0.0 <= stops[k].offset <= 1.0)
      && (base.Some? ==> forall k | 0 <= k < |stops| :: stops[k].opacity == 1.0)
  {
    var ctx := StopsOfContext(clrs0, trns0, base, globalOpacity);
    var ls := SortedDistinct(Locations(clrs0, trns0));
    assert |ls| > 0;
    StopsFromPlaced(ls, ctx);
  }

  /** A merged stop list has one stop per distinct location, in increasing
      order of location, at (l - min)/(max - min), so from 0 to 1 strictly
      increasing; blended over a base, every stop is opaque. The stop at
      location l carries the colour and opacity found at l in the sorted
      lists and their map, blended with the base. */
  lemma StopsShape(clrs0: seq<ColorStop>, trns0: seq<OpacityStop>, base: Option<Color>, globalOpacity: real)
    requires StopsOf(clrs0, trns0, base, globalOpacity).Success?
    ensures var stops := StopsOf(clrs0, trns0, base, globalOpacity).value;
      var ls := SortedDistinct(Locations(clrs0, trns0));
      && |stops| == |ls| >= 2
      && (forall k | 0 <= k < |ls| :: stops[k].offset == Position(ls[0], ls[|ls| - 1], ls[k]))
      && stops[0].offset == 0.0 && stops[|stops| - 1].offset == 1.0
      && (forall j, k | 0 <= j < k < |stops| :: stops[j].offset < stops[k].offset)
      && (forall k | 0 <= k < |stops| :: 0.0 <= stops[k].offset <= 1.0)
      && (base.Some? ==> forall k | 0 <= k < |stops| :: stops[k].opacity == 1.0)
    ensures var stops := StopsOf(clrs0, trns0, base, globalOpacity).value;
      var ls := SortedDistinct(Locations(clrs0, trns0));
      var clrs := SortBy(clrs0, ColorKey);
      var trns := SortBy(trns0, OpacityKey);
      var m := LocationMap(clrs, trns);
      |stops| == |ls| &&
      forall k | 0 <= k < |stops| ::
        && ColorAt(clrs, m, ls[k]).Success? && OpacityAt(trns, m, ls[k]).Success?
        && var blended := Blend(ColorAt(clrs, m, ls[k]).value, OpacityAt(trns, m, ls[k]).value, base, globalOpacity);
           stops[k].color == ParseColor(blended.0) && stops[k].opacity == blended.1
  {
    StopsPlaced(clrs0, trns0, base, globalOpacity);
    StopsColors(clrs0, trns0, base, globalOpacity);
  }
}
