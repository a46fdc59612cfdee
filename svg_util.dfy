/** Helpers shared by the SVG converters (p2s_util.py): the fresh-id counter,
    Python's '%d' formatting of integers, the "rgb(r, g, b)" colour string and
    the bounding-box path text. */
module SvgUtil {
  import opened Base

  // ---------------------------------------------------------------------------
  // Decimal text ('%d').

  predicate IsDigit(c: char) {
    '0' <= c <= '9'
  }

  function DigitChar(d: nat): (c: char)
    requires d < 10
    ensures IsDigit(c) && c as int - '0' as int == d
  {
    ('0' as int + d) as char
  }

  /** The decimal digits of n, most significant first, with no leading zero. */
  function NatDigits(n: nat): (s: string)
    ensures |s| > 0
    ensures forall i | 0 <= i < |s| :: IsDigit(s[i])
    ensures n > 0 ==> s[0] != '0'
  {
    if n < 10 then [DigitChar(n)] else NatDigits(n / 10) + [DigitChar(n % 10)]
  }

  /** '%d' of an integer: a minus sign for a negative value, then the digits
      of its magnitude. */
  function FormatInt(i: int): string {
    if i < 0 then "-" + NatDigits(-i) else NatDigits(i)
  }

  predicate AllDigits(s: string) {
    |s| > 0 && forall i | 0 <= i < |s| :: IsDigit(s[i])
  }

  /** The value of a string of digits. */
  function DigitsValue(s: string): nat
    requires forall i | 0 <= i < |s| :: IsDigit(s[i])
  {
    if |s| == 0 then 0
    else
      assert IsDigit(s[|s| - 1]);
      10 * DigitsValue(s[..|s| - 1]) + (s[|s| - 1] as int - '0' as int)
  }

  /** Reading a '%d' field back: an optional minus sign, then digits. */
  function ParseInt(s: string): Option<int> {
    if |s| > 0 && s[0] == '-' then
      if AllDigits(s[1..]) then Some(0 - DigitsValue(s[1..]) as int) else None
    else if AllDigits(s) then Some(DigitsValue(s)) else None
  }

  lemma {:induction false} NatDigitsValue(n: nat)
    ensures DigitsValue(NatDigits(n)) == n
    decreases n
  {
    if n >= 10 {
      NatDigitsValue(n / 10);
      var s := NatDigits(n);
      assert s[..|s| - 1] == NatDigits(n / 10);
    }
  }

  /** A formatted integer reads back as itself. */
  lemma FormatIntRoundTrip(i: int)
    ensures ParseInt(FormatInt(i)) == Some(i)
  {
    var d := NatDigits(Abs(i));
    NatDigitsValue(Abs(i));
    if i < 0 {
      assert FormatInt(i) == "-" + d;
      assert ("-" + d)[1..] == d;
    } else {
      assert FormatInt(i) == d;
    }
  }

  /** A formatted integer holds only a sign and digits: no separator of the
      strings built around it. */
  lemma FormatIntChars(i: int)
    ensures |FormatInt(i)| > 0
    ensures forall k | 0 <= k < |FormatInt(i)| :: FormatInt(i)[k] == '-' || IsDigit(FormatInt(i)[k])
  {
  }

  // ---------------------------------------------------------------------------
  // next_id().

  /** The id next_id() returns when the counter has just reached n. */
  function IdOf(n: nat): string {
    "_" + FormatInt(n)
  }

  /** Two counter values give the same id only when they are equal. */
  lemma IdsDistinct(m: nat, n: nat)
    ensures IdOf(m) == IdOf(n) <==> m == n
  {
    if IdOf(m) == IdOf(n) {
      assert IdOf(m)[1..] == FormatInt(m);
      assert IdOf(n)[1..] == FormatInt(n);
      FormatIntRoundTrip(m);
      FormatIntRoundTrip(n);
    }
  }

  /** The module-level `_last_id` counter. */
  class IdGenerator {
    var last: nat

    constructor ()
      ensures last == 0
    {
      last := 0;
    }

    /** next_id(): the counter goes up by one, and the id is the new value in
        decimal after an underscore, unlike every id handed out before. */
    method NextId() returns (id: string)
      modifies this
      ensures last == old(last) + 1
      ensures id == IdOf(last)
      ensures forall k | 1 <= k <= old(last) :: id != IdOf(k)
    {
      last := last + 1;
      id := "_" + FormatInt(last);
      forall k | 1 <= k <= old(last)
        ensures id != IdOf(k)
      {
        IdsDistinct(k, last);
      }
    }
  }

  // ---------------------------------------------------------------------------
  // parse_color().

  /** Python's int() on a float: truncation toward zero. */
  function Trunc(x: real): (i: int)
    ensures 0.0 <= x ==> 0 <= i && i as real <= x < i as real + 1.0
    ensures x < 0.0 ==> i <= 0 && i as real - 1.0 < x <= i as real
  {
    if x >= 0.0 then x.Floor else -((-x).Floor)
  }

  /** A colour descriptor's 'Rd  ', 'Grn ' and 'Bl  ' components. */
  datatype Color = Color(red: real, green: real, blue: real)

  /** parse_color(): each component truncated, as "rgb(r, g, b)". */
  function ParseColor(c: Color): string {
    "rgb(" + FormatInt(Trunc(c.red)) + ", " + FormatInt(Trunc(c.green)) + ", " + FormatInt(Trunc(c.blue)) + ")"
  }

  /** The text before the first `sep`, all of it when there is none. */
  function Before(s: string, sep: char): string {
    if |s| == 0 || s[0] == sep then [] else [s[0]] + Before(s[1..], sep)
  }

  /** The text after the first `sep`, nothing when there is none. */
  function After(s: string, sep: char): string {
    if |s| == 0 then [] else if s[0] == sep then s[1..] else After(s[1..], sep)
  }

  lemma {:induction false} SplitFirst(x: string, sep: char, y: string)
    requires sep !in x
    ensures Before(x + [sep] + y, sep) == x
    ensures After(x + [sep] + y, sep) == y
    decreases |x|
  {
    if |x| == 0 {
      assert x + [sep] + y == [sep] + y;
      assert ([sep] + y)[1..] == y;
    } else {
      assert (x + [sep] + y)[1..] == x[1..] + [sep] + y;
      SplitFirst(x[1..], sep, y);
      assert [x[0]] + x[1..] == x;
    }
  }

  /** Reading an "rgb(r, g, b)" string back into its three integers. */
  function ReadRgb(s: string): Option<(int, int, int)> {
    if |s| < 5 || s[..4] != "rgb(" || s[|s| - 1] != ')' then None
    else
      var inner := s[4..|s| - 1];
      var rest := After(inner, ',');
      if |rest| == 0 || rest[0] != ' ' then None
      else
        var rest2 := After(rest[1..], ',');
        if |rest2| == 0 || rest2[0] != ' ' then None
        else
          match (ParseInt(Before(inner, ',')), ParseInt(Before(rest[1..], ',')), ParseInt(rest2[1..]))
          case (Some(r), Some(g), Some(b)) => Some((r, g, b))
          case _ => None
  }

  /** Three comma-free fields in the "rgb(r, g, b)" layout split back apart. */
  lemma RgbFields(x: string, y: string, z: string)
    requires ',' !in x && ',' !in y
    ensures
      var s := "rgb(" + x + ", " + y + ", " + z + ")";
      && |s| >= 5 && s[..4] == "rgb(" && s[|s| - 1] == ')'
      && Before(s[4..|s| - 1], ',') == x
      && After(s[4..|s| - 1], ',') == " " + y + ", " + z
      && Before((" " + y + ", " + z)[1..], ',') == y
      && After((" " + y + ", " + z)[1..], ',') == " " + z
  {
    var s := "rgb(" + x + ", " + y + ", " + z + ")";
    var tail := " " + y + ", " + z;
    assert s == "rgb(" + (x + [','] + tail) + ")";
    assert s[4..|s| - 1] == x + [','] + tail;
    SplitFirst(x, ',', tail);
    assert tail[1..] == y + [','] + (" " + z);
    SplitFirst(y, ',', " " + z);
  }

  /** The colour string carries exactly the three truncated components. */
  lemma ParseColorRoundTrip(c: Color)
    ensures ReadRgb(ParseColor(c)) == Some((Trunc(c.red), Trunc(c.green), Trunc(c.blue)))
  {
    var r, g, b := FormatInt(Trunc(c.red)), FormatInt(Trunc(c.green)), FormatInt(Trunc(c.blue));
    FormatIntChars(Trunc(c.red));
    FormatIntChars(Trunc(c.green));
    RgbFields(r, g, b);
    assert (" " + b)[1..] == b;
    FormatIntRoundTrip(Trunc(c.red));
    FormatIntRoundTrip(Trunc(c.green));
    FormatIntRoundTrip(Trunc(c.blue));
  }

  // ---------------------------------------------------------------------------
  // box_path_data().

  /** The corners box_path_data visits, in order: left-top, right-top,
      right-bottom, left-bottom and back to left-top. */
  function BoxCorners(b: Rect): (cs: seq<(int, int)>)
    ensures |cs| == 5 && cs[0] == cs[4] == (b.left, b.top)
    ensures forall i | 0 <= i < 4 :: cs[i].0 == cs[i + 1].0 || cs[i].1 == cs[i + 1].1
  {
    [(b.left, b.top), (b.right, b.top), (b.right, b.bottom), (b.left, b.bottom), (b.left, b.top)]
  }

  /** "x,y" of one corner, each coordinate formatted with '%d'. */
  function CornerText(c: (int, int)): string {
    FormatInt(c.0) + "," + FormatInt(c.1)
  }

  /** The corners' texts separated by single spaces. */
  function CornersText(cs: seq<(int, int)>): string
    decreases |cs|
  {
    if |cs| == 0 then ""
    else if |cs| == 1 then CornerText(cs[0])
    else CornerText(cs[0]) + " " + CornersText(cs[1..])
  }

  /** box_path_data(): a move to the first corner, straight lines through the
      others, and a close. */
  function BoxPathData(b: Rect): string {
    "M " + CornersText(BoxCorners(b)) + " Z"
  }

  /** Reading the left, top, right and bottom coordinates back from the first
      three corners of a box path. */
  function ReadBox(s: string): Option<Rect> {
    if |s| < 4 || s[..2] != "M " then None
    else
      var p1 := s[2..];
      var p2 := After(After(p1, ','), ' ');
      var p3 := After(After(p2, ','), ' ');
      var left := ParseInt(Before(p1, ','));
      var top := ParseInt(Before(After(p1, ','), ' '));
      var right := ParseInt(Before(p2, ','));
      var bottom := ParseInt(Before(After(p3, ','), ' '));
      if left.Some? && top.Some? && right.Some? && bottom.Some? then
        Some(Rect(top.value, left.value, bottom.value, right.value))
      else None
  }

  /** "x,y" followed by a space splits back into x, y and the rest, when
      neither field holds a comma or a space. */
  lemma PairSplit(x: string, y: string, rest: string)
    requires ',' !in x && ' ' !in y
    ensures Before(x + "," + y + " " + rest, ',') == x
    ensures Before(After(x + "," + y + " " + rest, ','), ' ') == y
    ensures After(After(x + "," + y + " " + rest, ','), ' ') == rest
  {
    assert x + "," + y + " " + rest == x + [','] + (y + [' '] + rest);
    SplitFirst(x, ',', y + [' '] + rest);
    SplitFirst(y, ' ', rest);
  }

  /** The box path spelled out corner by corner. */
  lemma BoxPathText(b: Rect)
    ensures
      var cs := BoxCorners(b);
      BoxPathData(b) == "M " + (CornerText(cs[0]) + " " + (CornerText(cs[1]) + " " + (CornerText(cs[2]) + " " + (CornersText(cs[3..]) + " Z"))))
  {
    var cs := BoxCorners(b);
    assert cs[1..][1..] == cs[2..] && cs[2..][1..] == cs[3..];
    assert CornersText(cs) == CornerText(cs[0]) + " " + CornersText(cs[1..]);
    assert CornersText(cs[1..]) == CornerText(cs[1]) + " " + CornersText(cs[2..]);
    assert CornersText(cs[2..]) == CornerText(cs[2]) + " " + CornersText(cs[3..]);
  }

  /** The box path text determines the box. */
  lemma BoxPathRoundTrip(b: Rect)
    ensures ReadBox(BoxPathData(b)) == Some(b)
  {
    var l, t, r, bt := FormatInt(b.left), FormatInt(b.top), FormatInt(b.right), FormatInt(b.bottom);
    FormatIntChars(b.left);
    FormatIntChars(b.top);
    FormatIntChars(b.right);
    FormatIntChars(b.bottom);
    var cs := BoxCorners(b);
    var t3 := CornersText(cs[3..]) + " Z";
    var t2 := r + "," + bt + " " + t3;
    var t1 := r + "," + t + " " + t2;
    var t0 := l + "," + t + " " + t1;
    BoxPathText(b);
    assert BoxPathData(b) == "M " + t0;
    assert ("M " + t0)[..2] == "M " && ("M " + t0)[2..] == t0;
    PairSplit(l, t, t1);
    PairSplit(r, t, t2);
    PairSplit(r, bt, t3);
    FormatIntRoundTrip(b.left);
    FormatIntRoundTrip(b.top);
    FormatIntRoundTrip(b.right);
    FormatIntRoundTrip(b.bottom);
  }
}
