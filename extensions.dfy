/**
 * The discrete helpers of the game's extension class: an input axis from two buttons, a digit
 * test, the "1d 19h 35m 7s" duration format, the comma-separated list of collider names, and
 * the recursive layer update of a transform hierarchy.
 */
module Extensions {
  import opened Wrappers

  // ---------------------------------------------------------------------------------------
  // FloatFromAxis
  // ---------------------------------------------------------------------------------------

  /** The axis value of a pair of opposing buttons: +1, -1, or 0 when both or neither are down. */
  function FloatFromAxis(positive: bool, negative: bool): (r: real)
    ensures r == 1.0 <==> positive && !negative
    ensures r == -1.0 <==> !positive && negative
    ensures r == 0.0 <==> positive == negative
  {
    match (positive, negative)
    case (true, false) => 1.0
    case (false, true) => -1.0
    case _ => 0.0
  }

  /** Swapping the buttons negates the axis. */
  lemma FloatFromAxisAntisymmetric(positive: bool, negative: bool)
    ensures FloatFromAxis(negative, positive) == -FloatFromAxis(positive, negative)
  {
  }

  // ---------------------------------------------------------------------------------------
  // AllCharsAreDigits
  // ---------------------------------------------------------------------------------------

  predicate IsDigit(c: char) {
    '0' <= c <= '9'
  }

  /** Records whether each character is a digit, then reports whether every record is true. */
  method AllCharsAreDigits(chars: array<char>) returns (r: bool)
    ensures r <==> forall k :: 0 <= k < chars.Length ==> IsDigit(chars[k])
  {
    var isDigitBools: seq<bool> := [];
    for i := 0 to chars.Length
      invariant |isDigitBools| == i
      invariant forall k :: 0 <= k < i ==> isDigitBools[k] == IsDigit(chars[k])
    {
      isDigitBools := isDigitBools + [IsDigit(chars[i])];
    }
    r := true;
    for i := 0 to |isDigitBools|
      invariant r <==> forall k :: 0 <= k < i ==> isDigitBools[k]
    {
      if !isDigitBools[i] {
        return false;
      }
    }
  }

  // ---------------------------------------------------------------------------------------
  // ConvertTime
  // ---------------------------------------------------------------------------------------

  const SecondsPerMinute: int := 60
  const SecondsPerHour: int := 3600
  const SecondsPerDay: int := 86400
  const ZeroSeconds: string := "0s"

  /** C#'s integer division, which truncates toward zero. */
  function TruncDiv(a: int, b: int): int
    requires b > 0
  {
    if a >= 0 then a / b else -((-a) / b)
  }

  /** C#'s remainder, which takes the sign of the dividend. */
  function TruncRem(a: int, b: int): int
    requires b > 0
  {
    if a >= 0 then a % b else -((-a) % b)
  }

  /** The components of a time span of `n` whole seconds. */
  function Days(n: int): int { TruncDiv(n, SecondsPerDay) }
  function Hours(n: int): int { TruncRem(TruncDiv(n, SecondsPerHour), 24) }
  function Minutes(n: int): int { TruncRem(TruncDiv(n, SecondsPerMinute), 60) }
  function Seconds(n: int): int { TruncRem(n, SecondsPerMinute) }

  function DigitChar(d: nat): char
    requires d < 10
  {
    ['0', '1', '2', '3', '4', '5', '6', '7', '8', '9'][d]
  }

  function DigitValue(c: char): nat
    requires IsDigit(c)
  {
    (c as int - '0' as int) as nat
  }

  /** Decimal notation of a natural number, without leading zeros. */
  function NatToString(k: nat): (r: string)
    ensures |r| > 0 && forall i :: 0 <= i < |r| ==> IsDigit(r[i])
    ensures k > 0 ==> r[0] != '0'
    ensures k == 0 ==> r == "0"
  {
    if k < 10 then [DigitChar(k)] else NatToString(k / 10) + [DigitChar(k % 10)]
  }

  /** A component followed by its unit and a space, or nothing when the component is not positive. */
  function Shown(v: int, unit: char): string {
    if v > 0 then NatToString(v) + [unit, ' '] else ""
  }

  /** Days, hours, minutes and seconds as text, dropping days, hours and minutes that are not positive. */
  function FormatSpan(days: int, hours: int, minutes: int, seconds: int): (r: string)
    ensures days <= 0 && hours <= 0 && minutes <= 0 && seconds <= 0 ==> r == ZeroSeconds
  {
    Shown(days, 'd') + Shown(hours, 'h') + Shown(minutes, 'm') + SecondsText(seconds)
  }

  /** The seconds are always shown: "Ns " when positive, otherwise "0s". */
  function SecondsText(seconds: int): string {
    if seconds > 0 then Shown(seconds, 's') else ZeroSeconds
  }

  /**
   * The time span of `seconds` (already truncated to a whole number) as "Nd Nh Nm Ns ", each of
   * days, hours and minutes shown only when positive, and "0s" in place of the seconds when
   * they are not positive.
   */
  function ConvertTime(seconds: int): (r: string)
    ensures seconds <= 0 ==> r == ZeroSeconds
  {
    if seconds <= 0 then TimeSpanNonPositive(seconds); FormatSpan(Days(seconds), Hours(seconds), Minutes(seconds), Seconds(seconds))
    else FormatSpan(Days(seconds), Hours(seconds), Minutes(seconds), Seconds(seconds))
  }

  /** The text always ends with the seconds: "s " after a positive count, otherwise "0s". */
  lemma FormatSpanEnds(days: int, hours: int, minutes: int, seconds: int)
    ensures var r := FormatSpan(days, hours, minutes, seconds);
      && (seconds > 0 ==> |r| >= 3 && r[|r| - 2..] == "s ")
      && (seconds <= 0 ==> |r| >= 2 && r[|r| - 2..] == ZeroSeconds)
  {
    var prefix := Shown(days, 'd') + Shown(hours, 'h') + Shown(minutes, 'm');
    var last := SecondsText(seconds);
    var r := prefix + last;
    assert FormatSpan(days, hours, minutes, seconds) == r;
    if seconds > 0 {
      assert last == NatToString(seconds) + ['s', ' '];
    }
    assert r[|r| - 2..] == last[|last| - 2..];
  }

  // A reader for the format, to state what ConvertTime's output means.

  datatype TimePart = TimePart(value: nat, unit: char)

  predicate IsUnit(u: char) {
    u == 'd' || u == 'h' || u == 'm' || u == 's'
  }

  function UnitSeconds(u: char): nat {
    match u
    case 'd' => SecondsPerDay
    case 'h' => SecondsPerHour
    case 'm' => SecondsPerMinute
    case _ => 1
  }

  function UnitRank(u: char): nat {
    match u
    case 'd' => 0
    case 'h' => 1
    case 'm' => 2
    case _ => 3
  }

  /** The number of digits at the start of `s`. */
  function DigitRun(s: string): (k: nat)
    ensures k <= |s|
  {
    if s == [] || !IsDigit(s[0]) then 0 else 1 + DigitRun(s[1..])
  }

  /** The number a string of digits denotes. */
  function DigitsValue(ds: string): nat
    requires forall i :: 0 <= i < |ds| ==> IsDigit(ds[i])
  {
    if ds == [] then 0 else DigitsValue(ds[..|ds| - 1]) * 10 + DigitValue(ds[|ds| - 1])
  }

  lemma {:induction false} DigitRunDigits(s: string)
    ensures forall i :: 0 <= i < DigitRun(s) ==> IsDigit(s[i])
    decreases |s|
  {
    if s != [] && IsDigit(s[0]) {
      DigitRunDigits(s[1..]);
    }
  }

  /**
   * Reads a sequence of parts, each a number, a unit letter and an optional space;
   * None when the text is not of that form.
   */
  function ParseTime(s: string): Option<seq<TimePart>>
    decreases |s|
  {
    if s == [] then Some([])
    else
      var k := DigitRun(s);
      if k == 0 || k == |s| || !IsUnit(s[k]) then None
      else
        var rest := if k + 1 < |s| && s[k + 1] == ' ' then s[k + 2..] else s[k + 1..];
        DigitRunDigits(s);
        match ParseTime(rest)
        case None => None
        case Some(ps) => Some([TimePart(DigitsValue(s[..k]), s[k])] + ps)
  }

  function PartSeconds(p: TimePart): int {
    p.value * UnitSeconds(p.unit)
  }

  function TotalSeconds(ps: seq<TimePart>): int {
    if ps == [] then 0 else PartSeconds(ps[0]) + TotalSeconds(ps[1..])
  }

  /**
   * The canonical form of a duration: units in the order d, h, m, s, each at most once, ending
   * with the seconds; hours below 24, minutes and seconds below 60; only the seconds may be zero.
   */
  predicate Canonical(ps: seq<TimePart>) {
    && |ps| > 0
    && ps[|ps| - 1].unit == 's'
    && (forall i :: 0 <= i < |ps| ==> IsUnit(ps[i].unit))
    && (forall i, j :: 0 <= i < j < |ps| ==> UnitRank(ps[i].unit) < UnitRank(ps[j].unit))
    && (forall i :: 0 <= i < |ps| && ps[i].unit == 'h' ==> ps[i].value < 24)
    && (forall i :: 0 <= i < |ps| && (ps[i].unit == 'm' || ps[i].unit == 's') ==> ps[i].value < 60)
    && (forall i :: 0 <= i < |ps| - 1 ==> ps[i].value > 0)
  }

  /** Reading the decimal notation of a number gives the number back. */
  lemma {:induction false} NatToStringValue(k: nat)
    ensures DigitsValue(NatToString(k)) == k
  {
    if k >= 10 {
      var prefix := NatToString(k / 10);
      NatToStringValue(k / 10);
      assert NatToString(k)[..|NatToString(k)| - 1] == prefix;
    }
  }

  lemma {:induction false} DigitRunStopsAfterDigits(ds: string, tail: string)
    requires forall i :: 0 <= i < |ds| ==> IsDigit(ds[i])
    requires tail != [] && !IsDigit(tail[0])
    ensures DigitRun(ds + tail) == |ds|
    decreases |ds|
  {
    if ds == [] {
      assert ds + tail == tail;
    } else {
      assert (ds + tail)[1..] == ds[1..] + tail;
      DigitRunStopsAfterDigits(ds[1..], tail);
    }
  }

  /** Reading a number and a unit, then a space and the rest. */
  lemma ParseNumberUnitSpace(k: nat, unit: char, rest: string)
    requires IsUnit(unit)
    ensures ParseTime(NatToString(k) + [unit, ' '] + rest) == Prepend([TimePart(k, unit)], ParseTime(rest))
  {
    var ds := NatToString(k);
    var s := ds + [unit, ' '] + rest;
    NatToStringValue(k);
    assert s == ds + ([unit, ' '] + rest);
    DigitRunStopsAfterDigits(ds, [unit, ' '] + rest);
    assert s[..|ds|] == ds;
    assert s[|ds|] == unit && s[|ds| + 1] == ' ';
    assert s[|ds| + 2..] == rest;
  }

  /** Reading a number and a unit that end the text. */
  lemma ParseNumberUnitEnd(k: nat, unit: char)
    requires IsUnit(unit)
    ensures ParseTime(NatToString(k) + [unit]) == Some([TimePart(k, unit)])
  {
    var ds := NatToString(k);
    var s := ds + [unit];
    NatToStringValue(k);
    DigitRunStopsAfterDigits(ds, [unit]);
    assert s[..|ds|] == ds;
    assert s[|ds|] == unit;
    assert s[|ds| + 1..] == [];
    assert ParseTime([]) == Some([]);
    assert [TimePart(k, unit)] + [] == [TimePart(k, unit)];
  }

  function Listed(v: int, unit: char): seq<TimePart> {
    if v > 0 then [TimePart(v, unit)] else []
  }

  function Prepend(ps: seq<TimePart>, parsed: Option<seq<TimePart>>): Option<seq<TimePart>> {
    match parsed
    case None => None
    case Some(qs) => Some(ps + qs)
  }

  lemma ParseShown(v: int, unit: char, rest: string)
    requires IsUnit(unit)
    ensures ParseTime(Shown(v, unit) + rest) == Prepend(Listed(v, unit), ParseTime(rest))
  {
    if v > 0 {
      assert Shown(v, unit) + rest == NatToString(v) + [unit, ' '] + rest;
      ParseNumberUnitSpace(v, unit, rest);
    } else {
      assert Shown(v, unit) + rest == rest;
      match ParseTime(rest)
      case None =>
      case Some(qs) => assert [] + qs == qs;
    }
  }

  /** The seconds part: "Ns " when positive, otherwise "0s". */
  lemma ParseSecondsPart(seconds: int)
    ensures ParseTime(SecondsText(seconds)) == Some([SecondsPart(seconds)])
  {
    assert ParseTime([]) == Some([]);
    if seconds > 0 {
      ParseShown(seconds, 's', []);
      assert Shown(seconds, 's') + [] == Shown(seconds, 's');
      assert Listed(seconds, 's') + [] == [TimePart(seconds, 's')];
    } else {
      assert NatToString(0) == ['0'];
      assert ZeroSeconds == NatToString(0) + ['s'];
      ParseNumberUnitEnd(0, 's');
    }
  }

  /** The parts FormatSpan prints, in order. */
  function SpanParts(days: int, hours: int, minutes: int, seconds: int): seq<TimePart> {
    Listed(days, 'd') + Listed(hours, 'h') + Listed(minutes, 'm') + [SecondsPart(seconds)]
  }

  function SecondsPart(seconds: int): TimePart {
    TimePart(if seconds > 0 then seconds else 0, 's')
  }

  /** The text after the days reads back as the hours, minutes and seconds parts. */
  lemma ParseAfterDays(hours: int, minutes: int, seconds: int)
    ensures ParseTime(Shown(hours, 'h') + (Shown(minutes, 'm') + SecondsText(seconds)))
      == Some(Listed(hours, 'h') + (Listed(minutes, 'm') + [SecondsPart(seconds)]))
  {
    var last := SecondsText(seconds);
    ParseSecondsPart(seconds);
    ParseShown(minutes, 'm', last);
    ParseShown(hours, 'h', Shown(minutes, 'm') + last);
  }

  lemma FormatSpanParses(days: int, hours: int, minutes: int, seconds: int)
    ensures ParseTime(FormatSpan(days, hours, minutes, seconds)) == Some(SpanParts(days, hours, minutes, seconds))
  {
    var h := Shown(hours, 'h') + (Shown(minutes, 'm') + SecondsText(seconds));
    var tail := Listed(hours, 'h') + (Listed(minutes, 'm') + [SecondsPart(seconds)]);
    ParseAfterDays(hours, minutes, seconds);
    assert ParseTime(h) == Some(tail);
    ParseShown(days, 'd', h);
    assert ParseTime(Shown(days, 'd') + h) == Some(Listed(days, 'd') + tail);
    SpanTextAssociates(days, hours, minutes, seconds);
  }

  lemma SpanTextAssociates(days: int, hours: int, minutes: int, seconds: int)
    ensures FormatSpan(days, hours, minutes, seconds)
      == Shown(days, 'd') + (Shown(hours, 'h') + (Shown(minutes, 'm') + SecondsText(seconds)))
    ensures SpanParts(days, hours, minutes, seconds)
      == Listed(days, 'd') + (Listed(hours, 'h') + (Listed(minutes, 'm') + [SecondsPart(seconds)]))
  {
  }

  lemma {:induction false} TotalSecondsAppend(a: seq<TimePart>, b: seq<TimePart>)
    ensures TotalSeconds(a + b) == TotalSeconds(a) + TotalSeconds(b)
    decreases |a|
  {
    if a == [] {
      assert a + b == b;
    } else {
      assert (a + b)[0] == a[0];
      assert (a + b)[1..] == a[1..] + b;
      TotalSecondsAppend(a[1..], b);
      calc {
        TotalSeconds(a + b);
        PartSeconds(a[0]) + TotalSeconds(a[1..] + b);
        PartSeconds(a[0]) + TotalSeconds(a[1..]) + TotalSeconds(b);
        TotalSeconds(a) + TotalSeconds(b);
      }
    }
  }

  /** A whole number of seconds splits into days, hours below 24, minutes and seconds below 60. */
  lemma TimeSpanSplit(n: int)
    requires n >= 0
    ensures 0 <= Hours(n) < 24 && 0 <= Minutes(n) < 60 && 0 <= Seconds(n) < 60 && Days(n) >= 0
    ensures Days(n) * SecondsPerDay + Hours(n) * SecondsPerHour + Minutes(n) * SecondsPerMinute + Seconds(n) == n
  {
    var m1, s := n / 60, n % 60;
    var m2, mm := m1 / 60, m1 % 60;
    var d, hh := m2 / 24, m2 % 24;
    assert n == 3600 * m2 + (60 * mm + s);
    assert n / 3600 == m2;
    assert n == 86400 * d + (3600 * hh + 60 * mm + s);
    assert n / 86400 == d;
  }

  lemma TimeSpanNonPositive(n: int)
    requires n <= 0
    ensures Days(n) <= 0 && Hours(n) <= 0 && Minutes(n) <= 0 && Seconds(n) <= 0
  {
  }

  /** The printed parts of a split time span are in canonical form. */
  lemma SpanPartsCanonical(d: int, h: int, m: int, s: int)
    requires d >= 0 && 0 <= h < 24 && 0 <= m < 60 && 0 <= s < 60
    ensures Canonical(SpanParts(d, h, m, s))
  {
    var ps := SpanParts(d, h, m, s);
    forall i, j | 0 <= i < j < |ps|
      ensures UnitRank(ps[i].unit) < UnitRank(ps[j].unit)
    {
    }
  }

  /** The printed parts of a split time span add up to its seconds. */
  lemma SpanPartsTotal(d: int, h: int, m: int, s: int)
    requires d >= 0 && h >= 0 && m >= 0 && s >= 0
    ensures TotalSeconds(SpanParts(d, h, m, s))
      == d * SecondsPerDay + h * SecondsPerHour + m * SecondsPerMinute + s
  {
    TotalSecondsAppend(Listed(d, 'd') + Listed(h, 'h') + Listed(m, 'm'), [SecondsPart(s)]);
    TotalSecondsAppend(Listed(d, 'd') + Listed(h, 'h'), Listed(m, 'm'));
    TotalSecondsAppend(Listed(d, 'd'), Listed(h, 'h'));
    assert TotalSeconds(Listed(d, 'd')) == d * SecondsPerDay;
    assert TotalSeconds(Listed(h, 'h')) == h * SecondsPerHour;
    assert TotalSeconds(Listed(m, 'm')) == m * SecondsPerMinute;
    assert TotalSeconds([SecondsPart(s)]) == s;
  }

  /**
   * ConvertTime's text reads back as a canonical duration of exactly `seconds` seconds, or of
   * zero seconds when `seconds` is not positive.
   */
  lemma ConvertTimeReadsBack(seconds: int)
    ensures var parsed := ParseTime(ConvertTime(seconds));
      && parsed.Some?
      && Canonical(parsed.value)
      && TotalSeconds(parsed.value) == if seconds <= 0 then 0 else seconds
  {
    var n := seconds;
    var d, h, m, s := Days(n), Hours(n), Minutes(n), Seconds(n);
    FormatSpanParses(d, h, m, s);
    if n <= 0 {
      TimeSpanNonPositive(n);
      assert SpanParts(d, h, m, s) == [TimePart(0, 's')];
    } else {
      TimeSpanSplit(n);
      SpanPartsCanonical(d, h, m, s);
      SpanPartsTotal(d, h, m, s);
    }
  }

  // ---------------------------------------------------------------------------------------
  // ToStringBuilder(Collider[])
  // ---------------------------------------------------------------------------------------

  /** An array slot: None is a null collider, Some(name) a collider and its game object's name. */
  type Collider = Option<string>

  const Comma: string := ", "
  const NotApplicable: string := "n/a"

  function NameEntry(c: Collider): string {
    match c
    case Some(name) => name + Comma
    case None => ""
  }

  /** Each non-null collider's name followed by ", ", in array order. */
  function ColliderNames(cs: seq<Collider>): string
    decreases |cs|
  {
    if cs == [] then "" else ColliderNames(cs[..|cs| - 1]) + NameEntry(cs[|cs| - 1])
  }

  /**
   * The names of the colliders in `colliders`, or `ifNullText` for a null array and `ifEmptyText`
   * for an empty one (both "n/a" by default).
   */
  method ToStringBuilder(colliders: Option<seq<Collider>>, ifNullText: string, ifEmptyText: string)
    returns (r: string)
    ensures colliders.None? ==> r == ifNullText
    ensures colliders == Some([]) ==> r == ifEmptyText
    ensures colliders.Some? && colliders.value != [] ==> r == ColliderNames(colliders.value)
  {
    var a := "";
    if colliders.None? { return a + ifNullText; }
    var cs := colliders.value;
    if |cs| == 0 { return a + ifEmptyText; }
    for i := 0 to |cs|
      invariant a == ColliderNames(cs[..i])
    {
      assert cs[..i + 1][..i] == cs[..i];
      if cs[i].Some? {
        a := a + cs[i].value + Comma;
      }
    }
    assert cs[..|cs|] == cs;
    return a;
  }

  /** The call with both optional texts left at their default, "n/a". */
  method ToStringBuilderDefault(colliders: Option<seq<Collider>>) returns (r: string)
    ensures colliders.None? || colliders == Some([]) ==> r == NotApplicable
    ensures colliders.Some? && colliders.value != [] ==> r == ColliderNames(colliders.value)
  {
    r := ToStringBuilder(colliders, NotApplicable, NotApplicable);
  }

  /** The list of a concatenation is the concatenation of the lists. */
  lemma {:induction false} ColliderNamesAppend(a: seq<Collider>, b: seq<Collider>)
    ensures ColliderNames(a + b) == ColliderNames(a) + ColliderNames(b)
    decreases |b|
  {
    if b == [] {
      assert a + b == a;
    } else {
      var b', x := b[..|b| - 1], b[|b| - 1];
      assert b == b' + [x];
      assert a + b == (a + b') + [x];
      ColliderNamesSnoc(a + b', x);
      ColliderNamesSnoc(b', x);
      ColliderNamesAppend(a, b');
      StringAssociates(ColliderNames(a), ColliderNames(b'), NameEntry(x));
    }
  }

  lemma ColliderNamesSnoc(cs: seq<Collider>, x: Collider)
    ensures ColliderNames(cs + [x]) == ColliderNames(cs) + NameEntry(x)
  {
    assert (cs + [x])[..|cs|] == cs;
  }

  /** Kept apart from ColliderNamesAppend so that its proof stays small. */
  lemma StringAssociates(p: string, q: string, r: string)
    ensures (p + q) + r == p + (q + r)
  {
  }

  /** A list of only null colliders prints as nothing. */
  lemma {:induction false} ColliderNamesAllNull(cs: seq<Collider>)
    requires forall i :: 0 <= i < |cs| ==> cs[i].None?
    ensures ColliderNames(cs) == ""
    decreases |cs|
  {
    if cs != [] {
      ColliderNamesAllNull(cs[..|cs| - 1]);
    }
  }

  /** Each non-null collider adds its name and a separator; null colliders add nothing. */
  lemma {:induction false} ColliderNamesLength(cs: seq<Collider>)
    ensures |ColliderNames(cs)| == LengthOfNames(cs)
    decreases |cs|
  {
    if cs != [] {
      ColliderNamesLength(cs[..|cs| - 1]);
    }
  }

  function LengthOfNames(cs: seq<Collider>): nat
    decreases |cs|
  {
    if cs == [] then 0
    else LengthOfNames(cs[..|cs| - 1]) + (if cs[|cs| - 1].Some? then |cs[|cs| - 1].value| + 2 else 0)
  }

  // ---------------------------------------------------------------------------------------
  // SetChildLayers
  // ---------------------------------------------------------------------------------------

  /** A transform hierarchy: each node's game-object layer and its children in order. */
  datatype Transform = Transform(layer: int, children: seq<Transform>)

  /** Unity has 32 layers; assigning a layer outside 0..31 is refused and leaves the layer as it was. */
  const LayerCount: int := 32

  predicate ValidLayer(layer: int) {
    0 <= layer < LayerCount
  }

  /** The layer a game object ends up on after `layer` is assigned to it. */
  function AssignLayer(current: int, layer: int): int {
    if ValidLayer(layer) then layer else current
  }

  /**
   * The hierarchy after the update: every child is assigned `layer` and updated in turn; the
   * node's own layer is kept.
   */
  function WithChildLayers(t: Transform, layer: int): (r: Transform)
    ensures r.layer == t.layer && |r.children| == |t.children|
    decreases t
  {
    Transform(t.layer, seq(|t.children|, i requires 0 <= i < |t.children| =>
      WithChildLayers(t.children[i], layer).(layer := AssignLayer(t.children[i].layer, layer))))
  }

  /** Every node of `t`, `t` included, is on `layer`. */
  predicate AllOnLayer(t: Transform, layer: int)
    decreases t
  {
    t.layer == layer && forall i :: 0 <= i < |t.children| ==> AllOnLayer(t.children[i], layer)
  }

  /** `a` and `b` have the same tree shape, whatever their layers. */
  predicate SameShape(a: Transform, b: Transform)
    decreases a
  {
    |a.children| == |b.children| && forall i :: 0 <= i < |a.children| ==> SameShape(a.children[i], b.children[i])
  }

  /** For each child in order: put it on `layer`, then update its own children. */
  method SetChildLayers(t: Transform, layer: int) returns (r: Transform)
    ensures r == WithChildLayers(t, layer)
    decreases t.children
  {
    var children := t.children;
    for i := 0 to |t.children|
      invariant |children| == |t.children|
      invariant forall k :: 0 <= k < i ==>
        children[k] == WithChildLayers(t.children[k], layer).(layer := AssignLayer(t.children[k].layer, layer))
      invariant forall k :: i <= k < |children| ==> children[k] == t.children[k]
    {
      var child := t.children[i].(layer := AssignLayer(t.children[i].layer, layer));
      child := SetChildLayers(child, layer);
      children := children[i := child];
    }
    r := Transform(t.layer, children);
  }

  /** The root keeps its layer and, for a layer in range, every strict descendant ends up on it. */
  lemma {:induction false} WithChildLayersRelayers(t: Transform, layer: int)
    ensures var r := WithChildLayers(t, layer);
      && r.layer == t.layer
      && (ValidLayer(layer) ==> forall i :: 0 <= i < |r.children| ==> AllOnLayer(r.children[i], layer))
    decreases t
  {
    var r := WithChildLayers(t, layer);
    forall i | 0 <= i < |r.children| ensures ValidLayer(layer) ==> AllOnLayer(r.children[i], layer) {
      WithChildLayersRelayers(t.children[i], layer);
    }
  }

  /** A layer out of range changes nothing anywhere in the hierarchy. */
  lemma {:induction false} WithChildLayersIgnoresInvalid(t: Transform, layer: int)
    ensures !ValidLayer(layer) ==> WithChildLayers(t, layer) == t
    decreases t
  {
    if !ValidLayer(layer) {
      var r := WithChildLayers(t, layer);
      forall i | 0 <= i < |t.children| ensures r.children[i] == t.children[i] {
        WithChildLayersIgnoresInvalid(t.children[i], layer);
      }
      assert r.children == t.children;
    }
  }

  /** The update changes layers only, never the shape of the hierarchy. */
  lemma {:induction false} WithChildLayersKeepsShape(t: Transform, layer: int)
    ensures SameShape(WithChildLayers(t, layer), t)
    decreases t
  {
    var r := WithChildLayers(t, layer);
    forall i | 0 <= i < |r.children| ensures SameShape(r.children[i], t.children[i]) {
      WithChildLayersKeepsShape(t.children[i], layer);
    }
  }

  /** A hierarchy whose descendants are all on `layer` already is left as it is. */
  lemma {:induction false} WithChildLayersFixesUniform(t: Transform, layer: int)
    requires forall i :: 0 <= i < |t.children| ==> AllOnLayer(t.children[i], layer)
    ensures WithChildLayers(t, layer) == t
    decreases t
  {
    var r := WithChildLayers(t, layer);
    forall i | 0 <= i < |t.children| ensures r.children[i] == t.children[i] {
      var c := t.children[i];
      WithChildLayersFixesUniform(c, layer);
    }
    assert r.children == t.children;
  }

  /** Applying the update twice is the same as applying it once. */
  lemma WithChildLayersIdempotent(t: Transform, layer: int)
    ensures WithChildLayers(WithChildLayers(t, layer), layer) == WithChildLayers(t, layer)
  {
    if ValidLayer(layer) {
      WithChildLayersRelayers(t, layer);
      WithChildLayersFixesUniform(WithChildLayers(t, layer), layer);
    } else {
      WithChildLayersIgnoresInvalid(t, layer);
    }
  }
}
