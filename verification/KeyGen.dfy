/** Key expansion of internal/workload/keygen.go, with the decimal formatting it relies on. */
module KeyGen {
  import opened Basics
  import opened Strings

  // ---------------------------------------------------------------------------------------------
  // Decimal numbers

  function Digit(d: nat): char
    requires d < 10
  {
    '0' + d as char
  }

  predicate IsDigit(c: char)
  {
    '0' <= c <= '9'
  }

  function Digits(n: nat): (s: string)
    ensures |s| >= 1 && forall c :: c in s ==> IsDigit(c)
  {
    if n < 10 then [Digit(n)] else Digits(n / 10) + [Digit(n % 10)]
  }

  predicate AllDigits(s: string)
  {
    forall i :: 0 <= i < |s| ==> IsDigit(s[i])
  }

  function DecimalValue(s: string): nat
    requires AllDigits(s)
  {
    if s == "" then 0 else 10 * DecimalValue(s[..|s| - 1]) + (s[|s| - 1] - '0') as nat
  }

  function Pow10(k: nat): (r: nat)
    ensures r >= 1
  {
    if k == 0 then 1 else 10 * Pow10(k - 1)
  }

  function Zeros(n: nat): (s: string)
    ensures |s| == n && forall i :: 0 <= i < n ==> s[i] == '0'
  {
    seq(n, _ => '0')
  }

  function Pad(width: int, s: string): (r: string)
    ensures |r| == if width > |s| then width else |s|
  {
    if |s| >= width then s else Zeros(width - |s|) + s
  }

  /** fmt's %0*d: zeros between the sign and the digits, up to width characters. */
  function ZeroPadded(width: nat, n: int): string
  {
    if n < 0 then "-" + Pad(width - 1, Digits(-n)) else Pad(width, Digits(n))
  }

  function Itoa(n: int): string
  {
    if n < 0 then "-" + Digits(-n) else Digits(n)
  }

  /** The largest width fmt accepts from an argument. */
  const MAX_WIDTH := 1_000_000

  /** fmt.Sprintf("%0*d", width, n) */
  function Sprintf(width: nat, n: int): string
  {
    if width > MAX_WIDTH then "%!(BADWIDTH)" + Itoa(n) else ZeroPadded(width, n)
  }

  /** strconv.Atoi */
  function Atoi(s: string): Option<int>
  {
    var signed := s != "" && (s[0] == '+' || s[0] == '-');
    var digits := if signed then s[1..] else s;
    if digits == "" || !AllDigits(digits) then None else
    var magnitude: int := DecimalValue(digits);
    var n := if signed && s[0] == '-' then -magnitude else magnitude;
    if -0x8000_0000_0000_0000 <= n < 0x8000_0000_0000_0000 then Some(n) else None
  }

  // ---------------------------------------------------------------------------------------------
  // The template

  predicate OpensAt(t: string, i: int)
  {
    0 <= i && i + 4 <= |t| && t[i..i + 4] == "{seq"
  }

  /** The first position from i on where "{seq" starts, or -1. */
  function FindOpen(t: string, i: nat): (r: int)
    requires i <= |t|
    ensures r == -1 ==> forall k :: i <= k ==> !OpensAt(t, k)
    ensures r != -1 ==> i <= r && OpensAt(t, r) && forall k :: i <= k < r ==> !OpensAt(t, k)
    decreases |t| - i
  {
    if i == |t| then -1 else if OpensAt(t, i) then i else FindOpen(t, i + 1)
  }

  /** The first position from i on of a closing brace, or -1. */
  function FindClose(t: string, i: nat): (r: int)
    requires i <= |t|
    ensures r == -1 ==> forall k :: i <= k < |t| ==> t[k] != '}'
    ensures r != -1 ==> i <= r < |t| && t[r] == '}' && forall k :: i <= k < r ==> t[k] != '}'
    decreases |t| - i
  {
    if i == |t| then -1 else if t[i] == '}' then i else FindClose(t, i + 1)
  }

  /** A "{seq" with a closing brace somewhere behind it. */
  predicate HasPlaceholder(t: string)
  {
    var start := FindOpen(t, 0);
    start != -1 && FindClose(t, start) != -1
  }

  function PlaceholderStart(t: string): (start: nat)
    requires HasPlaceholder(t)
    ensures OpensAt(t, start)
  {
    FindOpen(t, 0)
  }

  function PlaceholderEnd(t: string): (end: nat)
    requires HasPlaceholder(t)
    ensures PlaceholderStart(t) + 4 <= end < |t| && t[end] == '}'
  {
    var start := PlaceholderStart(t);
    OpeningHasNoBrace(t, start);
    FindClose(t, start)
  }

  lemma OpeningHasNoBrace(t: string, i: nat)
    requires OpensAt(t, i)
    ensures forall k :: i <= k < i + 4 ==> t[k] != '}'
  {
    var s := t[i..i + 4];
    assert s[0] == '{' && s[1] == 's' && s[2] == 'e' && s[3] == 'q';
    assert t[i] == s[0] && t[i + 1] == s[1] && t[i + 2] == s[2] && t[i + 3] == s[3];
  }

  /** The placeholder, braces included. */
  function Placeholder(t: string): (p: string)
    requires HasPlaceholder(t)
    ensures |p| >= 5 && p[|p| - 1] == '}'
  {
    t[PlaceholderStart(t)..PlaceholderEnd(t) + 1]
  }

  /** Some "{seq" with a '}' behind it is all it takes. */
  lemma HasPlaceholderIff(t: string)
    ensures HasPlaceholder(t) <==> exists i, j :: OpensAt(t, i) && i <= j < |t| && t[j] == '}'
  {
    if i, j :| OpensAt(t, i) && i <= j < |t| && t[j] == '}' {
      assert FindOpen(t, 0) != -1 && FindOpen(t, 0) <= i;
    }
    if HasPlaceholder(t) {
      assert OpensAt(t, PlaceholderStart(t)) && t[PlaceholderEnd(t)] == '}';
    }
  }

  /** What a placeholder, braces included, turns a sequence number into. */
  function Formatted(placeholder: string, n: int): string
    requires |placeholder| >= 5 && placeholder[|placeholder| - 1] == '}'
  {
    if placeholder == "{seq}" then Itoa(n)
    else if HasPrefix(placeholder, "{seq:") then
      var width := Atoi(placeholder[5..|placeholder| - 1]);
      if width.Some? && width.value > 0 then Sprintf(width.value, n) else Itoa(n)
    else Itoa(n)
  }

  /** The template with its placeholder replaced. */
  function Expand(t: string, n: int): string
  {
    if !HasPlaceholder(t) then t
    else t[..PlaceholderStart(t)] + Formatted(Placeholder(t), n) + t[PlaceholderEnd(t) + 1..]
  }

  method FindOpening(t: string) returns (start: int)
    ensures start == FindOpen(t, 0)
  {
    start := -1;
    for i := 0 to |t|
      invariant start == -1 && FindOpen(t, i) == FindOpen(t, 0)
    {
      if i + 4 <= |t| && t[i..i + 4] == "{seq" {
        start := i;
        break;
      }
    }
  }

  method FindClosing(t: string, start: nat) returns (end: int)
    requires start <= |t|
    ensures end == FindClose(t, start)
  {
    end := -1;
    for i := start to |t|
      invariant end == -1 && FindClose(t, i) == FindClose(t, start)
    {
      if t[i] == '}' {
        end := i;
        break;
      }
    }
  }

  method ReplacePlaceholder(template: string, n: int) returns (r: string)
    ensures r == Expand(template, n)
  {
    hide Formatted;
    var start := FindOpening(template);
    if start == -1 {
      return template;
    }
    var end := FindClosing(template, start);
    if end == -1 {
      return template;
    }
    assert start == PlaceholderStart(template) && end == PlaceholderEnd(template);
    var placeholder := template[start..end + 1];
    assert placeholder == Placeholder(template);
    var formatted := Formatted(placeholder, n);
    r := template[..start] + formatted + template[end + 1..];
  }

  datatype KeyGenerator = KeyGenerator(prefix: string, template: string, keys: int)
  {
    function Key(n: int): string
    {
      prefix + Expand(template, n)
    }

    method Generate(n: int) returns (key: string)
      ensures key == Key(n)
    {
      var expanded := ReplacePlaceholder(template, n);
      key := prefix + expanded;
    }
  }

  // ---------------------------------------------------------------------------------------------
  // Decimal round trip

  lemma {:induction false} DigitsValue(n: nat)
    ensures AllDigits(Digits(n)) && DecimalValue(Digits(n)) == n
  {
    if n >= 10 {
      DigitsValue(n / 10);
      var s := Digits(n);
      assert s[..|s| - 1] == Digits(n / 10) && s[|s| - 1] == Digit(n % 10);
    } else {
      assert Digits(n)[..0] == "";
    }
  }

  lemma {:induction false} ZerosAddNothing(k: nat, s: string)
    requires AllDigits(s)
    ensures AllDigits(Zeros(k) + s) && DecimalValue(Zeros(k) + s) == DecimalValue(s)
    decreases |s|, k
  {
    if s != "" {
      ZerosAddNothing(k, s[..|s| - 1]);
      var r := Zeros(k) + s;
      assert r[..|r| - 1] == Zeros(k) + s[..|s| - 1];
    } else if k > 0 {
      ZerosAddNothing(k - 1, "");
      var r := Zeros(k) + s;
      assert r[..k - 1] == Zeros(k - 1) + "";
    }
  }

  /** Padding is undone by reading the number back. */
  lemma PadValue(width: int, n: nat)
    ensures AllDigits(Pad(width, Digits(n))) && DecimalValue(Pad(width, Digits(n))) == n
    ensures Pad(width, Digits(n))[0] != '-'
  {
    DigitsValue(n);
    var s := Digits(n);
    if |s| < width {
      ZerosAddNothing(width - |s|, s);
    }
    assert IsDigit(Pad(width, s)[0]);
  }

  lemma PadInjective(width: int, a: nat, b: nat)
    requires Pad(width, Digits(a)) == Pad(width, Digits(b))
    ensures a == b
  {
    PadValue(width, a);
    PadValue(width, b);
  }

  lemma SameSign(x: string, y: string)
    requires "-" + x == "-" + y
    ensures x == y
  {
    assert ("-" + x)[1..] == x && ("-" + y)[1..] == y;
  }

  lemma SignShows(width: nat, n: int)
    ensures ZeroPadded(width, n) != ""
    ensures n < 0 <==> ZeroPadded(width, n)[0] == '-'
  {
    if n >= 0 {
      PadValue(width, n);
    }
  }

  lemma NegativesApart(width: nat, a: int, b: int)
    requires a > 0 && b > 0 && ZeroPadded(width, -a) == ZeroPadded(width, -b)
    ensures a == b
  {
    SameSign(Pad(width - 1, Digits(a)), Pad(width - 1, Digits(b)));
    PadInjective(width - 1, a, b);
  }

  lemma ZeroPaddedInjective(width: nat, a: int, b: int)
    requires ZeroPadded(width, a) == ZeroPadded(width, b)
    ensures a == b
  {
    SignShows(width, a);
    SignShows(width, b);
    if a < 0 {
      NegativesApart(width, -a, -b);
    } else {
      PadInjective(width, a, b);
    }
  }

  /** The width a placeholder asks for; 1 when it asks for none or for one fmt refuses. */
  function WidthOf(placeholder: string): (w: nat)
    requires |placeholder| >= 5 && placeholder[|placeholder| - 1] == '}'
    ensures 1 <= w <= MAX_WIDTH
  {
    if placeholder != "{seq}" && HasPrefix(placeholder, "{seq:") then
      var width := Atoi(placeholder[5..|placeholder| - 1]);
      if width.Some? && 0 < width.value <= MAX_WIDTH then width.value else 1
    else 1
  }

  /** fmt's complaint about an excessive width. */
  function Complaint(placeholder: string): string
    requires |placeholder| >= 5 && placeholder[|placeholder| - 1] == '}'
  {
    if placeholder != "{seq}" && HasPrefix(placeholder, "{seq:") then
      var width := Atoi(placeholder[5..|placeholder| - 1]);
      if width.Some? && width.value > MAX_WIDTH then "%!(BADWIDTH)" else ""
    else ""
  }

  lemma FormattedIsPadded(placeholder: string, n: int)
    requires |placeholder| >= 5 && placeholder[|placeholder| - 1] == '}'
    ensures Formatted(placeholder, n) == Complaint(placeholder) + ZeroPadded(WidthOf(placeholder), n)
  {
    assert ZeroPadded(1, n) == Itoa(n);
  }

  // ---------------------------------------------------------------------------------------------
  // Distinct keys

  /** Everything before and after the number in the keys of a template. */
  function Head(g: KeyGenerator): string
    requires HasPlaceholder(g.template)
  {
    g.prefix + g.template[..PlaceholderStart(g.template)] + Complaint(Placeholder(g.template))
  }

  function Tail(g: KeyGenerator): string
    requires HasPlaceholder(g.template)
  {
    g.template[PlaceholderEnd(g.template) + 1..]
  }

  /** Characters guaranteed for the number: 0 when the template has no placeholder. */
  function NumberWidth(g: KeyGenerator): nat
  {
    if HasPlaceholder(g.template) then WidthOf(Placeholder(g.template)) else 0
  }

  lemma Regroup(p: string, e: string, a: string, f: string, c: string, z: string, b: string)
    requires e == a + f + b && f == c + z
    ensures p + e == (p + a + c) + (z + b)
  {
  }

  lemma ExpandParts(t: string, n: int)
    requires HasPlaceholder(t)
    ensures Expand(t, n) == t[..PlaceholderStart(t)] + Formatted(Placeholder(t), n) + t[PlaceholderEnd(t) + 1..]
  {
  }

  lemma KeyShape(g: KeyGenerator, n: int)
    requires HasPlaceholder(g.template)
    ensures g.Key(n) == Head(g) + (ZeroPadded(NumberWidth(g), n) + Tail(g))
  {
    hide Expand, Formatted, Complaint, ZeroPadded, FindOpen, FindClose;
    var p, before := Placeholder(g.template), g.template[..PlaceholderStart(g.template)];
    ExpandParts(g.template, n);
    FormattedIsPadded(p, n);
    Regroup(g.prefix, Expand(g.template, n), before, Formatted(p, n), Complaint(p), ZeroPadded(NumberWidth(g), n), Tail(g));
  }

  lemma SameHeadAndTail(h: string, x: string, y: string, t: string)
    requires h + (x + t) == h + (y + t)
    ensures x == y
  {
    assert (h + (x + t))[|h|..] == x + t && (h + (y + t))[|h|..] == y + t;
    assert |x| == |y|;
    assert (x + t)[..|x|] == x && (y + t)[..|y|] == y;
  }

  ghost predicate DistinctKeys(g: KeyGenerator)
  {
    forall a: int, b: int :: g.Key(a) == g.Key(b) ==> a == b
  }

  /** Exactly when different numbers give different keys: when the template has a placeholder. */
  lemma KeysDistinctIff(g: KeyGenerator)
    ensures DistinctKeys(g) <==> HasPlaceholder(g.template)
  {
    if HasPlaceholder(g.template) {
      forall a: int, b: int | g.Key(a) == g.Key(b) ensures a == b {
        KeyShape(g, a);
        KeyShape(g, b);
        SameHeadAndTail(Head(g), ZeroPadded(NumberWidth(g), a), ZeroPadded(NumberWidth(g), b), Tail(g));
        ZeroPaddedInjective(NumberWidth(g), a, b);
      }
    } else {
      assert g.Key(0) == g.Key(1);
    }
  }

  // ---------------------------------------------------------------------------------------------
  // What a placeholder asks for

  predicate InRange(n: int)
  {
    -0x8000_0000_0000_0000 <= n < 0x8000_0000_0000_0000
  }

  /** Atoi reads a decimal with any number of leading zeros and an optional sign, as long as it fits into 64 bits. */
  lemma AtoiReads(width: int, w: int)
    requires w >= 0
    ensures var s := Pad(width, Digits(w));
            && Atoi(s) == (if InRange(w) then Some(w) else None)
            && Atoi("+" + s) == (if InRange(w) then Some(w) else None)
            && Atoi("-" + s) == (if InRange(-w) then Some(-w) else None)
  {
    PadValue(width, w);
    var s := Pad(width, Digits(w));
    assert IsDigit(s[0]);
    assert ("+" + s)[1..] == s && ("-" + s)[1..] == s;
  }

  /** Atoi refuses the empty string, a sign alone, and everything with another character than digits behind the sign. */
  lemma AtoiRejects(s: string, i: nat)
    requires s == "" || s == "+" || s == "-" || (i < |s| && !IsDigit(s[i]) && (i > 0 || (s[0] != '+' && s[0] != '-')))
    ensures Atoi(s) == None
  {
    if i < |s| && i > 0 {
      assert s[1..][i - 1] == s[i];
    }
  }

  /** The length of a decimal: at most m exactly when the number has at most m digits, and at least the width. */
  lemma PaddedLength(width: nat, n: nat, m: nat)
    requires m >= 1
    ensures |Pad(width, Digits(n))| <= m <==> width <= m && n < Pow10(m)
  {
    DigitsLength(n, m);
  }

  /** A negative number: a sign, and its magnitude with the zeros behind the sign; plain decimals have no zeros added. */
  lemma NegativeDecimal(width: nat, n: int)
    requires n < 0
    ensures var s := ZeroPadded(width, n);
            && s != "" && s[0] == '-' && AllDigits(s[1..]) && DecimalValue(s[1..]) == -n
            && forall m: nat :: m >= 1 ==> (|s| <= m + 1 <==> width <= m + 1 && -n < Pow10(m))
    ensures Itoa(n) == ZeroPadded(0, n)
  {
    PadValue(width - 1, -n);
    var d := Pad(width - 1, Digits(-n));
    assert ("-" + d)[1..] == d;
    forall m: nat | m >= 1 ensures |d| <= m <==> width <= m + 1 && -n < Pow10(m) {
      DigitsLength(-n, m);
    }
  }

  lemma NoEarlierOpening(a: string, rest: string, i: nat)
    requires i < |a| && (forall j :: !OpensAt(a, j)) && rest != "" && rest[0] == '{'
    ensures !OpensAt(a + rest, i)
  {
    var t := a + rest;
    if i + 4 <= |a| {
      assert t[i..i + 4] == a[i..i + 4];
      assert !OpensAt(a, i);
    } else if i + 4 <= |t| {
      assert t[i..i + 4][|a| - i] == t[|a|] == '{';
      assert "{seq"[|a| - i] != '{';
    }
  }

  /** The first "{seq" of a template and the first brace behind it delimit its placeholder. */
  lemma PlaceholderIs(a: string, spec: string, b: string)
    requires (forall j :: !OpensAt(a, j)) && '}' !in spec
    ensures var t := a + ("{seq" + spec + "}" + b);
            HasPlaceholder(t) && PlaceholderStart(t) == |a| && PlaceholderEnd(t) == |a| + 4 + |spec|
  {
    var rest := "{seq" + spec + "}" + b;
    var t := a + rest;
    assert t[|a|..|a| + 4] == "{seq";
    assert OpensAt(t, |a|);
    forall i: nat | i < |a| ensures !OpensAt(t, i) {
      NoEarlierOpening(a, rest, i);
    }
    assert FindOpen(t, 0) == |a|;
    var end := |a| + 4 + |spec|;
    assert t[end] == '}';
    forall k | |a| <= k < end ensures t[k] != '}' {
      if k < |a| + 4 {
        assert t[k] == "{seq"[k - |a|];
      } else {
        assert t[k] == spec[k - |a| - 4] && spec[k - |a| - 4] in spec;
      }
    }
    assert FindClose(t, |a|) == end;
  }

  /** Expansion replaces the placeholder by the formatted number and nothing else. */
  lemma ExpansionIs(a: string, spec: string, b: string, n: int)
    requires (forall j :: !OpensAt(a, j)) && '}' !in spec
    ensures var t, p := a + ("{seq" + spec + "}" + b), "{seq" + spec + "}";
            HasPlaceholder(t) && Placeholder(t) == p && Expand(t, n) == a + Formatted(p, n) + b
  {
    hide FindOpen, FindClose, Formatted;
    var t, p := a + ("{seq" + spec + "}" + b), "{seq" + spec + "}";
    PlaceholderIs(a, spec, b);
    assert t[..|a|] == a && t[|a|..|a| + 4 + |spec| + 1] == p && t[|a| + 4 + |spec| + 1..] == b;
    assert Placeholder(t) == p;
    ExpandParts(t, n);
  }

  /** "{seq:w}", w written with any leading zeros, pads to w characters. */
  lemma FormattedPadded(spec: string, w: nat, n: int)
    requires Atoi(spec) == Some(w) && 1 <= w <= 1_000_000
    ensures Formatted("{seq:" + spec + "}", n) == ZeroPadded(w, n) && WidthOf("{seq:" + spec + "}") == w
  {
    var p := "{seq:" + spec + "}";
    assert |p| > 5 && p[..5] == "{seq:";
    assert HasPrefix(p, "{seq:");
    assert p[5..|p| - 1] == spec;
  }

  /** A width beyond what fmt accepts is complained about and ignored. */
  lemma FormattedOverwide(spec: string, w: nat, n: int)
    requires Atoi(spec) == Some(w) && w > 1_000_000
    ensures Formatted("{seq:" + spec + "}", n) == "%!(BADWIDTH)" + Itoa(n)
  {
    var p := "{seq:" + spec + "}";
    assert |p| > 5 && p[..5] == "{seq:";
    assert HasPrefix(p, "{seq:");
    assert p[5..|p| - 1] == spec;
  }

  /** Every other placeholder gives the plain decimal. */
  lemma FormattedPlain(spec: string, n: int)
    requires spec == "" || spec[0] != ':' || Atoi(spec[1..]) == None || Atoi(spec[1..]).value <= 0
    ensures Formatted("{seq" + spec + "}", n) == Itoa(n) && WidthOf("{seq" + spec + "}") == 1
  {
    var p := "{seq" + spec + "}";
    if spec != "" {
      assert p[4] == spec[0] && p[5..|p| - 1] == spec[1..];
      assert HasPrefix(p, "{seq:") ==> p[..5][4] == "{seq:"[4];
    } else {
      assert p == "{seq}";
    }
  }

  /**
   The key of number n >= 0 for a template with "{seq:w}": prefix, text before, the decimal of n with
   exactly the larger of w and its own number of digits, text behind.
   */
  lemma PaddedKey(g: KeyGenerator, a: string, zeros: int, w: nat, b: string, n: nat) returns (d: string)
    requires (forall j :: !OpensAt(a, j)) && 1 <= w <= 1_000_000
    requires g.template == a + ("{seq:" + Pad(zeros, Digits(w)) + "}" + b)
    ensures g.Key(n) == g.prefix + (a + d + b)
    ensures AllDigits(d) && DecimalValue(d) == n
    ensures forall m: nat :: m >= 1 ==> (|d| <= m <==> w <= m && n < Pow10(m))
    ensures HasPlaceholder(g.template) && NumberWidth(g) == w
  {
    var s := Pad(zeros, Digits(w));
    d := Pad(w, Digits(n));
    AtoiReads(zeros, w);
    PadValue(zeros, w);
    NoBrace(s);
    SpecOf(a, s, b, n);
    FormattedPadded(s, w, n);
    PadValue(w, n);
    forall m: nat | m >= 1 ensures |d| <= m <==> w <= m && n < Pow10(m) {
      PaddedLength(w, n, m);
    }
  }

  lemma NoBrace(s: string)
    requires AllDigits(s)
    ensures '}' !in ":" + s
  {
  }

  lemma SpecOf(a: string, s: string, b: string, n: int)
    requires (forall j :: !OpensAt(a, j)) && '}' !in ":" + s
    ensures var t, p := a + ("{seq:" + s + "}" + b), "{seq:" + s + "}";
            HasPlaceholder(t) && Placeholder(t) == p && Expand(t, n) == a + Formatted(p, n) + b
  {
    hide HasPlaceholder, Placeholder, Expand, Formatted;
    assert "{seq:" + s == "{seq" + (":" + s);
    ExpansionIs(a, ":" + s, b, n);
  }

  /** The same without a width, or with one that is no positive number: the plain decimal. */
  lemma PlainKey(g: KeyGenerator, a: string, spec: string, b: string, n: nat) returns (d: string)
    requires (forall j :: !OpensAt(a, j)) && '}' !in spec && g.template == a + ("{seq" + spec + "}" + b)
    requires spec == "" || spec[0] != ':' || Atoi(spec[1..]) == None || Atoi(spec[1..]).value <= 0
    ensures g.Key(n) == g.prefix + (a + d + b)
    ensures AllDigits(d) && DecimalValue(d) == n
    ensures forall m: nat :: m >= 1 ==> (|d| <= m <==> n < Pow10(m))
  {
    d := Digits(n);
    ExpansionIs(a, spec, b, n);
    FormattedPlain(spec, n);
    DigitsValue(n);
    forall m: nat | m >= 1 ensures |d| <= m <==> n < Pow10(m) {
      DigitsLength(n, m);
    }
  }

  /** A template without a placeholder is every number's key. */
  lemma ConstantKey(g: KeyGenerator, n: int)
    requires !HasPlaceholder(g.template)
    ensures g.Key(n) == g.prefix + g.template
  {
  }

  /** The keys the scheduler can ask for. */
  ghost function KeySpace(g: KeyGenerator, k: nat): set<string>
  {
    set n | 0 <= n < k :: g.Key(n)
  }

  /** With a placeholder the key space of a run has exactly the configured number of keys. */
  lemma {:induction false} KeySpaceSize(g: KeyGenerator, k: nat)
    requires HasPlaceholder(g.template)
    ensures |KeySpace(g, k)| == k
  {
    if k > 0 {
      KeySpaceSize(g, k - 1);
      KeysDistinctIff(g);
      assert KeySpace(g, k) == KeySpace(g, k - 1) + {g.Key(k - 1)};
      assert g.Key(k - 1) !in KeySpace(g, k - 1);
    }
  }

  // ---------------------------------------------------------------------------------------------
  // Ordered keys

  lemma {:induction false} SameLengthOrder(x: string, y: string)
    requires AllDigits(x) && AllDigits(y) && |x| == |y|
    ensures Less(x, y) <==> DecimalValue(x) < DecimalValue(y)
    ensures x == y <==> DecimalValue(x) == DecimalValue(y)
  {
    if x != "" {
      var a, b := x[..|x| - 1], y[..|y| - 1];
      SameLengthOrder(a, b);
      assert x == a + [x[|x| - 1]] && y == b + [y[|y| - 1]];
      LessSnoc(a, b, x[|x| - 1], y[|y| - 1]);
    }
  }

  lemma {:induction false} DigitsLength(n: nat, k: nat)
    requires k >= 1
    ensures n < Pow10(k) <==> |Digits(n)| <= k
  {
    if n >= 10 && k > 1 {
      DigitsLength(n / 10, k - 1);
    }
  }

  lemma {:induction false} FirstDigits(k: nat)
    requires k >= 1
    ensures |Digits(Pow10(k) - 1)| == k && Digits(Pow10(k) - 1)[0] == '9'
    ensures |Digits(Pow10(k))| == k + 1 && Digits(Pow10(k))[0] == '1'
  {
    assert Pow10(k) == 10 * Pow10(k - 1);
    if k == 1 {
      assert Pow10(1) == 10;
    } else {
      FirstDigits(k - 1);
      assert (Pow10(k) - 1) / 10 == Pow10(k - 1) - 1;
    }
  }

  ghost predicate OrderedKeys(g: KeyGenerator, k: nat)
  {
    forall a: nat, b: nat :: a < b < k ==> Less(g.Key(a), g.Key(b))
  }

  lemma KeysInOrder(g: KeyGenerator, a: nat, b: nat)
    requires HasPlaceholder(g.template) && a < b < Pow10(NumberWidth(g))
    ensures Less(g.Key(a), g.Key(b))
  {
    var w := NumberWidth(g);
    KeyShape(g, a);
    KeyShape(g, b);
    DigitsLength(a, w);
    DigitsLength(b, w);
    PadValue(w, a);
    PadValue(w, b);
    SameLengthOrder(ZeroPadded(w, a), ZeroPadded(w, b));
    LessExtends(ZeroPadded(w, a), ZeroPadded(w, b), Tail(g), Tail(g));
    LessCommonPrefix(Head(g), ZeroPadded(w, a) + Tail(g), ZeroPadded(w, b) + Tail(g));
  }

  /** The first number that no longer fits sorts before its predecessor. */
  lemma OverflowOutOfOrder(g: KeyGenerator)
    requires HasPlaceholder(g.template)
    ensures var m := Pow10(NumberWidth(g)); !Less(g.Key(m - 1), g.Key(m))
  {
    var w := NumberWidth(g);
    var m := Pow10(w);
    FirstDigits(w);
    KeyShape(g, m - 1);
    KeyShape(g, m);
    LessCommonPrefix(Head(g), Digits(m - 1) + Tail(g), Digits(m) + Tail(g));
  }

  /**
   Exactly when key order is number order on [0, k): when no number needs more digits than the
   placeholder's width provides.
   */
  lemma KeysOrderedIff(g: KeyGenerator, k: nat)
    ensures OrderedKeys(g, k) <==> k <= Pow10(NumberWidth(g))
  {
    if !HasPlaceholder(g.template) {
      if k >= 2 {
        assert g.Key(0) == g.Key(1);
        LessTotal(g.Key(0), g.Key(1));
      }
    } else if k <= Pow10(NumberWidth(g)) {
      forall a: nat, b: nat | a < b < k ensures Less(g.Key(a), g.Key(b)) {
        KeysInOrder(g, a, b);
      }
    } else {
      OverflowOutOfOrder(g);
    }
  }

  /** For "{seq:w}" keys are listed in number order on [0, k) exactly when k is at most 10 to the w. */
  lemma PaddedKeysOrderedIff(g: KeyGenerator, a: string, zeros: int, w: nat, b: string, k: nat)
    requires (forall j :: !OpensAt(a, j)) && 1 <= w <= 1_000_000
    requires g.template == a + ("{seq:" + Pad(zeros, Digits(w)) + "}" + b)
    ensures OrderedKeys(g, k) <==> k <= Pow10(w)
  {
    var _ := PaddedKey(g, a, zeros, w, b, 0);
    KeysOrderedIff(g, k);
  }
}
