/** Object identifiers as text (internal/oid/oid.go:17-29, 83-94). */
module OidText {
  import opened Oid

  // ---------- strconv and strings, as far as used ----------

  predicate IsDigit(c: char) { '0' <= c <= '9' }

  function Digit(c: char): nat
    requires IsDigit(c)
  {
    (c - '0') as int
  }

  /** strconv.ParseUint(p, 10, 32) with the error dropped: left to right, a character
      that is no digit makes the result 0, an overflow makes it the largest uint32. */
  function ParseDigits(p: string, value: Arc): Arc {
    if p == "" then value
    else if !IsDigit(p[0]) then 0
    else if value * 10 + Digit(p[0]) > MAX_ARC then MAX_ARC
    else ParseDigits(p[1..], value * 10 + Digit(p[0]))
  }

  function ParseArc(p: string): Arc {
    if p == "" then 0 else ParseDigits(p, 0)
  }

  function DigitChar(d: nat): (c: char)
    requires d < 10
    ensures IsDigit(c) && Digit(c) == d
  {
    '0' + d as char
  }

  /** strconv.FormatUint(v, 10). */
  function Decimal(v: nat): string {
    if v < 10 then [DigitChar(v)] else Decimal(v / 10) + [DigitChar(v % 10)]
  }

  /** strings.Split(s, "."). */
  function Split(s: string): (parts: seq<string>)
    ensures parts != []
  {
    if s == "" then [""]
    else if s[0] == '.' then [""] + Split(s[1..])
    else var rest := Split(s[1..]); [[s[0]] + rest[0]] + rest[1..]
  }

  /** strings.Join(parts, "."). */
  function Join(parts: seq<string>): string {
    if parts == [] then "" else if |parts| == 1 then parts[0] else parts[0] + "." + Join(parts[1..])
  }

  /** The OID without a leading dot. */
  function Canonical(s: string): string {
    if s != "" && s[0] == '.' then s[1..] else s
  }

  // ---------- Parse and Format ----------

  function Parse(s: string): Arcs {
    var c := Canonical(s);
    if c == "" then [] else
    var parts := Split(c);
    seq(|parts|, i requires 0 <= i < |parts| => ParseArc(parts[i]))
  }

  method ParseText(s: string) returns (arcs: seq<Arc>)
    ensures arcs == Parse(s)
  {
    var c := Canonical(s);
    if c == "" {
      return [];
    }
    var parts := Split(c);
    arcs := [];
    for i := 0 to |parts|
      invariant |arcs| == i && forall k :: 0 <= k < i ==> arcs[k] == ParseArc(parts[k])
    {
      arcs := arcs + [ParseArc(parts[i])];
    }
  }

  function Parts(arcs: Arcs): (parts: seq<string>)
    ensures |parts| == |arcs| && forall i :: 0 <= i < |parts| ==> parts[i] == Decimal(arcs[i])
  {
    seq(|arcs|, i requires 0 <= i < |arcs| => Decimal(arcs[i]))
  }

  function Format(arcs: Arcs): string {
    Join(Parts(arcs))
  }

  method FormatText(arcs: Arcs) returns (s: string)
    ensures s == Format(arcs)
  {
    var parts: seq<string> := [];
    for i := 0 to |arcs|
      invariant |parts| == i && forall k :: 0 <= k < i ==> parts[k] == Decimal(arcs[k])
    {
      parts := parts + [Decimal(arcs[i])];
    }
    assert parts == Parts(arcs);
    s := Join(parts);
  }

  // ---------- Round trips ----------

  ghost function Numeric(p: string): nat
    requires forall i :: 0 <= i < |p| ==> IsDigit(p[i])
  {
    if p == "" then 0 else Numeric(p[..|p| - 1]) * 10 + Digit(p[|p| - 1])
  }

  /** A number as FormatUint writes it: digits, no leading zero, within 32 bits. */
  ghost predicate PlainNumber(p: string) {
    && p != "" && (forall i :: 0 <= i < |p| ==> IsDigit(p[i]))
    && (|p| > 1 ==> p[0] != '0') && Numeric(p) <= MAX_ARC
  }

  /** Nothing, or plain numbers with single dots in between; a leading dot may be there. */
  ghost predicate WellFormed(s: string) {
    Canonical(s) == "" || forall i :: 0 <= i < |Split(Canonical(s))| ==> PlainNumber(Split(Canonical(s))[i])
  }

  /** A single leading dot makes no difference. */
  lemma LeadingDot(s: string)
    requires s == "" || s[0] != '.'
    ensures Canonical(s) == s && Canonical("." + s) == s && Parse("." + s) == Parse(s)
  {
    assert ("." + s)[1..] == s;
  }

  lemma {:induction false} ParseDecimal(v: nat, rest: string)
    requires v <= MAX_ARC
    ensures ParseDigits(Decimal(v) + rest, 0) == ParseDigits(rest, v)
  {
    if v < 10 {
      assert ([DigitChar(v)] + rest)[1..] == rest;
    } else {
      var last := [DigitChar(v % 10)];
      ParseDecimal(v / 10, last + rest);
      assert Decimal(v) + rest == Decimal(v / 10) + (last + rest);
      assert (last + rest)[1..] == rest;
    }
  }

  lemma {:induction false} DecimalPlain(v: nat)
    ensures Decimal(v) != "" && forall i :: 0 <= i < |Decimal(v)| ==> IsDigit(Decimal(v)[i])
    ensures Numeric(Decimal(v)) == v && (v > 0 ==> Decimal(v)[0] != '0')
    ensures |Decimal(v)| > 1 ==> v > 0
  {
    if v >= 10 {
      DecimalPlain(v / 10);
      assert Decimal(v)[..|Decimal(v)| - 1] == Decimal(v / 10);
    } else {
      assert Decimal(v)[..0] == "";
    }
  }

  lemma {:induction false} PlainIsDecimal(p: string)
    requires p != "" && (forall i :: 0 <= i < |p| ==> IsDigit(p[i])) && (|p| > 1 ==> p[0] != '0')
    ensures Decimal(Numeric(p)) == p
    ensures p[0] != '0' ==> Numeric(p) > 0
  {
    var n := |p| - 1;
    if n == 0 {
      assert p[..0] == "" && p == [p[0]];
      assert DigitChar(Digit(p[0])) == p[0];
    } else {
      PlainIsDecimal(p[..n]);
      assert p == p[..n] + [p[n]];
      assert DigitChar(Digit(p[n])) == p[n];
    }
  }

  lemma ParseArcDecimal(v: Arc)
    ensures ParseArc(Decimal(v)) == v
  {
    ParseDecimal(v, "");
    DecimalPlain(v);
    assert Decimal(v) + "" == Decimal(v);
  }

  lemma {:induction false} SplitPart(p: string, rest: string)
    requires forall i :: 0 <= i < |p| ==> p[i] != '.'
    ensures Split(p) == [p]
    ensures Split(p + "." + rest) == [p] + Split(rest)
  {
    if p == "" {
      assert ("" + "." + rest)[1..] == rest;
    } else {
      SplitPart(p[1..], rest);
      assert (p + "." + rest)[1..] == p[1..] + "." + rest;
      assert [p[0]] + p[1..] == p;
      assert ([p[1..]] + Split(rest))[1..] == Split(rest);
    }
  }

  lemma {:induction false} SplitJoin(parts: seq<string>)
    requires parts != []
    requires forall k, i :: 0 <= k < |parts| && 0 <= i < |parts[k]| ==> parts[k][i] != '.'
    ensures Split(Join(parts)) == parts
  {
    if |parts| == 1 {
      SplitPart(parts[0], "");
    } else {
      SplitJoin(parts[1..]);
      SplitPart(parts[0], Join(parts[1..]));
      assert [parts[0]] + parts[1..] == parts;
    }
  }

  lemma {:induction false} JoinSplit(s: string)
    ensures Join(Split(s)) == s
  {
    if s != "" {
      JoinSplit(s[1..]);
      var rest := Split(s[1..]);
      if s[0] == '.' {
        assert ([""] + rest)[1..] == rest;
        assert Join([""] + rest) == "" + "." + Join(rest);
      } else {
        var parts := [[s[0]] + rest[0]] + rest[1..];
        assert parts[1..] == rest[1..];
        if |rest| > 1 {
          assert ([s[0]] + rest[0]) + "." + Join(rest[1..]) == [s[0]] + (rest[0] + "." + Join(rest[1..]));
        }
      }
    }
  }

  lemma FormatSplits(a: Arcs)
    requires a != []
    ensures Split(Format(a)) == Parts(a) && Format(a) != "" && Canonical(Format(a)) == Format(a)
  {
    forall k, i | 0 <= k < |a| && 0 <= i < |Parts(a)[k]| ensures Parts(a)[k][i] != '.' {
      DecimalPlain(a[k]);
    }
    SplitJoin(Parts(a));
    DecimalPlain(a[0]);
    var p := Parts(a);
    assert Format(a)[0] == p[0][0];
  }

  /** Every sequence of uint32 arcs survives being written and read. */
  lemma ParseFormat(a: Arcs)
    ensures Parse(Format(a)) == a
  {
    if a != [] {
      FormatSplits(a);
      forall i | 0 <= i < |a| ensures Parse(Format(a))[i] == a[i] {
        ParseArcDecimal(a[i]);
      }
    }
  }

  /** Text survives being read and written, up to one leading dot, exactly when it is
      well-formed: no empty or non-numeric part, no leading zero, no overflow. */
  lemma FormatParse(s: string)
    ensures Format(Parse(s)) == Canonical(s) <==> WellFormed(s)
  {
    var c := Canonical(s);
    if c != "" {
      var a, parts := Parse(s), Split(c);
      FormatSplits(a);
      JoinSplit(c);
      if WellFormed(s) {
        forall i | 0 <= i < |parts| ensures Parts(a)[i] == parts[i] {
          PlainIsDecimal(parts[i]);
          ParseArcDecimal(Numeric(parts[i]));
        }
        assert Parts(a) == parts;
      }
      if Format(a) == c {
        forall i | 0 <= i < |parts| ensures PlainNumber(parts[i]) {
          DecimalPlain(a[i]);
        }
      }
    }
  }

  /** On well-formed text without a leading dot, comparing strings is comparing arcs. */
  lemma TextEquality(s: string, t: string)
    requires WellFormed(s) && WellFormed(t) && Canonical(s) == s && Canonical(t) == t
    ensures s == t <==> Parse(s) == Parse(t)
  {
    FormatParse(s);
    FormatParse(t);
  }

  // ---------- Every other text ----------

  predicate AllDigits(p: string) {
    forall i :: 0 <= i < |p| ==> IsDigit(p[i])
  }

  /** A number within 32 bits, leading zeros allowed. */
  ghost predicate IsNumber(p: string) {
    p != "" && AllDigits(p) && Numeric(p) <= MAX_ARC
  }

  /** The digits p begins with already exceed 32 bits, whatever follows them. */
  ghost predicate Overflows(p: string) {
    exists n :: 0 < n <= |p| && AllDigits(p[..n]) && Numeric(p[..n]) > MAX_ARC
  }

  lemma {:induction false} ValueGrows(p: string, k: nat, n: nat)
    requires k <= n <= |p| && AllDigits(p[..n])
    ensures AllDigits(p[..k]) && Numeric(p[..k]) <= Numeric(p[..n])
  {
    assert forall i :: 0 <= i < k ==> p[..k][i] == p[..n][i];
    if k < n {
      assert forall i :: 0 <= i < n - 1 ==> p[..n - 1][i] == p[..n][i];
      ValueGrows(p, k, n - 1);
      assert p[..n][..n - 1] == p[..n - 1];
    }
  }

  lemma NoMoreDigits(p: string, n: nat)
    requires n < |p| && !IsDigit(p[n]) && AllDigits(p[..n]) && Numeric(p[..n]) <= MAX_ARC
    ensures !IsNumber(p) && !Overflows(p)
  {
    hide Numeric;
    forall k | n < k <= |p| ensures !AllDigits(p[..k]) {
      assert p[..k][n] == p[n];
    }
    forall k | 0 < k <= n ensures Numeric(p[..k]) <= MAX_ARC {
      ValueGrows(p, k, n);
    }
  }

  /** Parsing from position n on, the digits before it still being within 32 bits. */
  lemma {:induction false} ParseFrom(p: string, n: nat)
    requires p != "" && n <= |p| && AllDigits(p[..n]) && Numeric(p[..n]) <= MAX_ARC
    ensures ParseDigits(p[n..], Numeric(p[..n]))
         == if IsNumber(p) then Numeric(p) else if Overflows(p) then MAX_ARC else 0
    decreases |p| - n
  {
    if n == |p| {
      assert p[..n] == p;
    } else if !IsDigit(p[n]) {
      NoMoreDigits(p, n);
    } else {
      assert p[..n + 1] == p[..n] + [p[n]] && p[..n + 1][..n] == p[..n];
      assert p[n..][0] == p[n] && p[n..][1..] == p[n + 1..];
      assert AllDigits(p[..n + 1]);
      if Numeric(p[..n + 1]) <= MAX_ARC {
        ParseFrom(p, n + 1);
      } else if AllDigits(p) {
        assert p[..|p|] == p;
        ValueGrows(p, n + 1, |p|);
      }
    }
  }

  /** What any part parses as. One that is no number within 32 bits becomes zero, as the
      documentation has it, exactly when its leading digits do not overflow; otherwise it
      becomes 2^32-1. */
  lemma ParseArcExactly(p: string)
    ensures IsNumber(p) ==> ParseArc(p) == Numeric(p)
    ensures !IsNumber(p) ==> ParseArc(p) == if Overflows(p) then MAX_ARC else 0
  {
    if p != "" {
      assert p[0..] == p && p[..0] == "";
      ParseFrom(p, 0);
    }
  }

  /** For one, every numeral beyond 32 bits, whatever is appended to it. */
  lemma OverflowIsMaxArc(v: nat, rest: string)
    requires v > MAX_ARC
    ensures ParseArc(Decimal(v) + rest) == MAX_ARC
  {
    var p, n := Decimal(v) + rest, |Decimal(v)|;
    DecimalPlain(v);
    assert p[..n] == Decimal(v);
    if AllDigits(p) {
      assert p[..|p|] == p;
      ValueGrows(p, n, |p|);
    }
    ParseArcExactly(p);
  }
}
