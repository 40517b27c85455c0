/** pkg/version: dotted version strings and their order. */
module Version {
  /** The largest Go int of the build: 2^63 - 1, or 2^31 - 1 on 32-bit ARM. */
  type MaxInt = m: int | m == 0x7fff_ffff || m == 0x7fff_ffff_ffff_ffff witness 0x7fff_ffff

  // Decimal numbers.

  predicate IsDigit(c: char) {
    '0' <= c <= '9'
  }

  predicate AllDigits(s: string) {
    s != "" && forall i :: 0 <= i < |s| ==> IsDigit(s[i])
  }

  function Value(s: string): nat
    requires forall i :: 0 <= i < |s| ==> IsDigit(s[i])
  {
    if s == "" then 0
    else
      assert IsDigit(s[|s| - 1]);
      Value(s[..|s| - 1]) * 10 + (s[|s| - 1] as int - '0' as int)
  }

  /** strconv.Atoi of a component, which has no sign left in it; an error counts as 0. */
  function Component(p: string, max: MaxInt): (n: nat)
    ensures n <= max
  {
    if AllDigits(p) && Value(p) <= max then Value(p) else 0
  }

  function Decimal(n: nat): (s: string)
    ensures AllDigits(s)
  {
    var last := ['0' + (n % 10) as char];
    if n < 10 then last else Decimal(n / 10) + last
  }

  lemma {:induction false} ValueOfDecimal(n: nat)
    ensures Value(Decimal(n)) == n
  {
    var s := Decimal(n);
    if n >= 10 {
      ValueOfDecimal(n / 10);
      assert s[..|s| - 1] == Decimal(n / 10);
    }
  }

  // Taking a version apart.

  function TrimV(v: string): string {
    if v != "" && v[0] == 'v' then v[1..] else v
  }

  /** Drops everything from the first '-' or '+' on. */
  function CutSuffix(v: string): string {
    if v == "" || v[0] == '-' || v[0] == '+' then "" else [v[0]] + CutSuffix(v[1..])
  }

  function Split(v: string): (parts: seq<string>)
    ensures parts != []
  {
    if v == "" then [""]
    else
      var rest := Split(v[1..]);
      if v[0] == '.' then [""] + rest else [[v[0]] + rest[0]] + rest[1..]
  }

  function Components(parts: seq<string>, max: MaxInt): (ns: seq<nat>)
    ensures |ns| == |parts|
  {
    seq(|parts|, i requires 0 <= i < |parts| => Component(parts[i], max))
  }

  function Parsed(v: string, max: MaxInt): seq<nat> {
    var core := CutSuffix(TrimV(v));
    if core == "" then [] else Components(Split(core), max)
  }

  method Parse(v: string, max: MaxInt) returns (out: seq<nat>)
    ensures out == Parsed(v, max)
  {
    var core := CutSuffix(TrimV(v));
    if core == "" {
      return [];
    }
    var parts := Split(core);
    out := seq(|parts|, _ => 0);
    for i := 0 to |parts|
      invariant |out| == |parts|
      invariant forall j :: 0 <= j < i ==> out[j] == Component(parts[j], max)
    {
      out := out[i := Component(parts[i], max)];
    }
  }

  // The order.

  /** A missing component counts as 0. */
  function At(x: seq<nat>, i: nat): nat {
    if i < |x| then x[i] else 0
  }

  /** x and y agree before i and x is smaller there. */
  ghost predicate LessBy(x: seq<nat>, y: seq<nat>, i: nat) {
    At(x, i) < At(y, i) && forall j: nat :: j < i ==> At(x, j) == At(y, j)
  }

  ghost predicate Below(x: seq<nat>, y: seq<nat>) {
    exists i: nat :: LessBy(x, y, i)
  }

  ghost predicate Same(x: seq<nat>, y: seq<nat>) {
    forall i: nat :: At(x, i) == At(y, i)
  }

  ghost predicate Older(a: string, b: string, max: MaxInt) {
    Below(Parsed(a, max), Parsed(b, max))
  }

  ghost predicate Equivalent(a: string, b: string, max: MaxInt) {
    Same(Parsed(a, max), Parsed(b, max))
  }

  method Less(a: string, b: string, max: MaxInt) returns (less: bool)
    ensures less <==> Older(a, b, max)
  {
    var pa := Parse(a, max);
    var pb := Parse(b, max);
    var n := |pa|;
    if |pb| > n {
      n := |pb|;
    }
    for i := 0 to n
      invariant forall j: nat :: j < i ==> At(pa, j) == At(pb, j)
    {
      var x, y := 0, 0;
      if i < |pa| {
        x := pa[i];
      }
      if i < |pb| {
        y := pb[i];
      }
      if x != y {
        assert LessBy(pa, pb, i) <==> x < y;
        return x < y;
      }
    }
    return false;
  }

  /** Exactly one of: older, newer, equivalent. */
  lemma Trichotomy(x: seq<nat>, y: seq<nat>)
    ensures Same(x, y) <==> !Below(x, y) && !Below(y, x)
    ensures !(Below(x, y) && Below(y, x))
  {
    if !Same(x, y) {
      var i := FirstDifference(x, y, 0);
      assert LessBy(x, y, i) || LessBy(y, x, i);
    }
  }

  lemma FirstDifference(x: seq<nat>, y: seq<nat>, from: nat) returns (i: nat)
    requires forall j: nat :: j < from ==> At(x, j) == At(y, j)
    requires !Same(x, y)
    ensures At(x, i) != At(y, i) && forall j: nat :: j < i ==> At(x, j) == At(y, j)
    decreases (if |x| > |y| then |x| else |y|) - from
  {
    i := from;
    if At(x, from) == At(y, from) {
      i := FirstDifference(x, y, from + 1);
    }
  }

  lemma BelowTransitive(x: seq<nat>, y: seq<nat>, z: seq<nat>)
    requires Below(x, y) && Below(y, z)
    ensures Below(x, z)
  {
    var i: nat :| LessBy(x, y, i);
    var k: nat :| LessBy(y, z, k);
    assert LessBy(x, z, if i < k then i else k);
  }

  lemma BelowRespectsSame(x: seq<nat>, y: seq<nat>, z: seq<nat>)
    requires Same(x, y)
    ensures Below(x, z) <==> Below(y, z)
    ensures Below(z, x) <==> Below(z, y)
  {
    assert forall i: nat :: LessBy(x, z, i) <==> LessBy(y, z, i);
    assert forall i: nat :: LessBy(z, x, i) <==> LessBy(z, y, i);
  }

  /** Less is a strict weak order: irreflexive, transitive, with equivalence transitive as well; equivalent versions compare alike. */
  lemma StrictWeakOrder(a: string, b: string, c: string, max: MaxInt)
    ensures !Older(a, a, max)
    ensures Older(a, b, max) ==> !Older(b, a, max)
    ensures Older(a, b, max) && Older(b, c, max) ==> Older(a, c, max)
    ensures (!Older(a, b, max) && !Older(b, a, max)) <==> Equivalent(a, b, max)
    ensures Equivalent(a, b, max) && Equivalent(b, c, max) ==> Equivalent(a, c, max)
    ensures Equivalent(a, b, max) ==> (Older(a, c, max) <==> Older(b, c, max)) && (Older(c, a, max) <==> Older(c, b, max))
  {
    var x, y, z := Parsed(a, max), Parsed(b, max), Parsed(c, max);
    Trichotomy(x, x);
    Trichotomy(x, y);
    if Below(x, y) && Below(y, z) {
      BelowTransitive(x, y, z);
    }
    if Same(x, y) {
      BelowRespectsSame(x, y, z);
    }
  }

  /** A version is newer than some version if and only if one of its components is positive. */
  lemma NewerThanSomething(b: string, max: MaxInt)
    ensures (exists a :: Older(a, b, max)) <==> exists i :: 0 <= i < |Parsed(b, max)| && Parsed(b, max)[i] > 0
  {
    var y := Parsed(b, max);
    forall a | Older(a, b, max)
      ensures exists i :: 0 <= i < |y| && y[i] > 0
    {
      var i: nat :| LessBy(Parsed(a, max), y, i);
      assert y[i] > 0;
    }
    if k :| 0 <= k < |y| && y[k] > 0 {
      assert Parsed("", max) == [];
      assert At([], k) != At(y, k);
      var i := FirstDifference([], y, 0);
      assert LessBy([], y, i);
      assert Older("", b, max);
    }
  }

  // Plain numeric versions.

  /** Dotted decimal components. */
  function Render(cs: seq<nat>): string
    requires cs != []
  {
    if |cs| == 1 then Decimal(cs[0]) else Decimal(cs[0]) + "." + Render(cs[1..])
  }

  /** A component too large for the machine int counts as 0. */
  function Clamp(cs: seq<nat>, max: MaxInt): (ns: seq<nat>)
    ensures |ns| == |cs|
  {
    seq(|cs|, i requires 0 <= i < |cs| => if cs[i] <= max then cs[i] else 0)
  }

  ghost predicate Unsuffixed(v: string) {
    '-' !in v && '+' !in v
  }

  lemma {:induction false} CutNothing(v: string)
    requires Unsuffixed(v)
    ensures CutSuffix(v) == v
  {
    if v != "" {
      CutNothing(v[1..]);
    }
  }

  lemma {:induction false} SplitPart(p: string, rest: string)
    requires '.' !in p
    ensures Split(p) == [p] && Split(p + "." + rest) == [p] + Split(rest)
  {
    if p == "" {
      assert p + "." + rest == "." + rest;
    } else {
      SplitPart(p[1..], rest);
      assert p == [p[0]] + p[1..];
      assert (p + "." + rest)[1..] == p[1..] + "." + rest;
    }
  }

  lemma {:induction false} SplitAppend(a: string, p: string)
    requires '.' !in p
    ensures Split(a + "." + p) == Split(a) + [p]
  {
    if a == "" {
      SplitPart(a, p);
      SplitPart(p, "");
    } else {
      SplitAppend(a[1..], p);
      assert (a + "." + p)[1..] == a[1..] + "." + p;
    }
  }

  lemma DigitsOnly(s: string)
    requires AllDigits(s)
    ensures Unsuffixed(s) && '.' !in s && 'v' !in s
  {
    assert forall i :: 0 <= i < |s| ==> IsDigit(s[i]);
  }

  function Decimals(cs: seq<nat>): (ps: seq<string>)
    ensures |ps| == |cs|
  {
    seq(|cs|, i requires 0 <= i < |cs| => Decimal(cs[i]))
  }

  lemma {:induction false} RenderSplits(cs: seq<nat>)
    requires cs != []
    ensures Unsuffixed(Render(cs)) && Render(cs) != "" && IsDigit(Render(cs)[0])
    ensures Split(Render(cs)) == Decimals(cs)
  {
    var head := Decimal(cs[0]);
    DigitsOnly(head);
    assert IsDigit(head[0]);
    assert Decimals(cs) == [head] + Decimals(cs[1..]);
    if |cs| == 1 {
      SplitPart(head, "");
    } else {
      RenderSplits(cs[1..]);
      SplitPart(head, Render(cs[1..]));
    }
  }

  /** A leading "v" changes nothing. */
  lemma LeadingV(v: string, max: MaxInt)
    requires v == "" || v[0] != 'v'
    ensures Parsed("v" + v, max) == Parsed(v, max)
  {
    assert ("v" + v)[1..] == v;
  }

  /** Components with dots between them. */
  function Join(parts: seq<string>): string
    requires parts != []
  {
    if |parts| == 1 then parts[0] else parts[0] + "." + Join(parts[1..])
  }

  ghost predicate Dotless(parts: seq<string>) {
    forall i :: 0 <= i < |parts| ==> '.' !in parts[i]
  }

  lemma {:induction false} JoinSplits(parts: seq<string>)
    requires parts != [] && Dotless(parts)
    ensures Split(Join(parts)) == parts
  {
    if |parts| == 1 {
      SplitPart(parts[0], "");
    } else {
      SplitPart(parts[0], Join(parts[1..]));
      JoinSplits(parts[1..]);
      assert parts == [parts[0]] + parts[1..];
    }
  }

  /** A component that is empty or has a character other than a digit counts as 0, wherever it is. */
  lemma MalformedIsZero(parts: seq<string>, i: nat, max: MaxInt)
    requires i < |parts| && Dotless(parts)
    requires var v := Join(parts);
             v != "" && v[0] != 'v' && Unsuffixed(v)
    requires parts[i] == "" || exists c :: c in parts[i] && !('0' <= c <= '9')
    ensures |Parsed(Join(parts), max)| == |parts| && Parsed(Join(parts), max)[i] == 0
  {
    JoinSplits(parts);
    CutNothing(Join(parts));
    if AllDigits(parts[i]) {
      DigitsAll(parts[i]);
    }
  }

  lemma DigitsAll(s: string)
    requires AllDigits(s)
    ensures forall c :: c in s ==> '0' <= c <= '9'
  {
    assert forall i :: 0 <= i < |s| ==> IsDigit(s[i]);
  }

  lemma DecimalComponents(cs: seq<nat>, max: MaxInt)
    ensures Components(Decimals(cs), max) == Clamp(cs, max)
  {
    forall i | 0 <= i < |cs|
      ensures Components(Decimals(cs), max)[i] == Clamp(cs, max)[i]
    {
      ValueOfDecimal(cs[i]);
    }
  }

  /** A plain numeric version parses to its components. */
  lemma ParsedRender(cs: seq<nat>, max: MaxInt)
    requires cs != []
    ensures Parsed(Render(cs), max) == Clamp(cs, max)
  {
    RenderSplits(cs);
    DecimalComponents(cs, max);
    CutNothing(Render(cs));
  }

  /**
   Against every plain version that fits the machine int, the order is the
   numeric precedence of Semantic Versioning 2.0.0, section 11, if and only if
   no component of this version is too large.
   */
  lemma NumericPrecedence(cs: seq<nat>, max: MaxInt)
    requires cs != []
    ensures (forall ds: seq<nat> :: ds != [] && Clamp(ds, max) == ds ==> (Older(Render(ds), Render(cs), max) <==> Below(ds, cs)))
            <==> Clamp(cs, max) == cs
  {
    ParsedRender(cs, max);
    forall ds: seq<nat> | ds != [] && Clamp(ds, max) == ds
      ensures Older(Render(ds), Render(cs), max) <==> Below(ds, Clamp(cs, max))
    {
      ParsedRender(ds, max);
    }
    var low := Clamp(cs, max);
    assert Clamp(low, max) == low;
    if low != cs {
      var k :| 0 <= k < |cs| && low[k] != cs[k];
      assert At(low, k) != At(cs, k);
      var i := FirstDifference(low, cs, 0);
      assert LessBy(low, cs, i);
      Trichotomy(low, low);
    }
  }

  /** What the comparison ignores: nothing, or everything from a '-' or '+' on. */
  predicate IsSuffix(suffix: string) {
    suffix != "" ==> suffix[0] == '-' || suffix[0] == '+'
  }

  lemma PlainTrailingZero(v: string, max: MaxInt)
    requires Unsuffixed(v)
    ensures Equivalent(v, v + ".0", max)
  {
    var core := TrimV(v);
    assert TrimV(v + ".0") == core + ".0";
    CutNothing(core);
    CutNothing(core + ".0");
    SplitAppend(core, "0");
    assert core + ".0" == core + "." + "0";
    assert Split("") == [""];
  }

  /** A pre-release or build suffix changes nothing. */
  lemma SuffixIgnored(v: string, suffix: string, max: MaxInt)
    requires suffix != "" && IsSuffix(suffix)
    ensures Parsed(v + suffix, max) == Parsed(v, max)
  {
    assert TrimV(v + suffix) == TrimV(v) + suffix;
    CutAtSuffix(TrimV(v), suffix);
  }

  lemma IgnoringSuffixes(v: string, w: string, suffix: string, max: MaxInt)
    requires IsSuffix(suffix)
    ensures Parsed(v + suffix, max) == Parsed(v, max) && Parsed(w + suffix, max) == Parsed(w, max)
  {
    if suffix == "" {
      assert v + suffix == v && w + suffix == w;
    } else {
      SuffixIgnored(v, suffix, max);
      SuffixIgnored(w, suffix, max);
    }
  }

  /** "0.2" is "0.2.0", and "0.2-dev" is "0.2.0-dev": a trailing zero component changes nothing. */
  lemma TrailingZero(v: string, suffix: string, max: MaxInt)
    requires Unsuffixed(v) && IsSuffix(suffix)
    ensures Equivalent(v + suffix, v + ".0" + suffix, max)
  {
    PlainTrailingZero(v, max);
    IgnoringSuffixes(v, v + ".0", suffix, max);
  }

  lemma {:induction false} CutAtSuffix(v: string, suffix: string)
    requires suffix != "" && IsSuffix(suffix)
    ensures CutSuffix(v + suffix) == CutSuffix(v)
  {
    if v == "" {
      assert v + suffix == suffix;
    } else {
      CutAtSuffix(v[1..], suffix);
      assert (v + suffix)[1..] == v[1..] + suffix;
    }
  }

  /** A malformed component does not keep a version from being newer, whatever the comment on Less says. */
  lemma MalformedCanBeNewer(max: MaxInt)
    ensures Older("0.1.0", "9.x", max)
  {
    var b := "9.x";
    assert b == "9" + "." + "x";
    SplitPart("x", "");
    SplitPart("9", "x");
    CutNothing(b);
    assert Value("9") == 9 by {
      ValueOfDecimal(9);
      assert Decimal(9) == "9";
    }
    assert Parsed(b, max)[0] == 9;
    RenderZero(max);
    assert LessBy(Parsed("0.1.0", max), Parsed(b, max), 0);
  }

  lemma RenderZero(max: MaxInt)
    ensures Parsed("0.1.0", max) == [0, 1, 0]
  {
    assert Render([0, 1, 0]) == "0.1.0" by {
      assert [0, 1, 0][1..] == [1, 0] && [1, 0][1..] == [0];
      assert Render([0]) == "0";
      assert Render([1, 0]) == "1.0";
    }
    ParsedRender([0, 1, 0], max);
  }
}
