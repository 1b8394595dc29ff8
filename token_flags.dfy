/** The token metadata the analyzer collects and the heuristic warnings it
    derives from it (index.js:76-88). */
module TokenFlags {
  import JsText

  /** JavaScript's null, the fallback for decimals and total supply. */
  datatype Option<T> = None | Some(value: T)

  /** The ABI types of decimals() (uint8) and totalSupply() (uint256). */
  type Uint8 = x: int | 0 <= x < 0x100
  type Uint256 = x: int | 0 <= x < 0x1_0000_0000_0000_0000_0000_0000_0000_0000_0000_0000_0000_0000_0000_0000_0000_0000

  /** A decoded decimals() value, tagged with its JavaScript type: the
      "Unusual decimals" test applies only when typeof gives "number". */
  datatype Numeric = JsNumber(n: Uint8) | BigInt(n: Uint8)

  /** The four fields after the per-call fallbacks: name and symbol are
      "N/A" when their call failed, decimals and total supply None (null). */
  datatype Metadata = Metadata(
    name: string,
    symbol: string,
    decimals: Option<Numeric>,
    totalSupply: Option<Uint256>)

  /** The warnings, in the order the script pushes them. */
  datatype Flag =
    | MissingName
    | MissingSymbol
    | MissingDecimals
    | UnusualDecimals(d: Uint8)
    | ExtremeSupply

  /** The text pushed onto the flags array for each warning. */
  function Message(f: Flag): string {
    match f
    case MissingName => "Missing token name()"
    case MissingSymbol => "Missing token symbol()"
    case MissingDecimals => "Missing decimals()"
    case UnusualDecimals(d) => "Unusual decimals: " + JsText.Decimal(d)
    case ExtremeSupply => "Extremely large total supply"
  }

  function Messages(fs: seq<Flag>): (ms: seq<string>)
    ensures |ms| == |fs| && forall i :: 0 <= i < |fs| ==> ms[i] == Message(fs[i])
  {
    if fs == [] then [] else [Message(fs[0])] + Messages(fs[1..])
  }

  /** Reads a warning back from its text: the inverse of Message. */
  function ParseMessage(s: string): Option<Flag> {
    var prefix := "Unusual decimals: ";
    if s == "Missing token name()" then Some(MissingName)
    else if s == "Missing token symbol()" then Some(MissingSymbol)
    else if s == "Missing decimals()" then Some(MissingDecimals)
    else if s == "Extremely large total supply" then Some(ExtremeSupply)
    else if |s| > |prefix| && s[..|prefix|] == prefix
         && (forall i :: |prefix| <= i < |s| ==> JsText.IsDigit(s[i]))
    then
      var v := JsText.DecimalValue(s[|prefix|..]);
      if v < 0x100 then Some(UnusualDecimals(v)) else None
    else None
  }

  /** Every warning text reads back as the warning it came from. */
  lemma ParseMessageRoundTrip(f: Flag)
    ensures ParseMessage(Message(f)) == Some(f)
  {
    if f.UnusualDecimals? {
      var s := Message(f);
      var prefix := "Unusual decimals: ";
      assert s[..|prefix|] == prefix;
      assert s[|prefix|..] == JsText.Decimal(f.d);
      assert s[0] == 'U';
      JsText.DecimalRoundTrip(f.d);
    }
  }

  /** Different warnings never share a text. */
  lemma MessageInjective(f: Flag, g: Flag)
    requires Message(f) == Message(g)
    ensures f == g
  {
    ParseMessageRoundTrip(f);
    ParseMessageRoundTrip(g);
  }

  function Pow10(n: nat): (p: nat)
    ensures p >= 1
  {
    if n == 0 then 1 else 10 * Pow10(n - 1)
  }

  lemma {:induction false} Pow10Add(a: nat, b: nat)
    ensures Pow10(a + b) == Pow10(a) * Pow10(b)
  {
    if b > 0 {
      Pow10Add(a, b - 1);
      calc {
        Pow10(a + b);
        10 * Pow10(a + b - 1);
        10 * (Pow10(a) * Pow10(b - 1));
        Pow10(a) * (10 * Pow10(b - 1));
      }
    }
  }

  /** The human-scaled supply that ethers.formatUnits(raw, d) denotes,
      taken as an exact rational. */
  function ScaledSupply(raw: nat, d: nat): real {
    raw as real / Pow10(d) as real
  }

  /** The exact-integer form of "scaled supply > 1e15". */
  predicate IsExtremeSupply(raw: nat, d: nat) {
    raw > Pow10(15 + d)
  }

  /** Dividing by a positive p and comparing with k is comparing with k * p. */
  lemma DivAbove(x: real, p: real, k: real)
    requires p > 0.0
    ensures x / p > k <==> x > k * p
  {
    var q := x / p;
    assert q * p == x;
    if q > k {
      assert q * p > k * p;
    } else {
      assert q * p <= k * p;
    }
  }

  /** The integer test agrees with the scaled comparison against 1e15. */
  lemma ExtremeSupplyIffScaledAbove(raw: nat, d: nat)
    ensures IsExtremeSupply(raw, d) <==> ScaledSupply(raw, d) > 1000000000000000.0
  {
    Pow10Add(15, d);
    assert Pow10(15) == 1000000000000000;
    DivAbove(raw as real, Pow10(d) as real, 1000000000000000.0);
  }

  /** The name and symbol test: the sentinel itself, or blank after trim(). */
  predicate IsMissingText(s: string) {
    s == "N/A" || JsText.Trim(s) == ""
  }

  lemma MissingTextIffSentinelOrBlank(s: string)
    ensures IsMissingText(s) <==> s == "N/A" || JsText.IsBlank(s)
  {
    JsText.TrimEmptyIffBlank(s);
  }

  /** Decimals and total supply are both known (not null): the guard of
      the large-supply rule and of the scaled "Total Supply" line
      (index.js:85 and 98), under which formatUnits is called. */
  predicate Scalable(m: Metadata) {
    m.decimals.Some? && m.totalSupply.Some?
  }

  /** When each warning is raised, rule by rule. */
  predicate Raised(f: Flag, m: Metadata) {
    match f
    case MissingName => IsMissingText(m.name)
    case MissingSymbol => IsMissingText(m.symbol)
    case MissingDecimals => m.decimals.None?
    case UnusualDecimals(d) => m.decimals == Some(JsNumber(d)) && (d == 0 || d > 18)
    case ExtremeSupply =>
      Scalable(m) && IsExtremeSupply(m.totalSupply.value, m.decimals.value.n)
  }

  function Rank(f: Flag): nat {
    match f
    case MissingName => 0
    case MissingSymbol => 1
    case MissingDecimals => 2
    case UnusualDecimals(_) => 3
    case ExtremeSupply => 4
  }

  /** Strictly in push order, hence no warning twice. */
  predicate Ordered(fs: seq<Flag>) {
    forall i, j :: 0 <= i < j < |fs| ==> Rank(fs[i]) < Rank(fs[j])
  }

  /** The warning the rule of rank r would push for m (the "Unusual
      decimals" rule carries m's decimals value, or 0 when there is none). */
  function Candidate(m: Metadata, r: nat): (f: Flag)
    requires r < 5
    ensures Rank(f) == r
  {
    if r == 0 then MissingName
    else if r == 1 then MissingSymbol
    else if r == 2 then MissingDecimals
    else if r == 3 then UnusualDecimals(if m.decimals.Some? then m.decimals.value.n else 0)
    else ExtremeSupply
  }

  /** A raised warning is the one its rule would push. */
  lemma CandidateOfRaised(m: Metadata, f: Flag)
    requires Raised(f, m)
    ensures Rank(f) < 5 && Candidate(m, Rank(f)) == f
  {
  }

  /** The raised warnings of the first k rules, in rule order. */
  function RaisedBelow(m: Metadata, k: nat): seq<Flag>
    requires k <= 5
  {
    if k == 0 then []
    else
      var c := Candidate(m, k - 1);
      RaisedBelow(m, k - 1) + (if Raised(c, m) then [c] else [])
  }

  /** The flag list the script builds, as a value. */
  function Flags(m: Metadata): seq<Flag> {
    RaisedBelow(m, 5)
  }

  lemma {:induction false} RaisedBelowSound(m: Metadata, k: nat)
    requires k <= 5
    ensures forall i :: 0 <= i < |RaisedBelow(m, k)| ==> Rank(RaisedBelow(m, k)[i]) < k
    ensures Ordered(RaisedBelow(m, k))
    ensures forall f :: f in RaisedBelow(m, k) <==> Raised(f, m) && Rank(f) < k
  {
    if k > 0 {
      RaisedBelowSound(m, k - 1);
      var prev := RaisedBelow(m, k - 1);
      var c := Candidate(m, k - 1);
      if Raised(c, m) {
        assert RaisedBelow(m, k) == prev + [c];
        forall f | f in prev + [c] ensures f in prev || f == c { }
        forall f | Raised(f, m) && Rank(f) == k - 1 ensures f == c {
          CandidateOfRaised(m, f);
        }
      } else {
        assert RaisedBelow(m, k) == prev;
        forall f | Raised(f, m) && Rank(f) == k - 1 ensures false {
          CandidateOfRaised(m, f);
        }
      }
    }
  }

  /** The list holds exactly the raised warnings, each once, in push order. */
  lemma FlagsSound(m: Metadata)
    ensures Ordered(Flags(m))
    ensures forall f :: f in Flags(m) <==> Raised(f, m)
  {
    RaisedBelowSound(m, 5);
    forall f | Raised(f, m) ensures Rank(f) < 5 {
      CandidateOfRaised(m, f);
    }
  }

  /** The flag derivation of index.js:76-88: independent tests, each pushing
      its warning onto a list that starts empty. After the k-th test the list
      is the raised warnings of the first k rules, so the result is Flags(m),
      whose order and contents FlagsSound states. */
  method DeriveFlags(m: Metadata) returns (flags: seq<Flag>)
    ensures flags == Flags(m)
  {
    flags := [];
    if IsMissingText(m.name) {
      flags := flags + [MissingName];
    }
    assert flags == RaisedBelow(m, 1);
    if IsMissingText(m.symbol) {
      flags := flags + [MissingSymbol];
    }
    assert flags == RaisedBelow(m, 2);
    if m.decimals.None? {
      flags := flags + [MissingDecimals];
    }
    assert flags == RaisedBelow(m, 3);
    if m.decimals.Some? && m.decimals.value.JsNumber?
       && (m.decimals.value.n == 0 || m.decimals.value.n > 18) {
      flags := flags + [UnusualDecimals(m.decimals.value.n)];
    }
    assert flags == RaisedBelow(m, 4);
    if Scalable(m) {
      if IsExtremeSupply(m.totalSupply.value, m.decimals.value.n) {
        flags := flags + [ExtremeSupply];
      }
    }
  }

  /** The printed list repeats no text. */
  lemma MessagesDistinct(m: Metadata)
    ensures forall i, j :: 0 <= i < j < |Flags(m)| ==> Messages(Flags(m))[i] != Messages(Flags(m))[j]
  {
    var fs := Flags(m);
    FlagsSound(m);
    forall i, j | 0 <= i < j < |fs| ensures Messages(fs)[i] != Messages(fs)[j] {
      if Message(fs[i]) == Message(fs[j]) {
        MessageInjective(fs[i], fs[j]);
      }
    }
  }

  /** "Missing decimals()" and "Unusual decimals" never appear together. */
  lemma DecimalsFlagsExclusive(m: Metadata, d: Uint8)
    ensures !(MissingDecimals in Flags(m) && UnusualDecimals(d) in Flags(m))
  {
    FlagsSound(m);
  }

  /** The large-supply warning needs both decimals and total supply. */
  lemma ExtremeSupplyNeedsBoth(m: Metadata)
    requires m.decimals.None? || m.totalSupply.None?
    ensures ExtremeSupply !in Flags(m)
  {
    FlagsSound(m);
  }

  /** A bigint decimals value is never reported as unusual, whatever it is. */
  lemma BigIntDecimalsNeverUnusual(m: Metadata, d: Uint8)
    requires m.decimals.Some? && m.decimals.value.BigInt?
    ensures UnusualDecimals(d) !in Flags(m)
  {
    FlagsSound(m);
  }

  /** decimals = 18 with a raw supply of 2 * 10^33 is flagged as extremely
      large, whichever JavaScript type decimals arrives as. */
  lemma ExtremeSupplyExample(m: Metadata)
    requires m.decimals == Some(JsNumber(18)) || m.decimals == Some(BigInt(18))
    requires m.totalSupply == Some(2_000_000_000_000_000_000_000_000_000_000_000)
    ensures ExtremeSupply in Flags(m)
  {
    assert Pow10(15) == 1_000_000_000_000_000;
    Pow10Add(15, 3);
    Pow10Add(15, 18);
    assert Raised(ExtremeSupply, m);
    FlagsSound(m);
  }

  /** Each flag's text is in the printed list. */
  /** A proof step for the examples: a listed warning's text is among the
      printed texts (it names the index that Messages' contract needs). */
  lemma {:induction false} MessageListed(fs: seq<Flag>, f: Flag)
    requires f in fs
    ensures Message(f) in Messages(fs)
  {
    var i :| 0 <= i < |fs| && fs[i] == f;
    assert Messages(fs)[i] == Message(f);
  }

  /** A number-typed decimals of 0 yields the text "Unusual decimals: 0". */
  lemma ZeroDecimalsExample(m: Metadata)
    requires m.decimals == Some(JsNumber(0))
    ensures "Unusual decimals: 0" in Messages(Flags(m))
  {
    FlagsSound(m);
    assert Raised(UnusualDecimals(0), m);
    MessageListed(Flags(m), UnusualDecimals(0));
    assert JsText.Decimal(0) == "0";
    assert Message(UnusualDecimals(0)) == "Unusual decimals: 0";
  }
}
