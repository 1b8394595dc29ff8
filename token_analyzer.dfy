/** One run of the token analyzer (index.js:22-106): the startup checks, the
    contract-presence and address checks around the RPC calls, the per-field
    fallbacks of safeCall, and the report. Everything the RPC client, the
    environment or the command line supplies is an input of the run. */
module TokenAnalyzer {
  import opened TokenFlags

  /** Awaiting a call whose code is not part of this model: the value it
      resolves to, or an exception. */
  datatype Call<T> = Returned(value: T) | Threw

  /** safeCall (index.js:61-63): the call's value, or the fallback whatever
      the failure was; it never fails itself. */
  function SafeCall<T>(c: Call<T>, fallback: T): (r: T)
    ensures c.Returned? ==> r == c.value
    ensures c.Threw? ==> r == fallback
  {
    match c
    case Returned(v) => v
    case Threw => fallback
  }

  /** The fallback safeCall uses when the caller gives none (index.js:61). */
  function DefaultFallback(): string {
    "N/A"
  }

  /** A call whose value may stand beside null. */
  function Nullable<T>(c: Call<T>): Call<Option<T>> {
    match c
    case Returned(v) => Returned(Some(v))
    case Threw => Threw
  }

  /** The outcomes of the four ERC20 accessor calls. */
  datatype Accessors = Accessors(
    name: Call<string>,
    symbol: Call<string>,
    decimals: Call<Numeric>,
    totalSupply: Call<Uint256>)

  /** index.js:65-68: each field through safeCall, "N/A" for name and symbol,
      null for decimals and total supply. */
  function Fetch(a: Accessors): (m: Metadata)
    ensures a.name.Returned? ==> m.name == a.name.value
    ensures a.name.Threw? ==> m.name == "N/A"
    ensures a.symbol.Returned? ==> m.symbol == a.symbol.value
    ensures a.symbol.Threw? ==> m.symbol == "N/A"
    ensures m.decimals.None? <==> a.decimals.Threw?
    ensures a.decimals.Returned? ==> m.decimals == Some(a.decimals.value)
    ensures m.totalSupply.None? <==> a.totalSupply.Threw?
    ensures a.totalSupply.Returned? ==> m.totalSupply == Some(a.totalSupply.value)
  {
    Metadata(
      SafeCall(a.name, DefaultFallback()),
      SafeCall(a.symbol, DefaultFallback()),
      SafeCall(Nullable(a.decimals), None),
      SafeCall(Nullable(a.totalSupply), None))
  }

  /** A name() that fails and a name() that returns "N/A" are
      indistinguishable afterwards, and both are flagged as missing. */
  lemma NameSentinelConflated(a: Accessors)
    ensures Fetch(a.(name := Threw)) == Fetch(a.(name := Returned("N/A")))
    ensures MissingName in Flags(Fetch(a.(name := Threw)))
  {
    var m := Fetch(a.(name := Threw));
    FlagsSound(m);
    assert Raised(MissingName, m);
  }

  /** The "Total Supply" line (index.js:98-105): the exact amount
      formatUnits renders when decimals and total supply are both known,
      otherwise the raw value, possibly null. */
  datatype SupplyShown = Scaled(amount: real) | Unscaled(raw: Option<Uint256>)

  function SupplyDisplay(m: Metadata): (s: SupplyShown)
    ensures s.Scaled? <==> Scalable(m)
    ensures s.Scaled? ==> s.amount * Pow10(m.decimals.value.n) as real == m.totalSupply.value as real
    ensures s.Unscaled? ==> s.raw == m.totalSupply
  {
    if Scalable(m) then
      Scaled(ScaledSupply(m.totalSupply.value, m.decimals.value.n))
    else
      Unscaled(m.totalSupply)
  }

  /** The flags part of the output (index.js:90-95): a header, then one
      "- " line per flag in list order, or the single line "Flags: none". */
  method FlagSection(flags: seq<string>) returns (lines: seq<string>)
    ensures lines == ["\nFlags: none"] <==> flags == []
    ensures flags != [] ==>
      |lines| == |flags| + 1 && lines[0] == "\nFlags:"
      && forall i :: 0 <= i < |flags| ==> lines[i + 1] == "- " + flags[i]
  {
    if |flags| > 0 {
      lines := ["\nFlags:"];
      for i := 0 to |flags|
        invariant |lines| == i + 1 && lines[0] == "\nFlags:"
        invariant forall k :: 0 <= k < i ==> lines[k + 1] == "- " + flags[k]
      {
        lines := lines + ["- " + flags[i]];
      }
    } else {
      lines := ["\nFlags: none"];
    }
  }

  /** The flags part of the output of a run, index.js:76-95 in sequence:
      derive the flag list, then print its texts. "Flags: none" appears
      exactly when no rule fires; otherwise each raised warning's text is
      printed once, in push order. */
  method FlagsOutput(m: Metadata) returns (lines: seq<string>)
    ensures lines == ["\nFlags: none"] <==> Flags(m) == []
    ensures Flags(m) != [] ==>
      |lines| == |Flags(m)| + 1 && lines[0] == "\nFlags:"
      && forall i :: 0 <= i < |Flags(m)| ==> lines[i + 1] == "- " + Message(Flags(m)[i])
    ensures forall i, j :: 1 <= i < j < |lines| ==> lines[i] != lines[j]
  {
    var flags := DeriveFlags(m);
    lines := FlagSection(Messages(flags));
    MessagesDistinct(m);
    forall i, j | 1 <= i < j < |lines| ensures lines[i] != lines[j] {
      var ms := Messages(flags);
      assert lines[i] == "- " + ms[i - 1] && lines[i][2..] == ms[i - 1];
      assert lines[j] == "- " + ms[j - 1] && lines[j][2..] == ms[j - 1];
    }
  }

  /** Why a run ended before printing a report. */
  datatype Stop =
    | MissingRpcUrl     // index.js:23-26
    | MissingAddress    // index.js:29-32
    | NoContractCode    // index.js:49-52
    | InvalidAddress    // index.js:54-57
    | UnexpectedError   // index.js:108-111, an awaited call or formatUnits threw

  /** What a completed run prints about the token. */
  datatype Report = Report(
    address: string,
    metadata: Metadata,
    flags: seq<Flag>,
    supply: SupplyShown)

  datatype Outcome = Exited(reason: Stop) | Reported(report: Report)

  /** The process exit code: 0 for a report and for the benign
      "no contract code" exit, 1 for every other stop. */
  function ExitCode(o: Outcome): (code: int)
    ensures code == 0 <==> o.Reported? || o == Exited(NoContractCode)
    ensures code == 0 || code == 1
  {
    match o
    case Reported(_) => 0
    case Exited(NoContractCode) => 0
    case Exited(_) => 1
  }

  /** Everything a run receives from outside: the RPC_URL variable, the first
      command-line argument, the outcomes of getNetwork and getCode, the
      verdict of ethers.isAddress on the argument, the accessor calls, and
      whether ethers.formatUnits(totalSupply, decimals) returns or throws
      (it is called outside any try, and only when both values are known). */
  datatype Environment = Environment(
    rpcUrl: Option<string>,
    argument: Option<string>,
    network: Call<()>,
    code: Call<string>,
    isAddress: bool,
    token: Accessors,
    scaling: Call<()>)

  /** JavaScript's !v for an optional string: undefined or empty. */
  predicate Falsy(v: Option<string>) {
    v.None? || v.value == ""
  }

  /** The startup checks pass: both inputs are present. */
  predicate Configured(e: Environment) {
    !Falsy(e.rpcUrl) && !Falsy(e.argument)
  }

  /** Both RPC calls before the metadata resolved. */
  predicate Reachable(e: Environment) {
    e.network.Returned? && e.code.Returned?
  }

  /** The run (index.js:22-106): guarded early exits in source order, the
      four fallible accessor reads, the unguarded formatUnits call, then the
      report. A report is only reached through every check and shows the
      argument and the fetched fields; an unexpected error needs a call
      that threw. */
  function Run(e: Environment): (o: Outcome)
    ensures o.Reported? ==> Configured(e) && Reachable(e) && e.code.value != "0x" && e.isAddress
    ensures o.Reported? ==> o.report.address == e.argument.value && o.report.metadata == Fetch(e.token)
    ensures o.Reported? ==> o.report.supply == SupplyDisplay(o.report.metadata)
    ensures o == Exited(UnexpectedError) ==> e.network.Threw? || e.code.Threw? || e.scaling.Threw?
  {
    if Falsy(e.rpcUrl) then Exited(MissingRpcUrl)
    else if Falsy(e.argument) then Exited(MissingAddress)
    else if e.network.Threw? || e.code.Threw? then Exited(UnexpectedError)
    else if e.code.value == "0x" then Exited(NoContractCode)
    else if !e.isAddress then Exited(InvalidAddress)
    else
      var m := Fetch(e.token);
      if Scalable(m) && e.scaling.Threw? then Exited(UnexpectedError)
      else
        Reported(Report(e.argument.value, m, Flags(m), SupplyDisplay(m)))
  }

  /** A missing RPC URL stops the run first, whatever else holds. */
  lemma MissingRpcUrlFirst(e: Environment)
    requires Falsy(e.rpcUrl)
    ensures Run(e) == Exited(MissingRpcUrl) && ExitCode(Run(e)) == 1
  {
  }

  /** With the URL present, a missing argument stops the run. */
  lemma MissingArgumentNext(e: Environment)
    requires !Falsy(e.rpcUrl) && Falsy(e.argument)
    ensures Run(e) == Exited(MissingAddress) && ExitCode(Run(e)) == 1
  {
  }

  /** Empty bytecode ends the run with code 0 before the address format is
      looked at: the isAddress verdict makes no difference. */
  lemma EmptyCodeBeforeAddressCheck(e: Environment, valid: bool)
    requires Configured(e) && e.network.Returned? && e.code == Returned("0x")
    ensures Run(e) == Exited(NoContractCode) && ExitCode(Run(e)) == 0
    ensures Run(e.(isAddress := valid)) == Run(e)
  {
  }

  /** Non-empty bytecode at an address that fails isAddress ends with code 1. */
  lemma InvalidAddressAfterCode(e: Environment)
    requires Configured(e) && Reachable(e) && e.code.value != "0x" && !e.isAddress
    ensures Run(e) == Exited(InvalidAddress) && ExitCode(Run(e)) == 1
  {
  }

  /** Only a run that passes every check, and whose supply formatting
      returns when it happens, prints a report. */
  lemma ReportedIffChecksPass(e: Environment)
    ensures Run(e).Reported?
      <==> Configured(e) && Reachable(e) && e.code.value != "0x" && e.isAddress
           && (Scalable(Fetch(e.token)) ==> e.scaling.Returned?)
  {
  }

  /** The exit code is 0 exactly for empty bytecode or for a report. */
  lemma ExitCodeZeroIff(e: Environment)
    ensures ExitCode(Run(e)) == 0
      <==> Configured(e) && Reachable(e)
           && (e.code.value == "0x"
               || (e.isAddress && (Scalable(Fetch(e.token)) ==> e.scaling.Returned?)))
  {
  }

  /** A formatUnits call that throws once decimals and total supply are both
      known ends the run through the top-level catch with code 1. */
  lemma ScalingFailureExits(e: Environment)
    requires Configured(e) && Reachable(e) && e.code.value != "0x" && e.isAddress
    requires Scalable(Fetch(e.token)) && e.scaling.Threw?
    ensures Run(e) == Exited(UnexpectedError) && ExitCode(Run(e)) == 1
  {
  }

  /** Failing accessor calls never end the run (safeCall absorbs them); the
      accessors change the outcome only through the formatUnits call they
      enable, and runs that stop earlier do not depend on them at all. */
  lemma AccessorsNeverStopRun(e: Environment, t: Accessors)
    ensures e.scaling.Returned? ==> Run(e.(token := t)).Reported? == Run(e).Reported?
    ensures e.scaling.Returned? ==> ExitCode(Run(e.(token := t))) == ExitCode(Run(e))
    ensures Run(e.(token := t)).Reported? != Run(e).Reported? ==> e.scaling.Threw?
    ensures !(Configured(e) && Reachable(e) && e.code.value != "0x" && e.isAddress)
      ==> Run(e.(token := t)) == Run(e)
  {
  }

  /** A report's flags are exactly the raised warnings, each once, in push
      order, and say "none" only when no rule fires. */
  lemma ReportFlagsFollowRules(e: Environment)
    requires Run(e).Reported?
    ensures Ordered(Run(e).report.flags)
    ensures forall f :: f in Run(e).report.flags <==> Raised(f, Run(e).report.metadata)
  {
    FlagsSound(Run(e).report.metadata);
  }

  /** For a token whose four accessors all answer, the report shows their
      values and the supply scaled by 10^decimals. */
  lemma WellFormedTokenReport(e: Environment)
    requires Run(e).Reported?
    requires e.token.name.Returned? && e.token.symbol.Returned?
    requires e.token.decimals.Returned? && e.token.totalSupply.Returned?
    ensures Run(e).report.metadata
      == Metadata(e.token.name.value, e.token.symbol.value,
                  Some(e.token.decimals.value), Some(e.token.totalSupply.value))
    ensures Run(e).report.supply
      == Scaled(ScaledSupply(e.token.totalSupply.value, e.token.decimals.value.n))
  {
  }

  /** A failing decimals() is flagged and leaves the supply unscaled. */
  lemma DecimalsFailureReport(e: Environment)
    requires Run(e).Reported? && e.token.decimals.Threw?
    ensures MissingDecimals in Run(e).report.flags
    ensures Run(e).report.supply.Unscaled?
    ensures ExtremeSupply !in Run(e).report.flags
  {
    var m := Run(e).report.metadata;
    FlagsSound(m);
    assert Raised(MissingDecimals, m);
  }
}
