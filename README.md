# Token analyzer — a Dafny model of its decision logic

The token analyzer is a short command-line script (`index.js`). It takes one
ERC20 contract address and an RPC endpoint. It reads the token's name,
symbol, decimals and total supply, prints them, and prints a list of
heuristic warnings ("flags"). This project models the decisions the script
makes around its network calls:

- the startup and contract checks that decide the exit code (`TokenAnalyzer.Run`);
- `safeCall`, which turns a failed accessor call into a fixed fallback;
- the flag rules and the order the flags are pushed in;
- the flags part of the output and the choice between a scaled and a raw supply.

Everything the script receives from outside is an input of the model: the
`RPC_URL` variable, the command-line argument, the outcome of `getNetwork`,
the bytecode from `getCode`, the verdict of `ethers.isAddress`, the
outcome of each accessor call (a value or an exception), and whether
`ethers.formatUnits` returns or throws on the fetched supply and decimals.

Files:

- `js_text.dfy` (module `JsText`): `String.prototype.trim` and the decimal
  rendering of an integer inside a template literal.
- `token_flags.dfy` (module `TokenFlags`): the metadata, the five warnings,
  their texts, the rules, and the imperative flag derivation.
- `token_analyzer.dfy` (module `TokenAnalyzer`): `safeCall`, the fetched
  metadata, the supply line, the flags section of the output, and the run
  with its exit codes.

Modelling choices:

- `decimals` is tagged with its JavaScript type: `JsNumber` or `BigInt`.
  The "Unusual decimals" rule tests `typeof decimals === "number"`
  (index.js:82), so a bigint value never raises it. Which type the client
  library returns is not visible in the source, so the model keeps both.
- Decimals values are ABI `uint8` (0..255) and total supply is ABI `uint256`.
- The large-supply test is exact: the scaled supply is above 10^15 iff
  `raw > 10^(15 + decimals)`. `ExtremeSupplyIffScaledAbove` proves that this
  agrees with the exact rational `raw / 10^decimals`.
- `!RPC_URL` and `!address` treat both an absent value and the empty string
  as missing (`TokenAnalyzer.Falsy`).
- A `getNetwork` or `getCode` call that throws reaches the top-level `catch`
  and exits with code 1 (`UnexpectedError`).
- index.js:82 tests `typeof decimals === "number"`, so a bigint decimals
  never raises "Unusual decimals" (`BigIntDecimalsNeverUnusual`);
  `ZeroDecimalsExample` covers the number case.
- `ethers.formatUnits` is called at index.js:86 outside any `try`. When it
  throws, `main` rejects and the top-level `catch` (index.js:108-111) exits
  with code 1 before the flags are printed. The model takes its outcome as
  an input (`Environment.scaling`); it is consulted only when decimals and
  total supply are both known, as the guard at index.js:85 requires.
- Runs are pure functions of their inputs, so two runs with the same inputs
  give the same outcome.

## Model

| member | source | states |
|---|---|---|
| `JsText.IsTrimmable` | index.js:79-80 | the characters `trim()` removes: the ECMAScript WhiteSpace and LineTerminator code points; a definition with no contract of its own, used by every trim member below |
| `JsText.Trim` | index.js:79-80 | `String.prototype.trim`: the result is the infix `s[a..b]` of the input with every character before `a` and from `b` on trimmable, and it neither starts nor ends with a trimmable character; `TrimEmptyIffBlank` says when it is empty |
| `JsText.TrimStart` | index.js:79 | the result is a suffix of the input; every dropped character is a trim() whitespace or line terminator; the result does not start with one |
| `JsText.TrimEnd` | index.js:79 | the result is a prefix of the input; every dropped character is trimmable; the result does not end with one |
| `JsText.TrimEmptyIffBlank` | index.js:79-80 | `trim()` gives `""` exactly when every character of the string is trimmable |
| `JsText.Decimal` | index.js:82 | the rendering of an integer in a template literal is a non-empty string of digits with no leading zero except for 0 |
| `JsText.DecimalRoundTrip` | index.js:82 | reading the digits back gives the original number, so the rendering loses nothing |
| `TokenFlags.IsMissingText` | index.js:79-80 | the name and symbol test as written (the sentinel, or empty after `trim()`); no contract of its own: `MissingTextIffSentinelOrBlank` characterises it |
| `TokenFlags.MissingTextIffSentinelOrBlank` | index.js:79-80 | a name or symbol is flagged iff it equals "N/A" or consists only of trimmable characters |
| `TokenFlags.Message` | index.js:79-87 | the five pushed texts; no contract of its own: `ParseMessageRoundTrip` and `MessageInjective` state that each text identifies its warning |
| `TokenFlags.ParseMessageRoundTrip` | index.js:79-87 | every warning text reads back as the warning that produced it |
| `TokenFlags.MessageInjective` | index.js:79-87 | two different warnings never have the same text |
| `TokenFlags.ScaledSupply` | index.js:86 | the value `formatUnits(raw, d)` denotes, `raw / 10^d` as an exact rational; no contract of its own: `ExtremeSupplyIffScaledAbove` and `TokenAnalyzer.SupplyDisplay` state its use |
| `TokenFlags.Scalable` | index.js:85 | decimals and total supply are both non-null, the guard shared by the large-supply rule, the scaled supply line (index.js:98) and the `formatUnits` calls; no contract of its own: `TokenAnalyzer.SupplyDisplay` and `TokenAnalyzer.ScalingFailureExits` state its consequences |
| `TokenFlags.IsExtremeSupply` | index.js:85-87 | the large-supply test in exact integers; no contract of its own: `ExtremeSupplyIffScaledAbove` ties it to the scaled value |
| `TokenFlags.ExtremeSupplyIffScaledAbove` | index.js:85-87 | `raw > 10^(15 + d)` holds exactly when the scaled supply `raw / 10^d` is above 1e15 |
| `TokenFlags.Raised` | index.js:79-87 | the condition of each of the five rules; no contract of its own: `FlagsSound`, `DecimalsFlagsExclusive`, `ExtremeSupplyNeedsBoth` and `BigIntDecimalsNeverUnusual` state its consequences |
| `TokenFlags.Flags` | index.js:76-88 | the flag list as a value, the rules taken in push order; no contract of its own: `FlagsSound` states its contents and order, and `DeriveFlags` is proved to build it |
| `TokenFlags.FlagsSound` | index.js:76-88 | the flag list holds exactly the warnings whose rules fire; it is strictly in push order (name, symbol, missing decimals, unusual decimals, large supply), so it has no repeats |
| `TokenFlags.DeriveFlags` | index.js:76-88 | the list built by the successive pushes equals `Flags(m)`, whose order and contents `FlagsSound` states |
| `TokenFlags.MessagesDistinct` | index.js:76-92 | the texts of the flag list are pairwise distinct, so each warning is printed at most once |
| `TokenFlags.DecimalsFlagsExclusive` | index.js:81-82 | "Missing decimals()" and "Unusual decimals: d" never occur together |
| `TokenFlags.ExtremeSupplyNeedsBoth` | index.js:85-88 | when decimals or total supply is null, "Extremely large total supply" is never raised |
| `TokenFlags.BigIntDecimalsNeverUnusual` | index.js:82 | a decimals value that is not of type number never raises "Unusual decimals" |
| `TokenFlags.ExtremeSupplyExample` | index.js:85-87 | decimals = 18 with raw supply 2·10^33 raises "Extremely large total supply", for either type of decimals |
| `TokenFlags.ZeroDecimalsExample` | index.js:82 | a number-typed decimals of 0 puts the text "Unusual decimals: 0" in the list |
| `TokenAnalyzer.DefaultFallback` | index.js:61 | the default `fallback` parameter "N/A"; no contract of its own: `TokenAnalyzer.Fetch` states that a failing name() or symbol() yields it |
| `TokenAnalyzer.SafeCall` | index.js:61-63 | the callee's value on success, the fallback on any failure; it has no precondition and no error result |
| `TokenAnalyzer.Fetch` | index.js:65-68 | name and symbol are the returned value or "N/A"; decimals and total supply are null exactly when their call failed, and otherwise the returned value |
| `TokenAnalyzer.NameSentinelConflated` | index.js:61-68 | a failing name() and a name() that returns "N/A" give the same metadata, and both are flagged as a missing name |
| `TokenAnalyzer.SupplyDisplay` | index.js:98-105 | the supply is shown scaled iff decimals and total supply are both non-null; a scaled amount times 10^decimals is the raw supply; otherwise the raw value (possibly null) is shown |
| `TokenAnalyzer.FlagSection` | index.js:90-95 | the output is "Flags: none" iff the list is empty; otherwise a header and then one "- " line per flag, in list order |
| `TokenAnalyzer.FlagsOutput` | index.js:76-95 | the printed flags section of a metadata: "Flags: none" iff no rule fires; otherwise the header "Flags:" and then one "- " line per raised warning's text in push order, no line repeated |
| `TokenAnalyzer.ExitCode` | index.js:23-57 | the exit code is 0 exactly for a completed report or empty bytecode, and 1 otherwise |
| `TokenAnalyzer.Run` | index.js:22-111 | a report is only produced when both inputs are present, both RPC calls return, the bytecode is not "0x" and the address is valid; it shows the argument, the fetched metadata and the supply line `SupplyDisplay` gives for that metadata (so "Total Supply: null" when totalSupply() threw); an unexpected-error exit needs a call that threw |
| `TokenAnalyzer.Falsy` | index.js:23-29 | JavaScript `!v` on `RPC_URL` and `argv[2]`: undefined or the empty string; no contract of its own: `MissingRpcUrlFirst` and `MissingArgumentNext` state its use |
| `TokenAnalyzer.MissingRpcUrlFirst` | index.js:22-26 | a missing or empty RPC URL exits with 1 before any other step |
| `TokenAnalyzer.MissingArgumentNext` | index.js:28-32 | with the URL present, a missing or empty argument exits with 1 |
| `TokenAnalyzer.EmptyCodeBeforeAddressCheck` | index.js:48-57 | bytecode "0x" exits with 0, and the isAddress verdict does not change the outcome |
| `TokenAnalyzer.InvalidAddressAfterCode` | index.js:54-57 | non-empty bytecode with an address that fails isAddress exits with 1 |
| `TokenAnalyzer.ReportedIffChecksPass` | index.js:22-111 | a run prints a report iff both inputs are present, both RPC calls return, the bytecode is not "0x", the address is valid, and `formatUnits` returns whenever decimals and supply are both known |
| `TokenAnalyzer.ExitCodeZeroIff` | index.js:22-111 | the exit code is 0 iff the inputs are present, the RPC calls return, and either the bytecode is "0x" or the address is valid and `formatUnits` returns whenever it is called |
| `TokenAnalyzer.ScalingFailureExits` | index.js:85-86 | a throwing `formatUnits` with decimals and supply both known ends the run as an unexpected error with code 1 |
| `TokenAnalyzer.AccessorsNeverStopRun` | index.js:61-86 | when `formatUnits` returns, the accessor outcomes never change whether a report is produced or the exit code; they change it only through a throwing `formatUnits`; runs that stop before the accessors do not depend on them |
| `TokenAnalyzer.ReportFlagsFollowRules` | index.js:76-88 | a report's flags are exactly the raised warnings, in push order |
| `TokenAnalyzer.WellFormedTokenReport` | index.js:65-105 | when a report is printed (so `formatUnits` returned) and all four accessors answer, the report carries their values and the supply scaled by 10^decimals |
| `TokenAnalyzer.DecimalsFailureReport` | index.js:81-105 | when decimals() fails, the report contains "Missing decimals()", no large-supply flag, and an unscaled supply |

## Left out

- Network calls through ethers: `JsonRpcProvider`, `getNetwork`, `getCode`, `ethers.Contract` and ABI encoding and decoding. They are I/O in a library outside this model. Their outcomes are inputs.
- `ethers.isAddress`: a foreign check of the address format. Its verdict is a boolean input.
- Whether `ethers.formatUnits` throws for given decimals and supply: that is library behaviour outside this model, so its outcome is an input of the run.
- `ethers.formatUnits` text and the `Number(...)` conversion: the model uses the exact rational value. It does not reproduce float rounding near the 1e15 boundary or the decimal text of the scaled supply.
- `Number.isFinite` at index.js:87: it is always true here, because a `uint256` supply is below 2^256, far under the largest double.
- `TokenFlags.ExtremeSupplyIffScaledAbove`: compares the exact scaled value with 1e15, not its double-precision approximation.
- `dotenv`, `process.env` and `process.exit`: the environment variable and argument are inputs, and the exit is the `Outcome` value.
- Console text other than the flags section and the supply line: the start-up lines, including the "Args:" line with all of `argv.slice(2)` (index.js:20), and the network name and chain id (index.js:44) are not modelled at all; only `argv[2]` is an input, and `getNetwork` contributes only whether it returns. Of the token lines (index.js:70-73) only the values are kept, in `Report`: the address, name, symbol and decimals.
- Calls that never finish: no timeout is set on `getNetwork` (index.js:43), `getCode` (index.js:48) or the accessor calls (index.js:65-68), and `safeCall` catches only a rejection. A hung endpoint leaves the process with no exit code. The model assumes every awaited call returns or throws (`Call` has no third outcome), so `ExitCode` and `ExitCodeZeroIff` speak only of runs that end.
- async/await and the top-level `.catch`: every call is awaited in turn, so there is no concurrency. A throwing `getNetwork` or `getCode` call (index.js:43, 48), or a throwing `formatUnits` call (index.js:86), is modelled as the `UnexpectedError` exit. A throwing accessor call is absorbed by `safeCall` (`Fetch`).
- `== null` also matches `undefined`: the accessor calls never yield `undefined`, so only null is modelled.
- Strings are sequences of Unicode scalar values, not UTF-16 code units. Every character `trim()` removes is in the Basic Multilingual Plane, so the trimming rule is unaffected.
