# nocdn line filter, modelled in Dafny

`nocdn` reads IP addresses one per line, from a file or from standard input. It asks a
CDN/WAF classification library about each address and writes out only the addresses that
are behind neither a CDN nor a WAF. The whole program is the `main` function of `main.go`.
Its only logic is the scan loop: each line is trimmed and parsed, then `CheckCDN` and
`CheckWAF` are asked in turn. The line then has one of four outcomes:

- its address is written;
- it is dropped silently;
- `Invalid IP address: <text>` is written;
- `CDN check error: <msg>` or `WAF check error: <msg>` is written.

After the loop, a read error of the scanner is reported on the console as
`Failed to read input: <msg>`.

The model has six modules:

- `Wrappers`: `Option` and `Result`.
- `Text`: `strings.TrimSpace`, with the white-space set of `unicode.IsSpace`. Its behaviour is
  proved as lemmas: it removes white space only, from both ends, leaves none at either end,
  and trimming twice is trimming once.
- `Seqs`: the generic stream combinators.
  - `FilterMap` keeps the results of a partial function, in order.
  - `Origins` gives, for each kept result, the index it came from.
  - `FlatMap` concatenates per-element sequences.
- `Filter`: the per-line decision. The collaborators are abstract parameters:
  - `Parser` holds `net.ParseIP` and the printed form of an address.
  - `Classifier` holds `CheckCDN` and `CheckWAF`, each answering a match flag or an error text.

  `Decide` is the decision table. `LineResult` is the line written for one input line, if any.
  `LineQueries` is the classifier calls one input line makes, in order. `Outputs` and `Queries`
  extend these to a stream of lines.
- `Driver`: the imperative scan loop.
  - `ProcessLine` is the loop body with its early exits. It asks each question through
    `AskCDN` or `AskWAF`, which answer and record the call together.
  - `Run` is the loop. It appends to an output buffer and records every classifier call, then
    produces the read-error notice.
  - Both methods are proved against the `Filter` functions.
- `Scenarios`: worked examples over whole streams, proved against stub collaborators.

## Model

| member | source | states |
|---|---|---|
| Text.TrimSpaceSpec | main.go:64 | the trimmed line is an infix of the raw line, with only white space before and after it, and no white space at either of its own ends |
| Text.TrimSpaceUnique | main.go:64 | any infix of the line with only white space around it and none at its own ends is the trimmed line, so `Text.TrimSpaceSpec` determines `strings.TrimSpace` over valid text |
| Text.TrimSpaceKeepsTrimmed | main.go:64 | a line with no white space at either end is left unchanged by trimming |
| Text.TrimSpaceIdempotent | main.go:64 | trimming an already trimmed line changes nothing |
| Filter.InvalidLineReported | main.go:63-70 | a line whose trimmed text does not parse writes exactly `Invalid IP address: ` followed by the trimmed text, and makes no classifier call |
| Filter.CdnErrorReported | main.go:72-76 | a failed CDN query writes exactly `CDN check error: ` followed by its error text; the only call made is the CDN query, so WAF is not asked |
| Filter.CdnErrorIgnoresWaf | main.go:72-76 | after a failed CDN query, what the line writes and which calls it makes are the same whatever the WAF query would answer |
| Filter.WafErrorReported | main.go:78-82 | after a good CDN query, a failed WAF query writes exactly `WAF check error: ` followed by its error text, and no address; the calls are CDN then WAF |
| Filter.PassIffUnmatched | main.go:84-86 | when both queries answer, the line passes if and only if neither matched; the printed address is then written, and a match writes nothing; both queries are made, CDN first |
| Filter.MatchDoesNotShortCircuit | main.go:72-82 | for a parsed address, the CDN query is always the first call; WAF is asked if and only if the CDN query returned no error, whatever its match flag |
| Filter.SilentOnlyOnMatch | main.go:63-86 | a line writes nothing if and only if it parsed and both queries answered with at least one match: every anomaly is reported |
| Filter.PassIsParsed | main.go:66-85 | a passing line's address is the one parsed from its trimmed text |
| Filter.OutputFollowsInput | main.go:62-87 | each output line was written by one input line; their source indices rise strictly, so output order is input order; the sources are exactly the lines that were not dropped; so there are at most as many output lines as input lines |
| Filter.PassedFollowInput | main.go:62-87 | the passing addresses form an order-preserving subsequence of the addresses parsed from the input: each comes from a passing line and was parsed from its trimmed text, and every passing line is among them |
| Filter.PassedAreWritten | main.go:84-85 | every passing line is among the lines that wrote output, and the output line it wrote is the printed form of its passing address |
| Filter.OutputsAppend | main.go:62-87 | the output and the classifier calls of a concatenated stream are the concatenations of the parts' outputs and calls |
| Filter.OutputsSnoc | main.go:62-87 | one more line appends exactly that line's result, if any, to the output, and its calls to the call record |
| Filter.LineDeterministic | main.go:63-86 | one line's result and calls depend only on its text and on the classifier's answers about its address |
| Filter.Deterministic | main.go:62-87 | two classifiers that answer alike about the input's addresses give identical output and calls; in particular, running the same input twice gives the same output |
| Driver.ProcessLine | main.go:63-86 | the loop body, with its `continue` exits, writes exactly the line's result and makes exactly the line's calls, in order |
| Driver.Run | main.go:61-91 | the loop's output buffer is the in-order concatenation of the per-line results, and its call record is the concatenation of the per-line calls; empty input gives empty output and no calls; the read-error notice is produced if and only if the scan stopped on an error, and it carries that error's text |
| Driver.ReadErrorKeepsPrefix | main.go:62-91 | splitting a stream after `k` lines splits its output and its calls there; together with `Driver.Run`'s contract, a read that stops after `k` lines writes exactly the output of those lines, a prefix of what the whole stream would give, with nothing emitted twice |
| Scenarios.MixedInput | main.go:62-87 | a free address is written, a CDN address is dropped silently and junk is reported, in input order; CDN and WAF are both asked for each address |
| Scenarios.WafFailureReported | main.go:78-82 | a failing WAF query writes `WAF check error: lookup failed` and no address |
| Scenarios.TrimmedBeforeParsing | main.go:63-70 | a line padded with a space and a tab passes as the bare address; a blank line is reported as `Invalid IP address: ` with empty text |
| Scenarios.RepeatedAddressWrittenTwice | main.go:62-87 | the filter keeps no state across lines, so an address given twice is written twice |

## Left out

- Flag parsing (main.go:16-18): command-line handling.
- Opening and creating files, deferred closes and the standard-input character-device check
  (main.go:22-56): operating-system I/O.
- `cdncheck.New` and the provider data and matching behind `CheckCDN` and `CheckWAF`
  (main.go:20, 72, 78): these are code that cannot be seen here, so they are the abstract
  `Classifier` parameter. The second value each call returns is discarded by the source and is
  not modelled. The classifier is a fixed function of the address, so an address on two lines
  gets the same answers both times; a transient lookup failure that differs between two lines
  with the same address is not modelled.
- The grammar of `net.ParseIP` and the canonical text `fmt.Fprintln` prints for an address
  (main.go:66, 85): these are library behaviour, so they are the abstract `Parser` parameter.
  The model does not assume that parsing and printing round-trip.
- `bufio.Scanner` line splitting, its treatment of carriage returns and its token-size limit
  (main.go:61-62): the input is the sequence of lines the scanner delivers, plus the error it
  stopped on, if any. An over-long line shows up only as such an error.
- `bufio.Writer` buffering, `Flush` and write errors (main.go:59, 94): the output is the
  sequence of lines written. Each entry stands for its text followed by a newline.
- The interleaving of the read-error notice with the filtered output: without `-o` both go to
  standard output, and the notice (main.go:90) is printed before the buffered filtered lines are
  flushed (main.go:94), so those lines follow it. `Driver.Run` returns the notice separately.
- Console messages other than the read-error notice (main.go:31, 41, 50, 97): these are
  outside the filtered stream.
- Text.TrimSpaceSpec: works over Unicode scalar values. It does not model what
  `strings.TrimSpace` does with bytes that are not valid UTF-8.
- Removing repeated addresses: the program does not do it. An address given on two input lines is
  written twice (`Scenarios.RepeatedAddressWrittenTwice`).
