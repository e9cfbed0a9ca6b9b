/**
 * The line pipeline driver: read lines until the input ends or a read fails, run each through
 * the filter and append what it writes to the output buffer.
 */
module Driver {
  import opened Wrappers
  import opened Text
  import opened Filter

  /**
   * What the line scanner delivers: the lines it read, in order, and the read error that
   * stopped it, or None when it stopped at the end of the input.
   */
  datatype Input = Input(lines: seq<string>, readError: Option<string>)

  const ReadErrorPrefix := "Failed to read input: "

  /** The status-channel line printed after the loop, if the read stopped on an error. */
  function ReadStatus(input: Input): Option<string> {
    match input.readError
    case None => None
    case Some(msg) => Some(ReadErrorPrefix + msg)
  }

  /** Asks the CDN question about `a` and records the call. */
  method AskCDN<A>(c: Classifier<A>, a: A, calls: seq<Query<A>>)
    returns (answer: Result<bool, string>, recorded: seq<Query<A>>)
    ensures answer == c.checkCDN(a) && recorded == calls + [CdnQuery(a)]
  {
    recorded := calls + [CdnQuery(a)];
    answer := c.checkCDN(a);
  }

  /** Asks the WAF question about `a` and records the call. */
  method AskWAF<A>(c: Classifier<A>, a: A, calls: seq<Query<A>>)
    returns (answer: Result<bool, string>, recorded: seq<Query<A>>)
    ensures answer == c.checkWAF(a) && recorded == calls + [WafQuery(a)]
  {
    recorded := calls + [WafQuery(a)];
    answer := c.checkWAF(a);
  }

  /**
   * The body of the scan loop for one line, with its early exits: what it writes, if
   * anything, and the classifier calls it makes, in order.
   */
  method ProcessLine<A>(p: Parser<A>, c: Classifier<A>, line: string)
    returns (written: Option<string>, calls: seq<Query<A>>)
    ensures written == LineResult(p, c, line)
    ensures calls == LineQueries(p, c, line)
  {
    var ipStr := TrimSpace(line);
    var ip := p.parseIP(ipStr);
    if ip.None? {
      InvalidLineReported(p, c, line);
      return Some(InvalidPrefix + ipStr), [];
    }

    var matchedCDN;
    matchedCDN, calls := AskCDN(c, ip.value, []);
    if matchedCDN.Err? {
      CdnErrorReported(p, c, line, ip.value, matchedCDN.error);
      return Some(CdnErrorPrefix + matchedCDN.error), calls;
    }

    var matchedWAF;
    matchedWAF, calls := AskWAF(c, ip.value, calls);
    if matchedWAF.Err? {
      WafErrorReported(p, c, line, ip.value, matchedWAF.error);
      return Some(WafErrorPrefix + matchedWAF.error), calls;
    }

    PassIffUnmatched(p, c, line, ip.value, matchedCDN.value, matchedWAF.value);
    if !matchedCDN.value && !matchedWAF.value {
      written := Some(p.render(ip.value));
    } else {
      written := None;
    }
  }

  /**
   * The scan loop. `out` is the output buffer, one entry per line written; `calls` records the
   * classifier calls in the order they were made; `status` is the read-error notice.
   */
  method Run<A>(p: Parser<A>, c: Classifier<A>, input: Input)
    returns (out: seq<string>, calls: seq<Query<A>>, status: Option<string>)
    ensures out == Outputs(p, c, input.lines)
    ensures calls == Queries(p, c, input.lines)
    ensures |out| <= |input.lines|
    ensures input.lines == [] ==> out == [] && calls == []
    ensures status.Some? <==> input.readError.Some?
    ensures input.readError.Some? ==> status == Some(ReadErrorPrefix + input.readError.value)
  {
    var lines := input.lines;
    out, calls := [], [];
    var i := 0;
    while i < |lines|
      invariant 0 <= i <= |lines|
      invariant out == Outputs(p, c, lines[..i])
      invariant calls == Queries(p, c, lines[..i])
    {
      var written, made := ProcessLine(p, c, lines[i]);
      assert lines[..i + 1] == lines[..i] + [lines[i]];
      OutputsSnoc(p, c, lines[..i], lines[i]);
      if written.Some? {
        out := out + [written.value];
      }
      calls := calls + made;
      i := i + 1;
    }
    assert lines[..i] == lines;
    status := ReadStatus(input);
  }

  /**
   * Splitting a stream after `k` lines splits its output and its calls there. With Run's
   * contract, a read that fails after `k` lines writes exactly the output of those lines: a
   * prefix of the whole stream's output, to which the lines not read would add the rest.
   */
  lemma ReadErrorKeepsPrefix<A>(p: Parser<A>, c: Classifier<A>, stream: seq<string>, k: nat)
    requires k <= |stream|
    ensures Outputs(p, c, stream) == Outputs(p, c, stream[..k]) + Outputs(p, c, stream[k..])
    ensures Queries(p, c, stream) == Queries(p, c, stream[..k]) + Queries(p, c, stream[k..])
  {
    assert stream == stream[..k] + stream[k..];
    OutputsAppend(p, c, stream[..k], stream[k..]);
  }
}
