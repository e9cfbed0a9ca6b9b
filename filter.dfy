/**
 * The per-line decision of the filter: trim, parse, ask the classifier about CDN and
 * then WAF membership, and decide whether the line passes, is dropped or is reported.
 */
module Filter {
  import opened Wrappers
  import opened Text
  import opened Seqs

  /**
   * The address parser and the address's printed form, both library code kept abstract:
   * `parseIP` is `net.ParseIP` (None for `nil`), `render` is what `fmt.Fprintln` prints.
   */
  datatype Parser<!A> = Parser(parseIP: string -> Option<A>, render: A -> string)

  /** The classification port: each query says whether it matched, or returns an error text. */
  datatype Classifier<-A> = Classifier(checkCDN: A -> Result<bool, string>, checkWAF: A -> Result<bool, string>)

  /** Which of the two queries failed. */
  datatype Stage = CDN | WAF

  /** What the two queries said about one address. */
  datatype Classification = Matched(cdn: bool, waf: bool) | CheckFailed(stage: Stage, cause: string)

  /** An anomaly worth reporting: text that is not an address, or a query that failed. */
  datatype Anomaly = InvalidAddress(text: string) | CheckError(stage: Stage, cause: string)

  /** The terminal decision for one line; a match is dropped without a record. */
  datatype Outcome<A> = Pass(addr: A) | Drop | Report(anomaly: Anomaly)

  /** One call into the classifier. */
  datatype Query<A> = CdnQuery(addr: A) | WafQuery(addr: A)

  const InvalidPrefix := "Invalid IP address: "
  const CdnErrorPrefix := "CDN check error: "
  const WafErrorPrefix := "WAF check error: "

  /** CDN first; WAF only when the CDN query did not fail. */
  function Classify<A>(c: Classifier<A>, a: A): Classification {
    match c.checkCDN(a)
    case Err(cause) => CheckFailed(CDN, cause)
    case Ok(cdn) =>
      match c.checkWAF(a)
      case Err(cause) => CheckFailed(WAF, cause)
      case Ok(waf) => Matched(cdn, waf)
  }

  /** The calls Classify makes, in order. */
  function ClassifyQueries<A>(c: Classifier<A>, a: A): seq<Query<A>> {
    if c.checkCDN(a).Err? then [CdnQuery(a)] else [CdnQuery(a), WafQuery(a)]
  }

  /** The decision table for one raw input line. */
  function Decide<A>(p: Parser<A>, c: Classifier<A>, line: string): Outcome<A> {
    var text := TrimSpace(line);
    match p.parseIP(text)
    case None => Report(InvalidAddress(text))
    case Some(a) =>
      match Classify(c, a)
      case CheckFailed(stage, cause) => Report(CheckError(stage, cause))
      case Matched(cdn, waf) => if cdn || waf then Drop else Pass(a)
  }

  /** The output line an outcome writes, if any. */
  function Emit<A>(p: Parser<A>, o: Outcome<A>): Option<string> {
    match o
    case Pass(a) => Some(p.render(a))
    case Drop => None
    case Report(anomaly) => Some(Message(anomaly))
  }

  /** The diagnostic line written for an anomaly. */
  function Message(anomaly: Anomaly): string {
    match anomaly
    case InvalidAddress(text) => InvalidPrefix + text
    case CheckError(CDN, cause) => CdnErrorPrefix + cause
    case CheckError(WAF, cause) => WafErrorPrefix + cause
  }

  /** The output line for one input line, or None when the line is dropped. */
  function LineResult<A>(p: Parser<A>, c: Classifier<A>, line: string): Option<string> {
    Emit(p, Decide(p, c, line))
  }

  /** The classifier calls made for one input line, in order. */
  function LineQueries<A>(p: Parser<A>, c: Classifier<A>, line: string): seq<Query<A>> {
    match p.parseIP(TrimSpace(line))
    case None => []
    case Some(a) => ClassifyQueries(c, a)
  }

  /** The address of a passing outcome. */
  function PassOf<A>(o: Outcome<A>): Option<A> {
    if o.Pass? then Some(o.addr) else None
  }

  /** LineResult as a function of the line alone. */
  function LineResults<A>(p: Parser<A>, c: Classifier<A>): string -> Option<string> {
    l => LineResult(p, c, l)
  }

  /** The address a line passes, as a function of the line alone. */
  function LinePasses<A>(p: Parser<A>, c: Classifier<A>): string -> Option<A> {
    l => PassOf(Decide(p, c, l))
  }

  /** LineQueries as a function of the line alone. */
  function LineQueriesOf<A>(p: Parser<A>, c: Classifier<A>): string -> seq<Query<A>> {
    l => LineQueries(p, c, l)
  }

  /** The output of a whole stream of lines: the per-line results, in order. */
  function Outputs<A>(p: Parser<A>, c: Classifier<A>, lines: seq<string>): seq<string> {
    FilterMap(LineResults(p, c), lines)
  }

  /** Every classifier call the stream causes, in order. */
  function Queries<A>(p: Parser<A>, c: Classifier<A>, lines: seq<string>): seq<Query<A>> {
    FlatMap(LineQueriesOf(p, c), lines)
  }

  /** The addresses that pass the filter, in order. */
  function PassedAddrs<A>(p: Parser<A>, c: Classifier<A>, lines: seq<string>): seq<A> {
    FilterMap(LinePasses(p, c), lines)
  }

  // ---- One line ----

  /** Text that does not parse is reported verbatim (after trimming) and is never classified. */
  lemma InvalidLineReported<A>(p: Parser<A>, c: Classifier<A>, line: string)
    requires p.parseIP(TrimSpace(line)) == None
    ensures LineResult(p, c, line) == Some(InvalidPrefix + TrimSpace(line))
    ensures LineQueries(p, c, line) == []
  {
  }

  /** A failed CDN query is reported with its error text, and WAF is not asked. */
  lemma CdnErrorReported<A>(p: Parser<A>, c: Classifier<A>, line: string, a: A, cause: string)
    requires p.parseIP(TrimSpace(line)) == Some(a)
    requires c.checkCDN(a) == Err(cause)
    ensures LineResult(p, c, line) == Some(CdnErrorPrefix + cause)
    ensures LineQueries(p, c, line) == [CdnQuery(a)]
  {
  }

  /** After a failed CDN query, what the line writes and asks does not depend on the WAF query. */
  lemma CdnErrorIgnoresWaf<A>(p: Parser<A>, c1: Classifier<A>, c2: Classifier<A>, line: string, a: A)
    requires p.parseIP(TrimSpace(line)) == Some(a)
    requires c1.checkCDN == c2.checkCDN && c1.checkCDN(a).Err?
    ensures LineResult(p, c1, line) == LineResult(p, c2, line)
    ensures LineQueries(p, c1, line) == LineQueries(p, c2, line)
  {
  }

  /** A failed WAF query after a good CDN query is reported with its error text; nothing passes. */
  lemma WafErrorReported<A>(p: Parser<A>, c: Classifier<A>, line: string, a: A, cause: string)
    requires p.parseIP(TrimSpace(line)) == Some(a)
    requires c.checkCDN(a).Ok? && c.checkWAF(a) == Err(cause)
    ensures LineResult(p, c, line) == Some(WafErrorPrefix + cause)
    ensures Decide(p, c, line) == Report(CheckError(WAF, cause))
    ensures LineQueries(p, c, line) == [CdnQuery(a), WafQuery(a)]
  {
  }

  /** When both queries answer, the address is written exactly when neither matched; otherwise nothing is. */
  lemma PassIffUnmatched<A>(p: Parser<A>, c: Classifier<A>, line: string, a: A, cdn: bool, waf: bool)
    requires p.parseIP(TrimSpace(line)) == Some(a)
    requires c.checkCDN(a) == Ok(cdn) && c.checkWAF(a) == Ok(waf)
    ensures Decide(p, c, line).Pass? <==> !cdn && !waf
    ensures LineResult(p, c, line).Some? <==> !cdn && !waf
    ensures !cdn && !waf ==> LineResult(p, c, line) == Some(p.render(a))
    ensures cdn || waf ==> LineResult(p, c, line) == None
    ensures LineQueries(p, c, line) == [CdnQuery(a), WafQuery(a)]
  {
  }

  /** A CDN match does not skip the WAF query: WAF is asked whenever the CDN query succeeded. */
  lemma MatchDoesNotShortCircuit<A>(p: Parser<A>, c: Classifier<A>, line: string, a: A)
    requires p.parseIP(TrimSpace(line)) == Some(a)
    ensures WafQuery(a) in LineQueries(p, c, line) <==> c.checkCDN(a).Ok?
    ensures LineQueries(p, c, line)[0] == CdnQuery(a)
  {
  }

  /** A line writes nothing exactly when its address was matched by either query. */
  lemma SilentOnlyOnMatch<A>(p: Parser<A>, c: Classifier<A>, line: string)
    ensures LineResult(p, c, line).None? <==>
            (p.parseIP(TrimSpace(line)).Some?
             && var cl := Classify(c, p.parseIP(TrimSpace(line)).value);
             cl.Matched? && (cl.cdn || cl.waf))
  {
  }

  // ---- The stream ----

  /** For each output line, the index of the input line that wrote it. */
  function OutputSources<A>(p: Parser<A>, c: Classifier<A>, lines: seq<string>): seq<nat> {
    Origins(LineResults(p, c), lines)
  }

  /**
   * Each output line was written by one input line; the source lines rise with the input, so
   * output order is input order, and they are exactly the lines that were not dropped.
   */
  lemma OutputFollowsInput<A>(p: Parser<A>, c: Classifier<A>, lines: seq<string>)
    ensures var idx := OutputSources(p, c, lines);
            |idx| == |Outputs(p, c, lines)| <= |lines|
            && (forall k :: 0 <= k < |idx| ==>
                  idx[k] < |lines| && LineResult(p, c, lines[idx[k]]) == Some(Outputs(p, c, lines)[k]))
            && (forall k, l :: 0 <= k < l < |idx| ==> idx[k] < idx[l])
            && (forall i :: 0 <= i < |lines| ==> (i in idx <==> LineResult(p, c, lines[i]).Some?))
  {
    var idx := OutputSources(p, c, lines);
    assert Increasing(idx);
    forall i | 0 <= i < |lines| && i in idx ensures LineResult(p, c, lines[i]).Some? {
      var k :| 0 <= k < |idx| && idx[k] == i;
    }
  }

  /** For each passing address, the index of the input line it came from. */
  function PassedSources<A>(p: Parser<A>, c: Classifier<A>, lines: seq<string>): seq<nat> {
    Origins(LinePasses(p, c), lines)
  }

  /**
   * The passing addresses form an in-order subsequence of the addresses parsed from the
   * input: each comes from a line that passes, their source lines rise with the input, and
   * every line that passes is among them.
   */
  lemma PassedFollowInput<A>(p: Parser<A>, c: Classifier<A>, lines: seq<string>)
    ensures var idx := PassedSources(p, c, lines);
            |idx| == |PassedAddrs(p, c, lines)|
            && (forall k :: 0 <= k < |idx| ==>
                  idx[k] < |lines| && Decide(p, c, lines[idx[k]]) == Pass(PassedAddrs(p, c, lines)[k])
                  && p.parseIP(TrimSpace(lines[idx[k]])) == Some(PassedAddrs(p, c, lines)[k]))
            && (forall k, l :: 0 <= k < l < |idx| ==> idx[k] < idx[l])
            && (forall i :: 0 <= i < |lines| ==> (i in idx <==> Decide(p, c, lines[i]).Pass?))
  {
    var idx := PassedSources(p, c, lines);
    var f := LinePasses(p, c);
    var passed := PassedAddrs(p, c, lines);
    assert Increasing(idx);
    forall k | 0 <= k < |idx|
      ensures Decide(p, c, lines[idx[k]]) == Pass(passed[k])
      ensures p.parseIP(TrimSpace(lines[idx[k]])) == Some(passed[k])
    {
      var line := lines[idx[k]];
      assert f(line) == Some(passed[k]);
      LinePassesIs(p, c, line);
      PassOfIs(Decide(p, c, line));
      PassIsParsed(p, c, line);
    }
    forall i | 0 <= i < |lines| ensures i in idx <==> Decide(p, c, lines[i]).Pass? {
      LinePassesIs(p, c, lines[i]);
      PassOfIs(Decide(p, c, lines[i]));
      if i in idx {
        var k :| 0 <= k < |idx| && idx[k] == i;
      }
    }
  }

  /**
   * The passing addresses are what is written: each passing line is among the lines that wrote
   * output, and the output line it wrote is the printed form of its address.
   */
  lemma PassedAreWritten<A>(p: Parser<A>, c: Classifier<A>, lines: seq<string>)
    ensures var pidx, oidx := PassedSources(p, c, lines), OutputSources(p, c, lines);
            (forall k :: 0 <= k < |pidx| ==> pidx[k] in oidx)
            && (forall k, j :: 0 <= k < |pidx| && 0 <= j < |oidx| && oidx[j] == pidx[k] ==>
                  Outputs(p, c, lines)[j] == p.render(PassedAddrs(p, c, lines)[k]))
  {
    var pidx, oidx := PassedSources(p, c, lines), OutputSources(p, c, lines);
    var passed, out := PassedAddrs(p, c, lines), Outputs(p, c, lines);
    PassedFollowInput(p, c, lines);
    OutputFollowsInput(p, c, lines);
    forall k | 0 <= k < |pidx|
      ensures pidx[k] in oidx
      ensures forall j :: 0 <= j < |oidx| && oidx[j] == pidx[k] ==> out[j] == p.render(passed[k])
    {
      var i := pidx[k];
      assert Decide(p, c, lines[i]) == Pass(passed[k]);
      assert LineResult(p, c, lines[i]) == Some(p.render(passed[k]));
    }
  }

  /** LinePasses applies PassOf to the line's outcome. */
  lemma LinePassesIs<A>(p: Parser<A>, c: Classifier<A>, line: string)
    ensures LinePasses(p, c)(line) == PassOf(Decide(p, c, line))
  {
  }

  /** PassOf gives an address exactly for a passing outcome, and that outcome's address. */
  lemma PassOfIs<A>(o: Outcome<A>)
    ensures PassOf(o).Some? <==> o.Pass?
    ensures PassOf(o).Some? ==> o == Pass(PassOf(o).value)
  {
  }

  /** A passing line is one whose trimmed text parsed to the address that passes. */
  lemma PassIsParsed<A>(p: Parser<A>, c: Classifier<A>, line: string)
    requires Decide(p, c, line).Pass?
    ensures p.parseIP(TrimSpace(line)) == Some(Decide(p, c, line).addr)
  {
  }

  /** The output of a concatenated stream is the concatenation of the outputs. */
  lemma OutputsAppend<A>(p: Parser<A>, c: Classifier<A>, xs: seq<string>, ys: seq<string>)
    ensures Outputs(p, c, xs + ys) == Outputs(p, c, xs) + Outputs(p, c, ys)
    ensures Queries(p, c, xs + ys) == Queries(p, c, xs) + Queries(p, c, ys)
  {
    FilterMapAppend(LineResults(p, c), xs, ys);
    FlatMapAppend(LineQueriesOf(p, c), xs, ys);
  }

  /** Processing one more line appends that line's result, if any, and its calls. */
  lemma OutputsSnoc<A>(p: Parser<A>, c: Classifier<A>, xs: seq<string>, line: string)
    ensures Outputs(p, c, xs + [line]) == Outputs(p, c, xs) + (if LineResult(p, c, line).Some?
                                                                then [LineResult(p, c, line).value] else [])
    ensures Queries(p, c, xs + [line]) == Queries(p, c, xs) + LineQueries(p, c, line)
  {
    FilterMapSnoc(LineResults(p, c), xs, line);
    FlatMapSnoc(LineQueriesOf(p, c), xs, line);
  }

  /** The two queries give the same answers about `a`, if there is one. */
  predicate AgreeOn<A>(c1: Classifier<A>, c2: Classifier<A>, a: Option<A>) {
    a.Some? ==> c1.checkCDN(a.value) == c2.checkCDN(a.value) && c1.checkWAF(a.value) == c2.checkWAF(a.value)
  }

  /** One line's result and calls depend only on the classifier's answers about its address. */
  lemma LineDeterministic<A>(p: Parser<A>, c1: Classifier<A>, c2: Classifier<A>, line: string)
    requires AgreeOn(c1, c2, p.parseIP(TrimSpace(line)))
    ensures LineResult(p, c1, line) == LineResult(p, c2, line)
    ensures LineQueries(p, c1, line) == LineQueries(p, c2, line)
  {
  }

  /**
   * The output and the calls depend only on the lines and on the classifier's answers about
   * the addresses in them: two classifiers that answer alike give the same output.
   */
  lemma Deterministic<A>(p: Parser<A>, c1: Classifier<A>, c2: Classifier<A>, lines: seq<string>)
    requires forall i :: 0 <= i < |lines| ==> AgreeOn(c1, c2, p.parseIP(TrimSpace(lines[i])))
    ensures Outputs(p, c1, lines) == Outputs(p, c2, lines)
    ensures Queries(p, c1, lines) == Queries(p, c2, lines)
  {
    var f1, f2 := LineResults(p, c1), LineResults(p, c2);
    var g1, g2 := LineQueriesOf(p, c1), LineQueriesOf(p, c2);
    forall i | 0 <= i < |lines| ensures f1(lines[i]) == f2(lines[i]) && g1(lines[i]) == g2(lines[i]) {
      LineDeterministic(p, c1, c2, lines[i]);
    }
    FilterMapPointwise(f1, f2, lines);
    FlatMapPointwise(g1, g2, lines);
  }
}
