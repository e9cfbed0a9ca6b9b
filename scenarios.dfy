/** Worked examples of the filter over whole streams, against small stub collaborators. */
module Scenarios {
  import opened Wrappers
  import opened Text
  import opened Filter

  /** A stub parser that knows three addresses and prints them as they were written. */
  function StubParser(): Parser<string> {
    Parser(s => if s == "8.8.8.8" || s == "1.1.1.1" || s == "203.0.113.5" then Some(s) else None,
           a => a)
  }

  /** A stub classifier: 1.1.1.1 is on a CDN, nothing is behind a WAF, no query fails. */
  function CdnStub(): Classifier<string> {
    Classifier(a => Ok(a == "1.1.1.1"), a => Ok(false))
  }

  /** A stub classifier whose WAF query always fails. */
  function WafFailing(): Classifier<string> {
    Classifier(a => Ok(false), a => Err("lookup failed"))
  }

  /** A one-line stream writes that line's result, if any. */
  lemma OneLine<A>(p: Parser<A>, c: Classifier<A>, line: string)
    ensures Outputs(p, c, [line]) == (if LineResult(p, c, line).Some? then [LineResult(p, c, line).value] else [])
    ensures Queries(p, c, [line]) == LineQueries(p, c, line)
  {
    OutputsSnoc(p, c, [], line);
    assert [] + [line] == [line];
  }

  /** The three lines of MixedInput, one at a time. */
  lemma MixedLines()
    ensures LineResult(StubParser(), CdnStub(), "8.8.8.8") == Some("8.8.8.8")
    ensures LineResult(StubParser(), CdnStub(), "1.1.1.1") == None
    ensures LineResult(StubParser(), CdnStub(), "not-an-ip") == Some("Invalid IP address: not-an-ip")
    ensures LineQueries(StubParser(), CdnStub(), "8.8.8.8") == [CdnQuery("8.8.8.8"), WafQuery("8.8.8.8")]
    ensures LineQueries(StubParser(), CdnStub(), "1.1.1.1") == [CdnQuery("1.1.1.1"), WafQuery("1.1.1.1")]
    ensures LineQueries(StubParser(), CdnStub(), "not-an-ip") == []
  {
    var p, c := StubParser(), CdnStub();
    TrimSpaceKeepsTrimmed("8.8.8.8");
    TrimSpaceKeepsTrimmed("1.1.1.1");
    TrimSpaceKeepsTrimmed("not-an-ip");
    PassIffUnmatched(p, c, "8.8.8.8", "8.8.8.8", false, false);
    PassIffUnmatched(p, c, "1.1.1.1", "1.1.1.1", true, false);
    InvalidLineReported(p, c, "not-an-ip");
    assert InvalidPrefix + "not-an-ip" == "Invalid IP address: not-an-ip";
  }

  /** A free address passes, a CDN address is dropped silently, and junk is reported. */
  lemma MixedInput()
    ensures Outputs(StubParser(), CdnStub(), ["8.8.8.8", "1.1.1.1", "not-an-ip"])
            == ["8.8.8.8", "Invalid IP address: not-an-ip"]
    ensures Queries(StubParser(), CdnStub(), ["8.8.8.8", "1.1.1.1", "not-an-ip"])
            == [CdnQuery("8.8.8.8"), WafQuery("8.8.8.8"), CdnQuery("1.1.1.1"), WafQuery("1.1.1.1")]
  {
    var p, c := StubParser(), CdnStub();
    MixedLines();
    OneLine(p, c, "8.8.8.8");
    OneLine(p, c, "1.1.1.1");
    OneLine(p, c, "not-an-ip");
    assert ["8.8.8.8", "1.1.1.1", "not-an-ip"] == ["8.8.8.8"] + ["1.1.1.1"] + ["not-an-ip"];
    OutputsAppend(p, c, ["8.8.8.8"] + ["1.1.1.1"], ["not-an-ip"]);
    OutputsAppend(p, c, ["8.8.8.8"], ["1.1.1.1"]);
  }

  /** A failing WAF query is reported with its error text, and no address is written. */
  lemma WafFailureReported()
    ensures Outputs(StubParser(), WafFailing(), ["203.0.113.5"]) == ["WAF check error: lookup failed"]
  {
    TrimSpaceKeepsTrimmed("203.0.113.5");
    WafErrorReported(StubParser(), WafFailing(), "203.0.113.5", "203.0.113.5", "lookup failed");
    assert WafErrorPrefix + "lookup failed" == "WAF check error: lookup failed";
    OneLine(StubParser(), WafFailing(), "203.0.113.5");
  }

  /** Surrounding white space is trimmed before parsing, and a blank line is reported as invalid. */
  lemma TrimmedBeforeParsing()
    ensures Outputs(StubParser(), CdnStub(), [" 8.8.8.8\t", "  "]) == ["8.8.8.8", "Invalid IP address: "]
  {
    var p, c := StubParser(), CdnStub();
    var s := " 8.8.8.8\t";
    assert SkipSpace(s, 1) == 1;
    assert SkipSpace(s, 0) == 1;
    assert BackSpace(s, 1, 8) == 8;
    assert BackSpace(s, 1, 9) == 8;
    assert TrimSpace(s) == "8.8.8.8";
    assert SkipSpace("  ", 2) == 2;
    assert SkipSpace("  ", 1) == 2;
    assert SkipSpace("  ", 0) == 2;
    assert TrimSpace("  ") == "";
    PassIffUnmatched(p, c, s, "8.8.8.8", false, false);
    InvalidLineReported(p, c, "  ");
    assert InvalidPrefix + "" == "Invalid IP address: ";
    OneLine(p, c, s);
    OneLine(p, c, "  ");
    assert [s, "  "] == [s] + ["  "];
    OutputsAppend(p, c, [s], ["  "]);
  }

  /** The filter does not remove repeats: an address given twice is written twice. */
  lemma RepeatedAddressWrittenTwice()
    ensures Outputs(StubParser(), CdnStub(), ["8.8.8.8", "8.8.8.8"]) == ["8.8.8.8", "8.8.8.8"]
  {
    var p, c := StubParser(), CdnStub();
    TrimSpaceKeepsTrimmed("8.8.8.8");
    PassIffUnmatched(p, c, "8.8.8.8", "8.8.8.8", false, false);
    OneLine(p, c, "8.8.8.8");
    assert ["8.8.8.8", "8.8.8.8"] == ["8.8.8.8"] + ["8.8.8.8"];
    OutputsAppend(p, c, ["8.8.8.8"], ["8.8.8.8"]);
  }
}
