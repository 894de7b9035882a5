/** Concrete instances of the formatting and query rules, as the front end displays them. */
module Examples {
  import opened Values
  import opened Formatters
  import opened Query

  /** PT1H2M10S splits into the hour, minute and second digits. */
  lemma MatchExampleHours()
    ensures MatchDuration("PT1H2M10S") == Some(DurationParts("1", "2", "10"))
  {
    var p := DurationParts("1", "2", "10");
    assert Component("1", 'H') == "1H" && Component("2", 'M') == "2M" && Component("10", 'S') == "10S";
    assert IsoDuration(p) == "PT1H2M10S";
    MatchIsoDuration(p);
  }

  lemma ClockExampleHours()
    ensures Clock(DurationParts("1", "2", "10")) == "1:02:10"
  {
    assert PadStart2("2") == "02";
    assert PadStart2("10") == "10";
  }

  /** PT1H2M10S reads as 1:02:10. */
  lemma DurationExampleHours()
    ensures DurationText("PT1H2M10S") == Some("1:02:10")
  {
    MatchExampleHours();
    ClockExampleHours();
  }

  /** PT5M reads as 05:00: no hour prefix, absent seconds padded to 00. */
  lemma DurationExampleMinutes()
    ensures DurationText("PT5M") == Some("05:00")
  {
    var p := DurationParts("", "5", "");
    assert Component("", 'H') == "" && Component("5", 'M') == "5M" && Component("", 'S') == "";
    assert IsoDuration(p) == "PT5M";
    MatchIsoDuration(p);
    assert MatchDuration("PT5M") == Some(p);
    assert PadStart2("5") == "05" && PadStart2("") == "00";
    assert Clock(p) == "05:00";
  }

  /** A bare PT reads as 00:00. */
  lemma DurationExampleEmpty()
    ensures DurationText("PT") == Some("00:00")
  {
    var p := DurationParts("", "", "");
    assert Component("", 'H') == "" && Component("", 'M') == "" && Component("", 'S') == "";
    assert IsoDuration(p) == "PT";
    MatchIsoDuration(p);
    assert MatchDuration("PT") == Some(p);
    assert PadStart2("") == "00";
    assert Clock(p) == "00:00";
  }

  /** The zero duration the upstream reports for live broadcasts, P0D, has no "PT": the pattern does not match. */
  lemma DurationExampleNoTime()
    ensures DurationText("P0D") == None
  {
    assert AfterPT("0D") == None;
    assert AfterPT("P0D") == None;
  }

  lemma GroupThousandsExample()
    ensures GroupThousands("12345") == "12,345"
  {
    assert "12345"[..2] == "12";
    assert "12345"[2..] == "345";
  }

  /** A view count of 12345 is shown as 12,345. */
  lemma FormatNumberExampleGrouped()
    ensures FormatNumber(Some("12345")) == "12,345"
  {
    FormatNumberCanonical("12345");
    GroupThousandsExample();
  }

  /** Zero views is a truthy string, shown as 0; a missing or empty count is Unknown. */
  lemma FormatNumberExampleEdges()
    ensures FormatNumber(Some("0")) == "0"
    ensures FormatNumber(Some("")) == Unknown
    ensures FormatNumber(None) == Unknown
  {
    FormatNumberCanonical("0");
  }

  /** A request with a model builds "<brand> <model> <componentType>" followed by " installation guide manual". */
  lemma QueryExample()
    ensures SearchQuery(QueryParams(Some("GPU"), Some("NVIDIA"), Some("RTX 4070")))
      == Some("NVIDIA RTX 4070 GPU" + QuerySuffix)
  {
    assert "NVIDIA" + " " + "RTX 4070" + " " + "GPU" == "NVIDIA RTX 4070 GPU";
  }

  /** An empty brand is falsy: the request is rejected. */
  lemma QueryExampleRejected()
    ensures SearchQuery(QueryParams(Some("GPU"), Some(""), Some("RTX 4070"))) == None
  {
  }
}
