/**
 * Two end-to-end runs of the domain loop with fixed answers from the
 * outside world: one domain that resolves all the way, and a batch whose
 * first domain fails at the DNS stage.
 */
module Scenarios {
  import opened Wrappers
  import Lines
  import OriginAS
  import opened Pipeline

  const Domain: string := "example.com"
  const Address: string := "93.184.216.34"
  const WhoisAnswer: string := "OriginAS:       AS15133\n"
  const Announced: string := "93.184.216.0/24"

  /**
   * `dig` knows only example.com, `whois` only its address, and the API only
   * AS 15133; everything else fails.
   */
  function Services1(): Services {
    Services(
      d => if d == Domain then Some(Address + "\n") else None,
      ip => if ip == Address then Some(WhoisAnswer) else None,
      n => if n == 15133 then Some([Prefix(Announced, 1, 1)]) else None)
  }

  lemma DigAnswerLines()
    ensures Lines.SplitTrimmed(Address + "\n") == [Address]
  {
    var out := Address + "\n";
    assert out[..|Address|] == Address;
    assert out[|Address|..] == "\n";
    Lines.TrimSpaceUnique(out, 0, |Address|);
    Lines.SplitNoNewline(Address);
  }

  lemma WhoisAnswerOccurrence()
    ensures OriginAS.GreedyOccurrence(WhoisAnswer, 0, "       ", "15133")
  {
    var ws, ds := "       ", "15133";
    assert WhoisAnswer[0..|OriginAS.Label| + |ws| + |OriginAS.Tag| + |ds|]
        == OriginAS.Label + ws + OriginAS.Tag + ds;
  }

  lemma AtoiOfAnswer()
    ensures OriginAS.Atoi("15133") == Some(15133)
  {
    var ds := "15133";
    OriginAS.AtoiShortDigits(ds);
    assert OriginAS.DecimalValue("1") == 1 by { assert "1"[..0] == ""; }
    assert OriginAS.DecimalValue("15") == 15 by { assert "15"[..1] == "1"; }
    assert OriginAS.DecimalValue("151") == 151 by { assert "151"[..2] == "15"; }
    assert OriginAS.DecimalValue("1513") == 1513 by { assert "1513"[..3] == "151"; }
    assert OriginAS.DecimalValue(ds) == 15133 by { assert ds[..4] == "1513"; }
  }

  lemma WhoisAnswerAS()
    ensures OriginAS.ASNumber(WhoisAnswer) == Success(15133)
  {
    WhoisAnswerOccurrence();
    OriginAS.ASNumberLeftmost(WhoisAnswer, 0, "       ", "15133");
    AtoiOfAnswer();
  }

  /** The single-domain run: one record, the announced prefix with an empty ip. */
  lemma SingleDomain()
    ensures BatchRecords(Services1(), [Domain]) == [PrefixForFile(Announced, "")]
  {
    DigAnswerLines();
    WhoisAnswerAS();
    BatchRecordsSnoc(Services1(), [], Domain);
    assert [] + [Domain] == [Domain];
    ToRecordsShape([Prefix(Announced, 1, 1)]);
  }

  /**
   * A first domain that `dig` cannot resolve is skipped and the run goes on:
   * the output holds only the second domain's records.
   */
  lemma FirstDomainFails()
    ensures BatchRecords(Services1(), ["unknown.example", Domain]) == [PrefixForFile(Announced, "")]
  {
    var env := Services1();
    SingleDomain();
    assert forall ps :: !Completes(env, "unknown.example", ps);
    FailedDomainSkipped(env, [], "unknown.example");
    assert [] + ["unknown.example"] == ["unknown.example"];
    BatchRecordsSnoc(env, ["unknown.example"], Domain);
    assert ["unknown.example"] + [Domain] == ["unknown.example", Domain];
  }
  /** A `whois` answer with two origin lines: the first one decides. */
  lemma TwoOriginLines()
    ensures OriginAS.ASNumber("OriginAS: AS15133\nOriginAS: AS64500\n") == Success(15133)
  {
    var text := "OriginAS: AS15133\nOriginAS: AS64500\n";
    assert text[0..|OriginAS.Label| + 1 + |OriginAS.Tag| + 5] == OriginAS.Label + " " + OriginAS.Tag + "15133";
    assert OriginAS.GreedyOccurrence(text, 0, " ", "15133");
    OriginAS.ASNumberLeftmost(text, 0, " ", "15133");
    AtoiOfAnswer();
  }
}
