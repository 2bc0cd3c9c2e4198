/**
 * The per-domain resolution loop of `main` in main.go: for every domain, run
 * `dig`, look up the origin AS of the first address with `whois`, fetch the
 * prefixes that AS originates, and append one output record per prefix. Any
 * stage that fails skips the domain; the batch always runs to the end.
 */
module Pipeline {
  import opened Wrappers
  import Lines
  import OriginAS

  /** One entry of the prefix API's answer (main.go, type Prefix). */
  datatype Prefix = Prefix(prefix: string, count: int, total: int)

  /** One record of the output file (main.go, type PrefixForFile). */
  datatype PrefixForFile = PrefixForFile(hostname: string, ip: string)

  /**
   * What the outside world answers. Each field gives a stage's raw outcome,
   * None standing for the stage's error return:
   *  - dig: the standard output of `dig +short <domain>`;
   *  - whois: the standard output of `whois <ip>`;
   *  - prefixes: the prefix list the HTTP API returns for an AS number
   *    (None on a transport error, a status other than 200, an unreadable
   *    body or JSON that does not decode).
   */
  datatype Services = Services(
    dig: string -> Option<string>,
    whois: string -> Option<string>,
    prefixes: int -> Option<seq<Prefix>>)

  /** getIPsByDig: the lines of `dig`'s trimmed output. Never an empty list. */
  function GetIPs(env: Services, domain: string): (r: Option<seq<string>>)
    ensures r.Some? ==> |r.value| >= 1
    ensures r.None? <==> env.dig(domain).None?
  {
    match env.dig(domain)
    case None => None
    case Some(out) => Some(Lines.SplitTrimmed(out))
  }

  /** getASNumberByWhois. */
  function GetASNumber(env: Services, ip: string): Result<int, OriginAS.LookupError> {
    OriginAS.LookupAS(env.whois(ip))
  }

  /** The output record for one prefix: its string as hostname, and an empty ip. */
  function ToRecord(p: Prefix): PrefixForFile {
    PrefixForFile(p.prefix, "")
  }

  /** The records the inner loop appends for a prefix list, in order. */
  function ToRecords(ps: seq<Prefix>): seq<PrefixForFile> {
    if ps == [] then [] else ToRecords(ps[..|ps| - 1]) + [ToRecord(ps[|ps| - 1])]
  }

  /** Stages two and three, for the first address of a domain. */
  function RecordsForIP(env: Services, ip: string): seq<PrefixForFile> {
    match GetASNumber(env, ip)
    case Failure(_) => []
    case Success(asNumber) =>
      match env.prefixes(asNumber)
      case None => []
      case Some(ps) => ToRecords(ps)
  }

  /** What one pass of the loop body appends for `domain`. */
  function DomainRecords(env: Services, domain: string): seq<PrefixForFile> {
    match GetIPs(env, domain)
    case None => []
    case Some(ips) => if |ips| == 0 then [] else RecordsForIP(env, ips[0])
  }

  /** The records of a whole batch: each domain's records, in input order. */
  function BatchRecords(env: Services, domains: seq<string>): seq<PrefixForFile> {
    FlatMap(d => DomainRecords(env, d), domains)
  }

  /** `f` applied to every element of `xs`, the results concatenated in order. */
  function FlatMap<A, B>(f: A -> seq<B>, xs: seq<A>): seq<B> {
    if xs == [] then [] else FlatMap(f, xs[..|xs| - 1]) + f(xs[|xs| - 1])
  }

  lemma FlatMapSnoc<A, B>(f: A -> seq<B>, xs: seq<A>, x: A)
    ensures FlatMap(f, xs + [x]) == FlatMap(f, xs) + f(x)
  {
    assert (xs + [x])[..|xs|] == xs;
  }

  lemma {:induction false} FlatMapAppend<A, B>(f: A -> seq<B>, xs: seq<A>, ys: seq<A>)
    ensures FlatMap(f, xs + ys) == FlatMap(f, xs) + FlatMap(f, ys)
    decreases |ys|
  {
    if ys == [] {
      assert xs + ys == xs;
    } else {
      var init, last := ys[..|ys| - 1], ys[|ys| - 1];
      assert xs + ys == (xs + init) + [last];
      assert ys == init + [last];
      FlatMapSnoc(f, xs + init, last);
      FlatMapSnoc(f, init, last);
      FlatMapAppend(f, xs, init);
    }
  }

  /** All three stages succeed for `domain`, the last one with prefix list `ps`. */
  predicate Completes(env: Services, domain: string, ps: seq<Prefix>) {
    GetIPs(env, domain).Some? &&
    var ip := GetIPs(env, domain).value[0];
    GetASNumber(env, ip).Success? &&
    env.prefixes(GetASNumber(env, ip).value) == Some(ps)
  }

  /**
   * The loop of `main`: the result is the concatenation, over the domains in
   * input order, of the records of every domain that got through all stages.
   */
  method ResolveAll(env: Services, domains: seq<string>) returns (results: seq<PrefixForFile>)
    ensures results == BatchRecords(env, domains)
  {
    results := [];
    for i := 0 to |domains|
      invariant results == BatchRecords(env, domains[..i])
    {
      var domain := domains[i];
      TakeOneMore(domains, i);
      BatchRecordsSnoc(env, domains[..i], domain);
      assert BatchRecords(env, domains[..i + 1]) == results + DomainRecords(env, domain);
      var ips := GetIPs(env, domain);
      if ips.None? {
        assert DomainRecords(env, domain) == [];
        continue;
      }
      if |ips.value| == 0 {
        continue;
      }
      var asNumber := GetASNumber(env, ips.value[0]);
      if asNumber.Failure? {
        assert DomainRecords(env, domain) == [];
        continue;
      }
      var prefixes := env.prefixes(asNumber.value);
      if prefixes.None? {
        assert DomainRecords(env, domain) == [];
        continue;
      }
      var ps := prefixes.value;
      assert DomainRecords(env, domain) == ToRecords(ps);
      results := AppendRecords(results, ps);
    }
    assert domains[..|domains|] == domains;
  }

  /**
   * The inner loop of `main`: append one record per prefix, in order, to the
   * records gathered so far.
   */
  method AppendRecords(results: seq<PrefixForFile>, ps: seq<Prefix>) returns (extended: seq<PrefixForFile>)
    ensures extended == results + ToRecords(ps)
  {
    extended := results;
    for j := 0 to |ps|
      invariant extended == results + ToRecords(ps[..j])
    {
      TakeOneMore(ps, j);
      ToRecordsSnoc(ps[..j], ps[j]);
      extended := extended + [PrefixForFile(ps[j].prefix, "")];
    }
    assert ps[..|ps|] == ps;
  }

  lemma TakeOneMore<T>(s: seq<T>, i: nat)
    requires i < |s|
    ensures s[..i + 1] == s[..i] + [s[i]]
  {
  }

  /** One more prefix adds exactly its record, at the end. */
  lemma ToRecordsSnoc(ps: seq<Prefix>, p: Prefix)
    ensures ToRecords(ps + [p]) == ToRecords(ps) + [PrefixForFile(p.prefix, "")]
  {
    assert (ps + [p])[..|ps|] == ps;
  }

  /** Adding one more domain to a batch adds exactly that domain's records. */
  lemma BatchRecordsSnoc(env: Services, done: seq<string>, domain: string)
    ensures BatchRecords(env, done + [domain]) == BatchRecords(env, done) + DomainRecords(env, domain)
  {
    FlatMapSnoc(d => DomainRecords(env, d), done, domain);
  }

  /**
   * `main` from the domains file on: None when the file cannot be read (the
   * run stops without output), otherwise the records to be saved.
   */
  method Run(env: Services, domainsFile: Option<string>) returns (output: Option<seq<PrefixForFile>>)
    ensures domainsFile.None? ==> output.None?
    ensures domainsFile.Some? ==>
      output == Some(BatchRecords(env, Lines.SplitTrimmed(domainsFile.value)))
  {
    if domainsFile.None? {
      return None;
    }
    var domains := Lines.SplitTrimmed(domainsFile.value);
    var results := ResolveAll(env, domains);
    return Some(results);
  }
  /**
   * The records for a prefix list: one per prefix, in the API's order, the
   * prefix string as hostname and an empty ip.
   */
  lemma {:induction false} ToRecordsShape(ps: seq<Prefix>)
    ensures |ToRecords(ps)| == |ps|
    ensures forall k :: 0 <= k < |ps| ==> ToRecords(ps)[k] == PrefixForFile(ps[k].prefix, "")
  {
    if ps != [] {
      ToRecordsShape(ps[..|ps| - 1]);
    }
  }

  /** The Count and Total fields of a prefix never reach the output. */
  lemma CountAndTotalIgnored(ps: seq<Prefix>, qs: seq<Prefix>)
    requires |ps| == |qs|
    requires forall k :: 0 <= k < |ps| ==> ps[k].prefix == qs[k].prefix
    ensures ToRecords(ps) == ToRecords(qs)
  {
    ToRecordsShape(ps);
    ToRecordsShape(qs);
  }

  /** A domain that gets through all three stages contributes its prefixes' records. */
  lemma CompletedDomain(env: Services, domain: string, ps: seq<Prefix>)
    requires Completes(env, domain, ps)
    ensures DomainRecords(env, domain) == ToRecords(ps)
    ensures |DomainRecords(env, domain)| == |ps|
  {
    ToRecordsShape(ps);
  }

  /** A domain that fails at any stage contributes nothing. */
  lemma FailedDomain(env: Services, domain: string)
    requires forall ps :: !Completes(env, domain, ps)
    ensures DomainRecords(env, domain) == []
  {
    var ips := GetIPs(env, domain);
    if ips.Some? {
      var asNumber := GetASNumber(env, ips.value[0]);
      if asNumber.Success? {
        var prefixes := env.prefixes(asNumber.value);
        if prefixes.Some? {
          assert Completes(env, domain, prefixes.value);
        }
      }
    }
  }

  /**
   * A failed domain leaves the records gathered so far as they are; the batch
   * simply moves on to the next domain.
   */
  lemma FailedDomainSkipped(env: Services, done: seq<string>, domain: string)
    requires forall ps :: !Completes(env, domain, ps)
    ensures BatchRecords(env, done + [domain]) == BatchRecords(env, done)
  {
    BatchRecordsSnoc(env, done, domain);
    FailedDomain(env, domain);
  }

  /** The records of two batches run one after the other. */
  lemma BatchRecordsAppend(env: Services, first: seq<string>, second: seq<string>)
    ensures BatchRecords(env, first + second) == BatchRecords(env, first) + BatchRecords(env, second)
  {
    FlatMapAppend(d => DomainRecords(env, d), first, second);
  }

  /** Every record a domain contributes has an empty ip. */
  lemma DomainRecordsIPEmpty(env: Services, domain: string)
    ensures forall r :: r in DomainRecords(env, domain) ==> r.ip == ""
  {
    var ips := GetIPs(env, domain);
    if ips.Some? {
      var asNumber := GetASNumber(env, ips.value[0]);
      if asNumber.Success? {
        var prefixes := env.prefixes(asNumber.value);
        if prefixes.Some? {
          ToRecordsShape(prefixes.value);
        }
      }
    }
  }

  /** Every output record has an empty ip. */
  lemma {:induction false} OutputIPAlwaysEmpty(env: Services, domains: seq<string>)
    ensures forall r :: r in BatchRecords(env, domains) ==> r.ip == ""
  {
    if domains != [] {
      var init, last := domains[..|domains| - 1], domains[|domains| - 1];
      assert domains == init + [last];
      OutputIPAlwaysEmpty(env, init);
      BatchRecordsSnoc(env, init, last);
      DomainRecordsIPEmpty(env, last);
    }
  }

  /**
   * `dig` output that is empty or blank gives the single address "", not an
   * empty list: the "No IPs found" skip cannot happen, and `whois` is asked
   * about the empty string.
   */
  lemma BlankDigOutput(env: Services, domain: string)
    requires env.dig(domain).Some? && Lines.AllSpace(env.dig(domain).value)
    ensures GetIPs(env, domain) == Some([""])
    ensures DomainRecords(env, domain) == RecordsForIP(env, "")
  {
    Lines.SplitTrimmedBlank(env.dig(domain).value);
  }

  /**
   * Only the first address counts: whatever `dig` prints after its first
   * line has no effect on the domain's records.
   */
  lemma OnlyFirstAddressCounts(env: Services, domain: string, first: string, rest: string)
    requires '\n' !in first && first != []
    requires !Lines.IsSpace(first[0]) && !Lines.IsSpace(first[|first| - 1])
    requires env.dig(domain) == Some(first + "\n" + rest)
    ensures DomainRecords(env, domain) == RecordsForIP(env, first)
  {
    Lines.FirstLineSurvives(first, rest);
  }
}
