# Owned-domain prefix resolver: a verified model of its core

The program reads a list of domains. For each domain it finds the BGP prefixes
announced by the autonomous system (AS) that hosts the domain, and it writes
them to `prefix.json`. Per domain it goes through three stages:

1. `dig +short` resolves the domain to addresses;
2. `whois` on the first address gives the origin AS number. The number is
   taken from the leftmost match of `OriginAS:\s+AS(\d+)` and converted by
   `strconv.Atoi`;
3. an HTTP API returns the prefixes that AS originates.

A domain that fails at any stage is skipped. The batch always runs to the end.

This Dafny project models that logic, with the outside world as parameters:

- `wrappers.dfy`, module `Wrappers`: `Option` and `Result`, standing in for
  Go's `(value, error)` returns.
- `lines.dfy`, module `Lines`: `strings.TrimSpace` and `strings.Split(…, "\n")`.
  This is how the domains file and `dig`'s output become lists
  (main.go lines 44 and 58). `Join` is the inverse of `Split`.
- `origin_as.dfy`, module `OriginAS`: a dedicated matcher for the one regular
  expression, its leftmost-match search, and `strconv.Atoi` on a 64-bit
  platform. `Occurrence` and `GreedyOccurrence` state what the pattern
  matches, independently of the matcher. The lemmas tie the matcher to them.
- `pipeline.dfy`, module `Pipeline`: the `Prefix` and `PrefixForFile` records,
  and the stages. `Services` holds what `dig`, `whois` and the API answer;
  `None` stands for a failed stage. `DomainRecords` and `BatchRecords` specify
  the output. `ResolveAll` is the loop of `main`, with its `continue`s and its
  inner append loop (`AppendRecords`, a method of its own), and it is proved
  to compute `BatchRecords`.
- `scenarios.dfy`, module `Scenarios`: two end-to-end scenarios stated with
  fixed answers. In one, a single domain resolves all the way. In the other, a
  first domain that DNS cannot resolve is skipped and the second one still
  yields its records.

Behaviour of the code that is easy to miss, and that the model keeps:

- The "No IPs found" skip (main.go:159-162) cannot fire. Splitting never
  returns an empty list, so blank `dig` output becomes the single address `""`
  and `whois` is asked about `""` (`Pipeline.BlankDigOutput`).
- The pattern allows one or more white-space characters after `OriginAS:`,
  not exactly one space.
- The AS number may be `0`, and leading zeros are accepted.
- When the origin lookup fails, the whole domain is skipped. Only the first
  address is ever tried; no later address is attempted.

## Model

| member | source | states |
|---|---|---|
| Lines.TrimLeft | main.go:44 | the result is a suffix of the text; everything cut off is white space; the result does not start with white space |
| Lines.TrimRight | main.go:44 | the result is a prefix of the text; everything cut off is white space; the result does not end with white space |
| Lines.TrimSpace | main.go:44 | the trimmed text neither starts nor ends with white space, and it is empty exactly when the text is all white space |
| Lines.TrimSpaceUnique | main.go:44 | any piece of the text that has only white space around it and none at its ends is what TrimSpace returns |
| Lines.TrimSpaceIdempotent | main.go:44 | trimming a trimmed text changes nothing |
| Lines.Split | main.go:44 | splitting on newlines yields at least one piece, and no piece contains a newline |
| Lines.SplitLength | main.go:44 | there is exactly one piece more than there are newlines |
| Lines.JoinSplit | main.go:44 | joining the pieces with newlines gives back the text exactly |
| Lines.SplitJoin | main.go:44 | newline-free pieces joined with newlines split back into the same pieces |
| Lines.SplitTrimmedRoundTrip | main.go:58 | the lines of a text: at least one, none with a newline, and joined they give exactly the trimmed text |
| Lines.SplitTrimmedBlank | main.go:58 | the lines are `[""]` exactly when the text is empty or all white space |
| Lines.TrimKeepsFirstLine | main.go:58 | trimming a text whose first line has no white space at its ends keeps that line whole |
| Lines.FirstLineSurvives | main.go:58 | text after a first line that has no white space at its ends does not change that first line |
| OriginAS.SpaceRun | main.go:73 | the run of `\s` characters at a position, and a run that cannot be extended |
| OriginAS.DigitRun | main.go:73 | the run of digits at a position, and a run that cannot be extended (the greedy `\d+`) |
| OriginAS.MatchAtSound | main.go:73-74 | a match reported at a position is an occurrence of the pattern, and its group holds all the digits there |
| OriginAS.MatchAtComplete | main.go:73-74 | every occurrence of the pattern at a position is found; the group reported is the greedy one |
| OriginAS.FindFrom | main.go:74 | the search returns the leftmost position with a match, and there is no match before it; when it finds nothing, there is no match anywhere |
| OriginAS.ASNumberLeftmost | main.go:73-80 | the leftmost occurrence decides: the result is Atoi of its digits. A later `OriginAS:` line is never used, even when the leftmost digits overflow |
| OriginAS.ASNumberNotFound | main.go:74-77 | the lookup reports "not found" exactly when the pattern occurs nowhere in the text |
| OriginAS.ASNumberRange | main.go:79-80 | a successful lookup is between 0 and the largest int |
| OriginAS.AtoiShortDigits | main.go:80 | up to 18 digits always convert, to their decimal value |
| OriginAS.AtoiTooLarge | main.go:80 | digits whose value exceeds the largest int make the conversion, and so the lookup, fail |
| OriginAS.DecimalValueLeadingZero | main.go:80 | a leading zero does not change the value |
| OriginAS.DecimalValueBound | main.go:80 | n digits denote a number below 10^n |
| Pipeline.GetIPs | main.go:49-60 | `dig` failing is the only error; otherwise there is always at least one address |
| Pipeline.ToRecordsShape | main.go:178-183 | one record per prefix, in the API's order, with the prefix string as hostname and an empty ip |
| Pipeline.ToRecordsSnoc | main.go:178-183 | appending one prefix appends exactly its record |
| Pipeline.CountAndTotalIgnored | main.go:178-183 | prefix lists that differ only in Count and Total give the same records |
| Pipeline.CompletedDomain | main.go:172-183 | a domain that gets through all three stages contributes exactly its prefixes' records, as many as there are prefixes |
| Pipeline.FailedDomain | main.go:153-176 | a domain that fails at any stage contributes nothing |
| Pipeline.FailedDomainSkipped | main.go:150-177 | a failed domain leaves the records gathered so far unchanged, and the batch moves on |
| Pipeline.BatchRecordsSnoc | main.go:150-184 | one more domain adds exactly its own records, at the end |
| Pipeline.BatchRecordsAppend | main.go:150-184 | the records of a batch are the records of its parts, concatenated in input order |
| Pipeline.DomainRecordsIPEmpty | main.go:179-182 | every record a single domain contributes has an empty ip |
| Pipeline.OutputIPAlwaysEmpty | main.go:179-182 | every output record has an empty ip |
| Pipeline.BlankDigOutput | main.go:153-164 | blank `dig` output gives the single address `""`, so the "No IPs found" skip cannot fire and `whois` is asked about `""` |
| Pipeline.OnlyFirstAddressCounts | main.go:164 | only the first line of `dig`'s output matters; the addresses after it have no effect |
| Pipeline.AppendRecords | main.go:178-183 | the inner loop appends exactly the records of the prefix list, in order, after the records already gathered |
| Pipeline.ResolveAll | main.go:147-184 | the loop's result is the concatenation, in input order, of the records of every domain that completed all stages |
| Pipeline.Run | main.go:139-147 | an unreadable domains file ends the run with no output; otherwise the output is the batch's records for the file's trimmed lines |
| Scenarios.WhoisAnswerAS | main.go:73-80 | `OriginAS:` followed by spaces and `AS15133` gives 15133 |
| Scenarios.TwoOriginLines | main.go:73-80 | with two `OriginAS:` lines, the first one's number is returned |
| Scenarios.SingleDomain | main.go:147-184 | example.com, resolving to AS 15133 with one prefix, yields exactly the record for 93.184.216.0/24 with an empty ip |
| Scenarios.FirstDomainFails | main.go:150-157 | a first domain that `dig` cannot resolve is skipped, and the second domain's record is still produced |

## Left out

- Running `dig` and `whois` as processes (main.go:50-56, 64-70). Their standard output, or their failure, is an input (`Services.dig`, `Services.whois`).
- The HTTP request, its 10-second timeout, the status check, reading the body and JSON decoding (main.go:84-110). Only the outcome is modelled: a prefix list or a failure (`Services.prefixes`). The URL built from the AS number is not modelled.
- Encoding the results as indented JSON and writing `prefix.json` (main.go:114-127, 186-193). `Pipeline.Run` returns the records that would be written; the write itself and its failure are not modelled. When no domain yields a record, `results` stays a nil slice (main.go:147) and the file holds `null`, not `[]`; `Run`'s `Some([])` stands for that file.
- Answers that change during a run. `Services` gives each query one fixed answer, so a domain listed twice, or two domains sharing an address or an AS number, get the same `dig`, `whois` or API answer each time. The program issues a fresh command or request on every pass (main.go:153, 164, 172), and real answers can differ between calls: DNS rotation can change the first address, and a rate-limited `whois` can start failing. `BatchRecordsSnoc` and `BatchRecordsAppend` rely on this fixed-answer assumption.
- Locating the executable and reading `domains.txt` from disk (main.go:130-143). The file's contents, or its absence, are an input to `Pipeline.Run`.
- The diagnostics printed with `fmt`. They do not affect the result.
- Text is a sequence of already-decoded characters. How Go treats bytes that are not valid UTF-8 is not modelled.
- Regular expressions in general. Only the single pattern `OriginAS:\s+AS(\d+)` is modelled, by a dedicated matcher.
- `int` is taken to be 64 bits wide, as on the usual 64-bit platforms.
