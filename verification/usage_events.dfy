/** Usage events and the content keys that identify them (internal/agentusage/types.go).

    The source hashes the parts of a key with SHA-256; here a key is the tuple of its
    parts, so two events share a key exactly when all hashed parts agree. */
module UsageEvents {
  import opened Options
  import opened Text

  datatype TokenCounts = TokenCounts(
    input: int, cached: int, cacheCreation: int, cacheCreation1h: int,
    output: int, reasoning: int, total: int)

  /** Content-only identity of a usage record: the counts of the last request, and of the
      running total when the record has one. */
  datatype Signature = NoSignature | OfUsage(last: TokenCounts) | OfTotal(last: TokenCounts, running: TokenCounts)

  datatype UsageEvent = UsageEvent(
    time: int, source: string, provider: string, account: string,
    session: string, requestID: string, model: string, effort: string, mode: string,
    fast: Option<bool>, speedMode: string, speedSource: string,
    counts: TokenCounts, path: string, signature: Signature)

  datatype EventKey =
    | ByUsage(source: string, provider: string, account: string, model: string, effort: string, mode: string,
              signature: Signature)
    | ByRequest(source: string, provider: string, account: string, requestID: string, model: string,
                counts: TokenCounts)
    | ByRecord(path: string, time: int, source: string, provider: string, account: string, session: string,
               requestID: string, model: string, effort: string, mode: string, counts: TokenCounts)

  function EventTotal(e: UsageEvent): int {
    if e.counts.total <= 0
    then e.counts.input + e.counts.cached + e.counts.cacheCreation + e.counts.output + e.counts.reasoning
    else e.counts.total
  }

  function DedupeKey(e: UsageEvent): EventKey {
    if e.signature != NoSignature then
      ByUsage(Trim(e.source), Trim(e.provider), Trim(e.account), Trim(e.model), Trim(e.effort), Trim(e.mode),
              e.signature)
    else if ToLower(Trim(e.source)) == "claude" && Trim(e.requestID) != "" then
      var account := Trim(e.account);
      ByRequest(Trim(e.source), Trim(e.provider), if account == "" then "default" else account,
                Trim(e.requestID), Trim(e.model), e.counts.(total := EventTotal(e)))
    else
      ByRecord(Trim(e.path), e.time, Trim(e.source), Trim(e.provider), Trim(e.account), Trim(e.session),
               Trim(e.requestID), Trim(e.model), Trim(e.effort), Trim(e.mode),
               e.counts.(cacheCreation1h := 0, total := EventTotal(e)))
  }

  /** Whether the event can be written as a queue line at all. */
  predicate Writable(e: UsageEvent) {
    Trim(e.provider) != "" && Trim(e.model) != ""
  }
}
