/**
 * `get_symbols_retry_id`: obtaining a compact symbol table when the caller may
 * not know the breakpad ID of the binary it names.
 */
module Negotiation {
  import opened Wrappers
  import opened SymbolTable

  /**
   * `profiler_get_symbols::get_compact_symbol_table`, with the file helper
   * folded in: from a debug name and a breakpad ID to a table or an error.
   */
  type Extractor = (string, string) -> Result<CompactSymbolTable, GetSymbolsError>

  /** The bogus breakpad ID used to make the extractor name the one it expected. */
  const UNSPECIFIED: string := "<unspecified>"

  datatype Outcome =
    | Resolved(table: CompactSymbolTable)
      /** The binary is a multi-arch container: the caller must pick one of `ids`. */
    | AwaitingChoice(ids: seq<string>)
    | Failed(error: GetSymbolsError)

  /** What a negotiation returns, and the breakpad IDs it asked the extractor for, in order. */
  datatype Run = Run(outcome: Outcome, requested: seq<string>)

  function ToOutcome(r: Result<CompactSymbolTable, GetSymbolsError>): Outcome {
    match r
    case Ok(table) => Resolved(table)
    case Err(e) => Failed(e)
  }

  /** Position `k` holds the first error of `errors` that is not an ID mismatch. */
  predicate FirstNonMismatch(errors: seq<GetSymbolsError>, k: nat)
    requires k < |errors|
  {
    && !errors[k].UnmatchedBreakpadId?
    && forall j | 0 <= j < k :: errors[j].UnmatchedBreakpadId?
  }

  /**
   * The expected IDs of a `NoMatchMultiArch` error list, in order and with
   * repetitions, or the first error that is not an ID mismatch.
   */
  function CollectIds(errors: seq<GetSymbolsError>): (r: Result<seq<string>, GetSymbolsError>)
    ensures r.Ok? <==> forall j | 0 <= j < |errors| :: errors[j].UnmatchedBreakpadId?
    ensures r.Ok? ==>
      && |r.value| == |errors|
      && forall j | 0 <= j < |errors| :: errors[j].UnmatchedBreakpadId? && r.value[j] == errors[j].expected
    ensures r.Err? ==> exists k | 0 <= k < |errors| :: FirstNonMismatch(errors, k) && r.error == errors[k]
  {
    if errors == [] then Ok([])
    else
      match errors[0]
      case UnmatchedBreakpadId(expected, _) =>
        (match CollectIds(errors[1..])
         case Ok(ids) => Ok([expected] + ids)
         case Err(e) => Err(e))
      case _ => Err(errors[0])
  }

  /** The negotiation: its outcome and the extractor requests it makes. */
  function Negotiate(extract: Extractor, debugName: string, breakpadId: Option<string>): (r: Run)
    ensures 1 <= |r.requested| <= 2
    ensures r.requested[0] == (if breakpadId.Some? then breakpadId.value else UNSPECIFIED)
    ensures |r.requested| == 2 <==>
      && breakpadId.None?
      && extract(debugName, UNSPECIFIED).Err?
      && extract(debugName, UNSPECIFIED).error.UnmatchedBreakpadId?
    ensures r.outcome.Resolved? ==> extract(debugName, r.requested[|r.requested| - 1]) == Ok(r.outcome.table)
    ensures r.outcome.AwaitingChoice? ==> breakpadId.None? && r.requested == [UNSPECIFIED]
  {
    match breakpadId
    case Some(id) => Run(ToOutcome(extract(debugName, id)), [id])
    case None =>
      match extract(debugName, UNSPECIFIED)
      case Ok(table) => Run(Resolved(table), [UNSPECIFIED])
      case Err(UnmatchedBreakpadId(expected, _)) =>
        Run(ToOutcome(extract(debugName, expected)), [UNSPECIFIED, expected])
      case Err(NoMatchMultiArch(errors)) =>
        (match CollectIds(errors)
         case Ok(ids) => Run(AwaitingChoice(ids), [UNSPECIFIED])
         case Err(e) => Run(Failed(e), [UNSPECIFIED]))
      case Err(e) => Run(Failed(e), [UNSPECIFIED])
  }

  /** One extractor call, recorded in the log of requested breakpad IDs. */
  method Call(extract: Extractor, debugName: string, id: string, log: seq<string>)
    returns (r: Result<CompactSymbolTable, GetSymbolsError>, log': seq<string>)
    ensures r == extract(debugName, id) && log' == log + [id]
  {
    r := extract(debugName, id);
    log' := log + [id];
  }

  /**
   * The negotiation as the tool runs it, one extractor call after the other,
   * logging each breakpad ID it passes to the extractor.
   */
  method GetSymbolsRetryId(extract: Extractor, debugName: string, breakpadId: Option<string>)
    returns (outcome: Outcome, requested: seq<string>)
    ensures Run(outcome, requested) == Negotiate(extract, debugName, breakpadId)
  {
    var id: string;
    match breakpadId {
      case Some(given) =>
        id := given;
        requested := [];
      case None =>
        var probe;
        probe, requested := Call(extract, debugName, UNSPECIFIED, []);
        match probe {
          case Ok(table) =>
            return Resolved(table), requested;
          case Err(UnmatchedBreakpadId(expected, _)) =>
            id := expected;
          case Err(NoMatchMultiArch(errors)) =>
            var potentialIds: seq<string> := [];
            for k := 0 to |errors|
              invariant |potentialIds| == k
              invariant forall j | 0 <= j < k :: errors[j].UnmatchedBreakpadId? && potentialIds[j] == errors[j].expected
            {
              match errors[k] {
                case UnmatchedBreakpadId(expected, _) =>
                  potentialIds := potentialIds + [expected];
                case _ =>
                  assert FirstNonMismatch(errors, k);
                  return Failed(errors[k]), requested;
              }
            }
            return AwaitingChoice(potentialIds), requested;
          case Err(err) =>
            return Failed(err), requested;
        }
    }
    var last;
    last, requested := Call(extract, debugName, id, requested);
    outcome := ToOutcome(last);
  }

  /** A known breakpad ID: one extractor call with it, whose result is returned unchanged. */
  lemma KnownIdCalledOnce(extract: Extractor, debugName: string, id: string)
    ensures Negotiate(extract, debugName, Some(id)).requested == [id]
    ensures Negotiate(extract, debugName, Some(id)).outcome == ToOutcome(extract(debugName, id))
  {
  }

  /** No breakpad ID and a successful probe: the probe's table, after that one call. */
  lemma ProbeSuccessReturned(extract: Extractor, debugName: string, table: CompactSymbolTable)
    requires extract(debugName, UNSPECIFIED) == Ok(table)
    ensures Negotiate(extract, debugName, None) == Run(Resolved(table), [UNSPECIFIED])
  {
  }

  /** A single mismatch: exactly one retry, with the expected ID, whose result is final. */
  lemma SingleMismatchRetried(extract: Extractor, debugName: string, expected: string, given: string)
    requires extract(debugName, UNSPECIFIED) == Err(UnmatchedBreakpadId(expected, given))
    ensures Negotiate(extract, debugName, None).requested == [UNSPECIFIED, expected]
    ensures Negotiate(extract, debugName, None).outcome == ToOutcome(extract(debugName, expected))
  {
  }

  /** After a single mismatch, leaving the ID out gives what passing the expected ID gives. */
  lemma UnspecifiedAgreesWithExpected(extract: Extractor, debugName: string, expected: string, given: string)
    requires extract(debugName, UNSPECIFIED) == Err(UnmatchedBreakpadId(expected, given))
    ensures Negotiate(extract, debugName, None).outcome == Negotiate(extract, debugName, Some(expected)).outcome
  {
  }

  /**
   * A multi-arch container whose every member reports a mismatch: the caller
   * is offered every expected ID, in order and not de-duplicated, and no
   * further call is made.
   */
  lemma MultiArchListsIds(extract: Extractor, debugName: string, errors: seq<GetSymbolsError>)
    requires extract(debugName, UNSPECIFIED) == Err(NoMatchMultiArch(errors))
    requires forall j | 0 <= j < |errors| :: errors[j].UnmatchedBreakpadId?
    ensures Negotiate(extract, debugName, None).requested == [UNSPECIFIED]
    ensures Negotiate(extract, debugName, None).outcome.AwaitingChoice?
    ensures |Negotiate(extract, debugName, None).outcome.ids| == |errors|
    ensures forall j | 0 <= j < |errors| :: Negotiate(extract, debugName, None).outcome.ids[j] == errors[j].expected
  {
  }

  /**
   * A multi-arch container with a member that failed otherwise: the first such
   * failure is the result, and no further call is made.
   */
  lemma MultiArchFirstFailureWins(extract: Extractor, debugName: string, errors: seq<GetSymbolsError>, k: nat)
    requires extract(debugName, UNSPECIFIED) == Err(NoMatchMultiArch(errors))
    requires k < |errors| && FirstNonMismatch(errors, k)
    ensures Negotiate(extract, debugName, None) == Run(Failed(errors[k]), [UNSPECIFIED])
  {
  }

  /** Any other probe error is the result, unchanged, and no retry is made. */
  lemma OtherProbeErrorPassedThrough(extract: Extractor, debugName: string, e: GetSymbolsError)
    requires extract(debugName, UNSPECIFIED) == Err(e)
    requires !e.UnmatchedBreakpadId? && !e.NoMatchMultiArch?
    ensures Negotiate(extract, debugName, None) == Run(Failed(e), [UNSPECIFIED])
  {
  }
}
