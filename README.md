# dump_table: symbol-table resolution, modelled in Dafny

This project models the logic of the `dump_table` example of samply's
`profiler_get_symbols` crate: a command-line tool that, given a debug name, a
symbol directory and an optional breakpad ID, obtains the binary's compact
symbol table and prints it.

Three pieces are modelled:

- **Breakpad-ID negotiation** (`get_symbols_retry_id`), module `Negotiation`.
  The symbol extractor `get_compact_symbol_table` is an abstract `Extractor`:
  a total function from (debug name, breakpad ID) to a table or a
  `GetSymbolsError`. `Negotiate` is the specification: it gives the outcome
  and the list of breakpad IDs passed to the extractor, in order.
  `GetSymbolsRetryId` is the tool's sequence of calls, with the multi-arch
  loop and its early return; it logs every ID it sends and is proved equal to
  `Negotiate`. When no ID is given, the tool probes with the sentinel
  `"<unspecified>"`. It retries once with the ID a single
  `UnmatchedBreakpadId` names. For a `NoMatchMultiArch` it gathers the expected
  IDs, unless some member error is not a mismatch. Every other error passes
  through.
  The `std::process::exit(0)` that ends the multi-arch case is the outcome
  `AwaitingChoice(ids)`.
- **Candidate paths** (`Helper::get_candidate_paths_for_binary_or_pdb`), module
  `FileHelper`: exactly one path, the debug name joined onto the symbol
  directory with `PathBuf::join` as it behaves on Unix. The breakpad ID is
  ignored.
- **The symbol listing** of `dump_table`, module `Listing`. The tool reports
  `addr.len()` symbols. It then lists symbol *i* as its address and the bytes
  `buffer[index[i]..index[i+1]]`. It stops after 15 symbols unless `--full`
  is given, and then reports how many were not listed. The first name that is
  not UTF-8 ends the run with an error. `ListSymbols` is the specification and
  `DumpTable` the loop, proved equal to it. `Shown` is how many symbols the
  loop reaches when no name fails: `addr.len()` with `--full`, otherwise at
  most 15. The UTF-8 check is a parameter of the listing (`Utf8Check`), so
  the listing's properties hold for any check. `Utf8.ValidUtf8` is the check
  the standard library makes, and `AsciiNamesNeverFail` uses it.

Module `SymbolTable` holds the values exchanged with the extractor
(`CompactSymbolTable` with `u32` addresses and offsets and a `u8` buffer;
`GetSymbolsError`). Module `Utf8` states the UTF-8 well-formedness that
`std::str::from_utf8` checks, following Table 3-7 of the Unicode Standard.
Module `Wrappers` holds `Option` and `Result`.

In the multi-arch case the tool prints the expected IDs and exits with status
0. The model returns `AwaitingChoice(ids)` instead: no retry, no error, the
IDs in order and not de-duplicated.

## Model

| member | source | states |
|---|---|---|
| Negotiation.Negotiate | examples/dump_table/src/main.rs:83-133 | at most two extractor calls and at least one; the first uses the given ID or the sentinel `"<unspecified>"`; a second call happens exactly when no ID was given and the probe failed with `UnmatchedBreakpadId`; a resolved table is the result of the last call; a multi-arch choice comes only from the probe alone |
| Negotiation.GetSymbolsRetryId | examples/dump_table/src/main.rs:83-133 | the sequential calls, including the multi-arch loop with its early return, give exactly the outcome and the logged ID list of `Negotiate` |
| Negotiation.CollectIds | examples/dump_table/src/main.rs:107-117 | the IDs are gathered iff every member error is a mismatch, and then they are the expected IDs in order, one per error; otherwise the result is the first member error that is not a mismatch |
| Negotiation.KnownIdCalledOnce | examples/dump_table/src/main.rs:88-132 | with a known ID: one call, with that ID, whose table or error is returned unchanged |
| Negotiation.ProbeSuccessReturned | examples/dump_table/src/main.rs:94-101 | no ID and a successful probe: the probe's table, after that single call |
| Negotiation.SingleMismatchRetried | examples/dump_table/src/main.rs:103-132 | a probe failing with `UnmatchedBreakpadId(expected, _)`: exactly one more call, with `expected`, whose result is the final result |
| Negotiation.UnspecifiedAgreesWithExpected | examples/dump_table/src/main.rs:187-222 | after such a mismatch, leaving the ID out gives the same result as passing the expected ID, as the two tests check |
| Negotiation.MultiArchListsIds | examples/dump_table/src/main.rs:107-122 | a multi-arch probe whose members all mismatch: the choice offers every expected ID in order without de-duplication, and no further call is made |
| Negotiation.MultiArchFirstFailureWins | examples/dump_table/src/main.rs:111-116 | a multi-arch probe with a member that is not a mismatch: the first such member is the error, the IDs gathered before it are dropped, and no retry is made |
| Negotiation.OtherProbeErrorPassedThrough | examples/dump_table/src/main.rs:124 | any other probe error is the result, unchanged, with no retry |
| FileHelper.Join | examples/dump_table/src/main.rs:160 | `PathBuf::join` on Unix: the result ends with the joined name; an absolute name replaces the base; a relative name is appended to the base behind exactly one separator when the base is non-empty (a base already ending in `/` gets no second one); an empty base gives the name itself |
| FileHelper.CandidatePaths | examples/dump_table/src/main.rs:150-161 | the lookup never fails and yields exactly one path, the debug name joined onto the symbol directory |
| FileHelper.CandidatePathsIgnoreBreakpadId | examples/dump_table/src/main.rs:150-161 | the candidate path does not depend on the breakpad ID |
| Utf8.ScalarLength | examples/dump_table/src/main.rs:67 | a well-formed scalar encoding is one to four bytes long and lies within the input; it is one byte long exactly for an ASCII lead byte |
| Utf8.AsciiIsValid | examples/dump_table/src/main.rs:67 | `from_utf8` accepts every sequence of ASCII bytes |
| Listing.ListFrom | examples/dump_table/src/main.rs:55-69 | from symbol *i* on, the loop never lists past `Shown` symbols: the 15-symbol limit without `--full`, otherwise the last symbol |
| Listing.ListFromLines | examples/dump_table/src/main.rs:64-68 | from symbol *i* on, printed line *j* is `addr[i+j]` with the name `buffer[index[i+j]..index[i+j+1]]`, and that name passed the UTF-8 check |
| Listing.ListFromEnd | examples/dump_table/src/main.rs:55-69 | from symbol *i* on, the listing ends at the first name that fails the UTF-8 check; failing that, it ends at the 15-symbol limit with `addr.len() - 15` left over, or after the last symbol |
| Listing.ListSymbols | examples/dump_table/src/main.rs:54-69 | the count is `addr.len()`; listed symbol *j* is `addr[j]` with its name, which passed the check; a name that fails the check stops the listing right before it; otherwise `Shown` symbols are listed and a cut-short listing reports `addr.len() - 15` left over |
| Listing.DumpTable | examples/dump_table/src/main.rs:53-71 | the loop, which stops at the limit and returns early on a UTF-8 error, produces exactly `ListSymbols` |
| Listing.ShortListingStopsAtLimit | examples/dump_table/src/main.rs:56-62 | without `--full`: at most 15 lines, and a listing cut short has 15 lines and reports `addr.len() - 15` more symbols |
| Listing.FullListingListsAll | examples/dump_table/src/main.rs:55-69 | with `--full`: the listing is never cut short, and when no name fails the check every symbol is listed |
| Listing.ShortListingIsPrefix | examples/dump_table/src/main.rs:55-62 | the listing without `--full` is a prefix of the full listing |
| Listing.AsciiNamesNeverFail | examples/dump_table/src/main.rs:64-67 | with the standard library's UTF-8 check, a table whose buffer is all ASCII never ends the listing with a UTF-8 error |

## Left out

- `main` and the `Opt` argument parsing (lines 14-45): command-line glue.
- `get_table` (lines 73-81) only builds the `Helper` and forwards to `get_symbols_retry_id`. The extractor is abstract and takes the helper implicitly, so this forwarding has no member of its own.
- `Helper::read_file` and `MmapFileContents` (lines 135-141, 163-174): file I/O and a memory map, not modelled.
- How the extractor uses the helper, and its parsing of PDB, ELF, Mach-O and Breakpad files: `profiler_get_symbols` is not part of this model. The extractor is an arbitrary total function of (debug name, breakpad ID).
- `async` and `block_on`: the calls are strictly sequential and are modelled as ordinary calls.
- `println!` output: the text of the messages and the hexadecimal formatting of addresses. `Listing` keeps what is printed as data: the count, the lines, and the truncation count.
- `std::process::exit(0)` in the multi-arch case: modelled as the returned outcome `AwaitingChoice(ids)`.
- The conversion of `GetSymbolsError` and `Utf8Error` into `anyhow::Error`: the model returns the error value itself. A UTF-8 failure is `InvalidName` and does not carry the position data of `Utf8Error`.
- FileHelper.Join: models Unix paths only; Windows drive prefixes, verbatim paths and `\` separators are not modelled.
- Listing.DumpTable: requires every name the loop can reach to be an in-bounds slice. The source panics on a bad offset, and that panic is not modelled.
- Listing.DumpTable: takes the UTF-8 check of `std::str::from_utf8` as a parameter. The tool's own check is `Utf8.ValidUtf8`, and only `AsciiNamesNeverFail` depends on which check is used.
