/**
 * The values exchanged with the symbol extractor of `profiler_get_symbols`:
 * the compact symbol table it produces and the errors it reports.
 */
module SymbolTable {

  /** Rust's `u8`. */
  newtype u8 = x: int | 0 <= x < 0x100

  /** Rust's `u32`, the element type of `addr` and `index`. */
  newtype u32 = x: int | 0 <= x < 0x1_0000_0000

  /**
   * A flattened symbol list: symbol i lives at `addr[i]` and its name is the
   * byte range `buffer[index[i]..index[i+1]]`.
   */
  datatype CompactSymbolTable = CompactSymbolTable(addr: seq<u32>, index: seq<u32>, buffer: seq<u8>)

  /**
   * `GetSymbolsError`, reduced to the two variants the negotiation inspects;
   * every other variant (I/O, parse and format failures) is `Other`.
   */
  datatype GetSymbolsError =
    | UnmatchedBreakpadId(expected: string, given: string)
    | NoMatchMultiArch(errors: seq<GetSymbolsError>)
    | Other(description: string)
}
