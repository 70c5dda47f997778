/**
 * The listing loop of `dump_table`: report how many symbols the table holds,
 * then one line per symbol (address and name), the first 15 only unless the
 * full listing was asked for, stopping at the first name that is not UTF-8.
 */
module Listing {
  import opened SymbolTable
  import opened Utf8

  /**
   * The check `std::str::from_utf8` makes of a name. The listing is stated for
   * any such check; `Utf8.ValidUtf8` is the one the standard library makes.
   */
  type Utf8Check = seq<u8> -> bool

  /** How many symbols are listed when the full listing was not asked for. */
  const SHORT_LISTING: nat := 15

  datatype SymbolLine = SymbolLine(address: u32, name: seq<u8>)

  datatype ListingEnd =
    | Complete
      /** The listing was cut short; `more` symbols were not listed. */
    | Truncated(more: nat)
      /** The next name was not valid UTF-8: the tool fails with a `Utf8Error`. */
    | InvalidName

  /** What the tool reports: the symbol count, the lines it listed, and how it stopped. */
  datatype Listing = Listing(found: nat, symbols: seq<SymbolLine>, end: ListingEnd)

  /** How many symbols a listing reaches when every name is valid. */
  function Shown(count: nat, full: bool): (n: nat)
    ensures n <= count
  {
    if full || count <= SHORT_LISTING then count else SHORT_LISTING
  }

  /** Name `i` of the table is a valid slice of its buffer. */
  predicate SliceInBounds(t: CompactSymbolTable, i: nat) {
    && i + 1 < |t.index|
    && t.index[i] <= t.index[i + 1]
    && t.index[i + 1] as int <= |t.buffer|
  }

  /** Names `0` to `n - 1` are valid slices of the buffer. */
  predicate SlicesInBounds(t: CompactSymbolTable, n: nat) {
    forall i | 0 <= i < n :: SliceInBounds(t, i)
  }

  function Name(t: CompactSymbolTable, i: nat): seq<u8>
    requires SliceInBounds(t, i)
  {
    t.buffer[t.index[i] as int..t.index[i + 1] as int]
  }

  /** The lines listed from symbol `i` on, and how the listing ends. */
  function ListFrom(t: CompactSymbolTable, full: bool, isUtf8: Utf8Check, i: nat): (r: (seq<SymbolLine>, ListingEnd))
    requires i <= Shown(|t.addr|, full)
    requires SlicesInBounds(t, Shown(|t.addr|, full))
    ensures i + |r.0| <= Shown(|t.addr|, full)
    decreases |t.addr| - i
  {
    if i == |t.addr| then ([], Complete)
    else if i >= SHORT_LISTING && !full then ([], Truncated(|t.addr| - i))
    else
      var name := Name(t, i);
      if !isUtf8(name) then ([], InvalidName)
      else
        var rest := ListFrom(t, full, isUtf8, i + 1);
        ([SymbolLine(t.addr[i], name)] + rest.0, rest.1)
  }

  /** `line` is what the tool prints for symbol `k`: its address and its name, which passed the check. */
  predicate ListedAs(t: CompactSymbolTable, isUtf8: Utf8Check, k: nat, line: SymbolLine)
    requires SliceInBounds(t, k)
  {
    && k < |t.addr|
    && isUtf8(Name(t, k))
    && line == SymbolLine(t.addr[k], Name(t, k))
  }

  /** From symbol `i` on, line `j` is what the tool prints for symbol `i + j`. */
  lemma {:induction false} ListFromLines(t: CompactSymbolTable, full: bool, isUtf8: Utf8Check, i: nat)
    requires i <= Shown(|t.addr|, full)
    requires SlicesInBounds(t, Shown(|t.addr|, full))
    ensures forall j | 0 <= j < |ListFrom(t, full, isUtf8, i).0| ::
      ListedAs(t, isUtf8, i + j, ListFrom(t, full, isUtf8, i).0[j])
    decreases |t.addr| - i
  {
    if i < |t.addr| && !(i >= SHORT_LISTING && !full) && isUtf8(Name(t, i)) {
      ListFromLines(t, full, isUtf8, i + 1);
      var rest := ListFrom(t, full, isUtf8, i + 1).0;
      var lines := [SymbolLine(t.addr[i], Name(t, i))] + rest;
      assert ListFrom(t, full, isUtf8, i).0 == lines;
      forall j | 0 <= j < |lines|
        ensures ListedAs(t, isUtf8, i + j, lines[j])
      {
        if j > 0 {
          assert lines[j] == rest[j - 1];
          assert ListedAs(t, isUtf8, (i + 1) + (j - 1), rest[j - 1]);
        }
      }
    }
  }

  /**
   * From symbol `i` on, the listing stops at the first invalid name, else at
   * the 15-symbol limit with the rest counted, else after the last symbol.
   */
  lemma {:induction false} ListFromEnd(t: CompactSymbolTable, full: bool, isUtf8: Utf8Check, i: nat)
    requires i <= Shown(|t.addr|, full)
    requires SlicesInBounds(t, Shown(|t.addr|, full))
    ensures var (lines, end) := ListFrom(t, full, isUtf8, i);
      && (end == InvalidName ==> i + |lines| < Shown(|t.addr|, full) && !isUtf8(Name(t, i + |lines|)))
      && (end != InvalidName ==>
            && i + |lines| == Shown(|t.addr|, full)
            && end == if Shown(|t.addr|, full) < |t.addr| then Truncated(|t.addr| - SHORT_LISTING) else Complete)
    decreases |t.addr| - i
  {
    if i == |t.addr| {
      assert ListFrom(t, full, isUtf8, i) == ([], Complete);
    } else if i >= SHORT_LISTING && !full {
      assert ListFrom(t, full, isUtf8, i) == ([], Truncated(|t.addr| - i));
    } else if !isUtf8(Name(t, i)) {
      assert ListFrom(t, full, isUtf8, i) == ([], InvalidName);
    } else {
      ListFromEnd(t, full, isUtf8, i + 1);
      var rest := ListFrom(t, full, isUtf8, i + 1);
      assert ListFrom(t, full, isUtf8, i) == ([SymbolLine(t.addr[i], Name(t, i))] + rest.0, rest.1);
    }
  }

  /**
   * The whole report: every symbol is counted; listed symbol j is `addr[j]`
   * with its name, which passed the check; the listing stops at the first
   * name that fails it, otherwise after `Shown` symbols (15 unless `full`),
   * reporting the rest when it is cut short.
   */
  function ListSymbols(t: CompactSymbolTable, full: bool, isUtf8: Utf8Check): (r: Listing)
    requires SlicesInBounds(t, Shown(|t.addr|, full))
    ensures r.found == |t.addr|
    ensures |r.symbols| <= Shown(|t.addr|, full)
    ensures forall j | 0 <= j < |r.symbols| :: ListedAs(t, isUtf8, j, r.symbols[j])
    ensures r.end == InvalidName ==>
      && |r.symbols| < Shown(|t.addr|, full)
      && !isUtf8(Name(t, |r.symbols|))
    ensures r.end != InvalidName ==>
      && |r.symbols| == Shown(|t.addr|, full)
      && r.end == if Shown(|t.addr|, full) < |t.addr| then Truncated(|t.addr| - SHORT_LISTING) else Complete
  {
    ListFromLines(t, full, isUtf8, 0);
    ListFromEnd(t, full, isUtf8, 0);
    var (symbols, end) := ListFrom(t, full, isUtf8, 0);
    Listing(|t.addr|, symbols, end)
  }

  /** The loop of `dump_table`, over a table the extractor returned. */
  method DumpTable(t: CompactSymbolTable, full: bool, isUtf8: Utf8Check) returns (listing: Listing)
    requires SlicesInBounds(t, Shown(|t.addr|, full))
    ensures listing == ListSymbols(t, full, isUtf8)
  {
    ghost var spec := ListFrom(t, full, isUtf8, 0);
    var symbols: seq<SymbolLine> := [];
    var i := 0;
    assert spec.0 == symbols + spec.0;
    while i < |t.addr|
      invariant i <= Shown(|t.addr|, full)
      invariant spec.0 == symbols + ListFrom(t, full, isUtf8, i).0
      invariant spec.1 == ListFrom(t, full, isUtf8, i).1
    {
      if i >= SHORT_LISTING && !full {
        assert ListFrom(t, full, isUtf8, i) == ([], Truncated(|t.addr| - i));
        return Listing(|t.addr|, symbols, Truncated(|t.addr| - i));
      }
      assert SliceInBounds(t, i);
      var name := t.buffer[t.index[i] as int..t.index[i + 1] as int];
      if !isUtf8(name) {
        assert ListFrom(t, full, isUtf8, i) == ([], InvalidName);
        return Listing(|t.addr|, symbols, InvalidName);
      }
      var line := SymbolLine(t.addr[i], name);
      ghost var rest := ListFrom(t, full, isUtf8, i + 1);
      assert ListFrom(t, full, isUtf8, i) == ([line] + rest.0, rest.1);
      assert symbols + ([line] + rest.0) == (symbols + [line]) + rest.0;
      symbols := symbols + [line];
      i := i + 1;
    }
    assert ListFrom(t, full, isUtf8, i) == ([], Complete);
    return Listing(|t.addr|, symbols, Complete);
  }

  /**
   * Without `full`: at most 15 lines, and a listing cut short reports
   * `addr.len() - 15` symbols left over.
   */
  lemma ShortListingStopsAtLimit(t: CompactSymbolTable, isUtf8: Utf8Check)
    requires SlicesInBounds(t, Shown(|t.addr|, false))
    ensures |ListSymbols(t, false, isUtf8).symbols| <= SHORT_LISTING
    ensures ListSymbols(t, false, isUtf8).end.Truncated? ==>
      && |t.addr| > SHORT_LISTING
      && |ListSymbols(t, false, isUtf8).symbols| == SHORT_LISTING
      && ListSymbols(t, false, isUtf8).end.more == |t.addr| - SHORT_LISTING
  {
  }

  /** With `full`: never cut short; unless a name fails the check, every symbol is listed. */
  lemma FullListingListsAll(t: CompactSymbolTable, isUtf8: Utf8Check)
    requires SlicesInBounds(t, |t.addr|)
    ensures !ListSymbols(t, true, isUtf8).end.Truncated?
    ensures ListSymbols(t, true, isUtf8).end == Complete ==> |ListSymbols(t, true, isUtf8).symbols| == |t.addr|
  {
  }

  /** The short listing is the start of the full one. */
  lemma ShortListingIsPrefix(t: CompactSymbolTable, isUtf8: Utf8Check)
    requires SlicesInBounds(t, |t.addr|)
    ensures ListSymbols(t, false, isUtf8).symbols <= ListSymbols(t, true, isUtf8).symbols
  {
    var short, long := ListSymbols(t, false, isUtf8).symbols, ListSymbols(t, true, isUtf8).symbols;
    // Every name the short listing printed passed the check, so the full
    // listing does not stop before it.
    assert forall j | 0 <= j < |short| :: ListedAs(t, isUtf8, j, short[j]) && isUtf8(Name(t, j));
    assert |short| <= |long|;
    assert forall j | 0 <= j < |short| :: ListedAs(t, isUtf8, j, long[j]);
  }

  /**
   * With the standard library's check, a table whose buffer is all ASCII
   * never stops the listing with a UTF-8 error.
   */
  lemma AsciiNamesNeverFail(t: CompactSymbolTable, full: bool)
    requires SlicesInBounds(t, Shown(|t.addr|, full))
    requires forall k | 0 <= k < |t.buffer| :: t.buffer[k] < 0x80
    ensures ListSymbols(t, full, ValidUtf8).end != InvalidName
  {
    var r := ListSymbols(t, full, ValidUtf8);
    if r.end == InvalidName {
      AsciiIsValid(Name(t, |r.symbols|));
    }
  }
}
