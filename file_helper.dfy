/**
 * The `FileAndPathHelper` of the dump-table tool: where the extractor should
 * look for a binary or PDB.
 */
module FileHelper {
  import opened Wrappers

  type Path = string

  const SEPARATOR: char := '/'

  predicate IsAbsolute(p: Path) {
    |p| > 0 && p[0] == SEPARATOR
  }

  /**
   * `PathBuf::join` on a Unix host: an absolute `p` replaces `base`; otherwise
   * `p` becomes the last component of `base`, with a separator inserted only
   * when `base` is non-empty and does not already end in one.
   */
  function Join(base: Path, p: Path): (r: Path)
    ensures |p| <= |r| && r[|r| - |p|..] == p
    ensures IsAbsolute(p) ==> r == p
    ensures !IsAbsolute(p) ==> base <= r && |r| <= |base| + 1 + |p|
    ensures !IsAbsolute(p) && base != [] ==> |base| <= |r| - |p| && r[|r| - |p| - 1] == SEPARATOR
    ensures !IsAbsolute(p) && (base == [] || base[|base| - 1] == SEPARATOR) ==> |r| == |base| + |p|
  {
    if IsAbsolute(p) then p
    else if base != [] && base[|base| - 1] != SEPARATOR then base + [SEPARATOR] + p
    else base + p
  }

  /** The helper's only configuration: the directory holding binaries and debug archives. */
  datatype Helper = Helper(symbolDirectory: Path)

  /**
   * `get_candidate_paths_for_binary_or_pdb`: one candidate, the debug name
   * under the symbol directory; the lookup never fails.
   */
  function CandidatePaths(helper: Helper, debugName: string, breakpadId: string): (r: Result<seq<Path>, string>)
    ensures r.Ok? && |r.value| == 1
    ensures r.value[0] == Join(helper.symbolDirectory, debugName)
  {
    Ok([Join(helper.symbolDirectory, debugName)])
  }

  /** The breakpad ID plays no part in where the helper looks. */
  lemma CandidatePathsIgnoreBreakpadId(helper: Helper, debugName: string, id1: string, id2: string)
    ensures CandidatePaths(helper, debugName, id1) == CandidatePaths(helper, debugName, id2)
  {
  }
}
