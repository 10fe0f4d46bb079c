/** The `ensure_xlsx_extension` lambda applied to output paths. */
module OutputPath {
  import opened Text

  const Extension := ".xlsx"

  /** The path unchanged when it already ends in `.xlsx`, otherwise with
      `.xlsx` appended. */
  function EnsureXlsx(path: string): (r: string)
    ensures EndsWith(r, Extension)
    ensures |path| <= |r| && r[..|path|] == path
  {
    if EndsWith(path, Extension) then path else path + Extension
  }

  /** Only a path lacking the extension is changed, and then by exactly the
      extension; a second application changes nothing. */
  lemma EnsureXlsxMinimal(path: string)
    ensures EnsureXlsx(path) == path <==> EndsWith(path, Extension)
    ensures EnsureXlsx(path) != path ==> EnsureXlsx(path) == path + Extension
    ensures EnsureXlsx(EnsureXlsx(path)) == EnsureXlsx(path)
  {
  }
}
