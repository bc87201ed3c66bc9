/** The naming rule every upload in the client shares: the stored object keeps
    the extension of the picked file, taken as `name.split('.').pop()`. */
module Storage {
  import opened Strings

  /** `name.split('.').pop()`: the text after the last '.', or the whole name
      when it has no '.'. */
  function FileExt(name: string): (r: string)
    ensures '.' !in r
    ensures '.' !in name ==> r == name
  {
    assert '.' !in name ==> AfterLast(name, '.') == name by {
      if '.' !in name {
        AfterLastNoSep(name, '.');
      }
    }
    AfterLast(name, '.')
  }

  /** The extension of `name` is the text after its last '.'. */
  lemma FileExtOfDotted(base: string, ext: string)
    requires '.' !in ext
    ensures FileExt(base + "." + ext) == ext
  {
    AfterLastConcat(base, ext, '.');
  }

  /** A stored name `stem + "." + FileExt(name)` has the extension of the
      picked file, whatever the stem. */
  lemma StoredNameKeepsExt(stem: string, name: string)
    ensures FileExt(stem + "." + FileExt(name)) == FileExt(name)
  {
    FileExtOfDotted(stem, FileExt(name));
  }
}
