/** The ledger files the two utilities open, by path. `open(path, 'a')` creates a missing file
    and writes after its contents; `open(path, 'w')` empties it first. */
module LedgerFiles {

  /** The files after `text` was written at the end of `path` in append mode. */
  function Appended(files: map<string, string>, path: string, text: string): (r: map<string, string>)
    ensures r.Keys == files.Keys + {path}
    ensures path in files ==> |r[path]| == |files[path]| + |text| && r[path][..|files[path]|] == files[path]
    ensures |r[path]| >= |text| && r[path][|r[path]| - |text|..] == text
    ensures forall p :: p in files && p != path ==> r[p] == files[p]
  {
    var before := if path in files then files[path] else "";
    assert (before + text)[|before|..] == text;
    files[path := before + text]
  }

  /** Writing a file anew and then appending to it is writing both texts at once. */
  lemma OverwriteThenAppend(files: map<string, string>, path: string, a: string, b: string)
    ensures Appended(files[path := a], path, b) == files[path := a + b]
  {
  }

  /** The directory of ledger files, changed in place by the writers. */
  class FileStore {
    var files: map<string, string>

    constructor (initial: map<string, string>)
      ensures files == initial
    {
      files := initial;
    }

    /** Writing `text` to a file opened with mode `'a'`. */
    method Append(path: string, text: string)
      modifies this
      ensures files == Appended(old(files), path, text)
    {
      files := Appended(files, path, text);
    }

    /** Opening a file with mode `'w'` and writing `text`. */
    method Overwrite(path: string, text: string)
      modifies this
      ensures files == old(files)[path := text]
    {
      files := files[path := text];
    }
  }
}
