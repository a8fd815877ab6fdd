/** `migrate_files.py`: uploaded files found by name, copied, and verified. */
module FileCopy {
  import opened Wrappers
  import opened Texts

  /** A file below the source directory: directly in it, or in a sub-folder. */
  datatype File = File(name: string, inRoot: bool, content: int)

  type Index = map<string, File>

  /** The index of the files walked so far. */
  ghost predicate Indexes(index: Index, walked: seq<File>) {
    && (forall f :: f in walked ==> f.name in index)
    && (forall n :: n in index ==> index[n] in walked && index[n].name == n)
    && (forall n, f :: n in index && index[n].inRoot && f in walked && f.name == n ==> f.inRoot)
  }

  /** `build_source_index`, in whatever order the tree is walked: every name is indexed, and by
      a file of the root only if no sub-folder has one of that name. */
  method BuildSourceIndex(files: seq<File>) returns (index: Index)
    ensures Indexes(index, files)
  {
    index := map[];
    for k := 0 to |files|
      invariant Indexes(index, files[..k])
    {
      var f := files[k];
      assert files[..k + 1] == files[..k] + [f];
      if f.name !in index || !f.inRoot {
        index := index[f.name := f];
      }
    }
    assert files[..|files|] == files;
  }

  // ---------------------------------------------------------------------------
  // Copying
  // ---------------------------------------------------------------------------

  /** The destination: paths and contents. A document's path may be absent. */
  type Dest = map<string, int>

  type Doc = Option<string>

  /** `Path(p).name`. */
  function FileName(p: string): string {
    var parts := SplitOn('/', p);
    parts[|parts| - 1]
  }

  /** The name is what stands behind the last slash. */
  lemma FileNameIs(folder: string, name: string)
    requires Without(name, '/')
    ensures FileName(name) == name && FileName(folder + ("/" + name)) == name
  {
    SplitPast('/', name, []);
    assert name + [] == name;
    SplitAtSep('/', folder, name);
  }

  datatype Stats = Stats(found: nat, already: nat, copied: nat, missing: nat)

  const NONE := Stats(0, 0, 0, 0)

  predicate HasPath(doc: Doc) {
    doc.Some? && doc.value != []
  }

  /** One document in apply mode. */
  function CopyOne(dest: Dest, s: Stats, index: Index, doc: Doc): (Dest, Stats) {
    if !HasPath(doc) then (dest, s.(missing := s.missing + 1))
    else if doc.value in dest then (dest, s.(already := s.already + 1))
    else if FileName(doc.value) !in index then (dest, s.(missing := s.missing + 1))
    else (dest[doc.value := index[FileName(doc.value)].content], s.(found := s.found + 1, copied := s.copied + 1))
  }

  function CopyAll(dest: Dest, index: Index, docs: seq<Doc>): (Dest, Stats) {
    if docs == [] then (dest, NONE) else
    var (d, s) := CopyAll(dest, index, docs[..|docs| - 1]);
    CopyOne(d, s, index, docs[|docs| - 1])
  }

  /** What a verification of `docs` counts as present. */
  function Present(dest: Dest, docs: seq<Doc>): nat {
    if docs == [] then 0 else
    var doc := docs[|docs| - 1];
    Present(dest, docs[..|docs| - 1]) + (if HasPath(doc) && doc.value in dest then 1 else 0)
  }

  datatype Mode = DryRun | Apply | Verify

  /** What the destination holds after copying: what it held, and under every other path of a document
      whose name is indexed the content of that file. */
  lemma {:induction false} CopiedPaths(dest: Dest, index: Index, docs: seq<Doc>, p: string)
    ensures p in CopyAll(dest, index, docs).0 <==> p in dest || (p != [] && Some(p) in docs && FileName(p) in index)
    ensures p in dest ==> CopyAll(dest, index, docs).0[p] == dest[p]
    ensures p !in dest && p in CopyAll(dest, index, docs).0 ==>
      FileName(p) in index && CopyAll(dest, index, docs).0[p] == index[FileName(p)].content
  {
    if docs != [] {
      CopiedPaths(dest, index, docs[..|docs| - 1], p);
      assert docs == docs[..|docs| - 1] + [docs[|docs| - 1]];
    }
  }

  lemma MissedTheSame(dest: Dest, index: Index, docs: seq<Doc>, doc: Doc)
    ensures CopyAll(dest, index, docs + [doc]).1.missing ==
      CopyAll(dest, index, docs).1.missing
      + (if doc == None || doc.value == [] || (doc.value !in dest && FileName(doc.value) !in index) then 1 else 0)
  {
    assert (docs + [doc])[..|docs|] == docs;
    if HasPath(doc) {
      CopiedPaths(dest, index, docs, doc.value);
    }
  }

  /** `migrate_files`. */
  method MigrateFiles(dest0: Dest, index: Index, docs: seq<Doc>, mode: Mode) returns (dest: Dest, s: Stats)
    ensures !mode.Apply? ==> dest == dest0
    ensures mode.Apply? ==> (dest, s) == CopyAll(dest0, index, docs)
    ensures mode.Verify? ==> s.found == Present(dest0, docs) && s.already == 0
    ensures !mode.Verify? ==> s.found + s.already + s.missing == |docs|
    ensures mode.DryRun? ==> s.already == Present(dest0, docs) && s.missing == CopyAll(dest0, index, docs).1.missing
    ensures mode.Apply? ==> s.copied == s.found
    ensures !mode.Apply? ==> s.copied == 0
  {
    dest := dest0;
    s := NONE;
    for k := 0 to |docs|
      invariant !mode.Apply? ==> dest == dest0
      invariant mode.Apply? ==> (dest, s) == CopyAll(dest0, index, docs[..k])
      invariant mode.Verify? ==> s.found == Present(dest0, docs[..k]) && s.already == 0
      invariant mode.DryRun? ==> s.already == Present(dest0, docs[..k]) && s.missing == CopyAll(dest0, index, docs[..k]).1.missing
      invariant s.found + s.already + s.missing == k && s.copied == if mode.Apply? then s.found else 0
    {
      var doc := docs[k];
      assert docs[..k + 1][..k] == docs[..k] && docs[..k + 1] == docs[..k] + [doc];
      if mode.DryRun? {
        MissedTheSame(dest0, index, docs[..k], doc);
      }
      if doc.None? || doc.value == [] {
        s := s.(missing := s.missing + 1);
      } else if mode.Verify? {
        if doc.value in dest {
          s := s.(found := s.found + 1);
        } else {
          s := s.(missing := s.missing + 1);
        }
      } else if doc.value in dest {
        s := s.(already := s.already + 1);
      } else if FileName(doc.value) !in index {
        s := s.(missing := s.missing + 1);
      } else {
        s := s.(found := s.found + 1);
        if mode.Apply? {
          dest := dest[doc.value := index[FileName(doc.value)].content];
          s := s.(copied := s.copied + 1);
        }
      }
    }
    assert docs[..|docs|] == docs;
  }

  // ---------------------------------------------------------------------------
  // Apply, then verify
  // ---------------------------------------------------------------------------

  lemma {:induction false} StillPresent(dest: Dest, index: Index, docs: seq<Doc>, k: nat, later: Dest)
    requires k <= |docs| && later == CopyAll(dest, index, docs).0
    ensures var (d, s) := CopyAll(dest, index, docs[..k]);
      Present(later, docs[..k]) == s.copied + s.already && s.missing + s.copied + s.already == k
    decreases k
  {
    if k > 0 {
      var doc := docs[k - 1];
      assert docs[..k][..k - 1] == docs[..k - 1];
      StillPresent(dest, index, docs, k - 1, later);
      if HasPath(doc) {
        CopiedPaths(dest, index, docs, doc.value);
        CopiedPaths(dest, index, docs[..k - 1], doc.value);
        assert doc in docs && (doc in docs[..k - 1] ==> doc in docs);
      }
    }
  }

  /** A verification after an apply finds what was copied and what was already there, and
      misses as many as the apply did. */
  lemma VerifyAfterApply(dest: Dest, index: Index, docs: seq<Doc>)
    ensures var (d, s) := CopyAll(dest, index, docs);
      Present(d, docs) == s.copied + s.already && |docs| - Present(d, docs) == s.missing
  {
    StillPresent(dest, index, docs, |docs|, CopyAll(dest, index, docs).0);
    assert docs[..|docs|] == docs;
  }
}
