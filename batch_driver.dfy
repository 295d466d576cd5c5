/** The batch script's button: every `.docx` entry of the documents folder is processed with
    the month's tokens and the shared attachments, and the outputs are collected for one zip
    archive named after the month. The first document that cannot be opened aborts the run. */
module BatchDriver {
  import opened Strings
  import opened MonthTokens
  import opened DocModel
  import opened Documents

  /** A processed document: the zip entry name and the document's contents. */
  type Entry = (string, DocValue)

  datatype Collected = Collected(entries: seq<Entry>) | Aborted(failed: string)

  datatype BatchOutcome =
    | ZipArchive(name: string, entries: seq<Entry>)
    | NoDocumentsWarning
    | BatchFailed(failed: string)

  /** A processed document is saved in the temporary directory under its own file name. */
  function OutputPath(tmp: string, docsDir: string, name: string): string
  {
    PathJoin(tmp, Basename(PathJoin(docsDir, name)))
  }

  /** The loop over the listing, as far as it goes: the entries so far, or the first
      document (a listed `.docx` absent from the folder) that could not be opened. */
  function Collect(listing: seq<string>, folder: map<string, DocValue>, t: TokenSet,
                   attachments: seq<string>, docsDir: string, tmp: string): Collected
    decreases |listing|
  {
    if listing == [] then Collected([])
    else
      match Collect(listing[..|listing| - 1], folder, t, attachments, docsDir, tmp)
      case Aborted(f) => Aborted(f)
      case Collected(es) =>
        var name := listing[|listing| - 1];
        if !IsDocxName(name) then Collected(es)
        else if name !in folder then Aborted(name)
        else Collected(es + [(Basename(OutputPath(tmp, docsDir, name)),
                              ProcessedWithFolder(folder[name], t, attachments))])
  }

  function ZipName(month: string): string
  {
    "documentos_" + month + ".zip"
  }

  function BatchResult(month: string, year: nat, listing: seq<string>, folder: map<string, DocValue>,
                       attachments: seq<string>, docsDir: string, tmp: string): BatchOutcome
  {
    match Collect(listing, folder, TokensFor(month, year), attachments, docsDir, tmp)
    case Aborted(f) => BatchFailed(f)
    case Collected(es) => if es == [] then NoDocumentsWarning else ZipArchive(ZipName(month), es)
  }

  /** One press of the button. */
  method ProcessAll(month: string, year: nat, listing: seq<string>, folder: map<string, DocValue>,
                    attachments: seq<string>, docsDir: string, tmp: string) returns (out: BatchOutcome)
    ensures out == BatchResult(month, year, listing, folder, attachments, docsDir, tmp)
  {
    var t := TokensFor(month, year);
    var entries: seq<Entry> := [];
    var i := 0;
    while i < |listing|
      invariant 0 <= i <= |listing|
      invariant Collect(listing[..i], folder, t, attachments, docsDir, tmp) == Collected(entries)
    {
      var name := listing[i];
      assert listing[..i + 1][..i] == listing[..i] && listing[..i + 1][i] == name;
      if IsDocxName(name) {
        if name !in folder {
          AbortSticks(listing, i + 1, folder, t, attachments, docsDir, tmp);
          return BatchFailed(name);
        }
        var doc := new Document.Open(folder[name]);
        doc.ProcessWithFolder(t, attachments);
        var output := OutputPath(tmp, docsDir, name);
        entries := entries + [(Basename(output), doc.Content())];
      }
      i := i + 1;
    }
    assert listing[..|listing|] == listing;
    if entries == [] {
      out := NoDocumentsWarning;
    } else {
      out := ZipArchive(ZipName(month), entries);
    }
  }

  // ---------------------------------------------------------------------------
  // Lemmas

  /** Once a document fails, the rest of the listing does not matter. */
  lemma {:induction false} AbortSticks(listing: seq<string>, k: nat, folder: map<string, DocValue>, t: TokenSet,
                                       attachments: seq<string>, docsDir: string, tmp: string)
    requires k <= |listing|
    requires Collect(listing[..k], folder, t, attachments, docsDir, tmp).Aborted?
    ensures Collect(listing, folder, t, attachments, docsDir, tmp) == Collect(listing[..k], folder, t, attachments, docsDir, tmp)
    decreases |listing|
  {
    if k < |listing| {
      var init := listing[..|listing| - 1];
      assert init[..k] == listing[..k];
      AbortSticks(init, k, folder, t, attachments, docsDir, tmp);
    } else {
      assert listing[..k] == listing;
    }
  }

  /** The run fails only on a listed `.docx` entry that cannot be opened. */
  lemma {:induction false} AbortedOnUnreadableDocument(listing: seq<string>, folder: map<string, DocValue>, t: TokenSet,
                                                       attachments: seq<string>, docsDir: string, tmp: string)
    requires Collect(listing, folder, t, attachments, docsDir, tmp).Aborted?
    ensures var f := Collect(listing, folder, t, attachments, docsDir, tmp).failed;
      f in listing && IsDocxName(f) && f !in folder
    decreases |listing|
  {
    var init := listing[..|listing| - 1];
    if Collect(init, folder, t, attachments, docsDir, tmp).Aborted? {
      AbortedOnUnreadableDocument(init, folder, t, attachments, docsDir, tmp);
      var f := Collect(init, folder, t, attachments, docsDir, tmp).failed;
      assert f in init;
    }
  }

  /** A run that gets through the listing has opened every listed `.docx` entry. */
  lemma {:induction false} CollectedMeansReadable(listing: seq<string>, folder: map<string, DocValue>, t: TokenSet,
                                                  attachments: seq<string>, docsDir: string, tmp: string)
    requires Collect(listing, folder, t, attachments, docsDir, tmp).Collected?
    ensures forall f :: f in listing && IsDocxName(f) ==> f in folder
    decreases |listing|
  {
    if listing != [] {
      var init := listing[..|listing| - 1];
      assert listing == init + [listing[|listing| - 1]];
      CollectedMeansReadable(init, folder, t, attachments, docsDir, tmp);
    }
  }

  /** A listed `.docx` entry that cannot be opened makes the whole button fail, with no
      archive and no warning, naming a listed `.docx` entry that cannot be opened. */
  lemma BatchFailsOnUnreadable(month: string, year: nat, listing: seq<string>, folder: map<string, DocValue>,
                               attachments: seq<string>, docsDir: string, tmp: string, f: string)
    requires f in listing && IsDocxName(f) && f !in folder
    ensures var out := BatchResult(month, year, listing, folder, attachments, docsDir, tmp);
      out.BatchFailed? && out.failed in listing && IsDocxName(out.failed) && out.failed !in folder
  {
    var t := TokensFor(month, year);
    if Collect(listing, folder, t, attachments, docsDir, tmp).Collected? {
      CollectedMeansReadable(listing, folder, t, attachments, docsDir, tmp);
    }
    AbortedOnUnreadableDocument(listing, folder, t, attachments, docsDir, tmp);
  }

  /** When every listed document can be opened: one entry per `.docx` entry of the listing,
      in listing order, named as the source file and holding that file processed. */
  lemma {:induction false} OneEntryPerDocument(listing: seq<string>, folder: map<string, DocValue>, t: TokenSet,
                                               attachments: seq<string>, docsDir: string, tmp: string)
    requires forall f :: f in listing ==> '/' !in f
    requires forall f :: f in listing && IsDocxName(f) ==> f in folder
    ensures var c := Collect(listing, folder, t, attachments, docsDir, tmp);
      var docs := Filter(IsDocxName, listing);
      c.Collected? && |c.entries| == |docs| &&
      forall j :: 0 <= j < |docs| ==>
        c.entries[j] == (docs[j], ProcessedWithFolder(folder[docs[j]], t, attachments))
    decreases |listing|
  {
    if listing != [] {
      var init := listing[..|listing| - 1];
      var name := listing[|listing| - 1];
      assert listing == init + [name];
      OneEntryPerDocument(init, folder, t, attachments, docsDir, tmp);
      FilterConcat(IsDocxName, init, [name]);
      assert Filter(IsDocxName, [name]) == (if IsDocxName(name) then [name] else []) + Filter(IsDocxName, []);
      if IsDocxName(name) {
        BasenameOfJoin(docsDir, name);
        BasenameOfJoin(tmp, name);
      }
    }
  }

  /** When every listed document can be opened, the button yields the zip archive with one
      entry per document, or the warning exactly when there is no `.docx` entry. */
  lemma BatchOutcomeShape(month: string, year: nat, listing: seq<string>, folder: map<string, DocValue>,
                          attachments: seq<string>, docsDir: string, tmp: string)
    requires forall f :: f in listing ==> '/' !in f
    requires forall f :: f in listing && IsDocxName(f) ==> f in folder
    ensures var out := BatchResult(month, year, listing, folder, attachments, docsDir, tmp);
      var docs := Filter(IsDocxName, listing);
      (out == NoDocumentsWarning <==> docs == []) &&
      (docs != [] ==>
        out.ZipArchive? && out.name == "documentos_" + month + ".zip" && |out.entries| == |docs| &&
        forall j :: 0 <= j < |docs| ==> out.entries[j].0 == docs[j])
  {
    OneEntryPerDocument(listing, folder, TokensFor(month, year), attachments, docsDir, tmp);
  }
}
