/** The single-document script's page: the status map of documents that already received an
    image, the decorated document list, the selection, and the "generate" button. */
module AppDriver {
  import opened Strings
  import opened MonthTokens
  import opened DocModel
  import opened Documents

  /** The marker appended to documents that already received an image. */
  const CheckMark: string := " \U{2705}"

  /** A document's option: its name, marked when the status map records an image for it. */
  function Decorate(name: string, status: map<string, bool>): string
  {
    if name in status && status[name] then name + CheckMark else name
  }

  /** The selection list: the `.docx` entries of the listing, decorated, in listing order. */
  function DocumentOptions(listing: seq<string>, status: map<string, bool>): seq<string>
  {
    var docs := Filter(IsDocxName, listing);
    seq(|docs|, i requires 0 <= i < |docs| => Decorate(docs[i], status))
  }

  /** The selected option with every check mark removed. */
  function Undecorate(option: string): string
  {
    ReplaceAll(option, CheckMark, "")
  }

  /** The name without its last five characters, followed by "_modificado.docx"; a name
      shorter than five characters loses all of them. */
  function DownloadName(selected: string): string
  {
    (if |selected| >= 5 then selected[..|selected| - 5] else []) + "_modificado.docx"
  }

  /** The selected document is marked in the status map, only when an image was uploaded. */
  function RecordUpload(status: map<string, bool>, doc: string, uploaded: bool): (r: map<string, bool>)
    ensures uploaded ==> doc in r && r[doc]
    ensures !uploaded ==> r == status
    ensures forall k :: k != doc ==> (k in r <==> k in status)
    ensures forall k :: k != doc && k in status ==> r[k] == status[k]
  {
    if uploaded then status[doc := true] else status
  }

  /** What the selection box hands to the rest of the script. */
  datatype Selection = Selected(name: string) | NothingSelected | SelectionCrash

  /** As written: an empty option list makes the selection box return `None`, and
      removing the check mark from `None` raises before the button is reached. */
  function SelectAsWritten(options: seq<string>, choice: nat): (r: Selection)
    requires options != [] ==> choice < |options|
    ensures r == SelectionCrash <==> options == []
    ensures r != NothingSelected
  {
    if options == [] then SelectionCrash else Selected(Undecorate(options[choice]))
  }

  /** Corrected: an empty option list selects nothing, so the button shows the warning. */
  function Select(options: seq<string>, choice: nat): (r: Selection)
    requires options != [] ==> choice < |options|
    ensures r == NothingSelected <==> options == []
    ensures r != SelectionCrash
  {
    if options == [] then NothingSelected else Selected(Undecorate(options[choice]))
  }

  datatype ClickOutcome =
    | Download(fileName: string, content: DocValue)
    | Warning
    | Failed

  /** The button: with a non-empty selection, build the tokens (a month outside the twelve
      fails), open the document (a missing one fails), process it and offer the download. */
  function ClickResult(sel: Selection, folder: map<string, DocValue>, month: string, year: nat,
                       image: Option<string>): ClickOutcome
  {
    if !sel.Selected? || sel.name == [] then Warning
    else match CheckedTokensFor(month, year)
      case None => Failed
      case Some(t) =>
        if sel.name !in folder then Failed
        else Download(DownloadName(sel.name), ProcessedWithImage(folder[sel.name], t, image))
  }

  class App {
    /** The persisted map from document name to "image already attached". */
    var status: map<string, bool>

    constructor (loaded: map<string, bool>)
      ensures status == loaded
    {
      status := loaded;
    }

    /** One run of the page with the button pressed: list, select, process, record. */
    method Generate(listing: seq<string>, choice: nat, folder: map<string, DocValue>,
                    month: string, year: nat, image: Option<string>) returns (out: ClickOutcome)
      requires Filter(IsDocxName, listing) != [] ==> choice < |Filter(IsDocxName, listing)|
      modifies this
      ensures var sel := Select(DocumentOptions(listing, old(status)), choice);
        out == ClickResult(sel, folder, month, year, image) &&
        status == (if out.Download? then RecordUpload(old(status), sel.name, image.Some?) else old(status))
    {
      var options := DocumentOptions(listing, status);
      var sel := Select(options, choice);
      if !sel.Selected? || sel.name == [] {
        return Warning;
      }
      var tokens := CheckedTokensFor(month, year);
      if tokens.None? {
        return Failed;
      }
      if sel.name !in folder {
        return Failed;
      }
      var doc := new Document.Open(folder[sel.name]);
      doc.ProcessWithImage(tokens.value, image);
      if image.Some? {
        status := status[sel.name := true];
      }
      out := Download(DownloadName(sel.name), doc.Content());
    }
  }

  // ---------------------------------------------------------------------------
  // Lemmas

  /** Removing the check mark from a decorated name gives the name back, for a name that
      does not itself contain the mark. */
  lemma UndecorateDecorate(name: string, status: map<string, bool>)
    requires !Contains(name, CheckMark)
    ensures Undecorate(Decorate(name, status)) == name
  {
    if name in status && status[name] {
      RemoveAppendedKey(name, CheckMark);
    } else {
      ReplaceAllAbsent(name, CheckMark, "");
    }
  }

  /** The selected option names the file it was built from. */
  lemma SelectedIsListedDocument(listing: seq<string>, status: map<string, bool>, choice: nat)
    requires forall f :: f in listing ==> !Contains(f, CheckMark)
    requires choice < |Filter(IsDocxName, listing)|
    ensures Select(DocumentOptions(listing, status), choice) == Selected(Filter(IsDocxName, listing)[choice])
  {
    var docs := Filter(IsDocxName, listing);
    assert docs[choice] in docs;
    UndecorateDecorate(docs[choice], status);
  }

  /** The download name swaps the ".docx" extension for "_modificado.docx". */
  lemma DownloadNameOfDocx(stem: string)
    ensures DownloadName(stem + ".docx") == stem + "_modificado.docx"
  {
    var name := stem + ".docx";
    assert name[..|name| - 5] == stem;
  }

  /** As written, a folder without documents crashes the page, where the corrected
      selection leads to the warning, whatever the folder, month, year and image. */
  lemma EmptyFolderCrashesAsWritten(listing: seq<string>, status: map<string, bool>, folder: map<string, DocValue>,
                                    month: string, year: nat, image: Option<string>)
    requires forall f :: f in listing ==> !IsDocxName(f)
    ensures SelectAsWritten(DocumentOptions(listing, status), 0) == SelectionCrash
    ensures ClickResult(Select(DocumentOptions(listing, status), 0), folder, month, year, image) == Warning
  {
    FilterNone(IsDocxName, listing);
  }

  /** The concrete case: a folder holding only "notas.txt". */
  lemma NotesOnlyFolderCrashes()
    ensures SelectAsWritten(DocumentOptions(["notas.txt"], map[]), 0) == SelectionCrash
  {
    assert !IsDocxName("notas.txt");
    EmptyFolderCrashesAsWritten(["notas.txt"], map[], map[], "Enero", 2025, None);
  }

  /** Every option keeps the final 'x' of ".docx" once the check marks are removed. */
  lemma OptionKeepsX(name: string, status: map<string, bool>)
    requires IsDocxName(name)
    ensures 'x' in Undecorate(Decorate(name, status))
  {
    var d := Decorate(name, status);
    assert name[|name| - 1] == ".docx"[4];
    assert d[|name| - 1] == name[|name| - 1];
    assert 'x' in d;
    assert 'x' !in CheckMark;
    KeepsChar(d, CheckMark, "", 'x');
  }

  /** As written the warning branch is unreachable: every option ends in ".docx", so the
      selected name is never empty; the only way to select nothing crashes instead. */
  lemma WarningUnreachableAsWritten(listing: seq<string>, status: map<string, bool>, choice: nat)
    requires Filter(IsDocxName, listing) != [] ==> choice < |Filter(IsDocxName, listing)|
    ensures SelectAsWritten(DocumentOptions(listing, status), choice) != NothingSelected
    ensures SelectAsWritten(DocumentOptions(listing, status), choice) != Selected([])
  {
    var docs := Filter(IsDocxName, listing);
    if docs != [] {
      assert docs[choice] in docs;
      OptionKeepsX(docs[choice], status);
    }
  }

  /** Corrected: nothing is selected exactly when the folder has no documents. */
  lemma NothingSelectedIffNoDocuments(listing: seq<string>, status: map<string, bool>, choice: nat)
    requires Filter(IsDocxName, listing) != [] ==> choice < |Filter(IsDocxName, listing)|
    ensures Select(DocumentOptions(listing, status), choice) == NothingSelected <==>
            forall f :: f in listing ==> !IsDocxName(f)
  {
    var docs := Filter(IsDocxName, listing);
    if forall f :: f in listing ==> !IsDocxName(f) {
      FilterNone(IsDocxName, listing);
    } else {
      var f :| f in listing && IsDocxName(f);
      assert f in docs;
    }
  }
}
