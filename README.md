# Monthly contract documents: a verified model

Two Streamlit scripts fill Word contract templates for a chosen month. The batch script
(`descargardocsmes.py`) also appends the image files of an attachments folder as annexes,
and the single-document script (`app7.py`) appends one uploaded image. Both scripts:

1. build a token set from the month name and the current year (`textos_por_mes`):
   `textoPeriodo` becomes "M, Y", `textoRigeAPartirDe` becomes "1ero de M a 30 de M, Y",
   `textoDuranteElMes` becomes "durante el mes de m", and the text
   "No se presenta ninguna incapacidad..." is deleted;
2. rewrite every paragraph of the body, of every table cell and of every section header
   and footer. For each placeholder in order, if the paragraph's whole text contains it at
   that moment, each run is rewritten on its own with `str.replace`. Then the marker is
   deleted the same way;
3. unless one of the last five body paragraphs already mentions "anexos", append a page
   break and an "Anexos" title, then for each image a caption "Anexo: name", the picture and
   an empty paragraph.

The single-document page also keeps a map of the documents that already received an image.
It decorates their names with " ✅" in the selection list and offers the result as
"<name>_modificado.docx". The batch page processes every `.docx` of the documents folder and
zips the outputs as `documentos_<month>.zip`.

The substitution code is the same in both scripts, and the model states it once. The annex
code differs: one uploaded image captioned by its basename in `app7.py`, against a loop over
the attachments folder that appends nothing when it holds no image in `descargardocsmes.py`.
The model has one function for each, over shared heading and figure parts.

Modules:
- `Strings` (`strings.dfy`): the Python string operations involved. These are `in`,
  `str.replace` (with its partner functions `split` and `join`), `lower`, `strip`,
  `endswith`, `os.path.basename`, `os.path.join` and list filtering.
- `MonthTokens` (`tokens.dfy`): the token set.
- `DocModel` (`doc_model.dfy`): the document shape.
- `Substitution` (`substitution.dfy`): the engine. It is given as functions and as the
  nested loops, which are methods proved equal to those functions.
- `Annexes` (`annexes.dfy`): the annex detector and the exact appended paragraphs.
- `Documents` (`documents.dfy`): `procesar_documento` as a `Document` class whose paragraph
  lists are rewritten and extended in place.
- `AppDriver` (`app_driver.dfy`): the single-document page.
- `BatchDriver` (`batch_driver.dfy`): the batch page.

A paragraph is a list of run texts. `doc.add_paragraph(s)` gives one run, `Para([s])`, and
`doc.add_paragraph()` gives no runs, `Para([])`. A page break and a picture are paragraphs
without text. The current year, the directory listings and the contents of the document
files are parameters. A folder is a map from file name to document contents, and a listed
`.docx` absent from the map is a document that cannot be opened.

## Model

| member | source | states |
|---|---|---|
| MonthTokens.TokensFor | descargardocsmes.py:16-26 | the keys are `textoPeriodo`, `textoRigeAPartirDe`, `textoDuranteElMes` in dictionary order, and the marker is "No se presenta ninguna incapacidad..."; any month text is accepted |
| MonthTokens.CheckedTokensFor | app7.py:28-43 | a token set exists exactly when the month is one of the twelve Spanish month names (otherwise the month-number lookup fails), with the same keys and marker |
| MonthTokens.LastCommaAfterMonth | app7.py:35 | in "M, Y" the comma after the month is the last comma |
| MonthTokens.PeriodTextInjective | app7.py:35 | "M, Y" determines both the month and the year |
| MonthTokens.TokensInjective | descargardocsmes.py:17-26 | different months or years give different token sets |
| MonthTokens.MonthNameHasNoX | app7.py:29-32 | none of the twelve month names contains 'x' or 'X' |
| MonthTokens.NoXInMonthText | app7.py:35-37 | for a month without 'x' or 'X', no replacement text contains 'x' |
| MonthTokens.ReplacementsKeyFree | app7.py:35-42 | for one of the twelve months, no replacement text contains any placeholder (a placeholder formed across the edge between a replacement and the text around it is not excluded) |
| MonthTokens.PlaceholderAnchor | app7.py:40-42 | every placeholder has 'x' as its third character |
| MonthTokens.ValuesKeyFree | descargardocsmes.py:18-25 | for any month without 'x' or 'X', no replacement text contains a placeholder |
| Strings.Lower | app7.py:54 | lower-casing keeps the length and folds each character on its own |
| Strings.DecimalText | app7.py:35 | the year's text is a non-empty string of digits |
| Strings.ParseDecimalText | app7.py:34-35 | reading the year's text back gives the year |
| Strings.Split | app7.py:65 | `split` yields at least one piece, and the first piece is a prefix of the text |
| Strings.Filter | descargardocsmes.py:42 | a comprehension keeps exactly the entries that pass the test and never grows the list |
| Strings.FilterConcat | descargardocsmes.py:126-127 | filtering a concatenation is concatenating the filtered parts, so the listing order is kept |
| Strings.FilterNone | descargardocsmes.py:42-44 | when no entry passes the test the filtered list is empty |
| Strings.ContainsChar | app7.py:63 | every character of an occurring key occurs in the text |
| Strings.ContainsAfter | app7.py:63 | a key occurring in a text occurs in any longer text that ends with it |
| Strings.ContainsGrows | app7.py:63 | a key occurring in a text occurs in any longer text that starts with it |
| Strings.ReplaceAllAbsent | app7.py:65 | `replace` leaves a text without the key unchanged |
| Strings.ReplaceAllSelf | app7.py:65 | replacing a key by itself changes nothing, even for the empty key |
| Strings.InsertNothing | app7.py:65 | the empty key replaced by the empty text leaves the text unchanged |
| Strings.ReplaceAllIsJoinSplit | app7.py:65 | `s.replace(k, v) == v.join(s.split(k))` for a non-empty key |
| Strings.JoinSplit | app7.py:65 | joining the split pieces with the key gives the text back |
| Strings.SplitPiecesKeyFree | app7.py:65 | no split piece contains the key |
| Strings.RemoveAppendedKey | app7.py:136 | removing a two-character mark of distinct characters from a name that ends in it, and holds it nowhere else, gives the name back |
| Strings.ReplaceAnchoredKey | app7.py:65 | when a character occurs in the key only once and never before the key, the key appended to a text is the one occurrence replaced |
| Strings.ShortNoContains | app7.py:63 | a text shorter than the key cannot contain it |
| Strings.KeepsChar | app7.py:136 | a character that is not in the key survives `replace` |
| Strings.ContainsCharFrom | app7.py:63 | an occurrence of a key puts its `j`-th character at index `j` or later, strictly later unless the key is a prefix |
| Strings.ContainsOnlyAsPrefix | app7.py:63 | when a key's `j`-th character occurs in the text only at index `j`, the key occurs only as a prefix |
| Strings.ReplaceLeadingKey | app7.py:65 | a key at the start of the text is replaced and the scan resumes right after it |
| Strings.StepBeforeAnchor | app7.py:65 | when the key's anchor character is missing from a non-empty stretch before the key, the scan keeps the first character and moves on |
| Strings.ReplaceAnchoredKeyThen | app7.py:68 | when a character occurs in the key only once and not in the text before it, that key is the first occurrence replaced and the scan resumes after it |
| Strings.StripLeftKeepsWord | app7.py:54 | leading white space does not change whether a word occurs |
| Strings.ContainsDropLast | app7.py:54 | dropping a trailing white space keeps a word that does not end in white space |
| Strings.StripRightKeepsWord | app7.py:54 | trailing white space does not change whether a word occurs |
| Strings.StripKeepsWord | app7.py:54 | `w in s.strip()` exactly when `w in s`, for a word without white space at either end |
| Strings.LowerStripLeft | app7.py:54 | lower-casing commutes with dropping leading white space |
| Strings.LowerStripRight | app7.py:54 | lower-casing commutes with dropping trailing white space |
| Strings.LowerStrip | app7.py:54 | `s.strip().lower() == s.lower().strip()` |
| Strings.BasenameAfterSlash | descargardocsmes.py:110 | the basename of a path that ends in "/" followed by a name is that name |
| Strings.BasenameOfJoin | descargardocsmes.py:128 | an entry name without '/' joined to any directory has that name as its basename |
| Substitution.ApplyKey | app7.py:62-65 | one placeholder step keeps the number of runs |
| Substitution.ApplyReplacements | app7.py:62-65 | the placeholder steps in order keep the number of runs |
| Substitution.SubstituteRuns | app7.py:62-68 | substitution of a paragraph keeps the number of runs |
| Substitution.SubstitutionKeepsShape | app7.py:61-91 | substitution keeps the number of body paragraphs, tables, rows, cells, sections and header and footer paragraphs, the kind of every paragraph and the run count of every paragraph |
| Substitution.RunKeyInText | app7.py:63 | a key inside one run is inside the paragraph text |
| Substitution.KeyInRunIsReplaced | app7.py:63-65 | when one run holds the key, every run of the paragraph is rewritten with `replace` |
| Substitution.SplitKeySurvives | app7.py:63-65 | when no single run holds the key, the runs are unchanged, even if the key, split over runs, is in the paragraph text |
| Substitution.SplitPlaceholderExample | app7.py:63-65 | `textoPeriodo` written as the runs "texto" and "Periodo" is in the text, yet it is not replaced |
| Substitution.ContainsWhenReplaced | app7.py:66-68 | a text that deleting the key changes contains the key |
| Substitution.ReplacementsAbsent | app7.py:62-63 | a paragraph whose text holds none of the keys is unchanged by the placeholder steps |
| Substitution.RejoinTextAnchor | app7.py:67-68 | the only 'x' of "textoPer" + marker + "iodo" is at index 2 |
| Substitution.RejoinTextKeyFree | app7.py:62-63 | "textoPer" + marker + "iodo" holds no placeholder, for any month and year |
| Substitution.RejoinDeletion | app7.py:67-68 | deleting the marker from the single run "textoPer" + marker + "iodo" gives `textoPeriodo` |
| Substitution.PlaceholderRejoined | app7.py:62-68 | for every month and year, substituting the single run "textoPer" + marker + "iodo" leaves the placeholder `textoPeriodo` behind |
| Substitution.TokenFreeRunsUnchanged | app7.py:62-68 | a paragraph whose text holds no placeholder and not the marker is unchanged |
| Substitution.TokenFreeParagraphsUnchanged | app7.py:61-68 | a list of such paragraphs is unchanged |
| Substitution.TokenFreeDocumentUnchanged | app7.py:61-91 | a document with no token anywhere that substitution visits is unchanged |
| Substitution.SubstitutionIdempotentOnceExhausted | descargardocsmes.py:73-105 | once a pass leaves no token, a second pass changes nothing |
| Substitution.PeriodStep | app7.py:63-65 | the single run "Periodo: textoPeriodo" becomes "Periodo: " followed by the replacement |
| Substitution.NoAnchorsTokenFree | app7.py:39-43 | a text without 'x' and 'N' holds no placeholder and not the marker |
| Substitution.PeriodExample | app7.py:61-68 | with month "Marzo", the paragraph "Periodo: textoPeriodo" becomes "Periodo: Marzo, Y" |
| Substitution.MarkerAnchors | app7.py:38 | the marker's 'N' occurs only at its start, and the marker holds no 'x' |
| Substitution.MarkerStep | app7.py:66-68 | deleting the marker from a paragraph that ends in it, with no 'N' before it, leaves the rest |
| Substitution.MarkerDeleted | descargardocsmes.py:78-80 | for a single-run paragraph made of a text holding neither 'x' nor 'N' followed by the marker, the three placeholder steps leave it alone and the marker is deleted, keeping the text |
| Substitution.RewriteRuns | app7.py:63-65 | the run loop computes the placeholder step |
| Substitution.RewriteParagraph | app7.py:62-68 | the loop over the dictionary, then the deletion, computes the paragraph's substitution |
| Substitution.RewriteParagraphs | app7.py:61-68 | the body loop substitutes every paragraph |
| Substitution.RewriteRow | app7.py:72-80 | the cell loop substitutes every cell of the row |
| Substitution.RewriteTable | app7.py:71-80 | the row loop substitutes every row of the table |
| Substitution.RewriteTables | app7.py:70-80 | the table loop substitutes every table |
| Substitution.RewriteSections | app7.py:82-91 | the section loop substitutes every header and every footer |
| Annexes.TailStart | app7.py:53 | `paragraphs[-5:]` holds the last `min(5, n)` paragraphs |
| Annexes.AnyMentions | app7.py:53-56 | true exactly when some paragraph of the list mentions "anexos" |
| Annexes.HasAnnexSection | app7.py:52-56 | `contiene_anexos` is true exactly when one of the last `min(5, n)` paragraphs contains "anexos" once stripped and lower-cased |
| Annexes.EmptyHasNoAnnexSection | descargardocsmes.py:35-39 | an empty document has no annex section |
| Annexes.MentionsIgnoresStrip | descargardocsmes.py:37 | the `strip()` is redundant: a paragraph mentions the annexes exactly when its lower-cased text contains "anexos" |
| Annexes.FiguresLayout | descargardocsmes.py:55-67 | k images append 3k paragraphs, and image j is at positions 3j to 3j+2 as caption, picture and spacer |
| Annexes.ImageAnnexLayout | app7.py:93-112 | no image appends nothing; an image appends the page break, "Anexos", "Anexo: basename", the picture and an empty paragraph, or only the last three when the annex section exists |
| Annexes.FolderAnnexLayout | descargardocsmes.py:41-67 | no image appends nothing; k images append 3k+2 paragraphs (heading pair first) or 3k when the annex section exists, with image j at offset 3j after the heading |
| Annexes.FiguresStep | descargardocsmes.py:55-67 | the figures of one more image are the figures so far followed by that image's figure |
| Annexes.HeadingMentions | app7.py:96 | the appended "Anexos" paragraph mentions the annexes |
| Annexes.HeadingIsDetected | app7.py:94-96 | the appended "Anexos" heading is itself detected afterwards, so a second image would not add another heading |
| Documents.Document.Open | app7.py:59 | opening a document gives its contents |
| Documents.Document.Substitute | app7.py:61-91 | the three loops rewrite body, tables and sections in place to their substitution |
| Documents.Document.AddHeadingIfMissing | app7.py:94-100 | appends the page break and "Anexos" exactly when the annex section is missing, and changes nothing else |
| Documents.Document.AddFigure | app7.py:107-112 | appends caption, picture and spacer, and changes nothing else |
| Documents.Document.AddFigures | descargardocsmes.py:55-67 | the image loop appends one captioned picture per image, in order, and changes nothing else |
| Documents.Document.AddImageAnnex | app7.py:93-112 | appends the annex for the optional uploaded image, and changes nothing else |
| Documents.Document.AddFolderAnnexes | descargardocsmes.py:41-67 | appends the annex for the attachments folder's images in listing order, and changes nothing else |
| Documents.Document.ProcessWithImage | app7.py:58-112 | the document becomes its substitution with the image annex appended |
| Documents.Document.ProcessWithFolder | descargardocsmes.py:69-108 | the document becomes its substitution with the folder annex appended |
| Documents.ProcessedWithImageAppendsOnly | app7.py:93-112 | the substituted body is an unchanged prefix, tables and sections are only substituted, and without an image nothing is appended |
| Documents.TokenFreeBodyIsPrefix | app7.py:93-112 | for a document without tokens, the original body is a prefix and an image adds 5 paragraphs, or 3 when the annex section exists |
| Documents.NoImagesNoAnnex | descargardocsmes.py:42-44 | with no image in the attachments listing, only the substitution is applied |
| AppDriver.SelectAsWritten | app7.py:135-136 | as written, the selection crashes exactly when there is no option, and never selects nothing |
| AppDriver.Select | app7.py:135-141 | corrected: nothing is selected exactly when there is no option, and it never crashes |
| AppDriver.RecordUpload | app7.py:147-148 | with an image the document is marked and every other entry is kept; without one the map is unchanged |
| AppDriver.App.constructor | app7.py:122 | the page starts from the loaded status map |
| AppDriver.App.Generate | app7.py:140-152 | the outcome is that of the selected document under the corrected selection; the status map changes only on a download with an uploaded image |
| AppDriver.UndecorateDecorate | app7.py:130-136 | removing " ✅" from a decorated name gives the name back, for a name without " ✅" |
| AppDriver.SelectedIsListedDocument | app7.py:130-136 | the selected option, undecorated, is the `.docx` entry it was built from (for names without " ✅") |
| AppDriver.DownloadNameOfDocx | app7.py:152 | the download name of "stem.docx" is "stem_modificado.docx" |
| AppDriver.EmptyFolderCrashesAsWritten | app7.py:135-136 | as written, any folder without `.docx` entries crashes the page; the corrected selection shows the warning, whatever the documents, month, year and image |
| AppDriver.NotesOnlyFolderCrashes | app7.py:135-136 | as written, a folder holding only "notas.txt" crashes the page |
| AppDriver.OptionKeepsX | app7.py:131-136 | every option, once " ✅" is removed, still holds the final 'x' of ".docx", so it is never empty |
| AppDriver.WarningUnreachableAsWritten | app7.py:141-154 | as written, for any listing (names holding " ✅" included), the selection is never empty, so the warning branch is unreachable |
| AppDriver.NothingSelectedIffNoDocuments | app7.py:153-154 | corrected: nothing is selected exactly when the folder has no `.docx` entry |
| BatchDriver.ProcessAll | descargardocsmes.py:122-141 | the button's loop yields the zip entries of the whole listing, the warning when there are none, or the failure on the first document that cannot be opened |
| BatchDriver.AbortSticks | descargardocsmes.py:126-130 | once a document fails, the rest of the listing does not change the outcome |
| BatchDriver.AbortedOnUnreadableDocument | descargardocsmes.py:126-129 | the run fails only on a listed `.docx` entry that cannot be opened |
| BatchDriver.OneEntryPerDocument | descargardocsmes.py:126-136 | with every document readable, there is exactly one entry per `.docx` entry, in listing order, named as the source file and holding it processed |
| BatchDriver.BatchOutcomeShape | descargardocsmes.py:132-141 | when every listed `.docx` entry can be opened (and no entry name holds '/'): the warning comes exactly when there is no `.docx` entry; otherwise the archive is `documentos_<month>.zip`, with one entry per document named as the document |
| BatchDriver.CollectedMeansReadable | descargardocsmes.py:126-130 | a run that gets through the whole listing opened every listed `.docx` entry |
| BatchDriver.BatchFailsOnUnreadable | descargardocsmes.py:126-130 | when some listed `.docx` entry cannot be opened, the button fails, naming such an entry, with no archive and no warning |

## Left out

- The Streamlit interface is not modelled: widgets, buttons, the download controls and the
  warnings. The month and the selected index are parameters, and the branches are outcomes.
- I/O is not modelled. Reading and writing the JSON status file, `os.listdir`, temporary
  paths, `doc.save` and zip writing are out. Listings are parameters, documents are values,
  and the archive is its list of entries. The fixed output path of app7.py:114 is not
  modelled.
- `datetime.now().year` is a parameter.
- `recortar_bordes_blancos` (white-border cropping) is not modelled. Pictures are opaque
  names.
- Formatting is not modelled: alignment, `Pt` font sizes, bold and the `Inches(6)` width.
  The unused `proporcion` is out too.
- python-docx parsing and serialisation are not modelled. Merged table cells and linked
  headers, which python-docx hands out more than once, are modelled as distinct cells and
  sections, so they are substituted once.
- `str.lower()` is modelled for ASCII letters only, and `str.strip()` for the ASCII white space it
  removes: space, tab, line feed, carriage return, vertical tab, form feed and the separators
  U+001C to U+001F. Non-ASCII white space (U+0085, U+00A0, U+2028 and the like) is not
  modelled.
- Substitution.SubstituteRuns: there is no general lemma that no placeholder remains after
  substitution. Deleting the marker can join text into a new placeholder, so that claim is
  false in general: PlaceholderRejoined proves that the single run "textoPer" + marker +
  "iodo" comes out as `textoPeriodo`, for every month and year. MarkerDeleted and
  PeriodExample state the result for concrete shapes.
- AppDriver.App.Generate: the selection box's choice is a parameter, and saving the status
  map to its file is not modelled. Generate uses the corrected selection `Select`: on a
  documents folder without any `.docx` it returns `Warning`, whereas as written the page raises
  at app7.py:136 on every run, before the button is reached (see Findings and
  `SelectAsWritten`).
- ReplacementsKeyFree: states only that no replacement text contains a placeholder. It does
  not exclude a placeholder formed across the edge between a replacement and the run text
  around it, so it does not prove that one step never feeds a later one.
- MarkerDeleted: proved only for a single-run paragraph whose text before the marker holds
  neither 'x' nor 'N'; these anchor characters let the proof rule out the placeholders and
  locate the one occurrence of the marker. Ordinary text such as "Nota" is not covered.
- BatchOutcomeShape: proved only when every listed `.docx` entry can be opened and no entry
  name holds '/'; when some entry cannot be opened, BatchFailsOnUnreadable gives the outcome.
- Non-text run content is not modelled. In the source, every run of a paragraph whose text
  holds a key or the marker has its text reassigned (app7.py:64-65, 67-68, 76-80, 87-91;
  descargardocsmes.py:76-80, 89-93, 101-105), and python-docx's `Run.text` setter drops the
  pictures, breaks and fields such a run held. Here a run is only its text, so rewriting a
  run that does not hold the key is the identity.
- Images are assumed readable. An attachment (descargardocsmes.py:57) or an uploaded image
  (app7.py:102) that the imaging library cannot open raises in the source, aborting the whole
  batch, or the click with no download and no status update; the model has no such failure,
  so ProcessAll, AbortedOnUnreadableDocument and Generate fail only on a document that cannot
  be opened.

## Findings

| source | as written | input that shows it | evidently intended | confidence | as-written member | corrected member |
|---|---|---|---|---|---|---|
| app7.py:135-136 | with no `.docx` file the selection box returns `None`, and `doc_opcion.replace(" ✅", "")` raises before the button, so the warning at line 154 can never be shown | a documents folder holding only "notas.txt" | an empty document list selects nothing, and pressing the button shows "Selecciona un documento." | high; not executed | AppDriver.SelectAsWritten | AppDriver.Select |
