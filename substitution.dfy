/** The text substitution engine of the document processing. For every paragraph of the body,
    of every table cell and of every section header and footer: for each placeholder in
    order, if the paragraph's text contains it at that moment, every run is rewritten on its
    own with `str.replace`; then the deletion marker is removed the same way. */
module Substitution {
  import opened Strings
  import opened MonthTokens
  import opened DocModel

  // ---------------------------------------------------------------------------
  // Specification

  /** One step: the containment test is on the whole paragraph text, the rewrite run by run. */
  function ApplyKey(runs: seq<string>, key: string, val: string): (r: seq<string>)
    ensures |r| == |runs|
  {
    if Contains(Concat(runs), key)
    then seq(|runs|, i requires 0 <= i < |runs| => ReplaceAll(runs[i], key, val))
    else runs
  }

  function ApplyReplacements(runs: seq<string>, pairs: seq<(string, string)>): (r: seq<string>)
    ensures |r| == |runs|
    decreases |pairs|
  {
    if pairs == [] then runs
    else ApplyReplacements(ApplyKey(runs, pairs[0].0, pairs[0].1), pairs[1..])
  }

  /** All placeholder steps in order, then the deletion of the marker. */
  function SubstituteRuns(runs: seq<string>, t: TokenSet): (r: seq<string>)
    ensures |r| == |runs|
  {
    ApplyKey(ApplyReplacements(runs, t.replacements), t.marker, "")
  }

  function SubstituteParagraph(p: Paragraph, t: TokenSet): Paragraph
  {
    match p
    case Para(runs) => Para(SubstituteRuns(runs, t))
    case _ => p
  }

  function SubstituteParagraphs(ps: seq<Paragraph>, t: TokenSet): seq<Paragraph>
  {
    seq(|ps|, i requires 0 <= i < |ps| => SubstituteParagraph(ps[i], t))
  }

  function SubstituteCell(c: Cell, t: TokenSet): Cell
  {
    Cell(SubstituteParagraphs(c.paragraphs, t))
  }

  function SubstituteRow(r: Row, t: TokenSet): Row
  {
    Row(seq(|r.cells|, i requires 0 <= i < |r.cells| => SubstituteCell(r.cells[i], t)))
  }

  function SubstituteTable(tb: Table, t: TokenSet): Table
  {
    Table(seq(|tb.rows|, i requires 0 <= i < |tb.rows| => SubstituteRow(tb.rows[i], t)))
  }

  function SubstituteTables(ts: seq<Table>, t: TokenSet): seq<Table>
  {
    seq(|ts|, i requires 0 <= i < |ts| => SubstituteTable(ts[i], t))
  }

  function SubstituteSection(s: Section, t: TokenSet): Section
  {
    Section(SubstituteParagraphs(s.header, t), SubstituteParagraphs(s.footer, t))
  }

  function SubstituteSections(ss: seq<Section>, t: TokenSet): seq<Section>
  {
    seq(|ss|, i requires 0 <= i < |ss| => SubstituteSection(ss[i], t))
  }

  function SubstituteDocument(d: DocValue, t: TokenSet): DocValue
  {
    DocValue(SubstituteParagraphs(d.body, t), SubstituteTables(d.tables, t), SubstituteSections(d.sections, t))
  }

  // ---------------------------------------------------------------------------
  // Shape and token-freedom

  /** Two paragraphs of the same kind; text paragraphs with equally many runs. */
  predicate SameParagraphShape(p: Paragraph, q: Paragraph)
  {
    match p
    case Para(rs) => q.Para? && |q.runs| == |rs|
    case _ => q == p
  }

  predicate SameParagraphsShape(ps: seq<Paragraph>, qs: seq<Paragraph>)
  {
    |ps| == |qs| && forall i :: 0 <= i < |ps| ==> SameParagraphShape(ps[i], qs[i])
  }

  predicate SameTableShape(a: Table, b: Table)
  {
    |a.rows| == |b.rows| &&
    forall i :: 0 <= i < |a.rows| ==>
      |a.rows[i].cells| == |b.rows[i].cells| &&
      forall j :: 0 <= j < |a.rows[i].cells| ==>
        SameParagraphsShape(a.rows[i].cells[j].paragraphs, b.rows[i].cells[j].paragraphs)
  }

  /** Same number of body paragraphs, tables, rows, cells, sections and header and footer
      paragraphs, and the same number of runs in every paragraph. */
  predicate SameShape(d: DocValue, e: DocValue)
  {
    SameParagraphsShape(d.body, e.body) &&
    |d.tables| == |e.tables| &&
    (forall i :: 0 <= i < |d.tables| ==> SameTableShape(d.tables[i], e.tables[i])) &&
    |d.sections| == |e.sections| &&
    (forall i :: 0 <= i < |d.sections| ==>
      SameParagraphsShape(d.sections[i].header, e.sections[i].header) &&
      SameParagraphsShape(d.sections[i].footer, e.sections[i].footer))
  }

  /** No placeholder and not the marker occurs in the text. */
  predicate TokenFree(s: string, t: TokenSet)
  {
    (forall i :: 0 <= i < |t.replacements| ==> !Contains(s, t.replacements[i].0)) &&
    !Contains(s, t.marker)
  }

  predicate ParagraphsTokenFree(ps: seq<Paragraph>, t: TokenSet)
  {
    forall i :: 0 <= i < |ps| ==> TokenFree(Text(ps[i]), t)
  }

  /** Every paragraph substitution visits is free of tokens. */
  predicate DocumentTokenFree(d: DocValue, t: TokenSet)
  {
    ParagraphsTokenFree(d.body, t) &&
    (forall i, r, c :: 0 <= i < |d.tables| && 0 <= r < |d.tables[i].rows| && 0 <= c < |d.tables[i].rows[r].cells| ==>
      ParagraphsTokenFree(d.tables[i].rows[r].cells[c].paragraphs, t)) &&
    (forall i :: 0 <= i < |d.sections| ==>
      ParagraphsTokenFree(d.sections[i].header, t) && ParagraphsTokenFree(d.sections[i].footer, t))
  }

  // ---------------------------------------------------------------------------
  // Lemmas

  /** Substitution only rewrites run texts: every shape is kept. */
  lemma SubstitutionKeepsShape(d: DocValue, t: TokenSet)
    ensures SameShape(d, SubstituteDocument(d, t))
  {
  }

  /** Run-local replacement: if no single run contains the key, the runs stay as they are,
      even when the key, split over several runs, occurs in the paragraph text. */
  lemma SplitKeySurvives(runs: seq<string>, key: string, val: string)
    requires forall i :: 0 <= i < |runs| ==> !Contains(runs[i], key)
    ensures ApplyKey(runs, key, val) == runs
  {
    if Contains(Concat(runs), key) {
      forall i | 0 <= i < |runs| ensures ReplaceAll(runs[i], key, val) == runs[i] {
        ReplaceAllAbsent(runs[i], key, val);
      }
    }
  }

  /** The placeholder `textoPeriodo` written as the two runs "texto" and "Periodo" is in the
      paragraph text, yet survives the substitution. */
  lemma SplitPlaceholderExample(val: string)
    ensures Contains(Concat(["texto", "Periodo"]), PeriodKey)
    ensures ApplyKey(["texto", "Periodo"], PeriodKey, val) == ["texto", "Periodo"]
  {
    var runs := ["texto", "Periodo"];
    assert Concat(runs) == PeriodKey by {
      assert Concat(runs[1..]) == "Periodo" + Concat([]);
    }
    assert IsPrefix(PeriodKey, Concat(runs));
    ShortNoContains(runs[0], PeriodKey);
    ShortNoContains(runs[1], PeriodKey);
    SplitKeySurvives(runs, PeriodKey, val);
  }

  /** A key occurring in one run occurs in the paragraph text. */
  lemma {:induction false} RunKeyInText(runs: seq<string>, i: nat, key: string)
    requires i < |runs| && Contains(runs[i], key)
    ensures Contains(Concat(runs), key)
    decreases |runs|
  {
    if i == 0 {
      ContainsGrows(runs[0], Concat(runs), key);
    } else {
      RunKeyInText(runs[1..], i - 1, key);
      ContainsAfter(runs[0], Concat(runs[1..]), key);
    }
  }

  /** A key occurring in one run makes the step rewrite every run of the paragraph. */
  lemma KeyInRunIsReplaced(runs: seq<string>, i: nat, key: string, val: string)
    requires i < |runs| && Contains(runs[i], key)
    ensures forall j :: 0 <= j < |runs| ==> ApplyKey(runs, key, val)[j] == ReplaceAll(runs[j], key, val)
  {
    RunKeyInText(runs, i, key);
  }

  /** A text that replacing the key changes contains the key. */
  lemma ContainsWhenReplaced(s: string, key: string)
    requires ReplaceAll(s, key, "") != s
    ensures Contains(s, key)
  {
    if !Contains(s, key) {
      ReplaceAllAbsent(s, key, "");
    }
  }

  lemma {:induction false} ReplacementsAbsent(runs: seq<string>, pairs: seq<(string, string)>)
    requires forall i :: 0 <= i < |pairs| ==> !Contains(Concat(runs), pairs[i].0)
    ensures ApplyReplacements(runs, pairs) == runs
    decreases |pairs|
  {
    if pairs != [] {
      assert !Contains(Concat(runs), pairs[0].0);
      ReplacementsAbsent(runs, pairs[1..]);
    }
  }

  /** A paragraph whose text holds no token is left unchanged. */
  lemma TokenFreeRunsUnchanged(runs: seq<string>, t: TokenSet)
    requires TokenFree(Concat(runs), t)
    ensures SubstituteRuns(runs, t) == runs
  {
    ReplacementsAbsent(runs, t.replacements);
  }

  lemma TokenFreeParagraphsUnchanged(ps: seq<Paragraph>, t: TokenSet)
    requires ParagraphsTokenFree(ps, t)
    ensures SubstituteParagraphs(ps, t) == ps
  {
    forall i | 0 <= i < |ps| ensures SubstituteParagraph(ps[i], t) == ps[i] {
      if ps[i].Para? {
        TokenFreeRunsUnchanged(ps[i].runs, t);
      }
    }
  }

  /** If no paragraph holds a placeholder or the marker, processing changes no text. */
  lemma TokenFreeDocumentUnchanged(d: DocValue, t: TokenSet)
    requires DocumentTokenFree(d, t)
    ensures SubstituteDocument(d, t) == d
  {
    TokenFreeParagraphsUnchanged(d.body, t);
    forall i | 0 <= i < |d.tables| ensures SubstituteTable(d.tables[i], t) == d.tables[i] {
      var tb := d.tables[i];
      forall r | 0 <= r < |tb.rows| ensures SubstituteRow(tb.rows[r], t) == tb.rows[r] {
        var row := tb.rows[r];
        forall c | 0 <= c < |row.cells| ensures SubstituteCell(row.cells[c], t) == row.cells[c] {
          TokenFreeParagraphsUnchanged(row.cells[c].paragraphs, t);
        }
      }
    }
    forall i | 0 <= i < |d.sections| ensures SubstituteSection(d.sections[i], t) == d.sections[i] {
      TokenFreeParagraphsUnchanged(d.sections[i].header, t);
      TokenFreeParagraphsUnchanged(d.sections[i].footer, t);
    }
  }

  /** Once the tokens are exhausted, a second substitution pass changes nothing. */
  lemma SubstitutionIdempotentOnceExhausted(d: DocValue, t: TokenSet)
    requires DocumentTokenFree(SubstituteDocument(d, t), t)
    ensures SubstituteDocument(SubstituteDocument(d, t), t) == SubstituteDocument(d, t)
  {
    TokenFreeDocumentUnchanged(SubstituteDocument(d, t), t);
  }

  /** The first step of the example: the single run holding the placeholder is rewritten. */
  lemma PeriodStep(v: string)
    ensures ApplyKey(["Periodo: " + PeriodKey], PeriodKey, v) == ["Periodo: " + v]
  {
    var s := "Periodo: " + PeriodKey;
    ReplaceAnchoredKey("Periodo: ", PeriodKey, v, 2);
    ReplaceAnchoredKey("Periodo: ", PeriodKey, "", 2);
    assert |ReplaceAll(s, PeriodKey, "")| < |s|;
    ContainsWhenReplaced(s, PeriodKey);
    assert Concat([s]) == s + Concat([]) == s;
    assert Contains(Concat([s]), PeriodKey);
    var r := ApplyKey([s], PeriodKey, v);
    assert r[0] == ReplaceAll(s, PeriodKey, v);
  }

  /** A text without 'x' and 'N' holds neither a placeholder nor the marker. */
  lemma NoAnchorsTokenFree(text: string, month: string, year: nat)
    requires 'x' !in text && 'N' !in text
    ensures TokenFree(text, TokensFor(month, year))
  {
    var t := TokensFor(month, year);
    forall i | 0 <= i < |t.replacements| ensures !Contains(text, t.replacements[i].0) {
      var k := t.replacements[i].0;
      assert k[2] == 'x';
      if Contains(text, k) { ContainsChar(text, k, 2); }
    }
    if Contains(text, DeletionMarker) { ContainsChar(text, DeletionMarker, 0); }
  }

  /** The end-to-end example: with month "Marzo", the paragraph "Periodo: textoPeriodo" in a
      single run becomes "Periodo: Marzo, <year>". */
  lemma PeriodExample(year: nat)
    ensures SubstituteRuns(["Periodo: " + PeriodKey], TokensFor("Marzo", year))
         == ["Periodo: " + PeriodText("Marzo", year)]
  {
    var t := TokensFor("Marzo", year);
    var v := PeriodText("Marzo", year);
    var text := "Periodo: " + v;
    PeriodStep(v);
    NoXInMonthText("Marzo", year);
    assert 'N' !in text by {
      assert 'N' !in DecimalText(year);
    }
    NoAnchorsTokenFree(text, "Marzo", year);
    assert Concat([text]) == text + Concat([]) == text;
    assert TokenFree(Concat([text]), t);
    var rest := t.replacements[1..];
    assert forall i :: 0 <= i < |rest| ==> rest[i] == t.replacements[i + 1];
    ReplacementsAbsent([text], rest);
    assert ApplyReplacements(["Periodo: " + PeriodKey], t.replacements) == ApplyReplacements([text], rest);
  }

  /** The marker's first character, 'N', occurs nowhere else in it, and it holds no 'x'. */
  lemma MarkerAnchors()
    ensures forall m :: 0 < m < |DeletionMarker| ==> DeletionMarker[m] != 'N'
    ensures 'x' !in DeletionMarker
  {
  }

  /** Deleting the marker from a text that ends in it, with no 'N' before it. */
  lemma MarkerStep(a: string)
    requires 'N' !in a
    ensures ApplyKey([a + DeletionMarker], DeletionMarker, "") == [a]
  {
    var s := a + DeletionMarker;
    MarkerAnchors();
    ReplaceAnchoredKey(a, DeletionMarker, "", 0);
    assert |a| < |s|;
    ContainsWhenReplaced(s, DeletionMarker);
    assert Concat([s]) == s + Concat([]) == s;
    assert Contains(Concat([s]), DeletionMarker);
    var r := ApplyKey([s], DeletionMarker, "");
    assert r[0] == ReplaceAll(s, DeletionMarker, "") == a;
    assert |r| == 1;
  }

  /** The deletion step: a paragraph ending in the marker, with no 'x' and no 'N' before it,
      loses the marker and keeps the rest, after the three placeholder steps left it alone. */
  lemma MarkerDeleted(a: string, month: string, year: nat)
    requires 'x' !in a && 'N' !in a
    ensures SubstituteRuns([a + DeletionMarker], TokensFor(month, year)) == [a]
  {
    var t := TokensFor(month, year);
    var s := a + DeletionMarker;
    MarkerAnchors();
    assert Concat([s]) == s + Concat([]) == s;
    assert 'x' !in s;
    forall i | 0 <= i < |t.replacements| ensures !Contains(Concat([s]), t.replacements[i].0) {
      var k := t.replacements[i].0;
      assert k[2] == 'x';
      if Contains(s, k) { ContainsChar(s, k, 2); }
    }
    ReplacementsAbsent([s], t.replacements);
    MarkerStep(a);
  }

  /** A paragraph whose marker sits inside a split placeholder: "textoPer", the marker, "iodo". */
  const RejoinText: string := "textoPer" + DeletionMarker + "iodo"

  /** Its only 'x' is the one at index 2. */
  lemma RejoinTextAnchor()
    ensures forall i :: 0 <= i < |RejoinText| && i != 2 ==> RejoinText[i] != 'x'
  {
    var s := RejoinText;
    var m := DeletionMarker;
    MarkerAnchors();
    forall i | 0 <= i < |s| && i != 2 ensures s[i] != 'x' {
      if i < 8 {
        assert s[i] == "textoPer"[i];
      } else if i < 8 + |m| {
        assert s[i] == m[i - 8];
        assert m[i - 8] in m;
      } else {
        assert s[i] == "iodo"[i - 8 - |m|];
      }
    }
  }

  /** The text holds no placeholder, so the three placeholder steps leave it alone. */
  lemma RejoinTextKeyFree(month: string, year: nat)
    ensures forall i :: 0 <= i < |TokensFor(month, year).replacements| ==>
      !Contains(Concat([RejoinText]), TokensFor(month, year).replacements[i].0)
  {
    var t := TokensFor(month, year);
    var s := RejoinText;
    assert Concat([s]) == s + Concat([]) == s;
    RejoinTextAnchor();
    assert s[5] == 'P' && s[8] == 'N';
    forall i | 0 <= i < |t.replacements| ensures !Contains(s, t.replacements[i].0) {
      var k := t.replacements[i].0;
      PlaceholderAnchor(k);
      ContainsOnlyAsPrefix(s, k, 2);
      assert k[5] != s[5] || k[8] != s[8];
    }
  }

  /** Deleting the marker joins "textoPer" and "iodo" into the placeholder `textoPeriodo`. */
  lemma RejoinDeletion()
    ensures ApplyKey([RejoinText], DeletionMarker, "") == [PeriodKey]
  {
    var s := RejoinText;
    MarkerAnchors();
    assert 'N' !in "textoPer";
    ReplaceAnchoredKeyThen("textoPer", DeletionMarker, "", "iodo", 0);
    ShortNoContains("iodo", DeletionMarker);
    ReplaceAllAbsent("iodo", DeletionMarker, "");
    assert ReplaceAll(s, DeletionMarker, "") == PeriodKey;
    ContainsWhenReplaced(s, DeletionMarker);
    assert Concat([s]) == s + Concat([]) == s;
    var r := ApplyKey([s], DeletionMarker, "");
    assert r[0] == PeriodKey && |r| == 1;
  }

  /** Substitution can leave a placeholder behind: for every month and year, the single run
      "textoPer" + marker + "iodo" holds no placeholder, so the three steps skip it, and the
      deletion of the marker then forms `textoPeriodo`. */
  lemma PlaceholderRejoined(month: string, year: nat)
    ensures SubstituteRuns([RejoinText], TokensFor(month, year)) == [PeriodKey]
  {
    RejoinTextKeyFree(month, year);
    ReplacementsAbsent([RejoinText], TokensFor(month, year).replacements);
    RejoinDeletion();
  }

  // ---------------------------------------------------------------------------
  // The nested loops of the document processing, each proved against the function above

  /** One placeholder step over a paragraph's runs: when the text holds the key, each run is
      rewritten on its own. */
  method RewriteRuns(runs: seq<string>, key: string, val: string) returns (rs: seq<string>)
    ensures rs == ApplyKey(runs, key, val)
  {
    rs := runs;
    if Contains(Concat(runs), key) {
      var i := 0;
      while i < |rs|
        invariant 0 <= i <= |rs| == |runs|
        invariant forall j :: 0 <= j < i ==> rs[j] == ReplaceAll(runs[j], key, val)
        invariant forall j :: i <= j < |rs| ==> rs[j] == runs[j]
      {
        rs := rs[i := ReplaceAll(rs[i], key, val)];
        i := i + 1;
      }
    }
  }

  /** All placeholders in dictionary order, then the marker, on one paragraph. */
  method RewriteParagraph(p: Paragraph, t: TokenSet) returns (q: Paragraph)
    ensures q == SubstituteParagraph(p, t)
  {
    if !p.Para? {
      return p;
    }
    var runs := p.runs;
    var k := 0;
    while k < |t.replacements|
      invariant 0 <= k <= |t.replacements|
      invariant ApplyReplacements(runs, t.replacements[k..]) == ApplyReplacements(p.runs, t.replacements)
    {
      assert t.replacements[k..][1..] == t.replacements[k + 1..];
      runs := RewriteRuns(runs, t.replacements[k].0, t.replacements[k].1);
      k := k + 1;
    }
    runs := RewriteRuns(runs, t.marker, "");
    q := Para(runs);
  }

  /** The substitution of a list of paragraphs, one paragraph at a time. */
  method RewriteParagraphs(ps: seq<Paragraph>, t: TokenSet) returns (qs: seq<Paragraph>)
    ensures qs == SubstituteParagraphs(ps, t)
  {
    qs := ps;
    var i := 0;
    while i < |qs|
      invariant 0 <= i <= |qs| == |ps|
      invariant forall j :: 0 <= j < i ==> qs[j] == SubstituteParagraph(ps[j], t)
      invariant forall j :: i <= j < |qs| ==> qs[j] == ps[j]
    {
      var q := RewriteParagraph(qs[i], t);
      qs := qs[i := q];
      i := i + 1;
    }
  }

  /** The substitution of a table row, cell by cell. */
  method RewriteRow(r: Row, t: TokenSet) returns (r': Row)
    ensures r' == SubstituteRow(r, t)
  {
    var cells := r.cells;
    var i := 0;
    while i < |cells|
      invariant 0 <= i <= |cells| == |r.cells|
      invariant forall j :: 0 <= j < i ==> cells[j] == SubstituteCell(r.cells[j], t)
      invariant forall j :: i <= j < |cells| ==> cells[j] == r.cells[j]
    {
      var ps := RewriteParagraphs(cells[i].paragraphs, t);
      cells := cells[i := Cell(ps)];
      i := i + 1;
    }
    r' := Row(cells);
  }

  /** The substitution of a table, row by row. */
  method RewriteTable(tb: Table, t: TokenSet) returns (tb': Table)
    ensures tb' == SubstituteTable(tb, t)
  {
    var rows := tb.rows;
    var i := 0;
    while i < |rows|
      invariant 0 <= i <= |rows| == |tb.rows|
      invariant forall j :: 0 <= j < i ==> rows[j] == SubstituteRow(tb.rows[j], t)
      invariant forall j :: i <= j < |rows| ==> rows[j] == tb.rows[j]
    {
      var row := RewriteRow(rows[i], t);
      rows := rows[i := row];
      i := i + 1;
    }
    tb' := Table(rows);
  }

  /** The substitution of every table. */
  method RewriteTables(ts: seq<Table>, t: TokenSet) returns (us: seq<Table>)
    ensures us == SubstituteTables(ts, t)
  {
    us := ts;
    var i := 0;
    while i < |us|
      invariant 0 <= i <= |us| == |ts|
      invariant forall j :: 0 <= j < i ==> us[j] == SubstituteTable(ts[j], t)
      invariant forall j :: i <= j < |us| ==> us[j] == ts[j]
    {
      var tb := RewriteTable(us[i], t);
      us := us[i := tb];
      i := i + 1;
    }
  }

  /** The substitution of every section's header and footer. */
  method RewriteSections(ss: seq<Section>, t: TokenSet) returns (us: seq<Section>)
    ensures us == SubstituteSections(ss, t)
  {
    us := ss;
    var i := 0;
    while i < |us|
      invariant 0 <= i <= |us| == |ss|
      invariant forall j :: 0 <= j < i ==> us[j] == SubstituteSection(ss[j], t)
      invariant forall j :: i <= j < |us| ==> us[j] == ss[j]
    {
      var header := RewriteParagraphs(us[i].header, t);
      var footer := RewriteParagraphs(us[i].footer, t);
      us := us[i := Section(header, footer)];
      i := i + 1;
    }
  }
}
