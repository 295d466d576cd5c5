/** The document processing of both scripts, on a document object whose paragraph lists are
    rewritten and extended in place. */
module Documents {
  import opened Strings
  import opened MonthTokens
  import opened DocModel
  import opened Substitution
  import opened Annexes

  /** Single-document script: substitution, then the annex for the uploaded image if any. */
  function ProcessedWithImage(d: DocValue, t: TokenSet, image: Option<string>): DocValue
  {
    var s := SubstituteDocument(d, t);
    DocValue(s.body + ImageAnnex(s.body, image), s.tables, s.sections)
  }

  /** Batch script: substitution, then the annexes for every image of the attachments listing. */
  function ProcessedWithFolder(d: DocValue, t: TokenSet, attachments: seq<string>): DocValue
  {
    var s := SubstituteDocument(d, t);
    DocValue(s.body + FolderAnnex(s.body, ImageNames(attachments)), s.tables, s.sections)
  }

  class Document {
    var body: seq<Paragraph>
    var tables: seq<Table>
    var sections: seq<Section>

    function Content(): DocValue
      reads this
    {
      DocValue(body, tables, sections)
    }

    /** Opening a document file, with the file's contents handed in. */
    constructor Open(d: DocValue)
      ensures Content() == d
    {
      body, tables, sections := d.body, d.tables, d.sections;
    }

    /** The three substitution loops: body, table cells, section headers and footers. */
    method Substitute(t: TokenSet)
      modifies this
      ensures Content() == SubstituteDocument(old(Content()), t)
    {
      body := RewriteParagraphs(body, t);
      tables := RewriteTables(tables, t);
      sections := RewriteSections(sections, t);
    }

    /** Appends a page break and the "Anexos" title when the body has no annex
        section among its last five paragraphs. */
    method AddHeadingIfMissing()
      modifies this
      ensures body == old(body) + Heading(old(body))
      ensures tables == old(tables) && sections == old(sections)
    {
      if !HasAnnexSection(body) {
        body := body + [PageBreak];
        body := body + [TextParagraph(HeadingText)];
      }
    }

    /** Appends the caption "Anexo: <name>", the picture and an empty spacer paragraph. */
    method AddFigure(name: string)
      modifies this
      ensures body == old(body) + Figure(name)
      ensures tables == old(tables) && sections == old(sections)
    {
      body := body + [TextParagraph(CaptionPrefix + name)];
      body := body + [Picture(name)];
      body := body + [EmptyParagraph];
    }

    /** The annex for the optional uploaded image of the single-document script. */
    method AddImageAnnex(image: Option<string>)
      modifies this
      ensures body == old(body) + ImageAnnex(old(body), image)
      ensures tables == old(tables) && sections == old(sections)
    {
      if image.Some? {
        AddHeadingIfMissing();
        AddFigure(Basename(image.value));
      }
    }

    /** The loop over the image names: one captioned picture per image, in order. */
    method AddFigures(images: seq<string>)
      modifies this
      ensures body == old(body) + Figures(images)
      ensures tables == old(tables) && sections == old(sections)
    {
      var i := 0;
      while i < |images|
        invariant 0 <= i <= |images|
        invariant body == old(body) + Figures(images[..i])
        invariant tables == old(tables) && sections == old(sections)
      {
        FiguresStep(images, i);
        AddFigure(images[i]);
        i := i + 1;
      }
      assert images[..|images|] == images;
    }

    /** The folder annex, with the attachments folder's listing handed in. */
    method AddFolderAnnexes(attachments: seq<string>)
      modifies this
      ensures body == old(body) + FolderAnnex(old(body), ImageNames(attachments))
      ensures tables == old(tables) && sections == old(sections)
    {
      var images := ImageNames(attachments);
      if images == [] {
        assert body == old(body) + [];
        return;
      }
      AppendInTwoSteps(body, Heading(body), Figures(images), FolderAnnex(body, images));
      AddHeadingIfMissing();
      AddFigures(images);
    }

    /** Processing in the single-document script: substitution, then the annex for the
        optional image, up to saving the result. */
    method ProcessWithImage(t: TokenSet, image: Option<string>)
      modifies this
      ensures Content() == ProcessedWithImage(old(Content()), t, image)
    {
      Substitute(t);
      AddImageAnnex(image);
    }

    /** Processing in the batch script: substitution, then the annexes of the folder. */
    method ProcessWithFolder(t: TokenSet, attachments: seq<string>)
      modifies this
      ensures Content() == ProcessedWithFolder(old(Content()), t, attachments)
    {
      Substitute(t);
      AddFolderAnnexes(attachments);
    }
  }

  // ---------------------------------------------------------------------------
  // Lemmas

  /** Appending two parts one after the other appends their concatenation. */
  lemma AppendInTwoSteps(x: seq<Paragraph>, h: seq<Paragraph>, f: seq<Paragraph>, whole: seq<Paragraph>)
    requires whole == h + f
    ensures x + h + f == x + whole
  {
  }

  /** Processing only appends to the body: the substituted original body is an unchanged
      prefix, tables and sections are the substituted ones, and without an image nothing
      is appended. */
  lemma ProcessedWithImageAppendsOnly(d: DocValue, t: TokenSet, image: Option<string>)
    ensures var r := ProcessedWithImage(d, t, image);
      |r.body| >= |d.body| &&
      r.body[..|d.body|] == SubstituteParagraphs(d.body, t) &&
      r.tables == SubstituteTables(d.tables, t) &&
      r.sections == SubstituteSections(d.sections, t) &&
      (image.None? ==> r == SubstituteDocument(d, t))
  {
    var r := ProcessedWithImage(d, t, image);
    assert r.body[..|d.body|] == SubstituteParagraphs(d.body, t);
  }

  /** A document free of tokens keeps its body as a prefix, character for character; an
      image adds 3 paragraphs when the body already ends in an annex section, otherwise 5. */
  lemma TokenFreeBodyIsPrefix(d: DocValue, t: TokenSet, image: string)
    requires DocumentTokenFree(d, t)
    ensures var r := ProcessedWithImage(d, t, Some(image));
      r.body[..|d.body|] == d.body &&
      |r.body| == |d.body| + (if HasAnnexSection(d.body) then 3 else 5) &&
      r.tables == d.tables && r.sections == d.sections
  {
    TokenFreeDocumentUnchanged(d, t);
    var r := ProcessedWithImage(d, t, Some(image));
    assert r.body == d.body + ImageAnnex(d.body, Some(image));
    assert r.body[..|d.body|] == d.body;
  }

  /** With an empty attachments folder the batch script changes only text. */
  lemma NoImagesNoAnnex(d: DocValue, t: TokenSet, attachments: seq<string>)
    requires forall f :: f in attachments ==> !IsImageName(f)
    ensures ProcessedWithFolder(d, t, attachments) == SubstituteDocument(d, t)
  {
    FilterNone(IsImageName, attachments);
    var s := SubstituteDocument(d, t);
    assert s.body + [] == s.body;
  }
}
