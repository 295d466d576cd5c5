/** The annex appender: detection of an existing "Anexos" section among the last five body
    paragraphs (`contiene_anexos`), and the exact paragraphs appended for one uploaded image
    or for every image of the attachments folder. Pictures are opaque: the white-border
    cropping done before insertion is not modelled. */
module Annexes {
  import opened Strings
  import opened DocModel

  const AnnexWord: string := "anexos"
  const HeadingText: string := "Anexos"
  const CaptionPrefix: string := "Anexo: "

  /** The paragraph's text, trimmed of surrounding white space and lower-cased, contains "anexos". */
  predicate MentionsAnnexes(p: Paragraph)
  {
    Contains(Lower(Strip(Text(p))), AnnexWord)
  }

  /** Where the last five paragraphs (or all of them, when there are fewer) begin. */
  function TailStart(n: nat): (k: nat)
    ensures k <= n && n - k == if n < 5 then n else 5
  {
    if n < 5 then 0 else n - 5
  }

  function AnyMentions(ps: seq<Paragraph>): (b: bool)
    ensures b <==> exists i :: 0 <= i < |ps| && MentionsAnnexes(ps[i])
  {
    if ps == [] then false
    else MentionsAnnexes(ps[0]) || (assert forall i :: 1 <= i < |ps| ==> ps[i] == ps[1..][i - 1]; AnyMentions(ps[1..]))
  }

  /** The annex detector: some paragraph among the last `min(5, n)` mentions
      "anexos" once stripped and lower-cased. */
  function HasAnnexSection(ps: seq<Paragraph>): (b: bool)
    ensures b <==> exists i :: TailStart(|ps|) <= i < |ps| && MentionsAnnexes(ps[i])
  {
    var tail := ps[TailStart(|ps|)..];
    assert forall i :: 0 <= i < |tail| ==> tail[i] == ps[TailStart(|ps|) + i];
    AnyMentions(tail)
  }

  /** A page break and the bold "Anexos" title, unless the section already exists. */
  function Heading(body: seq<Paragraph>): seq<Paragraph>
  {
    if HasAnnexSection(body) then [] else [PageBreak, TextParagraph(HeadingText)]
  }

  /** One captioned image: the caption "Anexo: <name>", the picture, an empty spacer. */
  function Figure(name: string): seq<Paragraph>
  {
    [TextParagraph(CaptionPrefix + name), Picture(name), EmptyParagraph]
  }

  function Figures(names: seq<string>): seq<Paragraph>
  {
    if names == [] then [] else Figures(names[..|names| - 1]) + Figure(names[|names| - 1])
  }

  /** What the single-document script appends for an optional uploaded image, named by the
      basename of the uploaded file's name. */
  function ImageAnnex(body: seq<Paragraph>, image: Option<string>): seq<Paragraph>
  {
    match image
    case None => []
    case Some(fileName) => Heading(body) + Figure(Basename(fileName))
  }

  /** A PNG or JPEG file name, whatever the case of its extension. */
  predicate IsImageName(f: string)
  {
    var l := Lower(f);
    EndsWith(l, ".png") || EndsWith(l, ".jpg") || EndsWith(l, ".jpeg")
  }

  /** The attachments-folder listing filtered to image files, in listing order. */
  function ImageNames(listing: seq<string>): seq<string>
  {
    Filter(IsImageName, listing)
  }

  /** What the folder annex appends: nothing without images; otherwise the heading when it is
      missing, then one figure per image in order. */
  function FolderAnnex(body: seq<Paragraph>, images: seq<string>): seq<Paragraph>
  {
    if images == [] then [] else Heading(body) + Figures(images)
  }

  // ---------------------------------------------------------------------------
  // Lemmas

  /** An empty document has no annex section. */
  lemma EmptyHasNoAnnexSection()
    ensures !HasAnnexSection([])
  {
  }

  /** The `strip()` in the detector is redundant: a paragraph mentions the annexes exactly
      when its lower-cased text contains "anexos". */
  lemma MentionsIgnoresStrip(p: Paragraph)
    ensures MentionsAnnexes(p) <==> Contains(Lower(Text(p)), AnnexWord)
  {
    LowerStrip(Text(p));
    StripKeepsWord(Lower(Text(p)), AnnexWord);
  }

  /** Figure j occupies positions 3j, 3j+1 and 3j+2 of the appended figures. */
  lemma {:induction false} FiguresLayout(names: seq<string>)
    ensures |Figures(names)| == 3 * |names|
    ensures forall j :: 0 <= j < |names| ==> Figures(names)[3 * j..3 * j + 3] == Figure(names[j])
    decreases |names|
  {
    if names != [] {
      var init := names[..|names| - 1];
      FiguresLayout(init);
      var f := Figures(names);
      assert f == Figures(init) + Figure(names[|names| - 1]);
      forall j | 0 <= j < |names| ensures f[3 * j..3 * j + 3] == Figure(names[j]) {
        if j < |init| {
          assert f[3 * j..3 * j + 3] == Figures(init)[3 * j..3 * j + 3];
          assert init[j] == names[j];
        } else {
          assert f[3 * j..3 * j + 3] == Figure(names[|names| - 1]);
        }
      }
    }
  }

  /** One uploaded image: 5 new paragraphs (page break, "Anexos", caption, picture, spacer)
      when no annex section is present, otherwise 3; without an image, none. */
  lemma ImageAnnexLayout(body: seq<Paragraph>, image: Option<string>)
    ensures image.None? ==> ImageAnnex(body, image) == []
    ensures image.Some? && !HasAnnexSection(body) ==>
      ImageAnnex(body, image) ==
        [PageBreak, Para(["Anexos"]), Para(["Anexo: " + Basename(image.value)]),
         Picture(Basename(image.value)), Para([])]
    ensures image.Some? && HasAnnexSection(body) ==>
      ImageAnnex(body, image) ==
        [Para(["Anexo: " + Basename(image.value)]), Picture(Basename(image.value)), Para([])]
  {
  }

  /** k images: 3k new paragraphs, or 3k+2 with the heading pair first when the body has no
      annex section; figure j starts right after the heading, at offset 3j. */
  lemma FolderAnnexLayout(body: seq<Paragraph>, images: seq<string>)
    ensures images == [] ==> FolderAnnex(body, images) == []
    ensures images != [] ==>
      var h := if HasAnnexSection(body) then 0 else 2;
      var a := FolderAnnex(body, images);
      |a| == h + 3 * |images| &&
      (h == 2 ==> a[..2] == [PageBreak, Para(["Anexos"])]) &&
      forall j :: 0 <= j < |images| ==> a[h + 3 * j..h + 3 * j + 3] == Figure(images[j])
  {
    if images != [] {
      FiguresLayout(images);
      var hd := Heading(body);
      var f := Figures(images);
      forall j | 0 <= j < |images| ensures (hd + f)[|hd| + 3 * j..|hd| + 3 * j + 3] == Figure(images[j]) {
        SliceAfter(hd, f, 3 * j, 3 * j + 3);
      }
    }
  }

  /** The figures of one more image are the figures so far followed by its figure. */
  lemma FiguresStep(images: seq<string>, i: nat)
    requires i < |images|
    ensures Figures(images[..i + 1]) == Figures(images[..i]) + Figure(images[i])
  {
    var done := images[..i + 1];
    assert done[..|done| - 1] == images[..i] && done[|done| - 1] == images[i];
  }

  /** A slice past a prefix is a slice of what follows it. */
  lemma SliceAfter(h: seq<Paragraph>, f: seq<Paragraph>, lo: nat, hi: nat)
    requires lo <= hi <= |f|
    ensures (h + f)[|h| + lo..|h| + hi] == f[lo..hi]
  {
  }

  /** The heading paragraph mentions the annexes. */
  lemma HeadingMentions()
    ensures MentionsAnnexes(TextParagraph(HeadingText))
  {
    assert Text(TextParagraph(HeadingText)) == "Anexos" + Concat([]) == "Anexos";
    assert Strip("Anexos") == "Anexos";
    assert Lower("Anexos") == "anexos";
    assert IsPrefix(AnnexWord, "anexos");
  }

  /** The appended heading is itself seen by the detector: after one image with a new heading,
      the document has an annex section. */
  lemma HeadingIsDetected(body: seq<Paragraph>, image: string)
    requires !HasAnnexSection(body)
    ensures HasAnnexSection(body + ImageAnnex(body, Some(image)))
  {
    var nb := body + ImageAnnex(body, Some(image));
    var n := |body|;
    assert ImageAnnex(body, Some(image)) == [PageBreak, TextParagraph(HeadingText)] + Figure(Basename(image));
    assert nb[n + 1] == TextParagraph(HeadingText);
    HeadingMentions();
    assert TailStart(|nb|) <= n + 1 < |nb|;
  }
}
