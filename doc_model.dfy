/** An abstract Word document: body paragraphs, tables of cells of paragraphs, and sections
    with header and footer paragraphs. A paragraph is a list of run texts; the annex appender
    also adds page-break and picture paragraphs, which carry no text. */
module DocModel {
  import opened Strings

  datatype Paragraph =
    | Para(runs: seq<string>)
    | PageBreak
    | Picture(name: string)

  datatype Cell = Cell(paragraphs: seq<Paragraph>)
  datatype Row = Row(cells: seq<Cell>)
  datatype Table = Table(rows: seq<Row>)
  datatype Section = Section(header: seq<Paragraph>, footer: seq<Paragraph>)

  datatype DocValue = DocValue(body: seq<Paragraph>, tables: seq<Table>, sections: seq<Section>)

  /** A paragraph appended with a text: one run holding it. */
  function TextParagraph(s: string): Paragraph
  {
    Para([s])
  }

  /** A paragraph appended without a text has no runs. */
  const EmptyParagraph: Paragraph := Para([])

  /** A name ending in ".docx", case-sensitive: the files both scripts treat as documents. */
  predicate IsDocxName(name: string)
  {
    EndsWith(name, ".docx")
  }

  /** The text of a paragraph: the concatenation of its runs. */
  function Text(p: Paragraph): string
  {
    match p
    case Para(runs) => Concat(runs)
    case _ => []
  }
}
