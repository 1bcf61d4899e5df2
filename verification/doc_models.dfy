/** The three records the converter hands to the report writer. */
module DocModels {

  /** A heading-delimited run of text. */
  datatype SectionItem = SectionItem(docName: string, heading: string, page: int, text: string)

  /** Everything one page of a document contributed; `headings` is sorted. */
  datatype PageItem = PageItem(docName: string, page: int, text: string, headings: seq<string>)

  /** What conversion of one file produced. */
  datatype IngestResult = IngestResult(markdown: string, sections: seq<SectionItem>, pages: seq<PageItem>)
}
