/** `TextDocument`: a text file held in memory together with its metadata. */
module TextDocumentModel {

  datatype TextDocument = TextDocument(
    filepath: string,
    content: string,
    encoding: string := "utf-8",
    modified: bool := false)
  {
    /** `validate`: a document can be saved exactly when it names a file. */
    predicate Validate() {
      |filepath| > 0
    }
  }

  /** Whether a document is valid depends on its path alone, never on its content. */
  lemma ValidateIgnoresContent(d: TextDocument, content: string)
    ensures d.(content := content).Validate() == d.Validate()
    ensures TextDocument("notes.txt", "").Validate()
    ensures !TextDocument("", "some text").Validate()
  {
  }

  /** A document built from a path and content is utf-8 and unmodified. */
  lemma Defaults(filepath: string, content: string)
    ensures TextDocument(filepath, content).encoding == "utf-8"
    ensures !TextDocument(filepath, content).modified
  {
  }

  /** Explicitly supplied field values are stored as given. */
  lemma FieldsAreStored(filepath: string, content: string, encoding: string, modified: bool)
    ensures var d := TextDocument(filepath, content, encoding, modified);
      d.filepath == filepath && d.content == content && d.encoding == encoding && d.modified == modified
  {
  }
}
