/** Change events and the documents they carry. */
module Events {
  import opened Prelude
  import opened Stores

  datatype Operation =
    | OperationCreate | OperationUpdate | OperationDelete | OperationRead
    | OperationOther(name: string)
  {
    predicate IsUpsert() {
      OperationCreate? || OperationUpdate? || OperationRead?
    }

    predicate Valid() {
      IsUpsert() || OperationDelete?
    }
  }

  /** The columns a mapping reads from a row. */
  datatype Row = Row(title: string, content: string, url: string, updatedAt: int, version: int)

  /** One row change. The row is None when its columns hold types the mapping
      cannot read. */
  datatype ChangeEvent = ChangeEvent(
    id: string, operation: Operation, schema: string, table: string,
    row: Option<Row>, timestamp: Option<int>, lsn: int)

  datatype Effect = EffectNone | EffectIndexed | EffectReapplied | EffectStale | EffectDeleted

  /** The document a readable row becomes. */
  function DocumentOf(ev: ChangeEvent): Document
    requires ev.row.Some?
  {
    var r := ev.row.value;
    Document(ev.id, r.title, r.content, r.url, r.updatedAt, r.version)
  }

  function VectorPayload(doc: Document): Payload {
    Payload(doc.title, doc.version, if doc.url != "" then Some(doc.url) else None)
  }

  /** The text that stands for a document; empty when there is nothing to embed. */
  function EmbeddingText(doc: Document): string {
    var title, content := TrimSpace(doc.title), TrimSpace(doc.content);
    if title == "" && content == "" then ""
    else "title: " + (if title == "" then "none" else title) + " | text: " + content
  }
}
