/** The canonical document every source normalises to (internal/contract/doc.go). */
module Contract {

  /** `UnknownOp` and `UnknownTier` stand for every string that `Validate` rejects. */
  datatype Op = Upsert | Delete | UnknownOp

  datatype Tier = Urgent | Bulk | UnknownTier

  datatype CanonicalDoc = CanonicalDoc(
    source: string,
    docId: string,
    tenantId: int,
    op: Op,
    tier: Tier,
    version: int,
    commitTs: int,      // 0 is the zero time
    title: string,
    body: string,
    category: string
  )

  datatype Invalid = NoSource | NoDocId | BadOp | BadTier | BadVersion | NoCommitTs | EmptyUpsert

  datatype Validity = Accepted | Rejected(why: Invalid)

  function Validate(d: CanonicalDoc): (r: Validity)
    // accepted means fit for every later stage: identified, versioned, dated, of a known op and
    // tier, and an upsert always has something to embed
    ensures r.Accepted? <==>
            && d.source != "" && d.docId != "" && d.version >= 0 && d.commitTs != 0
            && (d.op == Upsert || d.op == Delete) && (d.tier == Urgent || d.tier == Bulk)
            && (d.op == Upsert ==> d.title != "" || d.body != "")
    // the reason given is a fault the document has
    ensures r.Rejected? ==>
              match r.why
              case NoSource => d.source == ""
              case NoDocId => d.docId == ""
              case BadOp => d.op != Upsert && d.op != Delete
              case BadTier => d.tier != Urgent && d.tier != Bulk
              case BadVersion => d.version < 0
              case NoCommitTs => d.commitTs == 0
              case EmptyUpsert => d.op == Upsert && d.title == "" && d.body == ""
  {
    if d.source == "" then Rejected(NoSource)
    else if d.docId == "" then Rejected(NoDocId)
    else if d.op != Upsert && d.op != Delete then Rejected(BadOp)
    else if d.tier != Urgent && d.tier != Bulk then Rejected(BadTier)
    else if d.version < 0 then Rejected(BadVersion)
    else if d.commitTs == 0 then Rejected(NoCommitTs)
    else if d.op == Upsert && d.body == "" && d.title == "" then Rejected(EmptyUpsert)
    else Accepted
  }

  function Text(d: CanonicalDoc): string {
    if d.title == "" then d.body
    else if d.body == "" then d.title
    else d.title + "\n\n" + d.body
  }

  function NamespacedDocId(source: string, nativeId: string): string {
    source + ":" + nativeId
  }

  /** A version-5 UUID (section 4.3 of RFC 4122), taken to be collision free. */
  datatype Uuid = UuidV5(name: string)

  function PointId(docId: string): Uuid {
    UuidV5(docId)
  }
}
