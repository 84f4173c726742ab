/**
 * The attachments pane beside the intake form: which documents it lists as uploaded or as awaiting a
 * file, and the two gated callbacks (removal after confirmation, upload once a file is chosen).
 */
module AttachmentsPane {
  import opened Wrappers
  import opened Types
  import opened Seqs
  import ClientForm

  /** `uploadedDocuments`: the uploaded documents, in list order and with their multiplicities. */
  function UploadedDocuments(docs: seq<Document>): (r: seq<Document>)
    ensures forall i :: 0 <= i < |r| ==> r[i].uploaded && r[i] in docs
    ensures forall i :: 0 <= i < |docs| && docs[i].uploaded ==> docs[i] in r
    ensures IsSubsequence(r, docs)
    ensures forall d :: multiset(r)[d] == if d.uploaded then multiset(docs)[d] else 0
  {
    FilterIsSubsequence((d: Document) => d.uploaded, docs);
    FilterMultiplicities((d: Document) => d.uploaded, docs);
    Filter((d: Document) => d.uploaded, docs)
  }

  /** `awaitingDocuments`: the documents awaiting a file, in list order and with their multiplicities. */
  function AwaitingDocuments(docs: seq<Document>): (r: seq<Document>)
    ensures forall i :: 0 <= i < |r| ==> r[i].IsAwaiting() && r[i] in docs
    ensures forall i :: 0 <= i < |docs| && docs[i].IsAwaiting() ==> docs[i] in r
    ensures IsSubsequence(r, docs)
    ensures forall d :: multiset(r)[d] == if d.IsAwaiting() then multiset(docs)[d] else 0
  {
    FilterIsSubsequence((d: Document) => d.IsAwaiting(), docs);
    FilterMultiplicities((d: Document) => d.IsAwaiting(), docs);
    Filter((d: Document) => d.IsAwaiting(), docs)
  }

  /** `attachsExist`: some document is uploaded or awaiting a file. */
  function AttachsExist(docs: seq<Document>): (r: bool)
    ensures r <==> exists i :: 0 <= i < |docs| && (docs[i].uploaded || docs[i].IsAwaiting())
  {
    var shown := Filter((d: Document) => d.uploaded || d.IsAwaiting(), docs);
    assert |shown| > 0 ==> shown[0] in docs;
    |shown| > 0
  }

  /**
   * The pane lists something exactly when `attachsExist`, and a document that is neither uploaded nor
   * awaiting is in neither list.
   */
  lemma PaneListsAgree(docs: seq<Document>)
    ensures AttachsExist(docs) <==> UploadedDocuments(docs) != [] || AwaitingDocuments(docs) != []
    ensures forall k :: 0 <= k < |docs| && !docs[k].uploaded && !docs[k].IsAwaiting() ==>
      docs[k] !in UploadedDocuments(docs) && docs[k] !in AwaitingDocuments(docs)
  {
    var u := UploadedDocuments(docs);
    var w := AwaitingDocuments(docs);
    if u != [] { assert u[0] in docs; }
    if w != [] { assert w[0] in docs; }
  }

  /** `handleRemoveClick` given the answer to the confirmation: the id is passed on only after a yes. */
  function RemoveRequest(doc: Document, confirmed: bool): (r: Option<string>)
    ensures r.Some? <==> confirmed
    ensures r.Some? ==> r.value == doc.id
  {
    if confirmed then Some(doc.id) else None
  }

  /** The awaiting slot's file input: the upload callback fires only when a file was chosen. */
  function UploadRequest(docId: string, chosen: Option<FileHandle>): (r: Option<(string, FileHandle)>)
    ensures r.Some? <==> chosen.Some?
    ensures r.Some? ==> r.value == (docId, chosen.value)
  {
    match chosen
    case Some(file) => Some((docId, file))
    case None => None
  }

  /** A named attachment is appended to the awaiting list, so the pane has something to show. */
  lemma AddedSlotIsAwaiting(docs: seq<Document>, name: string, freshId: string)
    requires name != ""
    ensures var added := ClientForm.AddAttachmentTo(docs, Some(name), freshId);
      added == docs + [ClientForm.AwaitingSlot(freshId, name)]
      && AwaitingDocuments(added) == AwaitingDocuments(docs) + [ClientForm.AwaitingSlot(freshId, name)]
      && AttachsExist(added)
  {
    var slot := ClientForm.AwaitingSlot(freshId, name);
    var added := ClientForm.AddAttachmentTo(docs, Some(name), freshId);
    assert added == docs + [slot];
    FilterSnoc((d: Document) => d.IsAwaiting(), docs, slot);
    assert added[|docs|] == slot;
  }

  /**
   * Uploading into the slot at position `i`, whose id no other document has, turns that slot into an
   * uploaded one in place: it joins the uploaded list between the uploaded documents before and after
   * it, and every other document stays where it was.
   */
  lemma FilledSlotIsUploaded(docs: seq<Document>, i: int, file: FileHandle)
    requires 0 <= i < |docs|
    requires forall j :: 0 <= j < |docs| && j != i ==> docs[j].id != docs[i].id
    ensures var filled := ClientForm.FillAwaiting(docs, docs[i].id, file);
      var done := docs[i].(uploaded := true, awaiting := Some(false), file := Some(file));
      filled == docs[..i] + [done] + docs[i + 1..]
      && UploadedDocuments(filled) == UploadedDocuments(docs[..i]) + [done] + UploadedDocuments(docs[i + 1..])
  {
    var done := docs[i].(uploaded := true, awaiting := Some(false), file := Some(file));
    FillAt(docs, i, file);
    UploadedAround(docs[..i], done, docs[i + 1..]);
  }

  /**
   * The same upload takes the slot off the awaiting list (where `AwaitingAround` places an awaiting slot
   * between the awaiting documents before and after it) and leaves the rest of that list as it was.
   */
  lemma FilledSlotLeavesAwaiting(docs: seq<Document>, i: int, file: FileHandle)
    requires 0 <= i < |docs|
    requires forall j :: 0 <= j < |docs| && j != i ==> docs[j].id != docs[i].id
    ensures AwaitingDocuments(ClientForm.FillAwaiting(docs, docs[i].id, file))
         == AwaitingDocuments(docs[..i]) + AwaitingDocuments(docs[i + 1..])
  {
    var done := docs[i].(uploaded := true, awaiting := Some(false), file := Some(file));
    FillAt(docs, i, file);
    assert !done.IsAwaiting();
    AwaitingAround(docs[..i], done, docs[i + 1..]);
    assert AwaitingDocuments(docs[..i]) + [] == AwaitingDocuments(docs[..i]);
  }

  /** The awaiting list of a list split around one document. */
  lemma AwaitingAround(before: seq<Document>, x: Document, after: seq<Document>)
    ensures AwaitingDocuments(before + [x] + after)
         == AwaitingDocuments(before) + (if x.IsAwaiting() then [x] else []) + AwaitingDocuments(after)
  {
    FilterAround((d: Document) => d.IsAwaiting(), before, x, after);
  }

  /** The uploaded list of a list split around one document. */
  lemma UploadedAround(before: seq<Document>, x: Document, after: seq<Document>)
    ensures UploadedDocuments(before + [x] + after)
         == UploadedDocuments(before) + (if x.uploaded then [x] else []) + UploadedDocuments(after)
  {
    FilterAround((d: Document) => d.uploaded, before, x, after);
  }

  /** Filling the only slot with its id changes that one position. */
  lemma FillAt(docs: seq<Document>, i: int, file: FileHandle)
    requires 0 <= i < |docs|
    requires forall j :: 0 <= j < |docs| && j != i ==> docs[j].id != docs[i].id
    ensures ClientForm.FillAwaiting(docs, docs[i].id, file)
         == docs[..i] + [docs[i].(uploaded := true, awaiting := Some(false), file := Some(file))] + docs[i + 1..]
  {
  }

  /** Uploading into the slots with an id takes exactly those slots off the awaiting list, whatever the list. */
  lemma {:induction false} FillingLeavesAwaiting(docs: seq<Document>, docId: string, file: FileHandle)
    ensures AwaitingDocuments(ClientForm.FillAwaiting(docs, docId, file))
         == Filter((d: Document) => d.IsAwaiting() && d.id != docId, docs)
  {
    if docs != [] {
      FillingLeavesAwaiting(docs[1..], docId, file);
      var filled := ClientForm.FillAwaiting(docs, docId, file);
      assert filled == [filled[0]] + ClientForm.FillAwaiting(docs[1..], docId, file);
    }
  }

  /**
   * The pane and the form's handlers together: a named attachment appears in the awaiting list, and
   * uploading into it moves it to the uploaded list.
   */
  lemma AddedSlotIsAwaitingThenUploaded(docs: seq<Document>, name: string, freshId: string, file: FileHandle)
    requires name != ""
    requires forall i :: 0 <= i < |docs| ==> docs[i].id != freshId
    ensures var added := ClientForm.AddAttachmentTo(docs, Some(name), freshId);
      AwaitingDocuments(added) == AwaitingDocuments(docs) + [added[|docs|]] && AttachsExist(added)
    ensures var filled := ClientForm.FillAwaiting(ClientForm.AddAttachmentTo(docs, Some(name), freshId), freshId, file);
      AwaitingDocuments(filled) == AwaitingDocuments(docs)
      && UploadedDocuments(filled) == UploadedDocuments(docs) + [filled[|docs|]]
  {
    var added := ClientForm.AddAttachmentTo(docs, Some(name), freshId);
    AddedSlotIsAwaiting(docs, name, freshId);
    assert added[|docs|].id == freshId;
    FilledSlotIsUploaded(added, |docs|, file);
    FilledSlotLeavesAwaiting(added, |docs|, file);
    assert added[..|docs|] == docs && added[|docs| + 1..] == [];
  }
}
