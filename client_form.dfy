/**
 * The intake form a client fills in: client details, an editable list of change requests, and
 * document slots whose `required` flags follow from the requests' change types. Submitting builds a
 * pending case, but only when validation records no error.
 */
module ClientForm {
  import opened Wrappers
  import opened Types
  import opened Seqs
  import opened Text
  import CaseStore

  // ---------------------------------------------------------------------------------------------
  // Required documents

  /** `documentsRequiredConfig`: the documents each change type calls for. */
  const DocumentsRequiredConfig: map<string, seq<string>> := map[
    "Address Update" := ["Proof of Address"],
    "Entity Type Change" := ["Certificate of Incorporation", "Board Resolution"],
    "Name Change" := ["Certificate of Name Change", "Board Resolution"],
    "Contact Information" := ["Proof of Identity"],
    "Other" := []
  ]

  /**
   * `documentsRequiredConfig[typeOfChange]`, where a type that is not a key (such as the empty selection)
   * calls for nothing: exactly the four configured types other than "Other" call for documents, at most
   * two each.
   */
  function DocsForChangeType(typeOfChange: string): (r: seq<string>)
    ensures r != [] <==> typeOfChange in {"Address Update", "Entity Type Change", "Name Change", "Contact Information"}
    ensures |r| <= 2
  {
    if typeOfChange in DocumentsRequiredConfig then DocumentsRequiredConfig[typeOfChange] else []
  }

  /** The names in a list, as a set. */
  function NameSet(names: seq<string>): set<string> {
    set n | n in names
  }

  /** A document of that name is among the form's initial slots. */
  ghost predicate HasInitialSlot(name: string) {
    exists j :: 0 <= j < |InitialDocuments()| && InitialDocuments()[j].name == name
  }

  /** The union of the configured document lists over all requests' change types. */
  function RequiredDocNames(crs: seq<ChangeRequest>): set<string> {
    if crs == [] then {}
    else RequiredDocNames(crs[..|crs| - 1]) + NameSet(DocsForChangeType(crs[|crs| - 1].typeOfChange))
  }

  /** Every document a change type calls for has one of the form's initial slots, so a recompute can mark it. */
  lemma ConfiguredDocsHaveSlots(typeOfChange: string)
    ensures forall i :: 0 <= i < |DocsForChangeType(typeOfChange)| ==> HasInitialSlot(DocsForChangeType(typeOfChange)[i])
  {
    var slots := InitialDocuments();
    assert slots[0].name == "Proof of Address" && slots[1].name == "Certificate of Incorporation";
    assert slots[2].name == "Board Resolution" && slots[3].name == "Certificate of Name Change";
    assert slots[4].name == "Proof of Identity";
  }

  /** Every name the requests make required has one of the form's initial slots. */
  lemma {:induction false} RequiredDocsHaveSlots(crs: seq<ChangeRequest>)
    ensures forall name :: name in RequiredDocNames(crs) ==> HasInitialSlot(name)
  {
    if crs != [] {
      RequiredDocsHaveSlots(crs[..|crs| - 1]);
      ConfiguredDocsHaveSlots(crs[|crs| - 1].typeOfChange);
    }
  }

  /** A name is required exactly when some request's change type lists it. */
  lemma {:induction false} RequiredDocNamesMembership(crs: seq<ChangeRequest>, name: string)
    ensures name in RequiredDocNames(crs) <==>
      exists i :: 0 <= i < |crs| && name in DocsForChangeType(crs[i].typeOfChange)
  {
    if crs != [] {
      var init := crs[..|crs| - 1];
      RequiredDocNamesMembership(init, name);
      assert forall i :: 0 <= i < |init| ==> init[i] == crs[i];
    }
  }

  /**
   * Requests whose types are "Other", empty or not configured contribute nothing: the union is empty
   * exactly when every request's type calls for no document.
   */
  lemma RequiredDocNamesEmptyIff(crs: seq<ChangeRequest>)
    ensures RequiredDocNames(crs) == {} <==>
      forall i :: 0 <= i < |crs| ==> DocsForChangeType(crs[i].typeOfChange) == []
  {
    if RequiredDocNames(crs) == {} {
      forall i | 0 <= i < |crs| ensures DocsForChangeType(crs[i].typeOfChange) == [] {
        var docs := DocsForChangeType(crs[i].typeOfChange);
        if docs != [] {
          RequiredDocNamesMembership(crs, docs[0]);
        }
      }
    } else {
      var name :| name in RequiredDocNames(crs);
      RequiredDocNamesMembership(crs, name);
    }
  }

  /** The union depends only on which change types occur: not on their order, nor on repetitions. */
  lemma RequiredDocNamesOrderIndependent(a: seq<ChangeRequest>, b: seq<ChangeRequest>)
    requires forall i :: 0 <= i < |a| ==> exists j :: 0 <= j < |b| && b[j].typeOfChange == a[i].typeOfChange
    requires forall j :: 0 <= j < |b| ==> exists i :: 0 <= i < |a| && a[i].typeOfChange == b[j].typeOfChange
    ensures RequiredDocNames(a) == RequiredDocNames(b)
  {
    forall name ensures name in RequiredDocNames(a) <==> name in RequiredDocNames(b) {
      RequiredDocNamesMembership(a, name);
      RequiredDocNamesMembership(b, name);
    }
  }

  /** One "Address Update" request requires exactly the proof of address, so the documents section shows. */
  lemma AddressUpdateRequiresProofOfAddress(id: string, hdiNumber: string, country: string)
    ensures RequiredDocNames([ChangeRequest(id, hdiNumber, country, "Address Update")]) == {"Proof of Address"}
  {
    var crs := [ChangeRequest(id, hdiNumber, country, "Address Update")];
    assert crs[..0] == [];
    assert NameSet(["Proof of Address"]) == {"Proof of Address"};
  }

  /**
   * The recomputation loop of the change-request effect: it collects the configured names of every
   * request into a set and notes whether any request's type called for documents at all.
   */
  method CollectRequiredDocs(crs: seq<ChangeRequest>) returns (names: set<string>, anyRequired: bool)
    ensures names == RequiredDocNames(crs)
    ensures anyRequired <==> exists i :: 0 <= i < |crs| && |DocsForChangeType(crs[i].typeOfChange)| > 0
    ensures anyRequired <==> names != {}
  {
    names, anyRequired := {}, false;
    var i := 0;
    while i < |crs|
      invariant 0 <= i <= |crs|
      invariant names == RequiredDocNames(crs[..i])
      invariant anyRequired <==> exists j :: 0 <= j < i && |DocsForChangeType(crs[j].typeOfChange)| > 0
    {
      var docs := DocsForChangeType(crs[i].typeOfChange);
      if |docs| > 0 {
        anyRequired := true;
        names := AddNames(names, docs);
      }
      assert crs[..i + 1][..i] == crs[..i];
      i := i + 1;
    }
    assert crs[..i] == crs;
    RequiredDocNamesEmptyIff(crs);
  }

  /** The inner `forEach` of the recomputation: each configured name is added to the set. */
  method AddNames(names: set<string>, docs: seq<string>) returns (r: set<string>)
    ensures r == names + NameSet(docs)
  {
    r := names;
    var k := 0;
    while k < |docs|
      invariant 0 <= k <= |docs|
      invariant r == names + NameSet(docs[..k])
    {
      r := r + {docs[k]};
      assert NameSet(docs[..k + 1]) == NameSet(docs[..k]) + {docs[k]} by {
        assert docs[..k + 1] == docs[..k] + [docs[k]];
      }
      k := k + 1;
    }
    assert docs[..k] == docs;
  }

  /**
   * The documents after the recomputation: the same slots in the same order, each `required` exactly
   * when its name is in `names`, every other field unchanged.
   */
  function Retag(docs: seq<Document>, names: set<string>): (r: seq<Document>)
    ensures |r| == |docs|
    ensures forall i :: 0 <= i < |docs| ==> r[i].required == (docs[i].name in names)
    ensures forall i :: 0 <= i < |docs| ==> r[i].(required := docs[i].required) == docs[i]
  {
    seq(|docs|, i requires 0 <= i < |docs| => docs[i].(required := docs[i].name in names))
  }

  /** Recomputing twice gives the same documents as recomputing once. */
  lemma RetagIdempotent(docs: seq<Document>, names: set<string>)
    ensures Retag(Retag(docs, names), names) == Retag(docs, names)
  {
  }

  // ---------------------------------------------------------------------------------------------
  // Change requests

  /**
   * The request that `addChangeRequest` appends: a fresh id and every field empty, so that it fails all
   * three of its checks, at whatever position it lands, and calls for no document until a type is chosen.
   */
  function BlankRequest(freshId: string): (r: ChangeRequest)
    ensures r.id == freshId
    ensures forall i: nat :: RequestKeysAt(r, i) == {HdiNumberField(i), CountryField(i), TypeOfChangeField(i)}
    ensures DocsForChangeType(r.typeOfChange) == []
  {
    ChangeRequest(freshId, "", "", "")
  }

  /** The editable fields of a change request (`keyof Omit<ChangeRequest, 'id'>`). */
  datatype RequestField = HdiNumber | Country | TypeOfChange

  function GetRequestField(cr: ChangeRequest, field: RequestField): string {
    match field
    case HdiNumber => cr.hdiNumber
    case Country => cr.country
    case TypeOfChange => cr.typeOfChange
  }

  /** `{ ...request, [field]: value }`: the named field reads back as `value`; the id and the other fields are kept. */
  function SetRequestField(cr: ChangeRequest, field: RequestField, value: string): (r: ChangeRequest)
    ensures GetRequestField(r, field) == value
    ensures r.id == cr.id
    ensures forall g :: g != field ==> GetRequestField(r, g) == GetRequestField(cr, g)
  {
    match field
    case HdiNumber => cr.(hdiNumber := value)
    case Country => cr.(country := value)
    case TypeOfChange => cr.(typeOfChange := value)
  }

  /** `removeChangeRequest`: every request with that id is dropped, the others are kept in order and with their multiplicities. */
  function RemoveRequest(crs: seq<ChangeRequest>, id: string): (r: seq<ChangeRequest>)
    ensures forall i :: 0 <= i < |r| ==> r[i].id != id && r[i] in crs
    ensures forall i :: 0 <= i < |crs| && crs[i].id != id ==> crs[i] in r
    ensures IsSubsequence(r, crs)
    ensures forall cr :: multiset(r)[cr] == if cr.id != id then multiset(crs)[cr] else 0
  {
    FilterIsSubsequence((cr: ChangeRequest) => cr.id != id, crs);
    FilterMultiplicities((cr: ChangeRequest) => cr.id != id, crs);
    Filter((cr: ChangeRequest) => cr.id != id, crs)
  }

  /** `updateChangeRequest`: only the named field of the requests with that id changes. */
  function UpdateRequest(crs: seq<ChangeRequest>, id: string, field: RequestField, value: string): (r: seq<ChangeRequest>)
    ensures |r| == |crs|
    ensures forall i :: 0 <= i < |crs| && crs[i].id != id ==> r[i] == crs[i]
    ensures forall i :: 0 <= i < |crs| && crs[i].id == id ==>
      r[i].id == id && GetRequestField(r[i], field) == value
      && forall g :: g != field ==> GetRequestField(r[i], g) == GetRequestField(crs[i], g)
  {
    MapWhere((cr: ChangeRequest) => cr.id == id, (cr: ChangeRequest) => SetRequestField(cr, field, value), crs)
  }

  // ---------------------------------------------------------------------------------------------
  // Document slots

  /** Document ids are pairwise distinct. */
  ghost predicate UniqueIds(docs: seq<Document>) {
    forall i, j :: 0 <= i < j < |docs| ==> docs[i].id != docs[j].id
  }

  /** `handleFileUpload`: the documents with that id become uploaded with the file; nothing else changes. */
  function MarkUploaded(docs: seq<Document>, docId: string, file: FileHandle): (r: seq<Document>)
    ensures |r| == |docs|
    ensures forall i :: 0 <= i < |docs| && docs[i].id != docId ==> r[i] == docs[i]
    ensures forall i :: 0 <= i < |docs| && docs[i].id == docId ==>
      r[i].uploaded && r[i].file == Some(file) && r[i].(uploaded := docs[i].uploaded, file := docs[i].file) == docs[i]
  {
    MapWhere((d: Document) => d.id == docId, (d: Document) => d.(uploaded := true, file := Some(file)), docs)
  }

  /** `handleAwaitingFileUpload`: as `MarkUploaded`, and the slot also stops awaiting a file. */
  function FillAwaiting(docs: seq<Document>, docId: string, file: FileHandle): (r: seq<Document>)
    ensures |r| == |docs|
    ensures forall i :: 0 <= i < |docs| && docs[i].id != docId ==> r[i] == docs[i]
    ensures forall i :: 0 <= i < |docs| && docs[i].id == docId ==>
      r[i].uploaded && r[i].file == Some(file) && !r[i].IsAwaiting()
      && r[i].(uploaded := docs[i].uploaded, file := docs[i].file, awaiting := docs[i].awaiting) == docs[i]
  {
    MapWhere((d: Document) => d.id == docId,
             (d: Document) => d.(uploaded := true, awaiting := Some(false), file := Some(file)), docs)
  }

  /**
   * `removeAttachment`. The first document with the id decides: an unknown id changes nothing; a
   * required document keeps its slot and is reset to not uploaded without a file; any other is
   * deleted (with every document of that id), the others keeping their order and multiplicities.
   */
  function RemoveDocument(docs: seq<Document>, docId: string): (r: seq<Document>)
    ensures (forall i :: 0 <= i < |docs| ==> docs[i].id != docId) ==> r == docs
    ensures forall i :: IsFirst((d: Document) => d.id == docId, docs, i) && docs[i].required ==>
      |r| == |docs|
      && (forall j :: 0 <= j < |docs| && docs[j].id != docId ==> r[j] == docs[j])
      && (forall j :: 0 <= j < |docs| && docs[j].id == docId ==>
            !r[j].uploaded && r[j].file.None? && r[j].(uploaded := docs[j].uploaded, file := docs[j].file) == docs[j])
    ensures forall i :: IsFirst((d: Document) => d.id == docId, docs, i) && !docs[i].required ==>
      (forall j :: 0 <= j < |r| ==> r[j].id != docId && r[j] in docs)
      && (forall j :: 0 <= j < |docs| && docs[j].id != docId ==> docs[j] in r)
      && IsSubsequence(r, docs)
      && (forall d :: multiset(r)[d] == if d.id != docId then multiset(docs)[d] else 0)
  {
    match Find((d: Document) => d.id == docId, docs)
    case None => docs
    case Some(found) =>
      if found.required then
        MapWhere((d: Document) => d.id == docId, (d: Document) => d.(uploaded := false, file := None), docs)
      else
        FilterIsSubsequence((d: Document) => d.id != docId, docs);
        FilterMultiplicities((d: Document) => d.id != docId, docs);
        Filter((d: Document) => d.id != docId, docs)
  }

  /** Removing a required document never shortens the list. */
  lemma RemoveRequiredKeepsLength(docs: seq<Document>, docId: string, k: int)
    requires 0 <= k < |docs| && docs[k].id == docId && docs[k].required
    requires UniqueIds(docs)
    ensures |RemoveDocument(docs, docId)| == |docs|
  {
    assert IsFirst((d: Document) => d.id == docId, docs, k);
  }

  /** With distinct ids, removing a document that is not required shortens the list by exactly one. */
  lemma RemoveOptionalDropsOne(docs: seq<Document>, docId: string, k: int)
    requires 0 <= k < |docs| && docs[k].id == docId && !docs[k].required
    requires UniqueIds(docs)
    ensures |RemoveDocument(docs, docId)| == |docs| - 1
  {
    assert IsFirst((d: Document) => d.id == docId, docs, k);
    FindAt((d: Document) => d.id == docId, docs, k);
    FilterDropsOne((d: Document) => d.id != docId, docs, k);
  }

  /** The document `addAttachment` appends: a fresh id, the given name, optional, not uploaded, awaiting a file. */
  function AwaitingSlot(freshId: string, name: string): (r: Document)
    ensures r.id == freshId && r.name == name
    ensures !r.required && !r.uploaded && r.IsAwaiting() && r.file.None?
  {
    Document(freshId, name, false, false, Some(true), None)
  }

  /**
   * `addAttachment` given the answer to the name prompt (`None` when it was cancelled): no answer or an
   * empty name changes nothing; otherwise exactly one optional, not uploaded, awaiting slot is appended.
   */
  function AddAttachmentTo(docs: seq<Document>, answer: Option<string>, freshId: string): (r: seq<Document>)
    ensures answer.None? || answer == Some("") ==> r == docs
    ensures answer.Some? && answer.value != "" ==>
      |r| == |docs| + 1 && r[..|docs|] == docs
      && r[|docs|].id == freshId && r[|docs|].name == answer.value
      && !r[|docs|].required && !r[|docs|].uploaded && r[|docs|].IsAwaiting() && r[|docs|].file.None?
  {
    match answer
    case Some(name) =>
      if name != "" then
        var r := docs + [AwaitingSlot(freshId, name)];
        assert r[..|docs|] == docs;
        r
      else docs
    case None => docs
  }

  /** A fresh id keeps the document ids distinct. */
  lemma AddAttachmentKeepsIdsUnique(docs: seq<Document>, answer: Option<string>, freshId: string)
    requires UniqueIds(docs)
    requires forall i :: 0 <= i < |docs| ==> docs[i].id != freshId
    ensures UniqueIds(AddAttachmentTo(docs, answer, freshId))
  {
  }

  /** Removing an attachment that was just added under a fresh id gives back the list as it was. */
  lemma RemoveUndoesAddAttachment(docs: seq<Document>, name: string, freshId: string)
    requires name != ""
    requires forall i :: 0 <= i < |docs| ==> docs[i].id != freshId
    ensures RemoveDocument(AddAttachmentTo(docs, Some(name), freshId), freshId) == docs
  {
    var slot := AwaitingSlot(freshId, name);
    var all := docs + [slot];
    assert IsFirst((d: Document) => d.id == freshId, all, |docs|);
    FindAt((d: Document) => d.id == freshId, all, |docs|);
    FilterAppend((d: Document) => d.id != freshId, docs, [slot]);
    FilterKeepsAll((d: Document) => d.id != freshId, docs);
    assert Filter((d: Document) => d.id != freshId, [slot]) == [];
  }

  // ---------------------------------------------------------------------------------------------
  // Validation

  /** The keys of the `errors` record; the per-request keys carry the request's position. */
  datatype FormField =
    | ClientNameField | AddressField | DateField | ColtIdField | EmailField
    | HdiNumberField(index: nat) | CountryField(index: nat) | TypeOfChangeField(index: nat)
    | DocumentsField

  /** The messages `validateForm` records: never empty; the e-mail key says "required" exactly when the address is blank. */
  function ErrorMessage(email: string, field: FormField): (r: string)
    ensures r != ""
    ensures field == EmailField ==> (r == "Email is required" <==> IsBlank(email))
  {
    match field
    case ClientNameField => "Client name is required"
    case AddressField => "Address is required"
    case DateField => "Date of information is required"
    case ColtIdField => "COLTID is required"
    case EmailField => if IsBlank(email) then "Email is required" else "Email is invalid"
    case HdiNumberField(_) => "HDI number is required"
    case CountryField(_) => "Country is required"
    case TypeOfChangeField(_) => "Type of change is required"
    case DocumentsField => "All required documents must be uploaded"
  }

  /** When each key gets an error: blank (after trimming) fields, an undated form, a malformed e-mail, missing documents. */
  ghost predicate FieldInvalid(info: ClientInfo, crs: seq<ChangeRequest>, docs: seq<Document>, showDocs: bool, field: FormField)
    requires info.coltId.Some? && info.email.Some?
  {
    match field
    case ClientNameField => IsBlank(info.clientName)
    case AddressField => IsBlank(info.address)
    case DateField => info.dateOfInformation == ""
    case ColtIdField => IsBlank(info.coltId.value)
    case EmailField => IsBlank(info.email.value) || !MatchesEmailPattern(info.email.value)
    case HdiNumberField(i) => i < |crs| && IsBlank(crs[i].hdiNumber)
    case CountryField(i) => i < |crs| && IsBlank(crs[i].country)
    case TypeOfChangeField(i) => i < |crs| && IsBlank(crs[i].typeOfChange)
    case DocumentsField => showDocs && exists j :: 0 <= j < |docs| && docs[j].required && !docs[j].uploaded
  }

  /** Everything a submittable form needs, stated field by field. */
  ghost predicate FormIsValid(info: ClientInfo, crs: seq<ChangeRequest>, docs: seq<Document>, showDocs: bool)
    requires info.coltId.Some? && info.email.Some?
  {
    && !IsBlank(info.clientName) && !IsBlank(info.address) && info.dateOfInformation != ""
    && !IsBlank(info.coltId.value) && !IsBlank(info.email.value) && MatchesEmailPattern(info.email.value)
    && (forall i :: 0 <= i < |crs| ==>
          !IsBlank(crs[i].hdiNumber) && !IsBlank(crs[i].country) && !IsBlank(crs[i].typeOfChange))
    && (showDocs ==> forall j :: 0 <= j < |docs| && docs[j].required ==> docs[j].uploaded)
  }

  /** A valid form has no key in error. */
  lemma ValidHasNoInvalidField(info: ClientInfo, crs: seq<ChangeRequest>, docs: seq<Document>, showDocs: bool, f: FormField)
    requires info.coltId.Some? && info.email.Some?
    requires FormIsValid(info, crs, docs, showDocs)
    ensures !FieldInvalid(info, crs, docs, showDocs, f)
  {
  }

  /** The checks on one request, one key each. */
  lemma RequestChecksPass(info: ClientInfo, crs: seq<ChangeRequest>, docs: seq<Document>, showDocs: bool, i: nat)
    requires info.coltId.Some? && info.email.Some? && i < |crs|
    requires !FieldInvalid(info, crs, docs, showDocs, HdiNumberField(i))
    requires !FieldInvalid(info, crs, docs, showDocs, CountryField(i))
    requires !FieldInvalid(info, crs, docs, showDocs, TypeOfChangeField(i))
    ensures !IsBlank(crs[i].hdiNumber) && !IsBlank(crs[i].country) && !IsBlank(crs[i].typeOfChange)
  {
  }

  /** The checks on the client information and the documents, one key each. */
  lemma InfoChecksPass(info: ClientInfo, crs: seq<ChangeRequest>, docs: seq<Document>, showDocs: bool)
    requires info.coltId.Some? && info.email.Some?
    requires !FieldInvalid(info, crs, docs, showDocs, ClientNameField)
    requires !FieldInvalid(info, crs, docs, showDocs, AddressField)
    requires !FieldInvalid(info, crs, docs, showDocs, DateField)
    requires !FieldInvalid(info, crs, docs, showDocs, ColtIdField)
    requires !FieldInvalid(info, crs, docs, showDocs, EmailField)
    requires !FieldInvalid(info, crs, docs, showDocs, DocumentsField)
    ensures !IsBlank(info.clientName) && !IsBlank(info.address) && info.dateOfInformation != ""
    ensures !IsBlank(info.coltId.value) && !IsBlank(info.email.value) && MatchesEmailPattern(info.email.value)
    ensures showDocs ==> forall j :: 0 <= j < |docs| && docs[j].required ==> docs[j].uploaded
  {
  }

  /** A form whose every key passes its check is valid. */
  lemma NoInvalidFieldIsValid(info: ClientInfo, crs: seq<ChangeRequest>, docs: seq<Document>, showDocs: bool)
    requires info.coltId.Some? && info.email.Some?
    requires forall f :: !FieldInvalid(info, crs, docs, showDocs, f)
    ensures FormIsValid(info, crs, docs, showDocs)
  {
    forall i | 0 <= i < |crs|
      ensures !IsBlank(crs[i].hdiNumber) && !IsBlank(crs[i].country) && !IsBlank(crs[i].typeOfChange)
    {
      RequestChecksPass(info, crs, docs, showDocs, i);
    }
    InfoChecksPass(info, crs, docs, showDocs);
  }

  /** The form is valid exactly when no key has an error. */
  lemma ValidIffNoInvalidField(info: ClientInfo, crs: seq<ChangeRequest>, docs: seq<Document>, showDocs: bool)
    requires info.coltId.Some? && info.email.Some?
    ensures FormIsValid(info, crs, docs, showDocs) <==> forall f :: !FieldInvalid(info, crs, docs, showDocs, f)
  {
    if FormIsValid(info, crs, docs, showDocs) {
      forall f ensures !FieldInvalid(info, crs, docs, showDocs, f) {
        ValidHasNoInvalidField(info, crs, docs, showDocs, f);
      }
    }
    if forall f :: !FieldInvalid(info, crs, docs, showDocs, f) {
      NoInvalidFieldIsValid(info, crs, docs, showDocs);
    }
  }

  /** The keys of the client-information checks. */
  predicate IsInfoField(f: FormField) {
    f.ClientNameField? || f.AddressField? || f.DateField? || f.ColtIdField? || f.EmailField?
  }

  /** The first part of `validateForm`: the client-information checks, giving the keys that failed. */
  method CheckClientInfo(info: ClientInfo) returns (keys: set<FormField>)
    requires info.coltId.Some? && info.email.Some?
    ensures forall f :: f in keys <==> IsInfoField(f) && FieldInvalid(info, [], [], false, f)
  {
    var email := info.email.value;
    keys := {};
    if IsBlank(info.clientName) {
      keys := keys + {ClientNameField};
    }
    if IsBlank(info.address) {
      keys := keys + {AddressField};
    }
    if info.dateOfInformation == "" {
      keys := keys + {DateField};
    }
    if IsBlank(info.coltId.value) {
      keys := keys + {ColtIdField};
    }
    LooksLikeEmailIffPattern(email);
    if IsBlank(email) || !LooksLikeEmail(email) {
      keys := keys + {EmailField};
    }
  }

  /** The keys of the checks on the request at position `i` that fail. */
  function RequestKeysAt(cr: ChangeRequest, i: nat): set<FormField> {
    (if IsBlank(cr.hdiNumber) then {HdiNumberField(i)} else {})
    + (if IsBlank(cr.country) then {CountryField(i)} else {})
    + (if IsBlank(cr.typeOfChange) then {TypeOfChangeField(i)} else {})
  }

  /** The keys of the failing request checks over a list of requests, request by request. */
  function RequestKeys(crs: seq<ChangeRequest>): set<FormField> {
    if crs == [] then {} else RequestKeys(crs[..|crs| - 1]) + RequestKeysAt(crs[|crs| - 1], |crs| - 1)
  }

  /** When a key belongs to a failing request check: its request exists and that field of it is blank. */
  ghost predicate RequestCheckFails(crs: seq<ChangeRequest>, f: FormField) {
    match f
    case HdiNumberField(j) => j < |crs| && IsBlank(crs[j].hdiNumber)
    case CountryField(j) => j < |crs| && IsBlank(crs[j].country)
    case TypeOfChangeField(j) => j < |crs| && IsBlank(crs[j].typeOfChange)
    case _ => false
  }

  /** A request key is failing exactly when its request exists and that field is blank; no other key is. */
  lemma {:induction false} RequestKeysMembership(crs: seq<ChangeRequest>)
    ensures forall f :: f in RequestKeys(crs) <==> RequestCheckFails(crs, f)
  {
    if crs != [] {
      var n := |crs| - 1;
      RequestKeysMembership(crs[..n]);
      assert crs == crs[..n] + [crs[n]];
      RequestKeysStep(crs[..n], crs[n]);
    }
  }

  /** Appending a request adds the keys of its failing checks, at its position. */
  lemma RequestKeysStep(init: seq<ChangeRequest>, last: ChangeRequest)
    requires forall f :: f in RequestKeys(init) <==> RequestCheckFails(init, f)
    ensures forall f :: f in RequestKeys(init + [last]) <==> RequestCheckFails(init + [last], f)
  {
    var prev := RequestKeys(init);
    assert (init + [last])[..|init|] == init;
    assert RequestKeys(init + [last]) == prev + RequestKeysAt(last, |init|);
    forall f ensures f in prev + RequestKeysAt(last, |init|) <==> RequestCheckFails(init + [last], f) {
      RequestKeyStep(init, last, prev, f);
    }
  }

  /** One key of `RequestKeysStep`: it fails in the longer list iff it failed before or fails on the new request. */
  lemma RequestKeyStep(init: seq<ChangeRequest>, last: ChangeRequest, prev: set<FormField>, f: FormField)
    requires f in prev <==> RequestCheckFails(init, f)
    ensures f in prev + RequestKeysAt(last, |init|) <==> RequestCheckFails(init + [last], f)
  {
    var crs := init + [last];
    match f
    case HdiNumberField(j) => if j < |init| { assert init[j] == crs[j]; }
    case CountryField(j) => if j < |init| { assert init[j] == crs[j]; }
    case TypeOfChangeField(j) => if j < |init| { assert init[j] == crs[j]; }
    case _ =>
  }

  /**
   * The second part of `validateForm`: the three checks on each request, added to the keys found so
   * far; the keys carry the request's position.
   */
  method CheckRequests(crs: seq<ChangeRequest>, previous: set<FormField>) returns (keys: set<FormField>)
    ensures keys == previous + RequestKeys(crs)
  {
    keys := previous;
    var i := 0;
    while i < |crs|
      invariant 0 <= i <= |crs|
      invariant keys == previous + RequestKeys(crs[..i])
    {
      ghost var before := keys;
      if IsBlank(crs[i].hdiNumber) {
        keys := keys + {HdiNumberField(i)};
      }
      if IsBlank(crs[i].country) {
        keys := keys + {CountryField(i)};
      }
      if IsBlank(crs[i].typeOfChange) {
        keys := keys + {TypeOfChangeField(i)};
      }
      assert keys == before + RequestKeysAt(crs[i], i);
      assert crs[..i + 1][..i] == crs[..i];
      i := i + 1;
    }
    assert crs[..i] == crs;
  }

  /** The keys the three parts of the checks produce are exactly the keys `FieldInvalid` picks out. */
  lemma KeysMatchChecks(info: ClientInfo, crs: seq<ChangeRequest>, docs: seq<Document>, showDocs: bool,
                        infoKeys: set<FormField>, docsMissing: bool)
    requires info.coltId.Some? && info.email.Some?
    requires forall f :: f in infoKeys <==> IsInfoField(f) && FieldInvalid(info, [], [], false, f)
    requires docsMissing <==> FieldInvalid(info, crs, docs, showDocs, DocumentsField)
    ensures forall f :: f in infoKeys + RequestKeys(crs) + (if docsMissing then {DocumentsField} else {})
                        <==> FieldInvalid(info, crs, docs, showDocs, f)
  {
    RequestKeysMembership(crs);
    var keys := infoKeys + RequestKeys(crs) + (if docsMissing then {DocumentsField} else {});
    forall f ensures f in keys <==> FieldInvalid(info, crs, docs, showDocs, f) {
      if IsInfoField(f) {
        assert FieldInvalid(info, crs, docs, showDocs, f) <==> FieldInvalid(info, [], [], false, f);
      } else {
        match f
        case DocumentsField =>
        case HdiNumberField(j) =>
        case CountryField(j) =>
        case TypeOfChangeField(j) =>
      }
    }
  }

  /**
   * The body of `validateForm`: the errors it records, each failed check's key with that check's
   * message. A key is present exactly when its check fails, and the record is empty exactly when the
   * form is valid.
   */
  method CollectErrors(info: ClientInfo, crs: seq<ChangeRequest>, docs: seq<Document>, showDocs: bool)
    returns (errors: map<FormField, string>)
    requires info.coltId.Some? && info.email.Some?
    ensures forall f :: f in errors <==> FieldInvalid(info, crs, docs, showDocs, f)
    ensures forall f :: f in errors ==> errors[f] == ErrorMessage(info.email.value, f)
    ensures errors == map[] <==> FormIsValid(info, crs, docs, showDocs)
  {
    var infoKeys := CheckClientInfo(info);
    var keys := CheckRequests(crs, infoKeys);
    var docsMissing := false;
    if showDocs {
      var missing := Filter((d: Document) => d.required && !d.uploaded, docs);
      if |missing| > 0 {
        assert missing[0] in docs;
        docsMissing := true;
        keys := keys + {DocumentsField};
      }
    }
    KeysMatchChecks(info, crs, docs, showDocs, infoKeys, docsMissing);
    errors := map f | f in keys :: ErrorMessage(info.email.value, f);
    assert errors == map[] <==> FormIsValid(info, crs, docs, showDocs) by {
      ValidIffNoInvalidField(info, crs, docs, showDocs);
      if errors == map[] {
        forall f ensures !FieldInvalid(info, crs, docs, showDocs, f) {
          assert f !in errors;
        }
      } else {
        var f :| f in errors;
        assert FieldInvalid(info, crs, docs, showDocs, f);
      }
    }
  }

  /** Every document the list marks as required has been uploaded. */
  ghost predicate AllRequiredUploaded(docs: seq<Document>) {
    forall j :: 0 <= j < |docs| && docs[j].required ==> docs[j].uploaded
  }

  /**
   * The case `handleSubmit` builds: pending, assigned to "System", no comments, submitted and updated at
   * `now`, so it lands in the okw queue and not in cdd's.
   */
  function NewCase(freshId: string, info: ClientInfo, crs: seq<ChangeRequest>, docs: seq<Document>, now: Timestamp): (r: Case)
    ensures r.id == freshId && r.clientInfo == info && r.changeRequests == crs && r.documents == docs
    ensures r.status == Pending && r.currentAssignee == "System" && r.comments == []
    ensures r.submittedAt == now && r.updatedAt == now
    ensures CaseStore.CasesForRole([r], Okw) == [r] && CaseStore.CasesForRole([r], Cdd) == []
  {
    var r := Case(freshId, info, crs, docs, [], Pending, "System", now, now);
    assert [r][1..] == [];
    r
  }

  /** The five document slots the form starts with, none required and none uploaded. */
  function InitialDocuments(): seq<Document> {
    [ Document("1", "Proof of Address", false, false, None, None),
      Document("2", "Certificate of Incorporation", false, false, None, None),
      Document("3", "Board Resolution", false, false, None, None),
      Document("4", "Certificate of Name Change", false, false, None, None),
      Document("5", "Proof of Identity", false, false, None, None) ]
  }

  /** The client-information fields the form's inputs edit. */
  datatype InfoField = ClientNameInput | AddressInput | DateInput | ColtIdInput | EmailInput

  /** `{ ...clientInfo, [field]: value }`. */
  function SetInfoField(info: ClientInfo, field: InfoField, value: string): ClientInfo {
    match field
    case ClientNameInput => info.(clientName := value)
    case AddressInput => info.(address := value)
    case DateInput => info.(dateOfInformation := value)
    case ColtIdInput => info.(coltId := Some(value))
    case EmailInput => info.(email := Some(value))
  }

  /** The form's state and its handlers; each change-request handler is followed by the recomputation effect. */
  class IntakeForm {
    var clientInfo: ClientInfo
    var changeRequests: seq<ChangeRequest>
    var documents: seq<Document>
    var errors: map<FormField, string>
    var showDocumentsSection: bool

    /**
     * What the handlers keep true: the optional client fields are present, the documents section is
     * shown exactly when some document is required by the current requests, and only such documents
     * are marked required.
     */
    ghost predicate Valid()
      reads this
    {
      && clientInfo.coltId.Some? && clientInfo.email.Some?
      && showDocumentsSection == (RequiredDocNames(changeRequests) != {})
      && forall j :: 0 <= j < |documents| && documents[j].required ==> documents[j].name in RequiredDocNames(changeRequests)
    }

    constructor ()
      ensures Valid()
      ensures clientInfo == ClientInfo("", "", "", Some(""), Some(""))
      ensures changeRequests == [BlankRequest("1")]
      ensures documents == InitialDocuments()
      ensures errors == map[] && !showDocumentsSection
    {
      clientInfo := ClientInfo("", "", "", Some(""), Some(""));
      changeRequests := [BlankRequest("1")];
      documents := InitialDocuments();
      errors := map[];
      showDocumentsSection := false;
      RequiredDocNamesEmptyIff([BlankRequest("1")]);
    }

    /** An input's `onChange`: one client-information field takes the typed value. */
    method EditClientInfo(field: InfoField, value: string)
      requires Valid()
      modifies this`clientInfo
      ensures Valid()
      ensures clientInfo == SetInfoField(old(clientInfo), field, value)
    {
      clientInfo := SetInfoField(clientInfo, field, value);
    }

    /** The change-request effect: show the section iff anything is required, and retag every document. */
    method RecomputeRequiredDocuments()
      requires clientInfo.coltId.Some? && clientInfo.email.Some?
      modifies this`documents, this`showDocumentsSection
      ensures Valid()
      ensures showDocumentsSection == (RequiredDocNames(changeRequests) != {})
      ensures documents == Retag(old(documents), RequiredDocNames(changeRequests))
    {
      var names, anyRequired := CollectRequiredDocs(changeRequests);
      showDocumentsSection := anyRequired;
      documents := Retag(documents, names);
    }

    /** `addChangeRequest`: one blank request goes at the end. */
    method AddChangeRequest(freshId: string)
      requires Valid()
      modifies this`changeRequests, this`documents, this`showDocumentsSection
      ensures Valid()
      ensures changeRequests == old(changeRequests) + [BlankRequest(freshId)]
      ensures documents == Retag(old(documents), RequiredDocNames(changeRequests))
    {
      changeRequests := changeRequests + [BlankRequest(freshId)];
      RecomputeRequiredDocuments();
    }

    /** `removeChangeRequest`. */
    method RemoveChangeRequest(id: string)
      requires Valid()
      modifies this`changeRequests, this`documents, this`showDocumentsSection
      ensures Valid()
      ensures changeRequests == RemoveRequest(old(changeRequests), id)
      ensures documents == Retag(old(documents), RequiredDocNames(changeRequests))
    {
      changeRequests := RemoveRequest(changeRequests, id);
      RecomputeRequiredDocuments();
    }

    /** `updateChangeRequest`. */
    method UpdateChangeRequest(id: string, field: RequestField, value: string)
      requires Valid()
      modifies this`changeRequests, this`documents, this`showDocumentsSection
      ensures Valid()
      ensures changeRequests == UpdateRequest(old(changeRequests), id, field, value)
      ensures documents == Retag(old(documents), RequiredDocNames(changeRequests))
    {
      changeRequests := UpdateRequest(changeRequests, id, field, value);
      RecomputeRequiredDocuments();
    }

    /** `handleFileUpload` (a required-document slot's file input). */
    method HandleFileUpload(docId: string, file: FileHandle)
      requires Valid()
      modifies this`documents
      ensures Valid()
      ensures documents == MarkUploaded(old(documents), docId, file)
    {
      documents := MarkUploaded(documents, docId, file);
    }

    /** `handleAwaitingFileUpload` (an awaiting slot's file input in the attachments pane). */
    method HandleAwaitingFileUpload(docId: string, file: FileHandle)
      requires Valid()
      modifies this`documents
      ensures Valid()
      ensures documents == FillAwaiting(old(documents), docId, file)
    {
      documents := FillAwaiting(documents, docId, file);
    }

    /** `removeAttachment`. */
    method RemoveAttachment(docId: string)
      requires Valid()
      modifies this`documents
      ensures Valid()
      ensures documents == RemoveDocument(old(documents), docId)
    {
      documents := RemoveDocument(documents, docId);
    }

    /** `addAttachment`, given what the user answered to the name prompt. */
    method AddAttachment(answer: Option<string>, freshId: string)
      requires Valid()
      modifies this`documents
      ensures Valid()
      ensures documents == AddAttachmentTo(old(documents), answer, freshId)
    {
      documents := AddAttachmentTo(documents, answer, freshId);
    }

    /** `validateForm`: records the errors and reports whether there were none. */
    method ValidateForm() returns (ok: bool)
      requires Valid()
      modifies this`errors
      ensures Valid()
      ensures forall f :: f in errors <==> FieldInvalid(clientInfo, changeRequests, documents, showDocumentsSection, f)
      ensures forall f :: f in errors ==> errors[f] == ErrorMessage(clientInfo.email.value, f)
      ensures ok <==> errors == map[]
      ensures ok <==> FormIsValid(clientInfo, changeRequests, documents, showDocumentsSection)
    {
      errors := CollectErrors(clientInfo, changeRequests, documents, showDocumentsSection);
      ok := |errors| == 0;
      assert ok <==> errors == map[] by {
        if errors != map[] {
          var f :| f in errors;
        }
      }
    }

    /**
     * `handleSubmit`: a case is produced only when validation passes; it is pending, assigned to
     * "System", has no comments and carries the form's data, and every document it marks as required
     * has been uploaded.
     */
    method HandleSubmit(freshId: string, now: Timestamp) returns (submitted: Option<Case>)
      requires Valid()
      modifies this`errors
      ensures Valid()
      ensures forall f :: f in errors <==> FieldInvalid(clientInfo, changeRequests, documents, showDocumentsSection, f)
      ensures forall f :: f in errors ==> errors[f] == ErrorMessage(clientInfo.email.value, f)
      ensures submitted.Some? <==> errors == map[]
      ensures submitted.Some? <==> FormIsValid(clientInfo, changeRequests, documents, showDocumentsSection)
      ensures submitted.Some? ==> submitted.value == NewCase(freshId, clientInfo, changeRequests, documents, now)
      ensures submitted.Some? ==> AllRequiredUploaded(submitted.value.documents)
    {
      var ok := ValidateForm();
      if !ok {
        return None;
      }
      submitted := Some(NewCase(freshId, clientInfo, changeRequests, documents, now));
    }
  }
}
