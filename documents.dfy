/**
 * Documents, batches and the per-batch bulk write of cmd/esx/index.go
 * (`Batch`, `indexBatch`). The JSON decoder, the bulk client and the clock are
 * collaborators: the bulk call's reply and its measured duration arrive as a
 * `BulkCall` value, and `fmt.Sprintf("%v", _)` is the parameter `format`.
 */
module Documents {
  import opened Wrappers

  /** A decoded JSON value; JSON null decodes to Go's nil. */
  datatype Json =
    | JNull
    | JBool(b: bool)
    | JNumber(n: real)
    | JString(s: string)
    | JArray(items: seq<Json>)
    | JObject(fields: map<string, Json>)

  /** One input record: a string-keyed JSON object. */
  type Doc = map<string, Json>

  /** A batch of documents with its sequence number. */
  datatype Batch = Batch(id: int, docs: seq<Doc>)

  /**
   * Plain index (insert-or-overwrite) or partial upsert: the two branches of
   * `indexBatch` chosen by the flag `*indexPartial`, which cmd/esx/index.go
   * reads but no file of this model declares.
   */
  datatype WriteMode = IndexMode | UpsertMode

  /** One bulk action: an index request with an optional ID, or an upsert with a required one. */
  datatype BulkRequest =
    | IndexRequest(id: Option<string>, doc: Doc)
    | UpsertRequest(upsertId: string, doc: Doc)

  /** A per-document failure reported by the store. */
  datatype DocFailure = DocFailure(id: string, reason: string)

  /** What the bulk endpoint answers: an outright error, or a reply listing failed documents. */
  datatype BulkReply = TransportFailed(message: string) | Replied(failed: seq<DocFailure>)

  /** One bulk call as seen by `indexBatch`: its elapsed time in seconds and its reply. */
  datatype BulkCall = BulkCall(elapsed: real, reply: BulkReply)

  datatype IndexError =
    | MissingId(field: string, doc: Doc)
    | Transport(message: string)
    | FailedDocs(failed: seq<DocFailure>)

  /** The value `indexBatch` returns: the duration to record and the error, if any. */
  datatype Attempt = Attempt(duration: real, err: Option<IndexError>)

  /** Keys starting with an underscore are reserved for store metadata. */
  predicate Reserved(k: string)
  {
    |k| > 0 && k[0] == '_'
  }

  /** The document without its reserved keys. */
  function Stripped(doc: Doc): (r: Doc)
    ensures forall k :: k in r <==> k in doc && !Reserved(k)
    ensures forall k :: k in r ==> r[k] == doc[k]
  {
    map k | k in doc && !Reserved(k) :: doc[k]
  }

  /** The ID field is present and not null (`docId != nil`). */
  predicate HasId(doc: Doc, field: string)
  {
    field in doc && !doc[field].JNull?
  }

  /**
   * In index mode a present ID is used with a string type assertion, which
   * panics on any other JSON type; callers must not hand such batches over.
   */
  predicate IdsUsable(docs: seq<Doc>, mode: WriteMode, field: string)
  {
    mode.IndexMode? ==> forall i :: 0 <= i < |docs| && HasId(docs[i], field) ==> docs[i][field].JString?
  }

  /** The index of the first document without an ID, or |docs| if all have one. */
  function FirstMissing(docs: seq<Doc>, field: string): (i: nat)
    ensures i <= |docs|
    ensures forall j :: 0 <= j < i ==> HasId(docs[j], field)
    ensures i < |docs| ==> !HasId(docs[i], field)
  {
    if docs == [] then 0
    else if !HasId(docs[0], field) then 0
    else 1 + FirstMissing(docs[1..], field)
  }

  /** The bulk action built for one document. */
  function RequestFor(doc: Doc, mode: WriteMode, field: string, format: Json -> string): BulkRequest
    requires mode.UpsertMode? ==> HasId(doc, field)
    requires mode.IndexMode? && HasId(doc, field) ==> doc[field].JString?
  {
    if mode.UpsertMode? then UpsertRequest(format(doc[field]), Stripped(doc))
    else IndexRequest(if HasId(doc, field) then Some(doc[field].s) else None, Stripped(doc))
  }

  /**
   * The bulk actions for a batch, or the missing-ID error of the first
   * document without an ID in upsert mode.
   */
  function Requests(docs: seq<Doc>, mode: WriteMode, field: string, format: Json -> string)
    : (r: Result<seq<BulkRequest>, IndexError>)
    requires IdsUsable(docs, mode, field)
    ensures r.Failure? <==> mode.UpsertMode? && exists i :: 0 <= i < |docs| && !HasId(docs[i], field)
    ensures r.Failure? ==> r.error == MissingId(field, docs[FirstMissing(docs, field)])
    ensures r.Success? ==> |r.value| == |docs|
    ensures r.Success? ==> forall i :: 0 <= i < |docs| ==>
              r.value[i].doc == Stripped(docs[i]) && (r.value[i].UpsertRequest? <==> mode.UpsertMode?)
    ensures r.Success? && mode.UpsertMode? ==> forall i :: 0 <= i < |docs| ==>
              r.value[i].upsertId == format(docs[i][field])
    ensures r.Success? && mode.IndexMode? ==> forall i :: 0 <= i < |docs| ==>
              r.value[i].id == if HasId(docs[i], field) then Some(docs[i][field].s) else None
  {
    var first := FirstMissing(docs, field);
    if mode.UpsertMode? && first < |docs| then Failure(MissingId(field, docs[first]))
    else Success(seq(|docs|, i requires 0 <= i < |docs| => RequestFor(docs[i], mode, field, format)))
  }

  /**
   * What `indexBatch` returns: a missing ID fails with duration 0 before any
   * bulk call; otherwise the call's duration, with an error when the call
   * failed outright or the store reported failed documents.
   */
  function BatchOutcome(batch: Batch, mode: WriteMode, field: string, format: Json -> string, call: BulkCall)
    : (a: Attempt)
    requires IdsUsable(batch.docs, mode, field)
    ensures a.err.None? <==> Requests(batch.docs, mode, field, format).Success? && call.reply == Replied([])
    ensures Requests(batch.docs, mode, field, format).Failure? ==>
              a == Attempt(0.0, Some(Requests(batch.docs, mode, field, format).error))
    ensures Requests(batch.docs, mode, field, format).Success? ==> a.duration == call.elapsed
    ensures Requests(batch.docs, mode, field, format).Success? && call.reply.Replied? && call.reply.failed != [] ==>
              a.err == Some(FailedDocs(call.reply.failed))
    ensures Requests(batch.docs, mode, field, format).Success? && call.reply.TransportFailed? ==>
              a.err == Some(Transport(call.reply.message))
  {
    match Requests(batch.docs, mode, field, format)
    case Failure(e) => Attempt(0.0, Some(e))
    case Success(_) =>
      match call.reply
      case TransportFailed(msg) => Attempt(call.elapsed, Some(Transport(msg)))
      case Replied(failed) =>
        if |failed| > 0 then Attempt(call.elapsed, Some(FailedDocs(failed)))
        else Attempt(call.elapsed, None)
  }

  /** Copies the document key by key, skipping reserved keys; the original is a value and stays as it was. */
  method StripReserved(doc: Doc) returns (copy: Doc)
    ensures copy == Stripped(doc)
  {
    copy := map[];
    var todo := doc.Keys;
    while todo != {}
      invariant todo <= doc.Keys
      invariant forall k :: k in copy <==> k in doc && k !in todo && !Reserved(k)
      invariant forall k :: k in copy ==> copy[k] == doc[k]
      decreases |todo|
    {
      var k :| k in todo;
      if !Reserved(k) {
        copy := copy[k := doc[k]];
      }
      todo := todo - {k};
    }
  }

  /**
   * `indexBatch`: builds one bulk action per document, then hands them to the
   * bulk call. `sent` is what the bulk call received, or None when it was
   * never made.
   */
  method IndexBatch(batch: Batch, mode: WriteMode, field: string, format: Json -> string, call: BulkCall)
    returns (duration: real, err: Option<IndexError>, sent: Option<seq<BulkRequest>>)
    requires IdsUsable(batch.docs, mode, field)
    ensures Attempt(duration, err) == BatchOutcome(batch, mode, field, format, call)
    ensures sent.None? <==> Requests(batch.docs, mode, field, format).Failure?
    ensures sent.Some? ==> sent.value == Requests(batch.docs, mode, field, format).value
  {
    var docs := batch.docs;
    var reqs: seq<BulkRequest> := [];
    var i := 0;
    while i < |docs|
      invariant 0 <= i <= |docs|
      invariant mode.UpsertMode? ==> forall j :: 0 <= j < i ==> HasId(docs[j], field)
      invariant |reqs| == i
      invariant forall j :: 0 <= j < i ==> reqs[j] == RequestFor(docs[j], mode, field, format)
    {
      var doc := docs[i];
      var hasId := HasId(doc, field);
      var id := "";
      if mode.UpsertMode? {
        if !hasId {
          assert FirstMissing(docs, field) == i;
          return 0.0, Some(MissingId(field, doc)), None;
        }
        id := format(doc[field]);
      }
      var copy := StripReserved(doc);
      var req;
      if mode.UpsertMode? {
        req := UpsertRequest(id, copy);
      } else {
        req := IndexRequest(None, copy);
        if hasId {
          req := IndexRequest(Some(doc[field].s), copy);
        }
      }
      reqs := reqs + [req];
      i := i + 1;
    }
    assert reqs == Requests(docs, mode, field, format).value;
    sent := Some(reqs);
    match call.reply
    case TransportFailed(msg) =>
      duration, err := call.elapsed, Some(Transport(msg));
    case Replied(failed) =>
      if |failed| > 0 {
        duration, err := call.elapsed, Some(FailedDocs(failed));
      } else {
        duration, err := call.elapsed, None;
      }
  }
}
