/** The delivery endpoint. It receives the merged PDF after checkout,
    validates the submission in a fixed order, re-checks with the gateway
    that the named payment intent succeeded, and only then stores the file
    under a fresh id, builds the download link and dispatches the
    confirmation email. */
module UploadMerged {
  import opened Js
  import opened Money
  import opened Services

  /** 100 MiB (100 * 1024 * 1024 bytes), inclusive. */
  const MaxUploadSize: nat := 100 * 1024 * 1024

  const MergedDisposition: string := "attachment; filename=\"merged.pdf\""

  /** The `file` entry of the form. */
  datatype UploadFile = UploadFile(content: seq<bv8>, mimeType: string) {
    function Size(): nat {
      |content|
    }
  }

  /** What the handler reads from the request. `requestOrigin` is the origin
      of the request URL. */
  datatype UploadRequest = UploadRequest(
    contentType: Option<string>,
    requestOrigin: string,
    file: Option<UploadFile>,
    paymentIntentId: Option<string>,
    senderEmail: Option<string>)

  /** Deployment configuration: whether the storage bucket is bound, and `SITE_URL`. */
  datatype UploadEnv = UploadEnv(storageBound: bool, siteUrl: Option<string>)

  /** The response body `{ downloadId, downloadUrl }`. */
  datatype DownloadResponse = DownloadResponse(downloadId: string, downloadUrl: string)

  datatype Rejection = Rejection(status: nat, message: string)

  // ---------------------------------------------------------------------------
  // validation

  predicate IsMultipart(contentType: Option<string>) {
    Includes(OrElse(contentType, ""), "multipart/form-data")
  }

  predicate FieldsPresent(req: UploadRequest) {
    && req.file.Some?
    && req.paymentIntentId.Some? && req.paymentIntentId.value != ""
    && req.senderEmail.Some? && Trim(req.senderEmail.value) != ""
  }

  /** The checks that precede the payment look-up, as the handler runs
      them: the first failing one answers the request. */
  function Validate(req: UploadRequest, env: UploadEnv): (v: Option<Rejection>)
    ensures v.None? ==> FieldsPresent(req)
  {
    if !env.storageBound then Some(Rejection(503, "Storage not configured"))
    else if !IsMultipart(req.contentType) then Some(Rejection(400, "Expected multipart/form-data"))
    else if !FieldsPresent(req) then Some(Rejection(400, "Missing file, paymentIntentId, or senderEmail"))
    else if req.file.value.Size() > MaxUploadSize then Some(Rejection(400, "File too large (max 100 MB)"))
    else if req.file.value.mimeType != PdfMimeType then Some(Rejection(400, "File must be a PDF"))
    else None
  }

  /** One check of the validator, with the answer it gives when it fails. */
  datatype Gate = Gate(passes: bool, rejection: Rejection)

  /** The validator as an ordered list of checks. A check that inspects the
      file passes vacuously when there is no file; the fields check before
      it has already failed in that case. */
  function Gates(req: UploadRequest, env: UploadEnv): seq<Gate> {
    [ Gate(env.storageBound, Rejection(503, "Storage not configured")),
      Gate(IsMultipart(req.contentType), Rejection(400, "Expected multipart/form-data")),
      Gate(FieldsPresent(req), Rejection(400, "Missing file, paymentIntentId, or senderEmail")),
      Gate(req.file.None? || req.file.value.Size() <= MaxUploadSize, Rejection(400, "File too large (max 100 MB)")),
      Gate(req.file.None? || req.file.value.mimeType == PdfMimeType, Rejection(400, "File must be a PDF")) ]
  }

  /** The rejection of the first failing check, if any. */
  function FirstFailure(gates: seq<Gate>): (r: Option<Rejection>)
    ensures r.None? <==> forall i :: 0 <= i < |gates| ==> gates[i].passes
    ensures r.Some? ==> exists i :: 0 <= i < |gates| && !gates[i].passes && gates[i].rejection == r.value
                                    && forall j :: 0 <= j < i ==> gates[j].passes
  {
    if |gates| == 0 then None
    else if !gates[0].passes then Some(gates[0].rejection)
    else
      var r := FirstFailure(gates[1..]);
      assert forall j :: 1 <= j < |gates| ==> gates[j] == gates[1..][j - 1];
      r
  }

  /** The handler's checks run in the listed order: storage, content type,
      fields, size, file type. */
  lemma ValidationOrder(req: UploadRequest, env: UploadEnv)
    ensures Validate(req, env) == FirstFailure(Gates(req, env))
  {
    var g := Gates(req, env);
    FirstOfFive(g[0], g[1], g[2], g[3], g[4]);
    assert g == [g[0], g[1], g[2], g[3], g[4]];
  }

  /** Five checks in a row behave as the handler's chain of `if`s. */
  lemma FirstOfFive(a: Gate, b: Gate, c: Gate, d: Gate, e: Gate)
    ensures FirstFailure([a, b, c, d, e]) ==
      if !a.passes then Some(a.rejection)
      else if !b.passes then Some(b.rejection)
      else if !c.passes then Some(c.rejection)
      else if !d.passes then Some(d.rejection)
      else if !e.passes then Some(e.rejection)
      else None
  {
    var g := [a, b, c, d, e];
    if !a.passes {
      FirstFailureIsFirst(g, 0);
    } else if !b.passes {
      FirstFailureIsFirst(g, 1);
    } else if !c.passes {
      FirstFailureIsFirst(g, 2);
    } else if !d.passes {
      FirstFailureIsFirst(g, 3);
    } else if !e.passes {
      FirstFailureIsFirst(g, 4);
    }
  }

  /** The first failing check decides. */
  lemma FirstFailureIsFirst(gates: seq<Gate>, k: nat)
    requires k < |gates| && !gates[k].passes
    requires forall j :: 0 <= j < k ==> gates[j].passes
    ensures FirstFailure(gates) == Some(gates[k].rejection)
  {
    var r := FirstFailure(gates);
    var i :| 0 <= i < |gates| && !gates[i].passes && gates[i].rejection == r.value
             && forall j :: 0 <= j < i ==> gates[j].passes;
    assert i == k;
  }

  /** The content type is accepted exactly when the header contains
      `multipart/form-data`; an absent header is read as `''` and refused. */
  lemma MultipartCheck(contentType: Option<string>)
    ensures IsMultipart(contentType) <==> exists i: nat :: OccursAt(OrElse(contentType, ""), "multipart/form-data", i)
    ensures contentType.None? ==> !IsMultipart(contentType)
  {
    IncludesIffOccurs(OrElse(contentType, ""), "multipart/form-data");
  }

  /** The fields check fails exactly for a missing file, a missing or empty
      intent id, or a missing or whitespace-only email. */
  lemma FieldsCheck(req: UploadRequest)
    ensures !FieldsPresent(req) <==>
      || req.file.None?
      || req.paymentIntentId.None? || req.paymentIntentId.value == ""
      || req.senderEmail.None?
      || (forall i :: 0 <= i < |req.senderEmail.value| ==> IsWhitespace(req.senderEmail.value[i]))
  {
    if req.senderEmail.Some? {
      TrimEmptyIffBlank(req.senderEmail.value);
    }
  }

  /** The size bound is inclusive at exactly 100 MiB. */
  lemma SizeBoundInclusive(req: UploadRequest, env: UploadEnv)
    requires env.storageBound && IsMultipart(req.contentType) && FieldsPresent(req)
    requires req.file.value.mimeType == PdfMimeType
    ensures req.file.value.Size() == 104857600 ==> Validate(req, env).None?
    ensures req.file.value.Size() == 104857601 ==> Validate(req, env) == Some(Rejection(400, "File too large (max 100 MB)"))
  {
  }

  // ---------------------------------------------------------------------------
  // ids, keys and links

  /** The store key of an upload. */
  function StorageKey(id: string): string {
    "merged/" + id + ".pdf"
  }

  /** The id a store key was derived from. */
  function IdOfKey(key: string): Option<string> {
    if |key| >= 11 && key[..7] == "merged/" && key[|key| - 4..] == ".pdf" then Some(key[7..|key| - 4]) else None
  }

  /** `SITE_URL` when non-empty, otherwise the request's own origin. */
  function Origin(req: UploadRequest, env: UploadEnv): string {
    OrElse(env.siteUrl, req.requestOrigin)
  }

  function DownloadUrl(origin: string, id: string): string {
    origin + "/download/" + id
  }

  /** The id a download link for `origin` carries. */
  function IdOfUrl(origin: string, url: string): Option<string> {
    var prefix := origin + "/download/";
    if |prefix| <= |url| && url[..|prefix|] == prefix then Some(url[|prefix|..]) else None
  }

  /** Key and link both give back the id they were built from, so distinct
      ids never share a key or a link. */
  lemma IdsRoundTrip(origin: string, id: string)
    ensures IdOfKey(StorageKey(id)) == Some(id)
    ensures IdOfUrl(origin, DownloadUrl(origin, id)) == Some(id)
  {
    var key := StorageKey(id);
    assert key[..7] == "merged/" && key[|key| - 4..] == ".pdf" && key[7..|key| - 4] == id;
    var url := DownloadUrl(origin, id);
    var prefix := origin + "/download/";
    assert url[..|prefix|] == prefix && url[|prefix|..] == id;
  }

  // ---------------------------------------------------------------------------
  // the handler

  /** The payment named in the request has been re-read from the gateway and
      succeeded. */
  predicate PaymentVerified(req: UploadRequest, lookup: string -> Retrieval) {
    && req.paymentIntentId.Some?
    && lookup(req.paymentIntentId.value).Retrieved?
    && lookup(req.paymentIntentId.value).intent.status == Succeeded
  }

  /** The handler. `lookup` is the gateway's intent retrieval, `id` the
      random UUID the handler mints, and `putSucceeds` whether the store
      accepted the write. The email is dispatched without waiting and the
      mailer reports failure by a return value nobody reads, so its result
      is not an input: the response cannot depend on it. */
  function Post(req: UploadRequest, env: UploadEnv, lookup: string -> Retrieval, id: string, putSucceeds: bool)
    : (r: Run<DownloadResponse>)
    // nothing is looked up, stored or sent before every check has passed
    ensures Validate(req, env).Some? ==>
      r == Run([], Error(Validate(req, env).value.status, Validate(req, env).value.message))
    ensures Validate(req, env).None? ==> |r.effects| >= 1 && r.effects[0] == RetrieveIntent(req.paymentIntentId.value)
    // pay before deliver
    ensures Delivers(r) ==> Validate(req, env).None? && PaymentVerified(req, lookup)
    ensures Validate(req, env).None? && !PaymentVerified(req, lookup) ==>
      r.effects == [RetrieveIntent(req.paymentIntentId.value)] && (r.outcome.Thrown? || r.outcome == Error(400, "Payment not completed"))
    // an intent that was retrieved but has not succeeded is refused, never a server error
    ensures Validate(req, env).None? && lookup(req.paymentIntentId.value).Retrieved? && !PaymentVerified(req, lookup) ==>
      r.outcome == Error(400, "Payment not completed")
    // a store write that throws ends the request before the email
    ensures !putSucceeds ==> !Delivers(r)
    // a gateway or store failure is a server error after the retrieval alone
    ensures Validate(req, env).None? && lookup(req.paymentIntentId.value).RetrieveThrew? ==>
      r == Run([RetrieveIntent(req.paymentIntentId.value)], Thrown)
    ensures Validate(req, env).None? && PaymentVerified(req, lookup) && !putSucceeds ==>
      r == Run([RetrieveIntent(req.paymentIntentId.value)], Thrown)
    ensures r.outcome.Ok? <==> Validate(req, env).None? && PaymentVerified(req, lookup) && putSucceeds
  {
    var v := Validate(req, env);
    if v.Some? then
      Run([], Error(v.value.status, v.value.message))
    else
      var intentId := req.paymentIntentId.value;
      var retrieved := [RetrieveIntent(intentId)];
      var retrieval := lookup(intentId);
      if retrieval.RetrieveThrew? then
        Run(retrieved, Thrown)
      else if retrieval.intent.status != Succeeded then
        Run(retrieved, Error(400, "Payment not completed"))
      else if !putSucceeds then
        Run(retrieved, Thrown)
      else
        var email := Trim(req.senderEmail.value);
        var url := DownloadUrl(Origin(req, env), id);
        var stored := StoredObject(req.file.value.content, PdfMimeType, MergedDisposition, email);
        Run(retrieved + [PutObject(StorageKey(id), stored), SendConfirmation(email, url, FormatCents(retrieval.intent.amount))],
            Ok(DownloadResponse(id, url)))
  }

  /** What a successful delivery does: the file is stored under a key
      derived from the minted id, the link carries the same id, and the
      email goes to the trimmed address with that link and the paid price. */
  lemma SuccessfulDelivery(req: UploadRequest, env: UploadEnv, lookup: string -> Retrieval, id: string)
    requires Validate(req, env).None? && PaymentVerified(req, lookup)
    ensures Post(req, env, lookup, id, true).outcome.Ok?
    ensures var r := Post(req, env, lookup, id, true);
      var resp := r.outcome.value;
      var email := Trim(req.senderEmail.value);
      && resp.downloadId == id
      && |r.effects| == 3
      && r.effects[0] == RetrieveIntent(req.paymentIntentId.value)
      && r.effects[1].PutObject? && r.effects[2].SendConfirmation?
      && IdOfKey(r.effects[1].key) == Some(resp.downloadId)
      && IdOfUrl(Origin(req, env), resp.downloadUrl) == Some(resp.downloadId)
      && r.effects[1].stored == StoredObject(req.file.value.content, PdfMimeType, MergedDisposition, email)
      && r.effects[2].recipient == email
      && r.effects[2].downloadLink == resp.downloadUrl
      && ParsePrice(r.effects[2].priceDisplay) == Some(lookup(req.paymentIntentId.value).intent.amount)
  {
    IdsRoundTrip(Origin(req, env), id);
    FormatThenParse(lookup(req.paymentIntentId.value).intent.amount);
  }

  /** The handler does not check the submitted email against the one the
      intent was created with: the intent's metadata, where that email is
      kept, has no influence on what is stored, sent or answered. */
  lemma SenderEmailNotBoundToIntent(req: UploadRequest, env: UploadEnv, intent: PaymentIntent,
                                    otherMetadata: map<string, string>, id: string, putSucceeds: bool)
    ensures Post(req, env, _ => Retrieved(intent), id, putSucceeds)
         == Post(req, env, _ => Retrieved(intent.(metadata := otherMetadata)), id, putSucceeds)
  {
  }
}
