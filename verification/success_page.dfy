/** The post-payment success page's server loader: it re-reads the payment
    intent named in the query string and, only if the payment succeeded,
    shows the order details recorded in the intent's metadata. */
module SuccessPage {
  import opened Js
  import opened Services
  import CreatePaymentIntent

  /** Query-string parameters in order of appearance. */
  type Query = seq<(string, string)>

  /** `URLSearchParams.get(name)`: the value of the first parameter so named. */
  function QueryGet(query: Query, name: string): (r: Option<string>)
    ensures r.None? <==> forall i :: 0 <= i < |query| ==> query[i].0 != name
    ensures r.Some? ==> exists i :: 0 <= i < |query| && query[i] == (name, r.value)
                                   && forall j :: 0 <= j < i ==> query[j].0 != name
  {
    if |query| == 0 then None
    else if query[0].0 == name then Some(query[0].1)
    else
      var r := QueryGet(query[1..], name);
      assert forall j :: 1 <= j < |query| ==> query[j] == query[1..][j - 1];
      r
  }

  /** What the page shows, each item read from the intent's metadata
      (`None` where the key is absent). */
  datatype SuccessData = SuccessData(
    senderEmail: Option<string>,
    fileCount: Option<string>,
    totalPages: Option<string>)

  /** The loader; `lookup` is the gateway's intent retrieval. */
  function Load(query: Query, lookup: string -> Retrieval): (r: Run<SuccessData>)
    ensures var id := QueryGet(query, "payment_intent");
      && (r.outcome == Redirect(303, "/") <==> id.None? || id.value == "")
      && (r.outcome == Redirect(303, "/") ==> r.effects == [])
      && (id.Some? && id.value != "" ==> r.effects == [RetrieveIntent(id.value)])
    ensures r.outcome.Error? ==> r.outcome == Error(400, "Payment was not completed successfully.")
    // a retrieval that throws is a server error, not a refused payment
    ensures var id := QueryGet(query, "payment_intent");
      id.Some? && id.value != "" && lookup(id.value).RetrieveThrew? ==> r.outcome.Thrown?
    ensures r.outcome.Ok? ==>
      var id := QueryGet(query, "payment_intent").value;
      && lookup(id).Retrieved?
      && lookup(id).intent.status == Succeeded
      && r.outcome.value == SuccessData(
           MetadataField(lookup(id).intent.metadata, "senderEmail"),
           MetadataField(lookup(id).intent.metadata, "fileCount"),
           MetadataField(lookup(id).intent.metadata, "totalPages"))
  {
    var id := QueryGet(query, "payment_intent");
    if id.None? || id.value == "" then
      Run([], Redirect(303, "/"))
    else
      var effects := [RetrieveIntent(id.value)];
      match lookup(id.value)
      case RetrieveThrew => Run(effects, Thrown)
      case Retrieved(intent) =>
        if intent.status != Succeeded then
          Run(effects, Error(400, "Payment was not completed successfully."))
        else
          Run(effects, Ok(SuccessData(
            MetadataField(intent.metadata, "senderEmail"),
            MetadataField(intent.metadata, "fileCount"),
            MetadataField(intent.metadata, "totalPages"))))
  }

  /** The status gate in both directions: once an intent id is present and
      retrieved, the page is shown exactly when its status is `succeeded`,
      and refused with 400 otherwise. */
  lemma StatusGate(query: Query, lookup: string -> Retrieval)
    requires QueryGet(query, "payment_intent").Some?
    requires QueryGet(query, "payment_intent").value != ""
    requires lookup(QueryGet(query, "payment_intent").value).Retrieved?
    ensures var status := lookup(QueryGet(query, "payment_intent").value).intent.status;
      && (Load(query, lookup).outcome.Ok? <==> status == Succeeded)
      && (Load(query, lookup).outcome.Error? <==> status != Succeeded)
  {
  }

  /** Only the intent id is taken from the client: two requests naming the
      same intent, whatever else their query strings hold, get the same page. */
  lemma DependsOnlyOnIntent(q1: Query, q2: Query, lookup: string -> Retrieval)
    requires QueryGet(q1, "payment_intent") == QueryGet(q2, "payment_intent")
    ensures Load(q1, lookup) == Load(q2, lookup)
  {
  }

  /** The checkout handler writes neither `fileCount` nor `totalPages` into
      the intent's metadata, so for an intent whose metadata keys are those
      it was created with, the page shows both as absent. */
  lemma CountsAbsentForCheckoutIntents(body: CreatePaymentIntent.Body, productId: Option<string>,
                                       create: IntentRequest -> Creation, query: Query, lookup: string -> Retrieval)
    requires CreatePaymentIntent.HasRequiredFields(body)
    requires var id := QueryGet(query, "payment_intent");
      && id.Some? && lookup(id.value).Retrieved?
      && lookup(id.value).intent.metadata.Keys
         <= CreatePaymentIntent.Post(body, productId, create).effects[0].request.metadata.Keys
    ensures Load(query, lookup).outcome.Ok? ==>
      Load(query, lookup).outcome.value.fileCount.None? && Load(query, lookup).outcome.value.totalPages.None?
  {
  }
}
