/** What the request handlers see of the payment gateway, the object store
    and the mailer. Each external call is represented by its result, supplied
    by the caller of the model; what a handler does to the world is recorded
    as a sequence of effects, on error paths as well as on success. */
module Services {
  import opened Js

  /** The media type of every PDF the application produces or accepts. */
  const PdfMimeType: string := "application/pdf"

  /** The status that authorises delivery. */
  const Succeeded: string := "succeeded"

  /** A payment intent as retrieved from the gateway. */
  datatype PaymentIntent = PaymentIntent(
    amount: nat,                    // minor currency units (cents)
    status: string,
    metadata: map<string, string>)

  /** Result of retrieving an intent by id: the intent, or a thrown SDK error
      (unknown id, network failure, missing key). */
  datatype Retrieval = Retrieved(intent: PaymentIntent) | RetrieveThrew

  /** The parameters a handler passes when creating an intent. Metadata
      values are passed on as the request body held them. */
  datatype IntentRequest = IntentRequest(amount: nat, currency: string, metadata: map<string, Value>)

  /** Result of creating an intent: its client secret (which the gateway may
      leave null), or a thrown SDK error. */
  datatype Creation = Created(clientSecret: Option<string>) | CreateThrew

  /** Result of retrieving a catalogue price: its `unit_amount`, which may be
      null, or a thrown SDK error. */
  datatype PriceFetch = Fetched(unitAmount: Option<nat>) | FetchThrew

  /** An object written to the store, with its HTTP and custom metadata. */
  datatype StoredObject = StoredObject(
    body: seq<bv8>,
    contentType: string,
    contentDisposition: string,
    senderEmail: string)

  datatype Effect =
    | RetrieveIntent(intentId: string)
    | CreateIntent(request: IntentRequest)
    | FetchPrice(priceId: string)
    | PutObject(key: string, stored: StoredObject)
      /** The arguments of a confirmation-email dispatch, as the call site passes them. */
    | SendConfirmation(recipient: string, downloadLink: string, priceDisplay: string)

  /** How a handler ends: SvelteKit's `error(status, message)`, its
      `redirect(status, location)`, an exception escaping from a collaborator
      (answered with status 500 by the framework), or a normal return. */
  datatype Outcome<+T> =
    | Error(status: nat, message: string)
    | Redirect(status: nat, location: string)
    | Thrown
    | Ok(value: T)

  /** One handler invocation: the effects performed, in order, and the outcome. */
  datatype Run<+T> = Run(effects: seq<Effect>, outcome: Outcome<T>)

  predicate IsPut(e: Effect) {
    e.PutObject?
  }

  predicate IsEmail(e: Effect) {
    e.SendConfirmation?
  }

  /** Some effect of the run stored an object or dispatched an email. */
  predicate Delivers<T>(r: Run<T>) {
    exists k :: 0 <= k < |r.effects| && (IsPut(r.effects[k]) || IsEmail(r.effects[k]))
  }

  /** Look-up of a metadata key; an absent key reads as `undefined`. */
  function MetadataField(m: map<string, string>, key: string): (r: Option<string>)
    ensures r.Some? <==> key in m
    ensures r.Some? ==> r.value == m[key]
  {
    if key in m then Some(m[key]) else None
  }
}
