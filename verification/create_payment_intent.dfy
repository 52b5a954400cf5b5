/** The checkout endpoint: it checks that the sender's details are present
    and creates a payment intent for a fixed $3.99 whose metadata carries
    those details, answering with the intent's client secret. */
module CreatePaymentIntent {
  import opened Js
  import opened Services

  /** The fixed charge, in cents, and its currency. */
  const Amount: nat := 399
  const Currency: string := "usd"

  /** A decoded JSON request body: property name to value. */
  type Body = map<string, Value>

  /** `body[name]`, `undefined` when absent. */
  function Field(body: Body, name: string): Value {
    if name in body then body[name] else Undefined
  }

  /** The fields the handler requires to be truthy. */
  predicate HasRequiredFields(body: Body) {
    Truthy(Field(body, "faxNumber")) && Truthy(Field(body, "senderName")) && Truthy(Field(body, "senderEmail"))
  }

  /** The response body `{ clientSecret }`. */
  datatype ClientSecretResponse = ClientSecretResponse(clientSecret: Option<string>)

  /** The request sent to the gateway; `PRODUCT_ID` is read with a non-null
      assertion, so an unset variable is passed on as `undefined`. */
  function IntentFor(body: Body, productId: Option<string>): IntentRequest {
    IntentRequest(Amount, Currency, map[
      "productId" := (if productId.Some? then Str(productId.value) else Undefined),
      "faxNumber" := Field(body, "faxNumber"),
      "senderName" := Field(body, "senderName"),
      "senderEmail" := Field(body, "senderEmail")])
  }

  /** The handler; `create` is the gateway's intent creation, made with a
      client built from the secret key. */
  function Post(body: Body, productId: Option<string>, create: IntentRequest -> Creation): (r: Run<ClientSecretResponse>)
    ensures !HasRequiredFields(body) <==> r.outcome.Error?
    ensures r.outcome.Error? ==> r == Run([], Error(400, "Missing required fields"))
    ensures HasRequiredFields(body) ==>
      && |r.effects| == 1 && r.effects[0].CreateIntent?
      && var req := r.effects[0].request;
      && req.amount == 399 && req.currency == "usd"
      && req.metadata.Keys == {"productId", "faxNumber", "senderName", "senderEmail"}
      && (forall k :: k in {"faxNumber", "senderName", "senderEmail"} ==> req.metadata[k] == body[k])
      && (productId.Some? ==> req.metadata["productId"] == Str(productId.value))
      && (productId.None? ==> req.metadata["productId"] == Undefined)
      && (r.outcome.Ok? <==> create(req).Created?)
      && (r.outcome.Ok? ==> r.outcome.value.clientSecret == create(req).clientSecret)
    ensures !r.outcome.Redirect?
  {
    if !HasRequiredFields(body) then
      Run([], Error(400, "Missing required fields"))
    else
      var req := IntentFor(body, productId);
      match create(req)
      case CreateThrew => Run([CreateIntent(req)], Thrown)
      case Created(secret) => Run([CreateIntent(req)], Ok(ClientSecretResponse(secret)))
  }

  /** The charge does not depend on what the client sends: any two accepted
      bodies create intents for the same amount in the same currency. */
  lemma AmountIndependentOfBody(b1: Body, b2: Body, productId: Option<string>, create: IntentRequest -> Creation)
    requires HasRequiredFields(b1) && HasRequiredFields(b2)
    ensures Post(b1, productId, create).effects[0].request.amount
         == Post(b2, productId, create).effects[0].request.amount
    ensures Post(b1, productId, create).effects[0].request.currency
         == Post(b2, productId, create).effects[0].request.currency
  {
  }
}
