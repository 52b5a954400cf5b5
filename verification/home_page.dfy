/** The landing page's server loader: the publishable payment key and the
    price shown to the visitor, fetched from the price catalogue when one is
    configured and otherwise, or on any failure, the built-in $3.99. */
module HomePage {
  import opened Js
  import opened Money
  import opened Services

  /** The amount shown when no catalogue price is available, in cents. */
  const DefaultCents: nat := 399

  /** The literal the loader starts from. */
  const DefaultPriceDisplay: string := "$3.99"

  /** The environment variables the loader reads. */
  datatype HomeEnv = HomeEnv(stripePk: Option<string>, priceId: Option<string>, secretKey: Option<string>)

  datatype PageData = PageData(stripePk: string, priceDisplay: string)

  /** Both the price id and the secret key are set and non-empty. */
  predicate PriceConfigured(env: HomeEnv) {
    env.priceId.Some? && env.priceId.value != "" && env.secretKey.Some? && env.secretKey.value != ""
  }

  /** The starting literal is the display of the default amount. */
  lemma DefaultIsFormatted()
    ensures DefaultPriceDisplay == FormatCents(DefaultCents)
    ensures ParsePrice(DefaultPriceDisplay) == Some(DefaultCents)
  {
    FormatThenParse(DefaultCents);
  }

  /** The loader. `fetch(secretKey, priceId)` is the catalogue look-up made
      with a client built from the secret key; a failure to build the client
      is part of its `FetchThrew` result, since both happen inside one `try`. */
  function Load(env: HomeEnv, fetch: (string, string) -> PriceFetch): (r: Run<PageData>)
    ensures r.outcome.Ok?
    ensures env.stripePk.Some? && env.stripePk.value != "" ==> r.outcome.value.stripePk == env.stripePk.value
    ensures env.stripePk.None? || env.stripePk.value == "" ==> r.outcome.value.stripePk == ""
    ensures !PriceConfigured(env) ==> r.effects == [] && r.outcome.value.priceDisplay == "$3.99"
    ensures PriceConfigured(env) ==> r.effects == [FetchPrice(env.priceId.value)]
    ensures PriceConfigured(env) && fetch(env.secretKey.value, env.priceId.value).FetchThrew? ==>
      r.outcome.value.priceDisplay == "$3.99"
    ensures IsPriceText(r.outcome.value.priceDisplay)
    ensures PriceConfigured(env) ==>
      var fetched := fetch(env.secretKey.value, env.priceId.value);
      ParsePrice(r.outcome.value.priceDisplay)
        == Some(if fetched.Fetched? && fetched.unitAmount.Some? then fetched.unitAmount.value else 399)
  {
    DefaultIsFormatted();
    var stripePk := OrElse(env.stripePk, "");
    if PriceConfigured(env) then
      var fetched := fetch(env.secretKey.value, env.priceId.value);
      var amount := if fetched.Fetched? && fetched.unitAmount.Some? then fetched.unitAmount.value else DefaultCents;
      FormatThenParse(amount);
      var display := if fetched.FetchThrew? then DefaultPriceDisplay else FormatCents(amount);
      Run([FetchPrice(env.priceId.value)], Ok(PageData(stripePk, display)))
    else
      Run([], Ok(PageData(stripePk, DefaultPriceDisplay)))
  }

  /** A catalogue price of zero is shown as zero, not replaced by the default:
      only a null amount falls back. */
  lemma ZeroPriceIsKept(env: HomeEnv, fetch: (string, string) -> PriceFetch)
    requires PriceConfigured(env)
    requires fetch(env.secretKey.value, env.priceId.value) == Fetched(Some(0))
    ensures Load(env, fetch).outcome.value.priceDisplay == "$0.00"
  {
    FormatExamples();
  }
}
