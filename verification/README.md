# SimpleMergePDF: payment-gated delivery, modelled in Dafny

SimpleMergePDF lets a visitor merge PDFs (and images turned into PDFs) in the
browser, pay $3.99, and receive the merged file through an emailed download
link. This project models the decisions the application makes itself, with the
payment gateway, object store, mailer and PDF libraries reduced to the results
they return:

- the delivery endpoint (`api/upload-merged`): an ordered validator, a
  server-side re-check that the payment intent succeeded, and only then the
  store write, the download link and the confirmation email, all derived from
  one minted id;
- the cents-to-dollars display used by that endpoint and by the landing page;
- the landing page loader with its catalogue price and `$3.99` fallback;
- the success page loader and the checkout endpoint that creates the intent;
- the decisions of the image-to-PDF converter: output name, orientation, image
  format and the fit-and-centre placement;
- page counting and merging over PDFs seen as sequences of pages.

Every handler is a pure function. An external call is passed in as an oracle:
`lookup: string -> Retrieval` retrieves an intent, `create` creates one,
`fetch` reads a catalogue price. A result type such as `RetrieveThrew` stands
for an exception thrown by that call. A handler returns a `Run`: the effects it
performed, in order, and its `Outcome`. Effects are retrieve, create, fetch,
store put and email dispatch. An `Outcome` is `Error(status, message)`,
`Redirect(status, location)`, `Thrown` (answered with 500) or `Ok(body)`.
Effects are recorded on error paths too. This is what lets the contracts say
that nothing is retrieved before validation and nothing is stored or sent
before payment.

Modules: `Js` (JavaScript semantics the handlers lean on: truthiness, `a || b`,
`trim`, `includes`, ASCII case folding), `Money`, `Services` (gateway, store
and mailer results, effects, outcomes), `HomePage`, `SuccessPage`,
`CreatePaymentIntent`, `UploadMerged`, `ImageToPdf`, `MergePdfs`.

The success page reads `fileCount` and `totalPages` from the intent's metadata.
The checkout endpoint never writes those keys, so for intents it creates the page
shows them as absent (`SuccessPage.CountsAbsentForCheckoutIntents`).

## Model

| member | source | states |
|---|---|---|
| `UploadMerged.Post` | src/routes/api/upload-merged/+server.ts:10-75 | A failed check answers with its status and message and performs no effect. Otherwise the first effect is retrieving the named intent. Storing or emailing happens only if every check passed and the retrieved intent's status is `succeeded`. An unpaid intent has the retrieval as the only effect. A retrieved intent whose status is not `succeeded` is answered 400 `Payment not completed`. A retrieval or store write that throws gives 500 with the retrieval as the only effect, so nothing is stored or sent. Every other refusal is 400 or 503. The response is Ok exactly when checks pass, payment is verified and the store write succeeds. |
| `UploadMerged.SuccessfulDelivery` | src/routes/api/upload-merged/+server.ts:45-74 | After payment, the three effects are retrieve, put, email. The store key and the download URL both decode back to the response's `downloadId`, which is the minted id. The stored object holds the uploaded bytes with type `application/pdf`, disposition `attachment; filename="merged.pdf"` and the trimmed email. The email goes to the trimmed address with the response's URL. Its price text reads back as the intent's amount. |
| `UploadMerged.ValidationOrder` | src/routes/api/upload-merged/+server.ts:11-36 | The validator answers exactly as the first failing check of the ordered list: storage (503), multipart content type, fields, size, PDF type (each 400). |
| `UploadMerged.FirstFailure` | src/routes/api/upload-merged/+server.ts:11-36 | Returns none exactly when every check passes. Otherwise it returns the rejection of a failing check that all earlier checks passed. |
| `UploadMerged.MultipartCheck` | src/routes/api/upload-merged/+server.ts:16-19 | The content type is accepted exactly when the header contains `multipart/form-data` as a substring. An absent header is read as `''` and refused. |
| `UploadMerged.FieldsCheck` | src/routes/api/upload-merged/+server.ts:22-28 | The fields check fails exactly in these cases: no file, no or empty `paymentIntentId`, or no or whitespace-only `senderEmail`. |
| `UploadMerged.SizeBoundInclusive` | src/routes/api/upload-merged/+server.ts:8-36 | With the other checks passing, a file of 104857600 bytes is accepted and one of 104857601 bytes is refused as too large. |
| `UploadMerged.IdsRoundTrip` | src/routes/api/upload-merged/+server.ts:46-64 | `merged/<id>.pdf` and `<origin>/download/<id>` both give back `id`, so distinct ids never share a key or a link. |
| `UploadMerged.SenderEmailNotBoundToIntent` | src/routes/api/upload-merged/+server.ts:38-74 | The intent's metadata, where the payer's email is kept, has no influence on the result. The submitted email is not checked against it. |
| `Money.FormatCents` | src/routes/+page.server.ts:15 | The display is `$`, a canonical integer part, `.` and exactly two digits. |
| `Money.FormatThenParse` | src/routes/+page.server.ts:15 | Reading a displayed amount back gives the amount in cents. |
| `Money.ParseThenFormat` | src/routes/+page.server.ts:15 | Every well-formed price text is the display of the amount it denotes, so the formatter is onto the price texts. |
| `Money.FormatInjective` | src/routes/api/upload-merged/+server.ts:67 | Distinct amounts in cents are displayed differently. |
| `Money.FormatExamples` | src/routes/+page.server.ts:15 | 399 shows as `$3.99`, 5 as `$0.05`, 1000 as `$10.00`, 0 as `$0.00`. |
| `Money.DecimalValueOfDecimal` | src/routes/+page.server.ts:15 | The printed integer part reads back as the number printed. |
| `HomePage.Load` | src/routes/+page.server.ts:6-22 | `stripePk` is `STRIPE_PK` when non-empty, otherwise `''`. Without both a price id and a secret key, nothing is fetched and the price is `$3.99`. With both, one fetch of that price id happens. A thrown fetch leaves `$3.99`. Otherwise the display reads back as `unit_amount`, or as 399 when it is null. |
| `HomePage.DefaultIsFormatted` | src/routes/+page.server.ts:8-15 | The starting literal `$3.99` is the display of the default 399 cents. |
| `HomePage.ZeroPriceIsKept` | src/routes/+page.server.ts:14-15 | A `unit_amount` of 0 is shown as `$0.00`. Only null falls back. |
| `SuccessPage.QueryGet` | src/routes/success/+page.server.ts:7 | Returns none exactly when no parameter has the name. Otherwise it returns the value of the first parameter with that name. |
| `SuccessPage.Load` | src/routes/success/+page.server.ts:6-25 | An absent or empty `payment_intent` redirects 303 to `/` with no retrieval. Otherwise the named intent is retrieved. A retrieval that throws gives 500. A page is shown only for a `succeeded` intent; any other status is refused with 400. The page holds exactly the metadata's `senderEmail`, `fileCount` and `totalPages`. |
| `SuccessPage.StatusGate` | src/routes/success/+page.server.ts:14-18 | For a retrieved intent, the page is shown exactly when its status is `succeeded`, and refused with 400 otherwise. |
| `SuccessPage.DependsOnlyOnIntent` | src/routes/success/+page.server.ts:7-24 | Two query strings naming the same intent get the same result. |
| `SuccessPage.CountsAbsentForCheckoutIntents` | src/routes/success/+page.server.ts:20-24 | For an intent carrying only the metadata keys checkout wrote, the page's `fileCount` and `totalPages` are absent. |
| `CreatePaymentIntent.Post` | src/routes/api/create-payment-intent/+server.ts:6-27 | If any of `faxNumber`, `senderName`, `senderEmail` is falsy, the result is 400 and nothing is created. Otherwise exactly one intent of 399 `usd` is created. Its metadata keys are exactly `productId`, `faxNumber`, `senderName` and `senderEmail`, with values copied from the body. `productId` is `PRODUCT_ID`, or `undefined` when that variable is unset. The response carries that intent's client secret. |
| `CreatePaymentIntent.AmountIndependentOfBody` | src/routes/api/create-payment-intent/+server.ts:15-17 | Any two accepted bodies create intents of the same amount and currency. |
| `Js.TrimEmptyIffBlank` | src/routes/api/upload-merged/+server.ts:26 | `trim()` yields `''` exactly for a string made only of ECMAScript whitespace and line terminators. |
| `Js.Trim` | src/routes/api/upload-merged/+server.ts:58 | The trimmed email is a slice of the submitted one. Everything removed before and after the slice is whitespace, and the slice neither starts nor ends with whitespace. |
| `Js.IncludesIffOccurs` | src/routes/api/upload-merged/+server.ts:17 | The left-to-right scan reports `includes` exactly when the substring occurs at some index. |
| `Js.OrElse` | src/routes/api/upload-merged/+server.ts:63 | The logical-or default on an optional string gives the value when present and non-empty, otherwise the fallback. |
| `ImageToPdf.ConvertImageToPdf` | src/lib/convert-image-to-pdf.ts:7-35 | The output is `application/pdf` and named by the rewrite. It is landscape, with the page wider than tall, exactly when the image is wider than tall. Its format is PNG exactly for `image/png`. The page is US Letter in the chosen orientation, and the placement is the fit-and-centre layout for that page, so the image lies within the margins. |
| `ImageToPdf.OrientationFor` | src/lib/convert-image-to-pdf.ts:11 | Landscape exactly when width > height, so a square image is portrait. |
| `ImageToPdf.FormatFor` | src/lib/convert-image-to-pdf.ts:29 | PNG exactly for the MIME type `image/png`, JPEG for every other type. |
| `ImageToPdf.Layout` | src/lib/convert-image-to-pdf.ts:13-27 | The scale is in (0, 1]. The drawn box lies at least 36pt inside every page edge. The left gap equals the right gap and the top gap equals the bottom gap. |
| `ImageToPdf.ScaleFits` | src/lib/convert-image-to-pdf.ts:16-23 | The scaled width and height fit the page less two margins. |
| `ImageToPdf.AspectPreserved` | src/lib/convert-image-to-pdf.ts:21-23 | The drawn width and height are in the image's proportion. |
| `ImageToPdf.ScaleIsLargestFit` | src/lib/convert-image-to-pdf.ts:21 | The scale is 1, or the drawn box touches the margins in width or height. No larger scale would fit. |
| `ImageToPdf.PdfFileNameSpec` | src/lib/convert-image-to-pdf.ts:33 | A name ending in `.jpg`, `.jpeg` or `.png`, in any case, has exactly that ending replaced by `.pdf`. Any other name is unchanged. |
| `ImageToPdf.ExtensionLengthSpec` | src/lib/convert-image-to-pdf.ts:33 | The extension the scan reports is `.jpeg` exactly when the name ends so. It reports a 4-character one exactly when the name ends in `.jpg` or `.png` instead. |
| `ImageToPdf.ExtensionsExclusive` | src/lib/convert-image-to-pdf.ts:33 | No name ends in more than one of the three image extensions. |
| `ImageToPdf.RenamesFinalExtensionOnly` | src/lib/convert-image-to-pdf.ts:33 | `a.png.png` becomes `a.png.pdf`: only the final extension is replaced. |
| `ImageToPdf.RenamesUpperCaseExtension` | src/lib/convert-image-to-pdf.ts:33 | `SCAN.JPEG` becomes `SCAN.pdf`: the pattern ignores letter case. |
| `ImageToPdf.KeepsOtherNames` | src/lib/convert-image-to-pdf.ts:33 | `photo.gif` is left unchanged. |
| `MergePdfs.CountPagesPerFile` | src/lib/merge-pdfs.ts:7-15 | Succeeds exactly when every file loads. The result has one entry per file, in order, and entry i is file i's page count. |
| `MergePdfs.MergePdfs` | src/lib/merge-pdfs.ts:18-32 | Succeeds exactly when every file loads. The pages are every file's full page sequence, concatenated in input order. The blob type is `application/pdf`. |
| `MergePdfs.MergedPageCount` | src/lib/merge-pdfs.ts:7-28 | The merged page count is the sum of the per-file counts. No files gives an empty document. |
| `MergePdfs.SizeLimitsAgree` | src/lib/merge-pdfs.ts:3-4 | The client's 100 MiB total-size limit equals the server's upload limit. |

## Left out

- Download endpoint (`src/routes/download/[id]/+server.ts`), Stripe webhook
  (`src/routes/api/webhooks/stripe/+server.ts`) and the mailer (`src/lib/email.ts`)
  are not part of this model. The webhook's only decision is the SDK's
  signature check. The mailer is a fixed template around an SES call.
- The email is an effect whose result is not an input. `sendConfirmationEmail`
  catches its own errors and returns a boolean that the caller drops, and the
  call is not awaited, so it cannot change the response. The call site passes
  the price display as a third argument, but the mailer takes two parameters
  and its template hard-codes `$2.99`. The recorded price argument therefore
  says nothing about the email's text.
- `crypto.randomUUID()` is an input `id`: the model does not claim it is random
  or unique. The `uploadedAt` timestamp is not modelled.
- Payment gateway, object store and PDF library internals are oracles or
  abstract page sequences. The Stripe client construction from `STRIPE_SK` is
  folded into each oracle's failure case.
- A store write that throws is `putSucceeds = false`: the outcome is `Thrown`,
  with no put and no email recorded.
- Multipart and JSON body parsing failures are framework behaviour and are left
  out. So are form entries of the wrong kind, such as a text value under `file`.
  The request body of the checkout endpoint is a JSON object.
- `FileReader` and `Image` loading in the converter (`readFileAsDataURL`,
  `getImageDimensions`) and the jsPDF rendering and `output` are left out. The
  converter takes the decoded image size as an input.
- ImageToPdf.Layout: geometry is over exact reals, an idealisation of the
  browser's IEEE-754 doubles. The page must exceed twice the margin, which every
  letter page (612 x 792 pt) does. Under that condition, using 1 in place of the
  +Infinity quotient of a zero-sized image gives what JavaScript's `Math.min` returns.
- Money.FormatCents: exact integer formatting. For integer cents the double
  expression `(amount / 100).toFixed(2)` agrees up to about 7 * 10^15 cents. It
  prints exponent notation from 10^21 dollars. Gateway amounts are bounded far
  below both.
- Concurrency and the fire-and-forget scheduling of the email are not
  modelled. The email is recorded as the last effect of the run.
