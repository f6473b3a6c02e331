# invoicerr: quote rendering, user profile and download notifications in Dafny

This project models the decision and projection rules of the invoicerr
invoicing application and proves what they promise:

- **Quote render model** (`QuotePdf`). `generateQuotePdf` turns a stored
  quote into the flat object its HTML template consumes. It applies these
  rules:
  - the document-number fallback;
  - the client-name fallback;
  - payment label and details from a saved payment method;
  - item-type labels;
  - the French VAT-exemption sentence;
  - `showVAT` and `colSpan`;
  - signature and acceptance defaults;
  - line breaks in the notes;
  - `toFixed(2).replace('.', ',')` money.

  The method `GenerateQuotePdf` follows the source's steps. These are the
  in-place client-name fix and the reassigned payment variables. It is
  proved equal to the function `ProjectQuote`, and lemmas state what that
  function guarantees.
- **Quote template** (`QuoteTemplate`). The HTML template is modelled as the
  document structure it produces: header blocks, a table of rows of cells,
  and closing blocks. The proofs cover three things:
  - every table row spans `colSpan` columns;
  - the VAT column appears exactly when `showVAT` holds;
  - the optional blocks appear exactly when their values are set.

  The module also holds Handlebars' `{{ }}` escaping, with its inverse, and
  the number-to-text conversion of the VAT rate, with its parser.
- **User profile and avatar** (`UserService`, `UserController`). These model
  the profile-update patch: salutation check, copying only the fields that
  were sent, and an empty salutation becoming `null`. They also model the
  avatar file name and path, and the upload guards.
- **Download notifications** (`DownloadNotification`). The component's
  three JavaScript `Map`s are modelled as a class. Its methods are the
  progress, completion, three-second expiry and dismiss events. The list
  of cards derived from the maps is a function.
- **Server bootstrap** (`Bootstrap`). This covers the CORS origin list and
  the listening-port fallback.

Supporting modules:

- `Wrappers` holds `Option`, `Result` and JavaScript truthiness.
- `Strings` holds decimal digits, `split`, `trim` (the ECMAScript white-space
  set) and ASCII `toUpperCase`.
- `JsMaps` holds a JavaScript `Map` as an insertion-ordered list of entries.

Amounts are whole cents. VAT rates are hundredths of a percent.

Behaviours of the code that the model keeps as they are:

- The persisted `totalHT`, `totalVAT` and `totalTTC` are displayed as stored.
  They are not recomputed from the items.
- Items keep the order in which they are loaded. They are not sorted by
  `order`.
- A `complementaryOptions` value that does not parse makes generation fail
  (`MalformedOptions`), because `JSON.parse` throws. It does not fall back to
  defaults.
- A missing quote, company or PDF configuration gives one and the same error.
- With VAT hidden, the template still shows the stored `totalTTC`.

Nothing in the component ever adds to the `errors` map, so error cards
exist in the model but can never appear. The constructor starts `errors`
empty, the `ensures` clauses of `OnDownloadProgress`, `OnDownloadComplete`
and `Expire` keep it unchanged, and those of `Dismiss` only delete from it,
so `errors` never grows.

## Model

| member | source | states |
|---|---|---|
| QuotePdf.GenerateQuotePdf | backend/src/utils/generate-quote-pdf.ts:15-140 | The imperative generator yields exactly `ProjectQuote`. Its steps are the client name fixed in place and the payment variables reassigned when a saved method resolves. |
| QuotePdf.ProjectQuoteErrors | backend/src/utils/generate-quote-pdf.ts:27-29 | Generation fails with the not-found error exactly when the quote, its company or its PDF config is missing. Options that do not parse fail next. In every other case it succeeds. |
| QuotePdf.ProjectedModel | backend/src/utils/generate-quote-pdf.ts:69-114 | A successful model has the raw number when it is set, else the digits of `number`. It has the fallback client name. When a saved method resolves, the payment is its label and its details, or the quote's details when the method's are empty; otherwise it is the quote's own payment. The VAT mention is `VatExemptText` of the quote and its company. It has items one for one with section flags and labels. Totals read back as the stored amounts. `showVAT` and `colSpan` follow the source. Without options, signature and acceptance are shown and there is no title; with parsed options, both flags come from the options and the title is shown only when the options ask for it. Also, `showSignatureSection` is `showSignature \|\| showAcceptance`. The notes are `DisplayNotes` of the stored notes, so they have no newline, and `noteExists` holds iff notes are non-empty. |
| QuotePdf.DisplayNumber | backend/src/utils/generate-quote-pdf.ts:70 | The result is the raw number when it is non-empty. Otherwise it is a digit string whose value is `number`, with no leading zero. It is never empty. |
| QuotePdf.DisplayClient | backend/src/utils/generate-quote-pdf.ts:36-38 | Only the name can change. An empty name becomes first name, space, last name. A non-empty name leaves the client unchanged. |
| QuotePdf.PaymentTypeLabel | backend/src/utils/generate-quote-pdf.ts:41-47 | The label is the configured label for the method type, or the raw enum name when that label is empty. It is never empty. |
| QuotePdf.ResolvePayment | backend/src/utils/generate-quote-pdf.ts:50-58 | With a resolved method, the type label is used, and its details unless they are empty, in which case the quote's details are kept. Without one, the quote's own method and details are kept. |
| QuotePdf.ItemTypeLabel | backend/src/utils/generate-quote-pdf.ts:61-67 | The configured label is used, else the enum name, so a section item shows `SECTION`. It is never empty. |
| QuotePdf.ProjectItem | backend/src/utils/generate-quote-pdf.ts:76-84 | `isSection` holds iff the type is SECTION. The unit price reads back as the stored price. Description, quantity and rate are carried over. |
| QuotePdf.ProjectItems | backend/src/utils/generate-quote-pdf.ts:76 | The output has the same length and order as the items, one projected item per item. |
| QuotePdf.FormatMoney | backend/src/utils/generate-quote-pdf.ts:85-87 | The text has no dot and exactly one comma. The comma is followed by two digits. It starts with `-` iff the amount is negative. The integer part is the decimal string of the whole units, so it has no leading zero. Reading the text back gives the amount. |
| QuotePdf.FormatWholeAmount | backend/src/utils/generate-quote-pdf.ts:85 | A whole amount is written as its digits followed by `,00`. |
| QuotePdf.ReplaceFirstAfter | backend/src/utils/generate-quote-pdf.ts:79 | `replace` with a one-character pattern changes only the first occurrence. |
| QuotePdf.VatExemptText | backend/src/utils/generate-quote-pdf.ts:88 | The quote's exemption text is used when it is set. Otherwise the fixed French sentence is used if the company is VAT-exempt and its upper-cased country is FRANCE. Otherwise there is none. |
| QuotePdf.ColSpan | backend/src/utils/generate-quote-pdf.ts:94-95 | `colSpan` is 3 when VAT is shown and 2 otherwise. |
| QuotePdf.BreakLines | backend/src/utils/generate-quote-pdf.ts:114 | No newline remains. |
| QuotePdf.BreakLinesAppend | backend/src/utils/generate-quote-pdf.ts:114 | The pieces of a text are replaced independently: the result for `a + b` is the result for `a` followed by the result for `b`. |
| QuotePdf.BreakLinesChar | backend/src/utils/generate-quote-pdf.ts:114 | A newline becomes `<br>` and any other character stays as it is. With `BreakLinesAppend` this fixes the whole result. |
| QuotePdf.BreakLinesLength | backend/src/utils/generate-quote-pdf.ts:114 | Each newline grows the text by three characters. |
| QuotePdf.BreakLinesPlain | backend/src/utils/generate-quote-pdf.ts:114 | Text without a newline is unchanged. |
| QuotePdf.BreakLinesRoundTrip | backend/src/utils/generate-quote-pdf.ts:114 | For text without `<`, turning each `<br>` back into a newline restores the notes. |
| QuotePdf.DisplayNotes | backend/src/utils/generate-quote-pdf.ts:113-114 | Present notes are shown with every newline replaced by `<br>`, so no newline remains. Missing or empty notes show as empty. |
| QuoteTemplate.HeadRow | backend/src/modules/quotes/templates/base.template.ts:226-232 | The heading row has `colSpan` single cells: description first, the VAT-rate label second when VAT is shown, and `Montant HT` last. |
| QuoteTemplate.ItemRow | backend/src/modules/quotes/templates/base.template.ts:235-249 | A section is one raw description cell spanning `colSpan`. Another item has the raw description, a `rate%` cell iff VAT is shown, and `price currency` last. Either way the row spans `colSpan`. |
| QuoteTemplate.FootRows | backend/src/modules/quotes/templates/base.template.ts:251-271 | There are exactly two total rows, Total HT and Total TTC. Each spans `colSpan` single cells and ends with its amount and currency. When VAT is shown, the middle cell of both rows is empty. No Total VAT row exists. |
| QuoteTemplate.ItemsTable | backend/src/modules/quotes/templates/base.template.ts:224-272 | There is one body row per item, in order. |
| QuoteTemplate.TableIsRectangular | backend/src/modules/quotes/templates/base.template.ts:224-272 | The heading, every item row and every total row span the same number of columns. |
| QuoteTemplate.ClientBlock | backend/src/modules/quotes/templates/base.template.ts:188-194 | The block has four lines: the escaped client name, the address, postal code and city separated by a space, and the country. |
| QuoteTemplate.ClientHeading | backend/src/modules/quotes/templates/base.template.ts:189 | On a generated quote, the first line of the client block reads back as the client's name, or as the contact's first and last name when the name is empty. |
| QuoteTemplate.CompanyBlock | backend/src/modules/quotes/templates/base.template.ts:202-210 | The three address lines always appear. The Mobile, Email, SIREN and SIRET lines each appear iff their field is non-empty, always in that order: each present line sits right after the address lines and the present lines before it. |
| QuoteTemplate.Contact | backend/src/modules/quotes/templates/base.template.ts:206-209 | A labelled line exists iff its value is non-empty. |
| QuoteTemplate.PaymentLine | backend/src/modules/quotes/templates/base.template.ts:217-221 | The line reads `Règlement : <method>` when a method is set, else `Règlement : À réception`. |
| QuoteTemplate.When | backend/src/modules/quotes/templates/base.template.ts:274-290 | A conditional block exists iff its value is truthy. |
| QuoteTemplate.RenderSpec | backend/src/modules/quotes/templates/base.template.ts:187-290 | The description paragraph, payment details, exemption text and footer each appear iff set. The payment details are written as they are. The exemption text is written escaped. The footer is written escaped, followed by ` - Page 1/1`. The table has one row per item and a heading of 3 or 2 cells. |
| QuoteTemplate.Escape | backend/src/modules/quotes/templates/base.template.ts:285 | An escaped value contains no `<`, `>`, double quote, apostrophe, backtick or `=`. Values without such characters, or `&`, are unchanged. |
| QuoteTemplate.FragmentText | backend/src/modules/quotes/templates/base.template.ts:189 | A `{{x}}` value is written with no markup character and decodes back to the value. A `{{{x}}}` value and fixed text are written as they are. |
| QuoteTemplate.EscapeRoundTrip | backend/src/modules/quotes/templates/base.template.ts:285 | Decoding the entities gives back the value. |
| QuoteTemplate.FormatRateRoundTrip | backend/src/modules/quotes/templates/base.template.ts:244 | The rate text reads back as the stored rate. |
| QuoteTemplate.FormatRateExamples | backend/src/modules/quotes/templates/base.template.ts:244 | 20 % is written `20`, 5.5 % is written `5.5`, and 0 is written `0`. |
| QuoteTemplate.PricedLineAndSection | backend/src/modules/quotes/templates/base.template.ts:235-270 | Take a euro quote with stored totals 200/40/240, a priced line at 20 % and a section. The totals read `200,00`, `40,00` and `240,00`. The priced row shows `20%`. The section is one cell spanning 3 columns. |
| UserService.ProfilePatch | backend/src/modules/user/user.service.ts:40-60 | The patch holds exactly the fields that were sent, copied verbatim. An empty salutation becomes `null`. |
| UserService.BuildProfilePatch | backend/src/modules/user/user.service.ts:40-60 | The field-by-field builder fails iff a non-empty salutation is not Mr, Ms or Mrs, with the salutation error. Otherwise it yields `ProfilePatch`. |
| UserService.ApplyPatch | backend/src/modules/user/user.service.ts:62-65 | The update changes only the four patchable fields, each to its patched value when present. |
| UserService.ProfileOutcomeSpec | backend/src/modules/user/user.service.ts:36-76 | A refused salutation fails before the update and leaves every user unchanged. On success only that user changes: the record equals the old one with the sent fields replaced, so `id`, `name`, `emailVerified` and `image` are kept. The response is the six returned fields of the updated user. |
| UserService.FileExtension | backend/src/modules/user/user.service.ts:19 | When the name is non-empty and does not end with a dot, the extension is the last piece of the name split at dots: the text after the last dot, or the whole name without a dot. Otherwise it is `jpg`. It is never empty and has no dot. |
| UserService.AvatarFilenameKeepsExtension | backend/src/modules/user/user.service.ts:20 | The generated file name has the uploaded file's extension. |
| UserService.AvatarOutcomeSpec | backend/src/modules/user/user.service.ts:11-34 | The returned path is the one stored for the user. It starts with `/avatars/<id>-` and keeps the extension. No other user and no other field changes. |
| UserService.UserStore.UpdateProfile | backend/src/modules/user/user.service.ts:36-76 | The method's result and the new user table are `ProfileOutcome` of the old table. |
| UserService.UserStore.UpdateAvatar | backend/src/modules/user/user.service.ts:11-34 | The method's result and the new user table are `AvatarOutcome` of the old table. |
| UserController.AvatarRejection | backend/src/modules/user/user.controller.ts:17-29 | The upload is accepted iff a file is present, its type starts with `image/` and it is at most 5 MiB. Otherwise the first failing check, in that order, decides the error. |
| UserController.SizeLimitBoundary | backend/src/modules/user/user.controller.ts:27 | Exactly 5 MiB is accepted. One byte more is too large. |
| UserController.UploadAvatar | backend/src/modules/user/user.controller.ts:13-32 | A rejected upload changes nothing. An accepted one is the service's avatar update with the caller's id. |
| UserController.UpdateProfile | backend/src/modules/user/user.controller.ts:34-40 | The body is forwarded unchanged with the caller's id. |
| DownloadNotification.DownloadNotifications.constructor | frontend/src/components/download-notification.tsx:18-20 | The three maps start empty, so no card is listed and nothing is rendered. |
| DownloadNotification.DownloadNotifications.OnDownloadProgress | frontend/src/components/download-notification.tsx:25-30 | The event inserts or overwrites the download entry. The other maps are unchanged. |
| DownloadNotification.DownloadNotifications.OnDownloadComplete | frontend/src/components/download-notification.tsx:34-44 | The event removes the download and records the completion. Errors are unchanged. |
| DownloadNotification.DownloadNotifications.Expire | frontend/src/components/download-notification.tsx:47-53 | Expiry removes only the completion. |
| DownloadNotification.DownloadNotifications.Dismiss | frontend/src/components/download-notification.tsx:148-167 | Dismiss deletes the id from the map of the card's kind only. The card is gone afterwards, and the list shrinks by one iff the card was shown. |
| DownloadNotification.DownloadNotifications.AllNotifications | frontend/src/components/download-notification.tsx:63-79 | The list holds progress cards, then completion cards, then error cards. Its length is the sum of the three map sizes. |
| DownloadNotification.CardsInOrder | frontend/src/components/download-notification.tsx:63-79 | In the card list of the three maps, which `AllNotifications` returns, the i-th card of each group belongs to its map's i-th key in insertion order and carries that entry's data. |
| DownloadNotification.DownloadNotifications.Rendered | frontend/src/components/download-notification.tsx:81-83 | Nothing is rendered iff all three maps are empty. |
| DownloadNotification.DownloadNotifications.CardIsShown | frontend/src/components/download-notification.tsx:63-79 | Every card in the list belongs to an entry of its map, and that map holds the card's data under the card's id. |
| JsMaps.SetSpec | frontend/src/components/download-notification.tsx:27-28 | `set` keeps the key order, or appends a new key, and updates that key's value only. |
| JsMaps.DeleteSpec | frontend/src/components/download-notification.tsx:36-37 | `delete` removes the key from the order and the contents. The size drops by one iff the key was present. |
| JsMaps.LookupAt | frontend/src/components/download-notification.tsx:64 | Each entry read in order carries the value stored under its key. |
| Bootstrap.CorsOrigins | backend/src/main.ts:11 | The list is the dev origin, then `APP_URL` when it is non-empty, then the trimmed non-empty `CORS_ORIGINS` pieces. No entry is empty. |
| Bootstrap.TrimmedPieces | backend/src/main.ts:11 | With `CORS_ORIGINS` set, piece `i` is the trimmed `i`-th piece of the comma split, in order, one per piece. Unset gives no pieces. |
| Bootstrap.ExtraOrigins | backend/src/main.ts:11 | Each extra origin is non-empty, trimmed and comma-free, and comes from one piece. There are at most as many as the pieces. |
| Bootstrap.ExtraOriginsKeepOrder | backend/src/main.ts:11 | When no piece trims to empty, the extra origins are all the trimmed pieces, in order. |
| Bootstrap.FilterTruthyAppend | backend/src/main.ts:11 | `filter(Boolean)` distributes over concatenation. |
| Bootstrap.ListenPort | backend/src/main.ts:21 | The server listens on `PORT` iff it is set and non-empty, otherwise on 3000. |
| Strings.NatToStringRoundTrip | backend/src/utils/generate-quote-pdf.ts:70 | `number.toString()` reads back as the number. |
| Strings.SplitJoin | backend/src/main.ts:11 | Splitting joined comma-free pieces gives them back. |
| Strings.JoinSplit | backend/src/main.ts:11 | Joining the pieces of a split with the separator gives back the text. |
| Strings.Split | backend/src/modules/user/user.service.ts:19 | There is one more piece than separators, and no piece contains the separator. |
| Strings.Trim | backend/src/main.ts:11 | The result is a slice of the input with only white space cut from both ends. It starts and ends with no white space. |
| Strings.TrimIdempotent | backend/src/main.ts:11 | Trimming twice is trimming once. |
| Strings.ToUpper | backend/src/utils/generate-quote-pdf.ts:88 | Upper-casing keeps the length and maps each character. |

## Left out

- Floating-point money. Amounts are whole cents, and `toFixed(2)` is modelled exactly on them; binary rounding of fractional cents is not.
- QuotePdf.ProjectItem: does not model the per-item `totalPrice`. The template never shows it, and it is a floating-point product.
- QuotePdf.ProjectedModel: the 20 labels other than quote, description and VAT rate, and `showType`/`showQty`, are passed through to the template unused. They are not modelled.
- QuoteTemplate.FormatRateRoundTrip: rates are hundredths of a percent, so rates with more than two decimals are not modelled.
- Template engine, Markdown, PDF: Handlebars compilation, `marked.parse`, `getPDF`, `formatDate` and `getInvertColor` are not part of this model. Markdown, date formatting and colour inversion are parameters (`Env`), and only the row and cell structure of the template is modelled. The CSS is not modelled.
- Database: Prisma lookups and updates are maps passed in and returned (quotes, payment methods, users).
- `complementaryOptions` is an already-parsed record (`Parsed`), or `Malformed` for text `JSON.parse` rejects. JSON values other than booleans for the flags are not modelled.
- UserService.UserStore.UpdateAvatar: `mkdir`, `writeFile` and the image bytes are not modelled. `Date.now()` is the `timestamp` parameter.
- Strings.ToUpper: only ASCII letters are upper-cased. JavaScript's full Unicode case mapping is not modelled.
- QuotePdf.DisplayClient: null contact names, which JavaScript would concatenate as `null`, are not modelled; names are strings.
- Download notifications: React state wiring, listener registration and cleanup, and the `setTimeout` are not modelled. Expiry is the explicit `Expire` event. Card markup is not modelled.
- The Electron desktop shell and the UI components around the core are not part of this model.
- A profile field sent as JSON `null` is not modelled separately. For the salutation, `null` is falsy, passes the salutation validation and is stored as `null`, so it is represented as `Some("")`, which gives the same stored value. The settings page sends `null` for an unset salutation.
- Error messages: the texts of the HTTP errors and of the service's exceptions are not modelled. Errors are the constructors of `UploadError` and `ServiceError`.
- Bootstrap: body parser limits, cookie parsing, the global prefix and the exposed header are framework configuration and are not modelled.
