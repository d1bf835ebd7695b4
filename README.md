# Tally webhook handler — a Dafny model

This project models the Netlify function that receives Tally form submissions
and turns them into one row of the `waitlist_users` table
(`netlify/functions/tally-webhook.js`, `exports.handler`). It covers these parts:

- **The method gate and the configuration check.** Only `POST` is served. The
  store URL and a key are required, and the service key is preferred over the
  anon key.
- **The field-mapping pass.** The handler runs over `data.fields` and updates one
  `formData` record in place. For each field it applies three steps in order:
  - the email rule. While no non-empty email is recorded, a field offers its
    string value when it is an `INPUT_EMAIL` field, or else when its label
    mentions "email" and the value contains '@'. Both tests apply to each field
    in turn, so the order of the fields decides: the first field offering a
    non-empty email wins, whichever test it passed. The value is trimmed and
    lower-cased.
  - the else-if chain on the lower-cased label. It sets first name, phone,
    gender, area, age range or one of the two consent flags.
  - the scan of a `CHECKBOXES` field's selected options. It can raise either
    consent flag.
- **The email check.** No non-empty email gives a 400.
- **The metadata.** The referral source is the constant `tally_form`. The client
  IP is the first comma-separated entry of `x-forwarded-for` or else of
  `x-real-ip`, trimmed, and is `null` when neither header is a non-empty string. The user agent
  is also recorded.
- **The response table.** It covers 405, 500 (configuration), 400, 200 success
  with the new id, 200 duplicate for a unique violation on the email, 500 for
  other store errors, and the catch-all 500.

Modules:

- `Optional` is the Option type. `Tally` is the parsed submission: fields, values
  and options.
- `JsText` holds the JavaScript string operations the handler uses: `trim`,
  `toLowerCase`, `includes` and `split(',')[0]`.
- `MapperSpec` is the mapping pass as pure functions. `MapField` is one field and
  `MapAll` is the whole pass.
- `MapperProperties` holds the lemmas about that specification.
- `FieldMapper` holds the imperative loops of the handler. They are proved equal
  to the specification.
- `Webhook` holds the request and its environment, the metadata, the outcome
  table, the handler method and the end-to-end properties.

## Behaviour worth noting

- Fields are recognised only by their type and their label. Field keys are
  never consulted.
- A consent label sets its flag to `value === true`, so the string "Yes" gives
  `false` (`LabelConsentIsStrict`).
- `marketing_consent` is never set. The women/marketing test sets
  `women_only_features_consent`. It is the last test of the label chain and
  comes after the privacy test in the checkbox scan, so any earlier match wins.
  For example, "privacy and marketing" sets `data_processing_consent`. A label
  such as "marketing messages" contains "age", so it takes the age branch and
  never sets the women-only flag (`MessagesLabelSkipsWomenBranch`).
- Apart from the email, a later field that writes an attribute replaces the
  earlier value (last write wins, `LastWriteWins`). It is not first assignment
  wins. A gender, area or age field without options or without a selection
  writes nothing (`ChoiceResolution`).

## Model

| member | source | states |
|---|---|---|
| JsText.TrimStart | netlify/functions/tally-webhook.js:59 | the result is a suffix of the input, all the dropped characters are whitespace, and the result does not start with whitespace |
| JsText.TrimEnd | netlify/functions/tally-webhook.js:59 | the result is a prefix of the input, all the dropped characters are whitespace, and the result does not end with whitespace |
| JsText.Trim | netlify/functions/tally-webhook.js:59 | `trim()`: the result is trimmed at both ends. It is a contiguous stretch of the input with only whitespace before and after it, and it is empty exactly when the input is all whitespace |
| JsText.TrimIsStretch | netlify/functions/tally-webhook.js:59 | removing the leading and then the trailing whitespace leaves the stretch that starts where the leading whitespace ends |
| JsText.LeadingWhitespace | netlify/functions/tally-webhook.js:59 | everything removed from the start is whitespace |
| JsText.TrailingWhitespace | netlify/functions/tally-webhook.js:59 | everything removed from the end is whitespace |
| JsText.Lower | netlify/functions/tally-webhook.js:53 | `toLowerCase()`: same length, no upper-case letter left, each upper-case letter replaced by its lower-case form 32 code points above, every other character kept |
| JsText.Contains | netlify/functions/tally-webhook.js:60 | `includes(sub)` holds exactly when sub occurs at some index of s |
| JsText.FirstSegment | netlify/functions/tally-webhook.js:132 | `split(sep)[0]` is a prefix without sep that ends at the end of the input or just before a sep |
| JsText.FirstSegmentAt | netlify/functions/tally-webhook.js:132 | if the first sep is at index i, then `split(sep)[0]` is exactly `s[..i]` |
| JsText.LowerKeepsShape | netlify/functions/tally-webhook.js:59 | lower-casing is idempotent and keeps trimmed text trimmed |
| JsText.LowerOfLowerCase | netlify/functions/tally-webhook.js:59 | text without upper-case letters is unchanged by lower-casing |
| JsText.TrimOfTrimmed | netlify/functions/tally-webhook.js:59 | trimming already-trimmed text changes nothing |
| MapperSpec.NormaliseEmail | netlify/functions/tally-webhook.js:59 | the stored email is trimmed and has no upper-case letter, and it is empty exactly when the value was all whitespace |
| MapperSpec.LabelText | netlify/functions/tally-webhook.js:53 | `field.label?.toLowerCase()` with `''` as the fallback: the empty string for a field without a label, otherwise the label lower-cased character by character with its length kept |
| MapperSpec.NormalisedEmailContent | netlify/functions/tally-webhook.js:59 | the stored email is the stretch of the value between its leading and trailing whitespace, with each character passed through the ASCII lower-casing |
| MapperSpec.NormaliseIdempotent | netlify/functions/tally-webhook.js:59 | an email already trimmed and lower-case is stored as it is |
| MapperSpec.FirstEmailIndex | netlify/functions/tally-webhook.js:57-63 | the index of the first field offering a non-empty email: no earlier field offers one, and it is the number of fields when no field does |
| MapperSpec.ApplyEmail | netlify/functions/tally-webhook.js:57-64 | the email rule changes only the email, and only when no non-empty email is recorded and the field offers one; it then records that offer |
| MapperSpec.Find | netlify/functions/tally-webhook.js:73 | `options.find(opt => opt.id === id)`: None exactly when no option has the id, and otherwise the first option with that id |
| MapperSpec.FirstSelected | netlify/functions/tally-webhook.js:72-73 | `field.value[0]` under `field.value && field.value.length > 0`: present exactly for a non-empty array, where it is the first id, or a non-empty string, where it is the one-character string of its first character; absent for booleans, missing values, empty strings and empty arrays |
| MapperSpec.Resolve | netlify/functions/tally-webhook.js:72-74 | a choice is left as it was exactly when the field has no options or no first selection. Otherwise it is null when no option has the first selected id, else the text of the first option with that id |
| MapperSpec.LabelRule | netlify/functions/tally-webhook.js:67-90 | the chain takes the first branch, in the order name, phone, gender, area, age, privacy, women, whose condition holds; it takes none exactly when no condition holds |
| MapperSpec.SelectOne | netlify/functions/tally-webhook.js:95-103 | one selected id: no option with that id changes nothing; an option whose lower-cased text mentions privacy or data processing sets only the data-processing flag to true; otherwise one mentioning women or marketing sets only the women-only flag to true; anything else changes nothing |
| MapperSpec.ApplyLabel | netlify/functions/tally-webhook.js:66-90 | the label chain never touches the email or the metadata, and a label matching no branch changes nothing |
| MapperSpec.Scan | netlify/functions/tally-webhook.js:94-104 | the checkbox loop changes only the two consent flags. Each becomes true exactly when some selected option asks for it, and otherwise keeps its value |
| MapperSpec.ApplyCheckboxes | netlify/functions/tally-webhook.js:93-105 | only a CHECKBOXES field with an array value is scanned. Only the two consent flags change, each to true exactly when such a field selects an option asking for it, and otherwise each keeps its value |
| MapperSpec.MapField | netlify/functions/tally-webhook.js:49-106 | within one field only the email rule touches the email, and nothing touches the metadata |
| MapperSpec.MapAll | netlify/functions/tally-webhook.js:47-106 | the whole pass never sets the referral source, the IP address or the user agent |
| MapperProperties.OfferedEmail | netlify/functions/tally-webhook.js:56-63 | a field offers an email exactly when its value is a string and it is an INPUT_EMAIL field or its label mentions "email" and the value contains '@'; the offer is the normalised value |
| MapperProperties.EmailKept | netlify/functions/tally-webhook.js:57 | once a non-empty email is recorded, no later field changes it |
| MapperProperties.MappedEmail | netlify/functions/tally-webhook.js:49-64 | from a record with no email, the pass stores the email of the first field offering a non-empty one, and stores no non-empty email when no field offers one |
| MapperProperties.EmailFoundIff | netlify/functions/tally-webhook.js:49-64 | the pass ends with a non-empty email exactly when some field offers one |
| MapperProperties.EmailFirstWins | netlify/functions/tally-webhook.js:56-64 | the email comes from the first field offering a non-empty one, whatever later fields offer |
| MapperProperties.StoredEmailOrigin | netlify/functions/tally-webhook.js:58-63 | a stored email is the trimmed, lower-cased string value of some field that is either an INPUT_EMAIL field or labelled "email" with an '@' in its value |
| MapperProperties.BlankEmailDoesNotBlock | netlify/functions/tally-webhook.js:57-59 | a blank INPUT_EMAIL value leaves the empty string, and a later INPUT_EMAIL field still sets the email |
| MapperProperties.LabelSetsAtMostOne | netlify/functions/tally-webhook.js:67-90 | the label chain of one field assigns at most one attribute |
| MapperProperties.LabelChainEffect | netlify/functions/tally-webhook.js:66-90 | the label chain changes exactly the attribute it writes, to the value it writes, and leaves the email and the metadata alone |
| MapperProperties.FieldEffect | netlify/functions/tally-webhook.js:49-106 | for every non-consent attribute, one field's whole effect is what its label chain writes |
| MapperProperties.Untouched | netlify/functions/tally-webhook.js:49-106 | a non-consent attribute that no field writes keeps its value through the pass |
| MapperProperties.LastWriteWins | netlify/functions/tally-webhook.js:67-85 | a non-consent attribute ends with the value written by the last field that writes it |
| MapperProperties.ChoiceResolution | netlify/functions/tally-webhook.js:71-85 | a gender, area or age field, with any options and any selection, resolves its first selected id through its own options: to the text of the first option with that id, to null when no option has it, and not at all without options or without a selection |
| MapperProperties.MessagesLabelSkipsWomenBranch | netlify/functions/tally-webhook.js:81-90 | the label "marketing messages" mentions marketing but also contains "age", so the age test on line 81 matches first and the chain never takes the women/marketing branch |
| MapperProperties.LabelConsentIsStrict | netlify/functions/tally-webhook.js:86-90 | a consent label sets its flag to `value === true`, so "Yes" gives false |
| MapperProperties.CheckboxOverridesLabel | netlify/functions/tally-webhook.js:86-105 | a selected privacy option makes the flag true, even where the same field's label chain set it to false |
| MapperProperties.CheckboxesOnlyRaise | netlify/functions/tally-webhook.js:92-105 | the checkbox scan changes nothing but the two consent flags, and only by setting them to true |
| FieldMapper.ScanSelected | netlify/functions/tally-webhook.js:94-104 | the loop over the selected ids computes `Scan` |
| FieldMapper.MapOneField | netlify/functions/tally-webhook.js:49-106 | one iteration of `fields.forEach` computes `MapField`: email rule, then label chain, then checkbox scan |
| FieldMapper.MapFields | netlify/functions/tally-webhook.js:47-106 | the loop computes `MapAll` from an empty record. The result holds an email exactly when some field offers a non-empty one, and then it is the first such field's |
| Webhook.FirstAddress | netlify/functions/tally-webhook.js:132 | the stored address is trimmed and has no comma. It is a contiguous stretch of the text before the first comma (all of the header when it has none), with only whitespace around it in that text |
| Webhook.FirstAddressIsEntry | netlify/functions/tally-webhook.js:132 | `split(',')[0].trim()` is the first entry of the header with its surrounding whitespace removed |
| Webhook.ClientIp | netlify/functions/tally-webhook.js:129-135 | the address is never left unset. It is null exactly when neither header is a non-empty string; it is taken from `x-forwarded-for` when that header is non-empty, else from `x-real-ip` |
| Webhook.Enrich | netlify/functions/tally-webhook.js:126-137 | only the three metadata properties change: the referral is `tally_form`, the address is the client IP and never unset, and the user agent is the header's value, unset exactly when the header is missing |
| Webhook.Classify | netlify/functions/tally-webhook.js:8-186 | each outcome happens exactly when every earlier check passed and its own fails, in the order method, configuration, parse, email, insert result; the success id, the parse message and the store message are carried through |
| Webhook.Respond | netlify/functions/tally-webhook.js:8-196 | status 200 exactly for success and duplicate, 400 for a missing email, 405 for a wrong method, and 500 for the configuration, parse, store and catch-all errors. Only success carries the JSON content type. The plain error body goes exactly with 405, the configuration 500 and 400, with the strings "Method Not Allowed", "Server configuration error" and "Email is required"; the other bodies carry their exact messages, the id, the status words and the error details |
| Webhook.Handle | netlify/functions/tally-webhook.js:6-198 | the handler answers as the outcome table says. It hands a record to the insert exactly when the request is a configured, parseable POST with an email. That record is the mapped one plus metadata, with a normalised email and the `tally_form` referral |
| Webhook.MethodGateFirst | netlify/functions/tally-webhook.js:8-13 | any method other than POST gets 405 before anything else is looked at, and nothing is written |
| Webhook.ConfigurationGate | netlify/functions/tally-webhook.js:17-27 | the handler is configured exactly when the URL and the service or anon key are non-empty; the service key is preferred; without configuration a POST gets 500 |
| Webhook.MissingEmailIs400 | netlify/functions/tally-webhook.js:116-123 | a parsed, configured POST gets 400 exactly when no field offers a non-empty email, and the insert is attempted exactly when it does not get 400 |
| Webhook.StoreOutcome | netlify/functions/tally-webhook.js:151-186 | after the insert: success gives the new id; a 23505 error mentioning the email gives 200 "duplicate"; any other store error gives 500 with the store's message |
| Webhook.ForwardedForExample | netlify/functions/tally-webhook.js:129-132 | `x-forwarded-for: 1.2.3.4, 5.6.7.8` is stored as `1.2.3.4`, whatever `x-real-ip` says |
| Webhook.FirstOfTwoAddresses | netlify/functions/tally-webhook.js:132 | the first entry of `1.2.3.4, 5.6.7.8` is `1.2.3.4` |
| Webhook.SampleAddressTrimmed | netlify/functions/tally-webhook.js:132 | trimming `1.2.3.4` leaves it as it is |
| Webhook.SingleEmailSubmission | netlify/functions/tally-webhook.js:47-186 | a POST whose one field is INPUT_EMAIL `a@b.com` inserts that email with the `tally_form` referral and a null IP, and answers 200 "Waitlist signup successful!" with the new id |
| Webhook.SampleFieldMapped | netlify/functions/tally-webhook.js:49-64 | mapping that one field records `a@b.com` as the email |
| Webhook.SampleCandidate | netlify/functions/tally-webhook.js:57-59 | that field offers `a@b.com` through the INPUT_EMAIL test |
| Webhook.SampleEmailNormalised | netlify/functions/tally-webhook.js:59 | `a@b.com` is already in normal form |

## Left out

- The store client (`createClient`, the `insert(...).select()` call) is not modelled. What the insert answers is an input of `Handle`. So are the environment variables and the result of `JSON.parse`.
- Await and the asynchronous execution of the function are not modelled.
- Logging, and the debug/redacted switch on `LOG_LEVEL` (lines 35-40, 50, 108-114, 139-143, 152, 171), are left out. They do not affect the response or the record.
- `JSON.stringify` of the bodies is left out. A response carries its body as a datatype, with the exact strings of the source.
- Exceptions other than a parse failure are not modelled. A parse failure is an input, `Unparseable(message)`, and leads to the catch-all 500. Exceptions that are not modelled include:
  - `createClient` rejecting its arguments;
  - a JSON body of `null`;
  - missing `event.headers`;
  - a non-array `fields`;
  - a non-string label or option text.
- Field values are strings, booleans, arrays of ids, or absent. Numbers and objects are not modelled, and `null` and `undefined` values are one case (`Absent`); the code treats both as falsy.
- `insertedData[0]?.id` is an optional id supplied with the successful insert. The shape of the returned rows is not modelled.
- JsText.Lower: maps only the ASCII letters A-Z, where `toLowerCase()` maps every Unicode letter. Full Unicode case mapping is not modelled, because it depends on the engine's tables.
- Strings are sequences of Unicode scalar values, not of UTF-16 code units as in JavaScript. Lengths, indices and `value[0]` (line 73) count whole characters: for a string value starting with a character outside the Basic Multilingual Plane, JavaScript's `value[0]` is a lone surrogate, while `FirstSelected` takes the whole character.
- MapperProperties.LastWriteWins: covers the five attributes that only the label chain writes. For the two consent flags, the same field's checkbox scan can raise them afterwards; that is stated instead by `CheckboxOverridesLabel` and `CheckboxesOnlyRaise`.
- The script that posts sample payloads to the deployed function is not part of this model.
