# Estate price prediction: the decision logic, modelled in Dafny

PropertyPredict is a web page that collects a property's area, bedroom count
(BHK), bathroom count and location. It asks a Flask server for a price
estimate and shows the price or an error banner. On load, the page fills its
location selector from the server. This project models the parts of that
system that make decisions, as pure functions over immutable datatypes:

- `Client` (client/app.js): reading the bedroom and bathroom radio groups
  (first checked option, or the sentinel -1). It also models the five
  validation checks, which run in a fixed order and stop at the first failure,
  and the payload sent when they all pass. Finally it turns the reply into a
  price or an error banner, with the four HTTP-status buckets.
- `LexOrder` and `Catalog` (client/app.js, `onPageLoad`): the default string
  order of `Array.prototype.sort()`, insertion sort over it, and the selector
  after a catalog reply. On success the selector holds the placeholder
  followed by a sorted permutation of the names. On failure it is unchanged
  and an error is shown. Any two sorted permutations of the same names are
  equal, so the choice of sorting algorithm does not matter.
- `Server` (server/server.py): `predict_home_price` defaults missing fields,
  rejects non-positive numbers or an empty location, and echoes its inputs
  beside the price. It also maps exceptions to statuses. The module also
  covers the suffix-based content type of `serve_static` and the three
  headers `add_cors_headers` appends.
- `Agreement`: how the two sides' acceptance differ. The client sends any
  checked count other than -1, but the server refuses counts of zero or
  less. The client caps the area at 10000 and the server does not.

The price model (`util.get_estimated_price`) is a function parameter
returning a price, a ValueError or another exception. The prediction endpoint,
as the client sees it, is a parameter too (`Payload -> PredictReply`).

Some behaviours of the code that a reader might not expect, all modelled as
written:
- The first check is `parseInt(area) <= 0`, while the value sent is
  `parseFloat(area)`. For "digit-led" text, which has a digit before the
  point and no exponent, `parseInt` truncates, so areas strictly between 0 and 1 are rejected too. For text
  such as ".5" or "-.5", `parseInt` gives NaN, `NaN <= 0` is false, and the
  check passes, so the page sends 0.5 or -0.5. The server refuses -0.5.
  Exponent text such as "1e-5" reads as 1 and is sent as 0.00001.
- The bedroom and bathroom checks test only for -1, so 0 or another negative
  count passes the client.
- The area check comes before the bedroom check. So a form with no bedroom
  selection and a bad area gets the area message, not the bedroom message.
- The status classification has four buckets: 0, 404, 500 and everything
  else.
- The price's details are printed from the area box and location selector
  as they stand when the reply arrives, with the area as typed. Changing
  either during a request prints the new values beside the old price.
  Only the bedroom and bathroom counts are fixed at click time.

## Model

| member | source | states |
|---|---|---|
| Client.SelectedValue | client/app.js:11-19 | the result is the value of the lowest-index checked option, and -1 when no option is checked |
| Client.ScanRadioGroup | client/app.js:24-32 | the loop shared by both radio groups returns the first checked option's value, or -1 after scanning every option, and agrees with the recursive definition |
| Client.FirstCheckedExists | client/app.js:13-17 | a group with any checked option has exactly one lowest-index checked option |
| Client.SentinelMeansNothingChecked | client/app.js:18 | when no option's own value is -1, the scan returns -1 exactly when nothing is checked |
| Client.TruncateTowardZero | client/app.js:113 | for digit-led text without an exponent, parseInt keeps the number's integer part, truncated toward zero: within 1 of the number and on the zero side of it |
| Client.Validate | client/app.js:113-150 | a request is built exactly when every check passes; otherwise the message is that of the first failing check in the order area ≤ 0, area > 10000, no bedrooms, no bathrooms, no location; the payload carries the area, counts and location unchanged |
| Client.RuleMessagesDistinct | client/app.js:113-136 | two checks have the same message only if they are the same check, so the banner identifies the failed check |
| Client.ValidateAcceptsExactly | client/app.js:113-136 | the form is accepted iff the area box holds a number of at most 10000 whose parseInt reading is NaN or positive, both groups report a value other than -1, and a location is chosen |
| Client.DigitLedAreaAcceptedIff | client/app.js:113-136 | for digit-led area text, the form is accepted iff the area is at least 1 and at most 10000 and the other three checks pass |
| Client.AreaBoundaries | client/app.js:113-121 | for digit-led text, areas below 1 get the "valid area" message whatever else the form holds, 10000 passes both area checks, and above 10000 gets "too large"; text that parseInt reads as NaN passes the first check whatever its value |
| Client.ClassifyStatus | client/app.js:167-175 | every status falls in exactly one bucket: 0 is no connection, 404 is endpoint missing, 500 is server error, anything else is unclassified |
| Client.FailureMessage | client/app.js:166-176 | every failure banner begins with the "Failed to predict price." prefix and continues with its bucket's text |
| Client.FailureMessagesSeparateBuckets | client/app.js:166-175 | two statuses give the same banner iff they fall in the same bucket |
| Client.HandleReply | client/app.js:151-178 | the price is shown iff the reply succeeded with a body that defines estimated_price; the details carry the click-time bedroom and bathroom counts but the area text and location read when the reply arrives; a success without a price shows "Unexpected response from server"; a failure shows the status message |
| Client.DetailsMatchPayloadIffUnchanged | client/app.js:151-159 | the printed details equal the submitted area box, counts and location iff the area box and location selector still hold the submitted values when the reply arrives |
| Client.EstimatePrice | client/app.js:106-180 | a request is sent iff validation passes, and it carries the parseFloat area, the selected counts and the location of the form; an invalid form shows the first failed check's message without a request; a shown price comes with the sent counts and the area and location as they stand at reply time |
| Client.UnchangedFormShowsSubmittedDetails | client/app.js:106-159 | if the user leaves the area and location alone during the request, the printed details are the form's area box, selected counts and location, and the request sent carries the same values |
| LexOrder.LexLeMatchesDefinition | client/app.js:202 | the recursive character-by-character order holds iff one string is a prefix of the other or the first differing character is smaller |
| LexOrder.LexLeTotal | client/app.js:202 | any two strings are ordered one way or the other |
| LexOrder.LexLeTransitive | client/app.js:202 | the string order is transitive |
| LexOrder.LexLeAntisymmetric | client/app.js:202 | two strings each ordered before the other are equal |
| Catalog.Insert | client/app.js:202 | inserting into a sorted sequence keeps it sorted and adds exactly one copy of the name |
| Catalog.SortNames | client/app.js:201-202 | the sorted names are in order and are a permutation of the input, duplicates kept |
| Catalog.SortedPermutationUnique | client/app.js:202 | two sorted permutations of the same names are identical |
| Catalog.KeptPlaceholder | client/app.js:198-199 | removing every option but the first keeps the first option, if there is one |
| Catalog.LoadLocations | client/app.js:193-218 | when `locations` is an array, the options become the kept placeholder followed by a sorted permutation of the names, with no error; otherwise the options are unchanged and the matching error message is shown |
| Catalog.LoadedCatalogIsTheSortedNames | client/app.js:194-208 | after a successful load the options are the kept placeholder, if any, followed by the one sorted arrangement of the returned names |
| Server.AddCorsHeaders | server/server.py:11-16 | the three CORS headers are appended with their fixed values; the body, status and existing headers are unchanged |
| Server.AfterRequest | server/server.py:18-20 | every response leaves with the CORS headers appended and its status and body unchanged |
| Server.ContentTypeHeaders | server/server.py:39-44 | a ".css" name gets text/css, a ".js" name gets application/javascript, any other name gets no explicit type |
| Server.SuffixesExclusive | server/server.py:39-42 | no name ends in both ".css" and ".js" |
| Server.ServeStatic | server/server.py:31-48 | 404 iff the file is missing; 200 iff it is readable, with its content and the suffix's content type; a read failure gives 500 with the error text |
| Server.StaticTypeFollowsSuffix | server/server.py:39-42 | any stem followed by ".css" is served as CSS, and any stem followed by ".js" as JavaScript |
| Server.Parse | server/server.py:65-68 | a missing field takes its default, a present field its parsed value, and an unparsable field raises a ValueError |
| Server.PredictHomePrice | server/server.py:61-87 | an unparsable field gives 400 "Invalid input format"; the answer is 400 "Invalid input parameters" iff area, bhk or bath is missing or ≤ 0 or the location is missing or empty; 200 iff the input is valid and the model returns a price, echoing location, area, bhk and bath unchanged; a ValueError from the model gives 400 and any other exception 500 |
| Server.MissingFieldRejected | server/server.py:65-72 | a form missing any field always gets a 400 and never a price |
| Agreement.ServerFormOf | client/app.js:145-150 | the server reads every field of a client payload as present and parsable |
| Agreement.ServerAcceptsClientRequestIff | server/server.py:71-72 | a request the client sends passes the server's validation iff its area and both counts are positive |
| Agreement.DigitLedRequestRejectedOnlyForCounts | server/server.py:71-72 | for digit-led area text, a request the client sends passes the server's validation iff both counts are positive |
| Agreement.NegativeFractionPassesClientOnly | client/app.js:113-121 | the area text "-.5" passes both client area checks, is sent as -0.5, and is refused by the server |
| Agreement.ZeroBedroomsPassClientOnly | client/app.js:123-131 | a checked zero-bedroom option is sent by the client and refused by the server |
| Agreement.LargeAreaPassesServerOnly | server/server.py:71 | an area above 10000 is refused by the client, with the "too large" message unless parseInt reads its text as 0 or less, and the server's check passes it with any positive counts and non-empty location |

## Left out

- DOM access, jQuery `$.ajax`, the spinner and result-region toggling, and the 5-second fade and hide timers of `showError` (client/app.js:37-77) are UI plumbing and timing.
- The `toFixed(2)` price formatting and the `innerHTML` templates of `displayPrice` (client/app.js:82-99) are floating-point formatting and presentation.
- client/analytics.js is chart configuration over fixed sample arrays and has no decision logic.
- Client.TruncateTowardZero: describes `parseInt` only for digit-led text without an exponent. For other area text, such as ".5", "-.5" or "1e-5", the page's `parseInt` reading is a separate field of the area input (`None` for NaN), and the model does not derive it from the text. Text such as "12abc" and a non-numeric radio value (which gives NaN) are not modelled. The model assumes the page's area box is a number input, which reports malformed text as empty; that is the `Blank` case. The page template is not part of this model.
- Client.HandleReply: an `estimated_price` that is present but null (a later `toFixed` error) is not modelled, because the price is a number or undefined.
- LexOrder.LexLeMatchesDefinition: characters are compared by code point. JavaScript compares UTF-16 code units, which differs only between characters above U+FFFF and those in U+E000 to U+FFFF. Non-string catalog entries (converted to strings by `sort`) are not modelled.
- Client.Validate: the area is an exact real. The page compares and sends IEEE doubles, so text such as "10000.0000000000000001" rounds to 10000 and is accepted there, while the model rejects it as too large. The bounds in Client.ValidateAcceptsExactly, Client.DigitLedAreaAcceptedIff and Client.AreaBoundaries hold for exact reals only.
- Client.HandleReply: the printed area is the box's content modelled as `AreaInput`, not its exact text. "1200.0" and "1200" print differently on the page but are the same number here.
- Agreement.ServerFormOf: assumes numbers survive jQuery's form encoding and Python's `float()`/`int()` unchanged.
- Server.PredictHomePrice: the area is a real number, so Python's `float('nan')` and `float('inf')` are not modelled. NaN would pass the `<= 0` test. An exception raised by `jsonify` itself is not modelled either.
- Server.ServeStatic: the 404 body keeps the requested file name rather than the joined path. The default Flask content type for other files is shown as "no explicit header".
- `home`, `get_location_names`, `util.load_saved_artifacts`, Flask routing and server startup read files or call the price model, which is not part of this model.
- Overlapping estimate requests from double submission are not modelled: each press is one independent `EstimatePrice` call.
