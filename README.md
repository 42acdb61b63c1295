# verify-otp: a Dafny model of WhatsApp OTP login

This project models the `/verify-otp` handler of a small WhatsApp login server. The
handler takes a phone number and a one-time code and checks the code against an
in-memory OTP store. It then finds or creates the matching customer on a commerce
platform, signs a seven-day session token, and only then deletes the store entry.

Modules, following the handler's steps:

- `Phone` (phone.dfy) removes every non-digit from the phone. The result is the store key.
- `Customers` (customers.dfy) covers the rest of identity:
  - the email derived from the key (`<digits>@whatsapp.login`);
  - the create request (email, `"+" + digits`, tag `whatsapp_auth`);
  - search-then-create resolution, with the platform as an oracle that records every request;
  - `Directory`, a model of the platform's customer table keyed by email. It is used to
    prove that a second login reuses the customer of the first.
- `Session` (session.dfy) holds the token payload: `customer_id`, `phone`, `iat` and `exp`
  in seconds, seven days apart.
- `VerifyOtp` (verify_otp.dfy) holds the handler:
  - the request fields as JavaScript values (missing, string, or another JSON value with
    its truthiness);
  - the ordered checks `CheckRequest`;
  - the specification `Handle` of one call (answer, platform requests, new store);
  - the class `OtpServer`, whose `otpStore` field the method `VerifyOtp` updates in place,
    statement by statement as the handler does. Its postcondition ties it to `Handle`;
  - lemmas for each property of the handler.

Inputs that the handler gets from outside become parameters:

- `now` is `Date.now()` in milliseconds.
- `ext: Upstream` answers the search and create requests. Each answer is either `Ok(value)`
  or `Threw`, which the catch block turns into a 500.
- `secretSet` says whether `jwt.sign` can sign. It throws when the secret is missing.

## Model

| member | source | states |
|---|---|---|
| Phone.Normalize | server.js:8 | the key contains only ASCII digits, is no longer than the input, and equals the input when no character was removed |
| Phone.NormalizeAppend | server.js:8 | normalising a concatenation is the concatenation of the normalised parts, so the digits keep their original order |
| Phone.NormalizeChar | server.js:8 | a single character is kept exactly when it is a digit (with NormalizeAppend this fixes the function) |
| Phone.NormalizeCounts | server.js:8 | each digit occurs in the key as often as in the input, and no non-digit occurs |
| Phone.NormalizeFixesDigits | server.js:8 | a string is unchanged by normalisation if and only if it is all digits |
| Phone.NormalizeIdempotent | server.js:8 | normalising twice equals normalising once |
| Phone.NormalizePlusPrefix | server.js:44 | the `"+" + key` phone given to a created customer normalises back to the key |
| Customers.GeneratedEmail | server.js:22 | the email is the key followed by the domain `@whatsapp.login`, and is exactly that much longer |
| Customers.EmailRoundTrip | server.js:22 | the key can be read back from the derived email |
| Customers.EmailInjective | server.js:22 | two keys share a derived email if and only if they are equal |
| Customers.DraftFor | server.js:42-46 | the create body carries the derived email, the tag `whatsapp_auth`, and a phone that is `+` followed by exactly the key |
| Customers.DraftForKey | server.js:39-47 | the create request carries the derived email and the tag `whatsapp_auth`, and its phone is `+` followed by a phone that normalises to the key |
| Customers.Resolve | server.js:20-56 | every resolution first searches by the derived email, sends at most one more request, and that request is the create for the key |
| Customers.ResolveUsesFirstMatch | server.js:34-36 | a non-empty search result yields its first customer and no create request |
| Customers.ResolveCreatesOnlyWhenNoneFound | server.js:38-56 | a create request is sent if and only if the search succeeded empty, and then the created customer is used |
| Customers.ResolveFailsOnlyOnRejection | server.js:25-55 | resolution fails if and only if the search was rejected, or it came back empty and the create was rejected |
| Customers.HandledAll | server.js:39-53 | replaying requests on the customer table never removes or changes a customer already stored under an email |
| Customers.SecondResolutionReuses | server.js:22-56 | against the customer table, resolution succeeds if and only if the derived email has a customer or no customer holds the phone `"+" + key`; after a success, and after any later requests, resolving the same key yields the same customer with only a search |
| Session.Mint | server.js:58-65 | the token carries the given customer id and phone, `iat` is the signing time in whole seconds rounded down, and `exp` is 604800 seconds (7 days) later |
| VerifyOtp.StatusCode | server.js:6-76 | 200 only for success, 500 only for the catch block, 400 for exactly the four rejections of the checks |
| VerifyOtp.Truthy | server.js:5 | the falsy fields are exactly a missing field, the empty string and the falsy other JSON values (JavaScript's `!` test) |
| VerifyOtp.KeyOf | server.js:8 | the key of a request is all digits and no longer than the phone string; a phone that is not a string never reaches the key, because `replace` throws, and is given the empty key |
| VerifyOtp.CheckRequest | server.js:5-18 | a request passes if and only if both fields are truthy, the phone is a string, its normalised key has an entry that has not expired, and the sent code is the stored string; the key is then all digits, and a rejection is never a success |
| VerifyOtp.Handle | server.js:1-78 | a success removes exactly the normalised phone's entry; every other answer leaves the store as it was |
| VerifyOtp.OtpServer.VerifyOtp | server.js:1-78 | the handler's answer, its platform requests and the new `otpStore` are those of `Handle` on the old store |
| VerifyOtp.MissingFieldIsInvalidInput | server.js:5-6 | the answer is InvalidInput if and only if the phone or the code is missing or falsy, and then no request is sent and the store is unchanged |
| VerifyOtp.NonStringPhoneFails | server.js:8 | a truthy phone that is not a string makes `replace` throw: a 500 with no request sent and the store unchanged |
| VerifyOtp.NoRecordIsNotFound | server.js:9-12 | with both fields present, NotFound comes back if and only if the normalised phone has no entry, and the store is unchanged |
| VerifyOtp.ExpiryIsStrict | server.js:14-15 | for an existing entry, Expired comes back if and only if `now > expiresAt`, whatever the code, and the entry is kept |
| VerifyOtp.ExpiryInstantStillValid | server.js:14-18 | at `now == expiresAt` the correct code still passes every check |
| VerifyOtp.WrongCodeIsMismatch | server.js:17-18 | inside the window, Mismatch comes back if and only if the sent code differs from the stored one, and the entry is kept |
| VerifyOtp.RetryAfterMismatch | server.js:17-18 | after a Mismatch, the correct code sent before expiry for any phone with the same key passes every check |
| VerifyOtp.SuccessNeedsLiveMatchingCode | server.js:11-18 | a success implies that the entry existed, had not expired and held exactly the sent code |
| VerifyOtp.SuccessConsumesExactlyKey | server.js:58-67 | a success signs a 7-day token with the resolved customer's id and the normalised phone, and removes that phone's entry and no other |
| VerifyOtp.LateFailureKeepsRecord | server.js:20-76 | once the checks pass, the answer is Success if and only if the customer is resolved and the secret is set, and Failed if and only if resolution was rejected or signing is impossible, in which case the entry is kept |
| VerifyOtp.UsedCodeIsNotFound | server.js:67 | after a success, any later request for the same key gets NotFound |
| VerifyOtp.SecondLoginSameCustomer | server.js:20-67 | against the customer table, after a successful login and whatever requests come in between, a later login for the same phone that passes the checks succeeds, signs a token for the same customer id, and creates nobody |
| VerifyOtp.CorrectLiveCodeLogsIn | server.js:9-67 | a string phone whose entry is live, sent with the stored code, logs in whenever the customer is resolved and the secret is set: the token binds the resolved customer's id to the key, and exactly that entry is removed |

## Left out

- The `/send-otp` and `/me` handlers are not part of this model. This covers OTP
  generation, delivery, and token validation.
- The initial value of `otpStore` is not in the modelled lines. `OtpServer.constructor`
  assumes an empty object.
- The stored code is taken to be a string, because the code that writes it is not part
  of this model. The comparison is JavaScript's strict `!==`, so a code sent as a JSON
  number never matches a string code.
- The axios requests are not modelled as HTTP. `Upstream` stands for them: it is given the
  derived email or the create body and answers with a value or a rejection. The URL, the
  API version and the access-token header are not modelled.
- `Customers.Directory` models the platform's search as an exact email match. That search
  is the platform's own query language, which this model does not capture.
- `Customers.Directory` rejects a create only as a duplicate, when its email or its phone
  already belongs to a customer. It never rejects a create for any other reason, such as
  validation, rate limits or outages. `Upstream` covers those failures in general.
- `Customers.Directory` has no indexing lag: a customer created by one request is found by
  the next search at once. `SecondResolutionReuses` and `SecondLoginSameCustomer` rely on
  this. A platform whose search lags behind its writes could create a second customer.
- JWT signing is not modelled. The token is its payload only; the HMAC signature (RFC 7519)
  and the secret are not modelled. A missing secret is the flag `secretSet`.
- Express routing, the JSON body parser, `res.status`, `res.json` and `console.log` are
  not modelled. The `Response` datatype and `StatusCode` stand for them.
- `Date.now()` is read twice in the handler: once for the expiry check and once inside
  `jwt.sign`. The model uses one value, `now`, for both.
- Concurrent requests on the shared `otpStore` are not modelled. Each call is atomic.
  In the handler, the `await`s at server.js:25 and server.js:39 let other requests run
  between the checks (server.js:9-18) and the `delete` (server.js:67). So two overlapping
  requests with the same code can both succeed. A code issued again for the phone inside
  that window is deleted by the first request's `delete`. `UsedCodeIsNotFound` holds only
  for requests that run one after another.
- The `!customer` test after the search does not model a search result whose first element
  is `null`. Every returned customer is a record.

## Behaviour of the handler worth knowing

- The handler searches by email only (server.js:25-36). It makes no search by phone.
- A create that the platform rejects, for instance because the phone is already taken,
  is answered with a 500 (server.js:39-55, 74-76).
- The entry is deleted only after the token is signed (server.js:58-67). A failure before
  that keeps the code usable.
- Expired entries are reported but never deleted (server.js:14-15).
- A missing signing secret makes `jwt.sign` throw inside the `try`, which answers 500
  (server.js:58-65, 74-76).
