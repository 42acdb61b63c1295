/** The `/verify-otp` handler: checks a submitted code against the in-memory OTP store,
    resolves the customer for the phone, mints the session token, and only then consumes
    the store entry. The current time is the parameter `now` (milliseconds), the commerce
    platform an `Upstream` oracle, and whether the signing secret is configured a flag. */
module VerifyOtp {
  import opened Phone
  import opened Customers
  import opened Session

  /** A field of the JSON request body as JavaScript sees it: missing, a string, or some
      other JSON value (null, number, boolean, object, array) with its truthiness. */
  datatype Field = Absent | Text(s: string) | Other(truthy: bool)

  /** JavaScript's `!!x`. The falsy request fields are exactly a missing field, the empty
      string, and the falsy other values (null, false, 0). */
  predicate Truthy(f: Field)
    ensures !Truthy(f) <==> f == Absent || f == Text("") || f == Other(false)
  {
    match f
    case Absent => false
    case Text(s) => s != ""
    case Other(t) => t
  }

  /** An entry of the OTP store: the code that was sent and its expiry time in milliseconds. */
  datatype OtpRecord = OtpRecord(otp: string, expiresAt: int)

  type Store = map<string, OtpRecord>

  /** What the handler answers. */
  datatype Response =
    | InvalidInput      // 400 "Phone & OTP required"
    | NotFound          // 400 "No OTP found"
    | Expired           // 400 "OTP expired"
    | Mismatch          // 400 "Invalid OTP"
    | Failed            // 500 "Verification failed", from the catch block
    | Success(token: Token)

  /** The HTTP status that goes with each answer. */
  function StatusCode(r: Response): (code: int)
    ensures code == 200 <==> r.Success?
    ensures code == 500 <==> r.Failed?
    ensures code == 400 <==> r.InvalidInput? || r.NotFound? || r.Expired? || r.Mismatch?
  {
    match r
    case Success(_) => 200
    case Failed => 500
    case _ => 400
  }

  /** The store key a request addresses: the normalised phone. */
  function KeyOf(phone: Field): (key: string)
    ensures AllDigits(key)
    ensures phone.Text? ==> |key| <= |phone.s|
    ensures !phone.Text? ==> key == ""
  {
    if phone.Text? then Normalize(phone.s) else ""
  }

  /** The checks made before any request reaches the platform, in the handler's order. */
  datatype Check = Passed(key: string) | Rejected(response: Response)

  function CheckRequest(store: Store, phone: Field, otp: Field, now: int): (c: Check)
    ensures c.Passed? <==> Truthy(phone) && Truthy(otp) && phone.Text? && KeyOf(phone) in store &&
                           now <= store[KeyOf(phone)].expiresAt && otp == Text(store[KeyOf(phone)].otp)
    ensures c.Passed? ==> c.key == KeyOf(phone) && c.key in store && AllDigits(c.key)
    ensures c.Passed? ==> now <= store[c.key].expiresAt && otp == Text(store[c.key].otp)
    ensures c.Rejected? ==> !c.response.Success?
  {
    if !Truthy(phone) || !Truthy(otp) then Rejected(InvalidInput)
    // `phone.replace` is not a function on a non-string value: the TypeError is caught
    else if !phone.Text? then Rejected(Failed)
    else if KeyOf(phone) !in store then Rejected(NotFound)
    else if now > store[KeyOf(phone)].expiresAt then Rejected(Expired)
    else if otp != Text(store[KeyOf(phone)].otp) then Rejected(Mismatch)
    else Passed(KeyOf(phone))
  }

  /** The answer, the platform requests made, and the store afterwards. */
  datatype Outcome = Outcome(response: Response, calls: seq<Call>, store: Store)

  /** One call of the handler, start to finish. */
  function Handle(store: Store, phone: Field, otp: Field, now: int, ext: Upstream, secretSet: bool): (o: Outcome)
    ensures o.response.Success? ==> o.store == store - {KeyOf(phone)}
    ensures !o.response.Success? ==> o.store == store
  {
    match CheckRequest(store, phone, otp, now)
    case Rejected(r) => Outcome(r, [], store)
    case Passed(key) =>
      var res := Resolve(key, ext);
      if res.customer.Threw? || !secretSet then Outcome(Failed, res.calls, store)
      else Outcome(Success(Mint(res.customer.value.id, key, now)), res.calls, store - {key})
  }

  /** The process that holds the OTP store. */
  class OtpServer {
    var otpStore: Store

    constructor ()
      ensures otpStore == map[]
    {
      otpStore := map[];
    }

    /** Handles one request; each call runs alone on the store. */
    method VerifyOtp(phone: Field, otp: Field, now: int, ext: Upstream, secretSet: bool)
      returns (response: Response, calls: seq<Call>)
      modifies this
      ensures Outcome(response, calls, otpStore) == Handle(old(otpStore), phone, otp, now, ext, secretSet)
      ensures response.Success? ==> otpStore == old(otpStore) - {KeyOf(phone)}
      ensures !response.Success? ==> otpStore == old(otpStore)
    {
      calls := [];
      if !Truthy(phone) || !Truthy(otp) {
        return InvalidInput, calls;
      }
      if !phone.Text? {
        return Failed, calls;
      }
      var cleanPhone := Normalize(phone.s);
      if cleanPhone !in otpStore {
        return NotFound, calls;
      }
      var record := otpStore[cleanPhone];
      if now > record.expiresAt {
        return Expired, calls;
      }
      if otp != Text(record.otp) {
        return Mismatch, calls;
      }

      // `let customer = null`: no customer yet
      var customer: Customer;
      var haveCustomer := false;
      var generatedEmail := GeneratedEmail(cleanPhone);
      calls := calls + [SearchByEmail(generatedEmail)];
      var search := ext.search(generatedEmail);
      if search.Threw? {
        return Failed, calls;
      }
      if |search.value| > 0 {
        customer, haveCustomer := search.value[0], true;
      }
      if !haveCustomer {
        var draft := NewCustomer(generatedEmail, "+" + cleanPhone, AuthTag);
        calls := calls + [CreateCustomer(draft)];
        var create := ext.create(draft);
        if create.Threw? {
          return Failed, calls;
        }
        customer := create.value;
      }

      if !secretSet {
        return Failed, calls;
      }
      var token := Mint(customer.id, cleanPhone, now);
      otpStore := otpStore - {cleanPhone};
      response := Success(token);
    }
  }

  /** A missing or empty phone or code is answered with InvalidInput, and only those are;
      nothing is sent to the platform and the store is untouched. */
  lemma MissingFieldIsInvalidInput(store: Store, phone: Field, otp: Field, now: int, ext: Upstream, secretSet: bool)
    ensures Handle(store, phone, otp, now, ext, secretSet).response == InvalidInput
            <==> !Truthy(phone) || !Truthy(otp)
    ensures !Truthy(phone) || !Truthy(otp) ==>
              Handle(store, phone, otp, now, ext, secretSet) == Outcome(InvalidInput, [], store)
  {
  }

  /** A phone that is some other truthy JSON value than a string makes the normalisation
      throw, which the catch block answers with a 500 before the store is read. */
  lemma NonStringPhoneFails(store: Store, phone: Field, otp: Field, now: int, ext: Upstream, secretSet: bool)
    requires Truthy(phone) && Truthy(otp) && !phone.Text?
    ensures Handle(store, phone, otp, now, ext, secretSet) == Outcome(Failed, [], store)
  {
  }

  /** With both fields present, the answer is NotFound exactly when the normalised phone
      has no entry; the store is untouched. */
  lemma NoRecordIsNotFound(store: Store, phone: Field, otp: Field, now: int, ext: Upstream, secretSet: bool)
    requires Truthy(phone) && Truthy(otp) && phone.Text?
    ensures Handle(store, phone, otp, now, ext, secretSet).response == NotFound
            <==> Normalize(phone.s) !in store
    ensures Normalize(phone.s) !in store ==>
              Handle(store, phone, otp, now, ext, secretSet) == Outcome(NotFound, [], store)
  {
  }

  /** Expiry is strict and comes before the code comparison: an entry is expired exactly
      when `now` is past `expiresAt`, whatever code was sent, and it is not deleted. */
  lemma ExpiryIsStrict(store: Store, phone: Field, otp: Field, now: int, ext: Upstream, secretSet: bool)
    requires Truthy(phone) && Truthy(otp) && phone.Text? && Normalize(phone.s) in store
    ensures Handle(store, phone, otp, now, ext, secretSet).response == Expired
            <==> now > store[Normalize(phone.s)].expiresAt
    ensures now > store[Normalize(phone.s)].expiresAt ==>
              Handle(store, phone, otp, now, ext, secretSet) == Outcome(Expired, [], store)
  {
  }

  /** At the expiry instant itself the correct code still passes every check. */
  lemma ExpiryInstantStillValid(store: Store, phone: Field, now: int)
    requires Truthy(phone) && phone.Text? && Normalize(phone.s) in store
    requires store[Normalize(phone.s)].otp != ""
    requires now == store[Normalize(phone.s)].expiresAt
    ensures CheckRequest(store, phone, Text(store[Normalize(phone.s)].otp), now) == Passed(Normalize(phone.s))
  {
  }

  /** Inside the validity window, a code other than the stored one is a Mismatch and
      the entry stays. */
  lemma WrongCodeIsMismatch(store: Store, phone: Field, otp: Field, now: int, ext: Upstream, secretSet: bool)
    requires Truthy(phone) && Truthy(otp) && phone.Text? && Normalize(phone.s) in store
    requires now <= store[Normalize(phone.s)].expiresAt
    ensures Handle(store, phone, otp, now, ext, secretSet).response == Mismatch
            <==> otp != Text(store[Normalize(phone.s)].otp)
    ensures otp != Text(store[Normalize(phone.s)].otp) ==>
              Handle(store, phone, otp, now, ext, secretSet) == Outcome(Mismatch, [], store)
  {
  }

  /** After a wrong guess, the right code sent again before expiry passes every check
      (a stored empty code could never be sent, since an empty field is InvalidInput),
      for the same phone written in any format that normalises to the same key. */
  lemma RetryAfterMismatch(store: Store, phone: Field, wrong: Field, now: int, ext: Upstream, secretSet: bool,
                           phone2: Field, now2: int)
    requires Handle(store, phone, wrong, now, ext, secretSet).response == Mismatch
    requires Truthy(phone2) && phone2.Text? && KeyOf(phone2) == KeyOf(phone)
    ensures phone.Text? && KeyOf(phone) in store
    ensures var after := Handle(store, phone, wrong, now, ext, secretSet).store;
            now2 <= store[KeyOf(phone)].expiresAt && store[KeyOf(phone)].otp != "" ==>
              CheckRequest(after, phone2, Text(store[KeyOf(phone)].otp), now2) == Passed(KeyOf(phone))
  {
  }

  /** A successful call passed every check, resolved a customer, signed a token binding
      that customer to the normalised phone for seven days, and removed exactly that
      phone's entry. */
  lemma SuccessConsumesExactlyKey(store: Store, phone: Field, otp: Field, now: int, ext: Upstream, secretSet: bool)
    requires Handle(store, phone, otp, now, ext, secretSet).response.Success?
    ensures CheckRequest(store, phone, otp, now) == Passed(KeyOf(phone))
    ensures secretSet && Resolve(KeyOf(phone), ext).customer.Ok?
    ensures var t := Handle(store, phone, otp, now, ext, secretSet).response.token;
            t.customerId == Resolve(KeyOf(phone), ext).customer.value.id &&
            t.phone == KeyOf(phone) && t.expiresAt - t.issuedAt == SevenDaysSeconds
    ensures var after := Handle(store, phone, otp, now, ext, secretSet).store;
            KeyOf(phone) in store && KeyOf(phone) !in after &&
            forall k :: k != KeyOf(phone) ==> (k in after <==> k in store) && (k in after ==> after[k] == store[k])
  {
  }

  /** After the code passed, the request logs in exactly when the customer is resolved
      and the token can be signed; otherwise a rejected platform request or a missing
      signing secret answers 500 and keeps the entry, so the same code can be sent again. */
  lemma LateFailureKeepsRecord(store: Store, phone: Field, otp: Field, now: int, ext: Upstream, secretSet: bool)
    requires CheckRequest(store, phone, otp, now).Passed?
    ensures Handle(store, phone, otp, now, ext, secretSet).response.Success?
            <==> Resolve(KeyOf(phone), ext).customer.Ok? && secretSet
    ensures Handle(store, phone, otp, now, ext, secretSet).response == Failed
            <==> Resolve(KeyOf(phone), ext).customer.Threw? || !secretSet
    ensures Handle(store, phone, otp, now, ext, secretSet).response == Failed ==>
              Handle(store, phone, otp, now, ext, secretSet).store == store &&
              CheckRequest(store, phone, otp, now).Passed?
  {
  }

  /** A code works once when requests run one after another: after a success, any later
      request for the same key finds no entry. Requests that overlap in time are not covered. */
  lemma UsedCodeIsNotFound(store: Store, phone: Field, otp: Field, now: int, ext: Upstream, secretSet: bool,
                           phone2: Field, otp2: Field, now2: int, ext2: Upstream, secretSet2: bool)
    requires Handle(store, phone, otp, now, ext, secretSet).response.Success?
    requires Truthy(phone2) && Truthy(otp2) && phone2.Text? && KeyOf(phone2) == KeyOf(phone)
    ensures Handle(Handle(store, phone, otp, now, ext, secretSet).store, phone2, otp2, now2, ext2, secretSet2).response
            == NotFound
  {
  }

  /** Only a request whose code matches an unexpired entry can succeed. */
  lemma SuccessNeedsLiveMatchingCode(store: Store, phone: Field, otp: Field, now: int, ext: Upstream, secretSet: bool)
    ensures Handle(store, phone, otp, now, ext, secretSet).response.Success? ==>
              phone.Text? && KeyOf(phone) in store &&
              now <= store[KeyOf(phone)].expiresAt && otp == Text(store[KeyOf(phone)].otp)
  {
  }

  /** Against a platform modelled by its customer table, after a successful login for a
      phone, and whatever other requests the platform handles meanwhile, a later login for
      the same phone (in any format) that passes the checks succeeds, signs a token for the
      same customer, and creates nobody. */
  lemma SecondLoginSameCustomer(d: Directory,
                                store1: Store, phone1: Field, otp1: Field, now1: int,
                                between: seq<Call>,
                                store2: Store, phone2: Field, otp2: Field, now2: int)
    requires Handle(store1, phone1, otp1, now1, Serve(d), true).response.Success?
    requires KeyOf(phone2) == KeyOf(phone1)
    requires CheckRequest(store2, phone2, otp2, now2).Passed?
    ensures var first := Handle(store1, phone1, otp1, now1, Serve(d), true);
            var second := Handle(store2, phone2, otp2, now2, Serve(HandledAll(HandledAll(d, first.calls), between)), true);
            second.response.Success? &&
            second.response.token.customerId == first.response.token.customerId &&
            second.calls == [SearchByEmail(GeneratedEmail(KeyOf(phone1)))]
  {
    SecondResolutionReuses(d, KeyOf(phone1), between);
  }

  /** The correct code for a live entry logs in whenever the customer is resolved and the
      token can be signed. */
  lemma CorrectLiveCodeLogsIn(store: Store, phone: Field, now: int, ext: Upstream)
    requires Truthy(phone) && phone.Text? && KeyOf(phone) in store
    requires store[KeyOf(phone)].otp != "" && now <= store[KeyOf(phone)].expiresAt
    requires Resolve(KeyOf(phone), ext).customer.Ok?
    ensures var o := Handle(store, phone, Text(store[KeyOf(phone)].otp), now, ext, true);
            o.response.Success? && o.response.token.phone == KeyOf(phone) &&
            o.response.token.customerId == Resolve(KeyOf(phone), ext).customer.value.id &&
            o.store == store - {KeyOf(phone)}
  {
  }
}
