/** Customer resolution in the verify-otp handler: the commerce platform is searched
    for the email derived from the normalised phone, the first hit is used, and a new
    customer is created only when the search finds nothing. The two HTTP calls are
    abstracted as an oracle that answers each request; every request made is recorded. */
module Customers {
  import opened Phone

  const EmailDomain: string := "@whatsapp.login"
  const AuthTag: string := "whatsapp_auth"

  /** A customer record as the platform returns it. */
  datatype Customer = Customer(id: int, email: string, phone: string, tags: string)

  /** The body of the create request: the customer's email, phone and tags. */
  datatype NewCustomer = NewCustomer(email: string, phone: string, tags: string)

  /** A request sent to the platform. */
  datatype Call = SearchByEmail(email: string) | CreateCustomer(draft: NewCustomer)

  /** The answer to one request: a value, or a rejection (network error, non-2xx status,
      or a response without the expected field), which the handler's catch turns into a 500. */
  datatype Reply<T> = Ok(value: T) | Threw

  /** What the platform answers to a search for an email and to a create request. */
  datatype Upstream = Upstream(search: string -> Reply<seq<Customer>>, create: NewCustomer -> Reply<Customer>)

  /** The customer found or created, and the requests made on the way, in order. */
  datatype Resolution = Resolution(customer: Reply<Customer>, calls: seq<Call>)

  /** The synthetic email that identifies the customer of a normalised phone. */
  function GeneratedEmail(key: string): (e: string)
    ensures HasLoginDomain(e) && |e| == |key| + |EmailDomain|
    ensures e[..|key|] == key
  {
    key + EmailDomain
  }

  predicate HasLoginDomain(e: string) {
    |e| >= |EmailDomain| && e[|e| - |EmailDomain|..] == EmailDomain
  }

  /** Inverse of GeneratedEmail: the part in front of the login domain. */
  function KeyOfEmail(e: string): (key: string)
    requires HasLoginDomain(e)
  {
    e[..|e| - |EmailDomain|]
  }

  /** The store key can be read back from the derived email. */
  lemma EmailRoundTrip(key: string)
    ensures HasLoginDomain(GeneratedEmail(key)) && KeyOfEmail(GeneratedEmail(key)) == key
  {
    var e := GeneratedEmail(key);
    assert e[|e| - |EmailDomain|..] == EmailDomain;
    assert e[..|e| - |EmailDomain|] == key;
  }

  /** Two phones share a derived email only when they normalise to the same key. */
  lemma EmailInjective(a: string, b: string)
    ensures GeneratedEmail(a) == GeneratedEmail(b) <==> a == b
  {
  }

  /** The create request for a normalised phone. */
  function DraftFor(key: string): (n: NewCustomer)
    ensures n.email == GeneratedEmail(key) && n.tags == AuthTag
    ensures |n.phone| == |key| + 1 && n.phone[0] == '+' && n.phone[1..] == key
  {
    NewCustomer(GeneratedEmail(key), "+" + key, AuthTag)
  }

  /** A created customer carries the derived email and the auth tag, and its phone
      normalises back to the store key. */
  lemma DraftForKey(key: string)
    requires AllDigits(key)
    ensures DraftFor(key).email == GeneratedEmail(key) && DraftFor(key).tags == AuthTag
    ensures DraftFor(key).phone[0] == '+' && Normalize(DraftFor(key).phone) == key
  {
    NormalizePlusPrefix(key);
  }

  /** Search by the derived email; use the first hit; otherwise create. */
  function Resolve(key: string, ext: Upstream): (r: Resolution)
    ensures 1 <= |r.calls| <= 2 && r.calls[0] == SearchByEmail(GeneratedEmail(key))
    ensures |r.calls| == 2 ==> r.calls[1] == CreateCustomer(DraftFor(key))
  {
    var email := GeneratedEmail(key);
    match ext.search(email)
    case Threw => Resolution(Threw, [SearchByEmail(email)])
    case Ok(found) =>
      if |found| > 0 then Resolution(Ok(found[0]), [SearchByEmail(email)])
      else Resolution(ext.create(DraftFor(key)), [SearchByEmail(email), CreateCustomer(DraftFor(key))])
  }

  /** A non-empty search result decides: its first customer is used and nothing is created. */
  lemma ResolveUsesFirstMatch(key: string, ext: Upstream)
    requires ext.search(GeneratedEmail(key)).Ok? && |ext.search(GeneratedEmail(key)).value| > 0
    ensures Resolve(key, ext).customer == Ok(ext.search(GeneratedEmail(key)).value[0])
    ensures Resolve(key, ext).calls == [SearchByEmail(GeneratedEmail(key))]
  {
  }

  /** A create request is sent exactly when the search succeeded with no customers, and
      then the created customer is the one used. */
  lemma ResolveCreatesOnlyWhenNoneFound(key: string, ext: Upstream)
    ensures (exists i :: 0 <= i < |Resolve(key, ext).calls| && Resolve(key, ext).calls[i].CreateCustomer?)
            <==> ext.search(GeneratedEmail(key)) == Ok([])
    ensures ext.search(GeneratedEmail(key)) == Ok([]) ==>
              Resolve(key, ext).customer == ext.create(DraftFor(key))
  {
    var r := Resolve(key, ext);
    if ext.search(GeneratedEmail(key)) == Ok([]) {
      assert r.calls[1].CreateCustomer?;
    }
  }

  /** Resolution fails only when the platform rejects a request that was actually sent. */
  lemma ResolveFailsOnlyOnRejection(key: string, ext: Upstream)
    ensures Resolve(key, ext).customer.Threw? <==>
              ext.search(GeneratedEmail(key)).Threw? ||
              (ext.search(GeneratedEmail(key)) == Ok([]) && ext.create(DraftFor(key)).Threw?)
  {
  }

  /** A model of the platform's customer table, indexed by email, with the id it will
      assign next. Searching by email finds the customer stored under it, and a search
      sees a created customer at once: the table has no indexing lag. A create is rejected
      when its email or its phone already belongs to a customer; otherwise it stores a new
      customer under the requested email. */
  datatype Directory = Directory(byEmail: map<string, Customer>, nextId: int)

  /** Some customer of the table already has this phone. */
  predicate PhoneHeld(d: Directory, phone: string) {
    exists e :: e in d.byEmail && d.byEmail[e].phone == phone
  }

  /** The platform refuses to create this customer as a duplicate. */
  predicate Conflicts(d: Directory, n: NewCustomer) {
    n.email in d.byEmail || PhoneHeld(d, n.phone)
  }

  function Serve(d: Directory): (ext: Upstream)
  {
    Upstream(
      (email: string) => Ok(if email in d.byEmail then [d.byEmail[email]] else []),
      (draft: NewCustomer) =>
        if Conflicts(d, draft) then Threw else Ok(Customer(d.nextId, draft.email, draft.phone, draft.tags)))
  }

  /** The table after the platform handled one request. */
  function Handled(d: Directory, c: Call): (d': Directory)
    ensures forall e :: e in d.byEmail ==> e in d'.byEmail && d'.byEmail[e] == d.byEmail[e]
  {
    match c
    case SearchByEmail(_) => d
    case CreateCustomer(n) =>
      if Conflicts(d, n) then d
      else Directory(d.byEmail[n.email := Customer(d.nextId, n.email, n.phone, n.tags)], d.nextId + 1)
  }

  /** The table after the platform handled a sequence of requests in order: no request
      removes or changes a customer that is already there. */
  function HandledAll(d: Directory, calls: seq<Call>): (d': Directory)
    ensures forall e :: e in d.byEmail ==> e in d'.byEmail && d'.byEmail[e] == d.byEmail[e]
    decreases |calls|
  {
    if calls == [] then d else HandledAll(Handled(d, calls[0]), calls[1..])
  }

  /** Against the table, resolution succeeds unless the derived email is free while another
      customer already holds the phone (the duplicate the handler does not handle). Once it
      succeeds, resolving the same key again on the table left behind by that resolution
      and by any later requests returns the same customer without creating another. */
  lemma SecondResolutionReuses(d: Directory, key: string, later: seq<Call>)
    ensures Resolve(key, Serve(d)).customer.Ok?
            <==> GeneratedEmail(key) in d.byEmail || !PhoneHeld(d, "+" + key)
    ensures Resolve(key, Serve(d)).customer.Ok? ==>
              Resolve(key, Serve(HandledAll(HandledAll(d, Resolve(key, Serve(d)).calls), later))).customer
              == Resolve(key, Serve(d)).customer
    ensures Resolve(key, Serve(d)).customer.Ok? ==>
              Resolve(key, Serve(HandledAll(HandledAll(d, Resolve(key, Serve(d)).calls), later))).calls
              == [SearchByEmail(GeneratedEmail(key))]
  {
  }
}
