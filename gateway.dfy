/** The Billplz bill-lifecycle client: the memoised collection, bill
    creation, bill retrieval and the settlement check. HTTP is not performed:
    each method receives the response the gateway gives to the request it
    would send, and records that request in `sent`. */
module Gateway {
  import opened Wrappers

  const SecretKeyMissing := "BILLPLZ_SECRET_KEY not configured"
  const CollectionTitle := "AECOIN Store"
  const CollectionDescription := "GTA Online virtual currency packages"
  const CollectionFailed := "Failed to create Billplz collection: "
  const CollectionWithoutId := "Failed to create Billplz collection: No ID returned"
  const BillFailed := "Failed to create Billplz bill: "
  const BillInvalid := "Failed to create Billplz bill: Invalid response"
  const GetBillFailed := "Failed to get Billplz bill: "
  const PaidState := "paid"

  /** What the client throws. */
  datatype Error =
    | ConfigurationError(message: string)
    | IntegrationError(message: string)
      /** `fetch` rejected, or the body of a successful response was not JSON. */
    | TransportError

  /** The outcome of one HTTP request: no answer at all, or a status
      (`ok` for 2xx), the body as text and the body parsed as JSON
      (`None` when it does not parse). */
  datatype HttpResponse<T> = NetworkFailure | Response(ok: bool, text: string, json: Option<T>)

  /** The fields of a collection response the client reads. */
  datatype Collection = Collection(id: Option<string>)

  /** The fields of a bill response the client reads; `paid` is `None` when
      the field is absent or not a boolean. */
  datatype Bill = Bill(id: Option<string>, url: Option<string>, paid: Option<bool>, state: Option<string>)

  /** The arguments of `createBill`; `amount` is in ringgit. */
  datatype BillParams = BillParams(
    description: string, amount: real, name: string, email: string, mobile: Option<string>,
    callbackUrl: string, redirectUrl: string, reference1Label: Option<string>, reference1: Option<string>)

  /** The JSON body of the bill-creation request; `None` fields are absent. */
  datatype BillRequest = BillRequest(
    collectionId: string, description: string, email: string, name: string, amount: int,
    callbackUrl: string, redirectUrl: string,
    mobile: Option<string>, reference1Label: Option<string>, reference1: Option<string>)

  /** The requests the client sends to the gateway. */
  datatype Request =
    | PostCollection(title: string, description: string)
    | PostBill(bill: BillRequest)
    | FetchBill(billId: string)

  const CollectionRequest := PostCollection(CollectionTitle, CollectionDescription)

  /** `Math.round(amount * 100)`: the integer nearest to the amount in sen,
      halves rounded up. */
  function AmountInSen(amount: real): (sen: int)
    ensures sen as real - 0.5 <= amount * 100.0 < sen as real + 0.5
  {
    (amount * 100.0 + 0.5).Floor
  }

  /** The bill-creation body for collection `collId`: the required fields
      always, `mobile` only when given, the reference label and value only
      as a pair and only when both are given. */
  function BillRequestFor(collId: string, p: BillParams): (r: BillRequest)
    ensures r.collectionId == collId && r.amount == AmountInSen(p.amount)
    ensures r.description == p.description && r.email == p.email && r.name == p.name
    ensures r.callbackUrl == p.callbackUrl && r.redirectUrl == p.redirectUrl
    ensures r.mobile.Some? <==> Truthy(p.mobile)
    ensures r.mobile.Some? ==> r.mobile == p.mobile
    ensures r.reference1Label.Some? <==> Truthy(p.reference1Label) && Truthy(p.reference1)
    ensures r.reference1.Some? <==> r.reference1Label.Some?
    ensures r.reference1Label.Some? ==> r.reference1Label == p.reference1Label && r.reference1 == p.reference1
  {
    var both := Truthy(p.reference1Label) && Truthy(p.reference1);
    BillRequest(collId, p.description, p.email, p.name, AmountInSen(p.amount), p.callbackUrl, p.redirectUrl,
      if Truthy(p.mobile) then p.mobile else None,
      if both then p.reference1Label else None,
      if both then p.reference1 else None)
  }

  /** Builds the body the way the source does: the required fields first,
      the optional ones added one condition at a time. */
  method BuildBillRequest(collId: string, p: BillParams) returns (billData: BillRequest)
    ensures billData == BillRequestFor(collId, p)
  {
    var amountInSen := AmountInSen(p.amount);
    billData := BillRequest(collId, p.description, p.email, p.name, amountInSen,
      p.callbackUrl, p.redirectUrl, None, None, None);
    if Truthy(p.mobile) {
      billData := billData.(mobile := p.mobile);
    }
    if Truthy(p.reference1Label) && Truthy(p.reference1) {
      billData := billData.(reference1Label := p.reference1Label);
      billData := billData.(reference1 := p.reference1);
    }
  }

  /** What the collection-creation response yields: the id when the status
      is a success and the id is non-empty, an error otherwise. */
  function CollectionOutcome(response: HttpResponse<Collection>): (r: Result<string, Error>)
    ensures r.Success? <==> response.Response? && response.ok && response.json.Some? && Truthy(response.json.value.id)
    ensures r.Success? ==> r.value == response.json.value.id.value && r.value != ""
    ensures response.Response? && !response.ok ==> r == Failure(IntegrationError(CollectionFailed + response.text))
    ensures response.Response? && response.ok && response.json.Some? && !Truthy(response.json.value.id) ==>
      r == Failure(IntegrationError(CollectionWithoutId))
  {
    match response
    case NetworkFailure => Failure(TransportError)
    case Response(ok, text, json) =>
      if !ok then Failure(IntegrationError(CollectionFailed + text))
      else if json.None? then Failure(TransportError)
      else if !Truthy(json.value.id) then Failure(IntegrationError(CollectionWithoutId))
      else Success(json.value.id.value)
  }

  /** What the bill-creation response yields: the bill when the status is a
      success and both `id` and `url` are non-empty, an error otherwise. */
  function CreatedBillOutcome(response: HttpResponse<Bill>): (r: Result<Bill, Error>)
    ensures r.Success? <==>
      response.Response? && response.ok && response.json.Some? && Truthy(response.json.value.id) && Truthy(response.json.value.url)
    ensures r.Success? ==> r.value == response.json.value
    ensures response.Response? && !response.ok ==> r == Failure(IntegrationError(BillFailed + response.text))
    ensures (response.Response? && response.ok && response.json.Some? &&
             !(Truthy(response.json.value.id) && Truthy(response.json.value.url))) ==>
      r == Failure(IntegrationError(BillInvalid))
  {
    match response
    case NetworkFailure => Failure(TransportError)
    case Response(ok, text, json) =>
      if !ok then Failure(IntegrationError(BillFailed + text))
      else if json.None? then Failure(TransportError)
      else if !Truthy(json.value.id) || !Truthy(json.value.url) then Failure(IntegrationError(BillInvalid))
      else Success(json.value)
  }

  /** What the bill-retrieval response yields: any successful, parsable
      response is the bill, unchecked. */
  function FetchedBillOutcome(response: HttpResponse<Bill>): (r: Result<Bill, Error>)
    ensures r.Success? <==> response.Response? && response.ok && response.json.Some?
    ensures r.Success? ==> r.value == response.json.value
    ensures response.Response? && !response.ok ==> r == Failure(IntegrationError(GetBillFailed + response.text))
  {
    match response
    case NetworkFailure => Failure(TransportError)
    case Response(ok, text, json) =>
      if !ok then Failure(IntegrationError(GetBillFailed + text))
      else if json.None? then Failure(TransportError)
      else Success(json.value)
  }

  /** A bill is settled when `paid === true` and `state === 'paid'`. */
  predicate IsSettled(bill: Bill)
  {
    bill.paid == Some(true) && bill.state == Some(PaidState)
  }

  /** The number of collection-creation requests in a log. */
  function CollectionRequests(log: seq<Request>): nat
    decreases |log|
  {
    if log == [] then 0
    else CollectionRequests(log[..|log| - 1]) + (if log[|log| - 1].PostCollection? then 1 else 0)
  }

  lemma {:induction false} CollectionRequestsAppend(a: seq<Request>, b: seq<Request>)
    ensures CollectionRequests(a + b) == CollectionRequests(a) + CollectionRequests(b)
    decreases |b|
  {
    if b == [] {
      assert a + b == a;
    } else {
      assert (a + b)[..|a + b| - 1] == a + b[..|b| - 1];
      CollectionRequestsAppend(a, b[..|b| - 1]);
    }
  }

  /** The client state: the memoised collection id and the log of requests
      sent. The secret key is read from the environment at every call, so it
      is a parameter. */
  class BillplzClient {
    /** The module-level `collectionId`. */
    var collectionId: Option<string>
    /** Every request sent to the gateway, oldest first. */
    ghost var sent: seq<Request>

    /** Only a non-empty id is ever stored. */
    ghost predicate Valid()
      reads this
    {
      collectionId.Some? ==> collectionId.value != ""
    }

    constructor ()
      ensures Valid() && collectionId == None && sent == []
    {
      collectionId := None;
      sent := [];
    }

    /** `ensureCollectionExists`: a stored id is returned without a request;
        without a secret key nothing is sent; otherwise one creation request is
        sent and the id it returns, if any, is stored. */
    method EnsureCollectionExists(secretKey: Option<string>, response: HttpResponse<Collection>)
      returns (r: Result<string, Error>)
      requires Valid()
      modifies this
      ensures Valid()
      ensures old(collectionId).Some? ==>
        r == Success(old(collectionId).value) && collectionId == old(collectionId) && sent == old(sent)
      ensures old(collectionId).None? && !Truthy(secretKey) ==>
        r == Failure(ConfigurationError(SecretKeyMissing)) && collectionId == None && sent == old(sent)
      ensures old(collectionId).None? && Truthy(secretKey) ==>
        && sent == old(sent) + [CollectionRequest]
        && r == CollectionOutcome(response)
        && collectionId == (if r.Success? then Some(r.value) else None)
    {
      if Truthy(collectionId) {
        return Success(collectionId.value);
      }
      if !Truthy(secretKey) {
        return Failure(ConfigurationError(SecretKeyMissing));
      }
      sent := sent + [CollectionRequest];
      r := CollectionOutcome(response);
      if r.Success? {
        collectionId := Some(r.value);
      }
    }

    /** `createBill`: fails before anything is sent when the secret key is
        missing, propagates a failure to obtain the collection, and otherwise
        sends the bill request and validates its response. */
    method CreateBill(secretKey: Option<string>, p: BillParams,
                      collectionResponse: HttpResponse<Collection>, billResponse: HttpResponse<Bill>)
      returns (r: Result<Bill, Error>)
      requires Valid()
      modifies this
      ensures Valid()
      ensures !Truthy(secretKey) ==>
        r == Failure(ConfigurationError(SecretKeyMissing)) && collectionId == old(collectionId) && sent == old(sent)
      ensures Truthy(secretKey) && old(collectionId).Some? ==>
        && collectionId == old(collectionId)
        && sent == old(sent) + [PostBill(BillRequestFor(old(collectionId).value, p))]
        && r == CreatedBillOutcome(billResponse)
      ensures Truthy(secretKey) && old(collectionId).None? && CollectionOutcome(collectionResponse).Failure? ==>
        && collectionId == None
        && sent == old(sent) + [CollectionRequest]
        && r == Failure(CollectionOutcome(collectionResponse).error)
      ensures Truthy(secretKey) && old(collectionId).None? && CollectionOutcome(collectionResponse).Success? ==>
        var id := CollectionOutcome(collectionResponse).value;
        && collectionId == Some(id)
        && sent == old(sent) + [CollectionRequest, PostBill(BillRequestFor(id, p))]
        && r == CreatedBillOutcome(billResponse)
    {
      if !Truthy(secretKey) {
        return Failure(ConfigurationError(SecretKeyMissing));
      }
      var collId := EnsureCollectionExists(secretKey, collectionResponse);
      if collId.Failure? {
        return Failure(collId.error);
      }
      var billData := BuildBillRequest(collId.value, p);
      sent := sent + [PostBill(billData)];
      r := CreatedBillOutcome(billResponse);
    }

    /** `getBill`: fails before anything is sent when the secret key is
        missing; otherwise sends the retrieval request and returns its bill. */
    method GetBill(secretKey: Option<string>, billId: string, response: HttpResponse<Bill>)
      returns (r: Result<Bill, Error>)
      modifies this`sent
      ensures !Truthy(secretKey) ==> r == Failure(ConfigurationError(SecretKeyMissing)) && sent == old(sent)
      ensures Truthy(secretKey) ==> sent == old(sent) + [FetchBill(billId)] && r == FetchedBillOutcome(response)
    {
      if !Truthy(secretKey) {
        return Failure(ConfigurationError(SecretKeyMissing));
      }
      sent := sent + [FetchBill(billId)];
      r := FetchedBillOutcome(response);
    }

    /** `verifyBillPayment`: true exactly when the bill was fetched and is
        settled; every failure to fetch it reads as unpaid. */
    method VerifyBillPayment(secretKey: Option<string>, billId: string, response: HttpResponse<Bill>)
      returns (settled: bool)
      modifies this`sent
      ensures settled <==>
        Truthy(secretKey) && response.Response? && response.ok && response.json.Some? && IsSettled(response.json.value)
      ensures sent == old(sent) + (if Truthy(secretKey) then [FetchBill(billId)] else [])
    {
      var bill := GetBill(secretKey, billId, response);
      settled := bill.Success? && IsSettled(bill.value);
    }
  }

  /** Two bills created one after the other: once the first has succeeded
      the collection is known, so the pair sends at most one creation
      request, and every bill of the pair goes to the same collection. */
  method CreateTwoBills(client: BillplzClient, secretKey: Option<string>,
                        p1: BillParams, collection1: HttpResponse<Collection>, bill1: HttpResponse<Bill>,
                        p2: BillParams, collection2: HttpResponse<Collection>, bill2: HttpResponse<Bill>)
    returns (r1: Result<Bill, Error>, r2: Result<Bill, Error>)
    requires client.Valid()
    modifies client
    ensures client.Valid()
    ensures r1.Success? ==> CollectionRequests(client.sent) <= CollectionRequests(old(client.sent)) + 1
    ensures old(client.collectionId).Some? ==> CollectionRequests(client.sent) == CollectionRequests(old(client.sent))
    ensures forall i, j :: |old(client.sent)| <= i < j < |client.sent| && client.sent[i].PostBill? && client.sent[j].PostBill? ==>
      client.sent[i].bill.collectionId == client.sent[j].bill.collectionId
  {
    ghost var log0 := client.sent;
    r1 := client.CreateBill(secretKey, p1, collection1, bill1);
    ghost var log1 := client.sent;
    r2 := client.CreateBill(secretKey, p2, collection2, bill2);
    CollectionRequestsAppend(log0, log1[|log0|..]);
    assert log1 == log0 + log1[|log0|..];
    CollectionRequestsAppend(log1, client.sent[|log1|..]);
    assert client.sent == log1 + client.sent[|log1|..];
    assert CollectionRequests([CollectionRequest]) == 1;
  }
}
