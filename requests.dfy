/**
 * The field arrays `PaymentnepalService` hands to `_curl`: which keys each
 * API call sends, in which order, with which fixed values, and the `check`
 * signature computed over the fields before it is added to them.
 */
module Requests {
  import opened Wrappers
  import opened PhpStrings
  import opened PhpArray
  import opened Crypto
  import opened Signer
  import opened RequestFields

  const BaseUrl: Bytes := "https://pay.paymentnepal.com/"
  const CardTokenUrl: Bytes := "https://secure.paymentnepal.com/cardtoken/"
  const CardTokenTestUrl: Bytes := "https://test.paymentnepal.com/cardtoken/"

  const GetName: Bytes := "GET"
  const PostName: Bytes := "POST"

  datatype HttpMethod = HttpGet | HttpPost {
    /** The method name `sign` is given. */
    function Name(): Bytes {
      match this
      case HttpGet => GetName
      case HttpPost => PostName
    }
  }

  /** What a call hands to `_curl`: the method, the URL without query, and the fields sent. */
  datatype Request = Request(httpMethod: HttpMethod, url: Bytes, fields: Fields)

  // ---------------------------------------------------------------- signing

  /** `$fields['check'] = $this->sign(...)`: the signature over the fields as they are, then stored under `check`. */
  function SignedFields(prims: Primitives, secret: Bytes, m: HttpMethod, url: Bytes, fields: Fields): Fields {
    Put(fields, CheckKey, Signature(prims, m.Name(), url, fields, secret, false))
  }

  /**
   * The signature covers the fields without `check`, and `check` is added
   * last; no other field changes.
   */
  lemma SignedFieldsShape(prims: Primitives, secret: Bytes, m: HttpMethod, url: Bytes, fields: Fields)
    requires UniqueKeys(fields) && CheckKey !in KeySet(fields)
    ensures SignedFields(prims, secret, m, url, fields)
         == fields + [Entry(CheckKey, Signature(prims, m.Name(), url, fields, secret, false))]
    ensures UniqueKeys(SignedFields(prims, secret, m, url, fields))
    ensures Keys(SignedFields(prims, secret, m, url, fields)) == Keys(fields) + [CheckKey]
  {
    AppendNew(fields, Entry(CheckKey, Signature(prims, m.Name(), url, fields, secret, false)));
  }

  /** Every field but `check` keeps the value it had when the signature was computed. */
  lemma SignedFieldsGet(prims: Primitives, secret: Bytes, m: HttpMethod, url: Bytes, fields: Fields, k: Bytes)
    ensures Get(SignedFields(prims, secret, m, url, fields), k)
         == if k == CheckKey then Some(Signature(prims, m.Name(), url, fields, secret, false)) else Get(fields, k)
  {
    if k != CheckKey {
      PutGetOther(fields, CheckKey, Signature(prims, m.Name(), url, fields, secret, false), k);
    }
  }

  /**
   * A signed literal sends its keys in the order written and then `check`;
   * each written key keeps its value and `check` is the signature over the
   * literal alone.
   */
  lemma SignedLiteral(prims: Primitives, secret: Bytes, m: HttpMethod, url: Bytes, keys: seq<Bytes>, values: seq<Bytes>)
    requires |keys| == |values| && Distinct(keys) && CheckKey !in keys
    ensures var fields := ArrayLiteral(keys, values);
      var signed := SignedFields(prims, secret, m, url, fields);
      UniqueKeys(signed)
      && Keys(signed) == keys + [CheckKey]
      && Get(signed, CheckKey) == Some(Signature(prims, m.Name(), url, fields, secret, false))
      && forall i | 0 <= i < |keys| :: Get(signed, keys[i]) == Some(values[i])
  {
    var fields := ArrayLiteral(keys, values);
    ArrayLiteralShape(keys, values);
    SignedFieldsShape(prims, secret, m, url, fields);
    SignedFieldsGet(prims, secret, m, url, fields, CheckKey);
    forall i | 0 <= i < |keys|
      ensures Get(SignedFields(prims, secret, m, url, fields), keys[i]) == Some(values[i])
    {
      SignedFieldsGet(prims, secret, m, url, fields, keys[i]);
      ArrayLiteralGet(keys, values, i);
    }
  }

  // ------------------------------------------------------------ initPayment

  const InitPaymentUrl: Bytes := BaseUrl + "alba/input/"

  /** The request `initPayment` sends. */
  function InitPaymentRequest(prims: Primitives, svc: Service, payType: Bytes, cost: Bytes, name: Bytes, email: Bytes, phone: Bytes,
                              orderId: Option<Bytes>, commission: Bytes, cardToken: Option<Bytes>,
                              recurrent: Option<RecurrentParams>): Request
  {
    var fields := InitPaymentFields(svc, payType, cost, name, email, phone, orderId, commission, cardToken, recurrent);
    Request(HttpPost, InitPaymentUrl, SignedFields(prims, svc.secret, HttpPost, InitPaymentUrl, fields))
  }

  /**
   * `initPayment`, up to the call to `_curl`. The optional arguments default
   * as in PHP: no order id, the `partner` commission, no card token and no
   * recurrent fields.
   */
  method InitPayment(prims: Primitives, svc: Service, payType: Bytes, cost: Bytes, name: Bytes, email: Bytes, phone: Bytes,
                     orderId: Option<Bytes> := None, commission: Bytes := DefaultCommission,
                     cardToken: Option<Bytes> := None, recurrent: Option<RecurrentParams> := None)
    returns (request: Request)
    ensures request == InitPaymentRequest(prims, svc, payType, cost, name, email, phone, orderId, commission, cardToken, recurrent)
  {
    var fields := ArrayLiteral(InitPaymentBaseKeys, [cost, name, email, phone, "1", commission, payType, svc.serviceId, ApiVersion]);
    InitPaymentOwnByPuts(svc, payType, cost, name, email, phone, orderId, commission, cardToken);
    if orderId.Some? {
      fields := Put(fields, "order_id", orderId.value);
    }
    if cardToken.Some? {
      fields := Put(fields, "card_token", cardToken.value);
    }
    if recurrent.Some? {
      fields := Merge(fields, recurrent.value.fields);
    }
    var url := InitPaymentUrl;
    var check := Sign(prims, HttpPost.Name(), url, fields, svc.secret);
    fields := Put(fields, CheckKey, check);
    request := Request(HttpPost, url, fields);
  }

  /**
   * A payment whose recurrent fields keep clear of its own keys sends exactly
   * these keys, in this order: the nine base keys, `order_id` and
   * `card_token` when given, the recurrent keys, and `check` last, the
   * signature over all the others, which reach the request unchanged.
   */
  lemma InitPaymentKeys(prims: Primitives, svc: Service, payType: Bytes, cost: Bytes, name: Bytes, email: Bytes, phone: Bytes,
                        orderId: Option<Bytes>, commission: Bytes, cardToken: Option<Bytes>,
                        recurrent: Option<RecurrentParams>)
    requires RecurrentFits(recurrent)
    ensures var fields := InitPaymentFields(svc, payType, cost, name, email, phone, orderId, commission, cardToken, recurrent);
      var r := InitPaymentRequest(prims, svc, payType, cost, name, email, phone, orderId, commission, cardToken, recurrent);
      r.httpMethod == HttpPost && r.url == InitPaymentUrl
      && UniqueKeys(r.fields)
      && Keys(r.fields) == InitPaymentBaseKeys + OptionalKey("order_id", orderId) + OptionalKey("card_token", cardToken)
                           + RecurrentKeys(recurrent) + [CheckKey]
      && r.fields == fields + [Entry(CheckKey, Signature(prims, PostName, InitPaymentUrl, fields, svc.secret, false))]
  {
    var fields := InitPaymentFields(svc, payType, cost, name, email, phone, orderId, commission, cardToken, recurrent);
    InitPaymentFieldsKeys(svc, payType, cost, name, email, phone, orderId, commission, cardToken, recurrent);
    SignedFieldsShape(prims, svc.secret, HttpPost, InitPaymentUrl, fields);
  }

  // ------------------------------------------------------- transactionDetails

  const TransactionDetailsUrl: Bytes := BaseUrl + "alba/details/"
  const TransactionDetailsKeys: seq<Bytes> := ["tid", "version"]

  /** The request `transactionDetails($tid)` sends. */
  function TransactionDetailsRequest(prims: Primitives, svc: Service, tid: Bytes): Request {
    var fields := ArrayLiteral(TransactionDetailsKeys, [tid, ApiVersion]);
    Request(HttpPost, TransactionDetailsUrl, SignedFields(prims, svc.secret, HttpPost, TransactionDetailsUrl, fields))
  }

  /** A details query sends `tid`, `version` = `2.0`, and the `check` over those two. */
  lemma TransactionDetailsShape(prims: Primitives, svc: Service, tid: Bytes)
    ensures var r := TransactionDetailsRequest(prims, svc, tid);
      r.httpMethod == HttpPost && r.url == TransactionDetailsUrl
      && UniqueKeys(r.fields) && Keys(r.fields) == ["tid", "version", CheckKey]
      && Get(r.fields, "tid") == Some(tid) && Get(r.fields, "version") == Some(ApiVersion)
      && Get(r.fields, CheckKey)
         == Some(Signature(prims, PostName, TransactionDetailsUrl, ArrayLiteral(TransactionDetailsKeys, [tid, ApiVersion]), svc.secret, false))
  {
    var values := [tid, ApiVersion];
    assert Distinct(TransactionDetailsKeys) && CheckKey !in TransactionDetailsKeys;
    SignedLiteral(prims, svc.secret, HttpPost, TransactionDetailsUrl, TransactionDetailsKeys, values);
    var signed := SignedFields(prims, svc.secret, HttpPost, TransactionDetailsUrl, ArrayLiteral(TransactionDetailsKeys, values));
    assert Get(signed, TransactionDetailsKeys[0]) == Some(values[0]);
    assert Get(signed, TransactionDetailsKeys[1]) == Some(values[1]);
  }

  /** `transactionDetails`, up to the call to `_curl`. */
  method TransactionDetails(prims: Primitives, svc: Service, tid: Bytes) returns (request: Request)
    ensures request == TransactionDetailsRequest(prims, svc, tid)
  {
    var url := TransactionDetailsUrl;
    var fields := ArrayLiteral(TransactionDetailsKeys, [tid, ApiVersion]);
    var check := Sign(prims, HttpPost.Name(), url, fields, svc.secret);
    fields := Put(fields, CheckKey, check);
    request := Request(HttpPost, url, fields);
  }

  // ------------------------------------------------------------------ refund

  const RefundUrl: Bytes := BaseUrl + "alba/refund/"
  function RefundRequest(prims: Primitives, svc: Service, tid: Bytes, amount: Option<Bytes>, test: bool, reason: Option<Bytes>): Request {
    Request(HttpPost, RefundUrl, SignedFields(prims, svc.secret, HttpPost, RefundUrl, RefundFields(tid, amount, test, reason)))
  }

  /**
   * A refund always sends `version` and `tid`; `amount` and `reason` only
   * when given and neither empty nor `"0"`; `test` = `1` only for a test;
   * and `check` last, over all the others.
   */
  lemma RefundShape(prims: Primitives, svc: Service, tid: Bytes, amount: Option<Bytes>, test: bool, reason: Option<Bytes>)
    ensures var fields := RefundFields(tid, amount, test, reason);
      var r := RefundRequest(prims, svc, tid, amount, test, reason);
      r.httpMethod == HttpPost && r.url == RefundUrl
      && UniqueKeys(r.fields)
      && Keys(r.fields) == RefundBaseKeys + OptionalKey("amount", IfTruthy(amount)) + OptionalKey("test", TestFlag(test))
                           + OptionalKey("reason", IfTruthy(reason)) + [CheckKey]
      && Get(r.fields, "amount") == IfTruthy(amount)
      && Get(r.fields, "test") == TestFlag(test)
      && Get(r.fields, "reason") == IfTruthy(reason)
      && Get(r.fields, CheckKey) == Some(Signature(prims, PostName, RefundUrl, fields, svc.secret, false))
  {
    var fields := RefundFields(tid, amount, test, reason);
    RefundFieldsKeys(tid, amount, test, reason);
    RefundFieldsValues(tid, amount, test, reason);
    SignedFieldsShape(prims, svc.secret, HttpPost, RefundUrl, fields);
    SignedFieldsGet(prims, svc.secret, HttpPost, RefundUrl, fields, "amount");
    SignedFieldsGet(prims, svc.secret, HttpPost, RefundUrl, fields, "test");
    SignedFieldsGet(prims, svc.secret, HttpPost, RefundUrl, fields, "reason");
    SignedFieldsGet(prims, svc.secret, HttpPost, RefundUrl, fields, CheckKey);
  }

  /** `refund`, up to the call to `_curl`. */
  method Refund(prims: Primitives, svc: Service, tid: Bytes,
                amount: Option<Bytes> := None, test: bool := false, reason: Option<Bytes> := None)
    returns (request: Request)
    ensures request == RefundRequest(prims, svc, tid, amount, test, reason)
  {
    var url := RefundUrl;
    var fields := ArrayLiteral(RefundBaseKeys, [ApiVersion, tid]);
    RefundByPuts(tid, amount, test, reason);
    if amount.Some? && Truthy(amount.value) {
      fields := Put(fields, "amount", amount.value);
    }
    if test {
      fields := Put(fields, "test", "1");
    }
    if reason.Some? && Truthy(reason.value) {
      fields := Put(fields, "reason", reason.value);
    }
    var check := Sign(prims, HttpPost.Name(), url, fields, svc.secret);
    fields := Put(fields, CheckKey, check);
    request := Request(HttpPost, url, fields);
  }

  // ------------------------------------------------------------- gateDetails

  const GateDetailsUrl: Bytes := BaseUrl + "alba/gate_details/"
  const GateDetailsKeys: seq<Bytes> := ["version", "gate", "service_id"]

  /** The request `gateDetails($gate)` sends: a GET whose query carries these fields. */
  function GateDetailsRequest(prims: Primitives, svc: Service, gate: Bytes): Request {
    var fields := ArrayLiteral(GateDetailsKeys, [ApiVersion, gate, svc.serviceId]);
    Request(HttpGet, GateDetailsUrl, SignedFields(prims, svc.secret, HttpGet, GateDetailsUrl, fields))
  }

  /**
   * A gate query is a GET carrying `version` = `2.0`, the gate, the
   * service's id and the `check` over those three, signed as a GET.
   */
  lemma GateDetailsShape(prims: Primitives, svc: Service, gate: Bytes)
    ensures var r := GateDetailsRequest(prims, svc, gate);
      r.httpMethod == HttpGet && r.url == GateDetailsUrl
      && UniqueKeys(r.fields) && Keys(r.fields) == ["version", "gate", "service_id", CheckKey]
      && Get(r.fields, "version") == Some(ApiVersion) && Get(r.fields, "gate") == Some(gate)
      && Get(r.fields, "service_id") == Some(svc.serviceId)
      && Get(r.fields, CheckKey)
         == Some(Signature(prims, GetName, GateDetailsUrl, ArrayLiteral(GateDetailsKeys, [ApiVersion, gate, svc.serviceId]), svc.secret, false))
  {
    var values := [ApiVersion, gate, svc.serviceId];
    assert Distinct(GateDetailsKeys) && CheckKey !in GateDetailsKeys;
    SignedLiteral(prims, svc.secret, HttpGet, GateDetailsUrl, GateDetailsKeys, values);
    var signed := SignedFields(prims, svc.secret, HttpGet, GateDetailsUrl, ArrayLiteral(GateDetailsKeys, values));
    assert Get(signed, GateDetailsKeys[0]) == Some(values[0]);
    assert Get(signed, GateDetailsKeys[1]) == Some(values[1]);
    assert Get(signed, GateDetailsKeys[2]) == Some(values[2]);
  }

  /** `gateDetails`, up to the call to `_curl`. */
  method GateDetails(prims: Primitives, svc: Service, gate: Bytes) returns (request: Request)
    ensures request == GateDetailsRequest(prims, svc, gate)
  {
    var url := GateDetailsUrl;
    var fields := ArrayLiteral(GateDetailsKeys, [ApiVersion, gate, svc.serviceId]);
    var check := Sign(prims, HttpGet.Name(), url, fields, svc.secret);
    fields := Put(fields, CheckKey, check);
    request := Request(HttpGet, url, fields);
  }

  // --------------------------------------------------------- createCardToken

  /** The card-token endpoint: the test host for a test token, the secure host otherwise. */
  function CardTokenEndpoint(test: bool): Bytes {
    (if test then CardTokenTestUrl else CardTokenUrl) + "create"
  }

  function CardTokenRequest(svc: Service, card: Bytes, expMonth: Bytes, expYear: Bytes, cvc: Bytes, test: bool, cardHolder: Option<Bytes>): Request {
    Request(HttpPost, CardTokenEndpoint(test), CardTokenFields(svc, card, expMonth, expYear, cvc, cardHolder))
  }

  /** The two card-token hosts differ, so the endpoint says whether the token is a test one. */
  lemma CardTokenEndpointTest(test: bool)
    ensures CardTokenEndpoint(test) == CardTokenTestUrl + "create" <==> test
  {
    if !test {
      assert CardTokenUrl[8] != CardTokenTestUrl[8];
      assert (CardTokenUrl + "create")[8] == CardTokenUrl[8];
      assert (CardTokenTestUrl + "create")[8] == CardTokenTestUrl[8];
    }
  }

  /**
   * A card-token request is a POST that goes to the test host exactly for a
   * test token and carries the card-token fields, unsigned.
   */
  lemma CardTokenShape(svc: Service, card: Bytes, expMonth: Bytes, expYear: Bytes, cvc: Bytes, test: bool, cardHolder: Option<Bytes>)
    ensures var r := CardTokenRequest(svc, card, expMonth, expYear, cvc, test, cardHolder);
      r.httpMethod == HttpPost
      && (r.url == CardTokenTestUrl + "create" <==> test)
      && UniqueKeys(r.fields)
      && Keys(r.fields) == CardTokenBaseKeys + OptionalKey("card_holder", IfTruthy(cardHolder))
      && CheckKey !in KeySet(r.fields)
  {
    CardTokenFieldsKeys(svc, card, expMonth, expYear, cvc, cardHolder);
    CardTokenEndpointTest(test);
  }

  /** `createCardToken`, up to the call to `_curl`. */
  method CreateCardToken(svc: Service, card: Bytes, expMonth: Bytes, expYear: Bytes, cvc: Bytes, test: bool,
                         cardHolder: Option<Bytes> := None)
    returns (request: Request)
    ensures request == CardTokenRequest(svc, card, expMonth, expYear, cvc, test, cardHolder)
  {
    var month := ZeroPad2(expMonth);
    var fields := ArrayLiteral(CardTokenBaseKeys, [svc.serviceId, card, month, expYear, cvc]);
    CardTokenByPuts(svc, card, expMonth, expYear, cvc, cardHolder);
    if cardHolder.Some? && Truthy(cardHolder.value) {
      fields := Put(fields, "card_holder", cardHolder.value);
    }
    var baseUrl := if test then CardTokenTestUrl else CardTokenUrl;
    request := Request(HttpPost, baseUrl + "create", fields);
  }
}
