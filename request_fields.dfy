/**
 * The field arrays `PaymentnepalService` builds before signing: which keys
 * each API call sets, in which order, with which fixed values, and how the
 * optional parameters and the recurrent fields join them.
 */
module RequestFields {
  import opened Wrappers
  import opened PhpStrings
  import opened PhpArray

  /** The API version every signed call declares. */
  const ApiVersion: Bytes := "2.0"

  /** The key the signature travels under. */
  const CheckKey: Bytes := "check"

  /** A `PaymentnepalService`: its service id (the decimal text PHP interpolates) and its secret key. */
  datatype Service = Service(serviceId: Bytes, secret: Bytes)

  /** A one-pair array when the value is given (`!== False`), the empty array otherwise. */
  function OptionalEntry(key: Bytes, v: Option<Bytes>): Fields {
    if v.Some? then [Entry(key, v.value)] else []
  }

  function OptionalKey(key: Bytes, v: Option<Bytes>): seq<Bytes> {
    if v.Some? then [key] else []
  }

  /** The value if PHP deems it true (`if ($v)`), `None` (False) otherwise. */
  function IfTruthy(v: Option<Bytes>): (r: Option<Bytes>)
    ensures r.Some? <==> v.Some? && Truthy(v.value)
    ensures r.Some? ==> r == v
  {
    if v.Some? && Truthy(v.value) then v else None
  }

  /**
   * `if (given) $fields[key] = value;` on an array that lacks the key: the
   * pair goes last when the value is given, and the array is unchanged
   * otherwise.
   */
  lemma PutOptional(f: Fields, key: Bytes, v: Option<Bytes>)
    requires key !in KeySet(f)
    ensures (if v.Some? then Put(f, key, v.value) else f) == f + OptionalEntry(key, v)
  {
    if v.Some? {
      PutNewKey(f, key, v.value);
    } else {
      assert f + [] == f;
    }
  }

  /** An optional pair with a new key keeps the keys unique and adds its key last, when given. */
  lemma AppendOptional(f: Fields, key: Bytes, v: Option<Bytes>)
    requires UniqueKeys(f) && key !in KeySet(f)
    ensures UniqueKeys(f + OptionalEntry(key, v))
    ensures Keys(f + OptionalEntry(key, v)) == Keys(f) + OptionalKey(key, v)
  {
    if v.Some? {
      AppendNew(f, Entry(key, v.value));
    } else {
      assert f + [] == f;
    }
  }

  /** Looking the optional key up gives the value when given, nothing otherwise. */
  lemma GetOptional(f: Fields, key: Bytes, v: Option<Bytes>)
    requires key !in KeySet(f)
    ensures Get(f + OptionalEntry(key, v), key) == v
  {
    GetAppend(f, OptionalEntry(key, v), key);
  }

  /** A lookup of any other key is not affected by an optional pair. */
  lemma GetPastOptional(f: Fields, key: Bytes, v: Option<Bytes>, k: Bytes)
    requires k != key
    ensures Get(f + OptionalEntry(key, v), k) == Get(f, k)
  {
    GetAppend(f, OptionalEntry(key, v), k);
  }

  /** An optional pair adds its key to the key set when the value is given. */
  lemma KeySetPastOptional(f: Fields, key: Bytes, v: Option<Bytes>, k: Bytes)
    ensures k in KeySet(f + OptionalEntry(key, v)) <==> k in KeySet(f) || (v.Some? && k == key)
  {
    KeySetAppend(f, OptionalEntry(key, v));
  }

  /** Two optional pairs with new, different keys: still no key twice, and their keys last, each when given. */
  lemma TwoOptionalKeys(b: Fields, k1: Bytes, v1: Option<Bytes>, k2: Bytes, v2: Option<Bytes>)
    requires UniqueKeys(b) && k1 !in KeySet(b) && k2 !in KeySet(b) && k1 != k2
    ensures UniqueKeys(b + OptionalEntry(k1, v1) + OptionalEntry(k2, v2))
    ensures Keys(b + OptionalEntry(k1, v1) + OptionalEntry(k2, v2)) == Keys(b) + OptionalKey(k1, v1) + OptionalKey(k2, v2)
  {
    AppendOptional(b, k1, v1);
    KeySetPastOptional(b, k1, v1, k2);
    AppendOptional(b + OptionalEntry(k1, v1), k2, v2);
  }

  /** Two optional pairs add no key but their own. */
  lemma TwoOptionalKeySet(b: Fields, k1: Bytes, v1: Option<Bytes>, k2: Bytes, v2: Option<Bytes>, k: Bytes)
    ensures k in KeySet(b + OptionalEntry(k1, v1) + OptionalEntry(k2, v2)) ==> k in KeySet(b) || k == k1 || k == k2
  {
    KeySetPastOptional(b + OptionalEntry(k1, v1), k2, v2, k);
    KeySetPastOptional(b, k1, v1, k);
  }

  /** Two optional pairs with new, different keys: their keys look up their values, every other key what it did. */
  lemma TwoOptionalGet(b: Fields, k1: Bytes, v1: Option<Bytes>, k2: Bytes, v2: Option<Bytes>, k: Bytes)
    requires k1 !in KeySet(b) && k2 !in KeySet(b) && k1 != k2
    ensures Get(b + OptionalEntry(k1, v1) + OptionalEntry(k2, v2), k)
      == if k == k1 then v1 else if k == k2 then v2 else Get(b, k)
  {
    GetAppend(b, OptionalEntry(k1, v1), k);
    KeySetPastOptional(b, k1, v1, k2);
    GetAppend(b + OptionalEntry(k1, v1), OptionalEntry(k2, v2), k);
  }

  /** Two conditional assignments of new, different keys are the two optional pairs appended. */
  lemma TwoOptionalPuts(b: Fields, k1: Bytes, v1: Option<Bytes>, k2: Bytes, v2: Option<Bytes>)
    requires k1 !in KeySet(b) && k2 !in KeySet(b) && k1 != k2
    ensures var b1 := if v1.Some? then Put(b, k1, v1.value) else b;
      (if v2.Some? then Put(b1, k2, v2.value) else b1)
      == b + OptionalEntry(k1, v1) + OptionalEntry(k2, v2)
  {
    PutOptional(b, k1, v1);
    KeySetPastOptional(b, k1, v1, k2);
    PutOptional(b + OptionalEntry(k1, v1), k2, v2);
  }

  // ------------------------------------------------------- recurrent params

  /** `RecurrentParams`: the extra fields a recurring payment merges into `initPayment`. */
  datatype RecurrentParams = RecurrentParams(fields: Fields)

  const FirstPayKeys: seq<Bytes> := ["recurrent_type", "recurrent_comment", "recurrent_url", "recurrent_period"]
  const NextPayKeys: seq<Bytes> := ["recurrent_type", "recurrent_order_id"]

  /** `RecurrentParams::first_pay($url, $comment)`. */
  function FirstPay(url: Bytes, comment: Bytes): RecurrentParams {
    RecurrentParams(ArrayLiteral(FirstPayKeys, ["first", comment, url, "byrequest"]))
  }

  /** `RecurrentParams::next_pay($order_id)`. */
  function NextPay(orderId: Bytes): RecurrentParams {
    RecurrentParams(ArrayLiteral(NextPayKeys, ["next", orderId]))
  }

  /** The first payment of a series carries exactly four keys: type `first`, the comment, the URL and period `byrequest`. */
  lemma FirstPayShape(url: Bytes, comment: Bytes)
    ensures var f := FirstPay(url, comment).fields;
      UniqueKeys(f)
      && Keys(f) == ["recurrent_type", "recurrent_comment", "recurrent_url", "recurrent_period"]
      && (forall k :: k in KeySet(f) <==> k in FirstPayKeys)
      && Get(f, "recurrent_type") == Some("first")
      && Get(f, "recurrent_comment") == Some(comment)
      && Get(f, "recurrent_url") == Some(url)
      && Get(f, "recurrent_period") == Some("byrequest")
  {
    var values: seq<Bytes> := ["first", comment, url, "byrequest"];
    RecurrentKeyNames();
    ArrayLiteralShape(FirstPayKeys, values);
    ArrayLiteralGet(FirstPayKeys, values, 0);
    ArrayLiteralGet(FirstPayKeys, values, 1);
    ArrayLiteralGet(FirstPayKeys, values, 2);
    ArrayLiteralGet(FirstPayKeys, values, 3);
  }

  lemma FirstPayKeySet(url: Bytes, comment: Bytes)
    ensures var f := FirstPay(url, comment).fields;
      UniqueKeys(f) && forall k :: k in KeySet(f) <==> k in FirstPayKeys
  {
    RecurrentKeyNames();
    ArrayLiteralShape(FirstPayKeys, ["first", comment, url, "byrequest"]);
  }

  lemma NextPayKeySet(orderId: Bytes)
    ensures var f := NextPay(orderId).fields;
      UniqueKeys(f) && forall k :: k in KeySet(f) <==> k in NextPayKeys
  {
    RecurrentKeyNames();
    ArrayLiteralShape(NextPayKeys, ["next", orderId]);
  }

  /** A follow-up payment carries exactly two keys: type `next` and the order id of the first one. */
  lemma NextPayShape(orderId: Bytes)
    ensures var f := NextPay(orderId).fields;
      UniqueKeys(f)
      && Keys(f) == ["recurrent_type", "recurrent_order_id"]
      && (forall k :: k in KeySet(f) <==> k in NextPayKeys)
      && Get(f, "recurrent_type") == Some("next")
      && Get(f, "recurrent_order_id") == Some(orderId)
  {
    var values: seq<Bytes> := ["next", orderId];
    RecurrentKeyNames();
    ArrayLiteralShape(NextPayKeys, values);
    ArrayLiteralGet(NextPayKeys, values, 0);
    ArrayLiteralGet(NextPayKeys, values, 1);
  }

  // ------------------------------------------------------------ initPayment

  const InitPaymentBaseKeys: seq<Bytes> :=
    ["cost", "name", "email", "phone_number", "background", "commission", "type", "service_id", "version"]

  /** The commission `initPayment` sends when its caller names none. */
  const DefaultCommission: Bytes := "partner"

  /** The keys `initPayment` sets itself. */
  const InitPaymentOwnKeys: seq<Bytes> := InitPaymentBaseKeys + ["order_id", "card_token", CheckKey]

  /** The base keys are all different, and `order_id`, `card_token` and `check` are none of them nor each other. */
  lemma OwnKeyNames()
    ensures Distinct(InitPaymentBaseKeys)
    ensures "order_id" !in InitPaymentBaseKeys && "card_token" !in InitPaymentBaseKeys && CheckKey !in InitPaymentBaseKeys
    ensures "order_id" != "card_token" && "order_id" != CheckKey && "card_token" != CheckKey
  {
  }

  /** No recurrent key is one of the payment's own keys. */
  lemma RecurrentKeyNames()
    ensures Distinct(FirstPayKeys) && Distinct(NextPayKeys)
    ensures forall k | k in FirstPayKeys :: k !in InitPaymentOwnKeys
    ensures forall k | k in NextPayKeys :: k !in InitPaymentOwnKeys
    ensures "recurrent_comment" !in InitPaymentOwnKeys && "recurrent_comment" !in NextPayKeys
    ensures "recurrent_url" !in InitPaymentOwnKeys && "recurrent_url" !in NextPayKeys
  {
  }

  /** The nine fields every payment starts from. */
  function InitPaymentBase(svc: Service, payType: Bytes, cost: Bytes, name: Bytes, email: Bytes, phone: Bytes, commission: Bytes): Fields {
    ArrayLiteral(InitPaymentBaseKeys, [cost, name, email, phone, "1", commission, payType, svc.serviceId, ApiVersion])
  }

  /** The base and the optional `order_id` and `card_token`, before any recurrent fields. */
  function InitPaymentOwn(svc: Service, payType: Bytes, cost: Bytes, name: Bytes, email: Bytes, phone: Bytes,
                          orderId: Option<Bytes>, commission: Bytes, cardToken: Option<Bytes>): Fields {
    InitPaymentBase(svc, payType, cost, name, email, phone, commission)
      + OptionalEntry("order_id", orderId) + OptionalEntry("card_token", cardToken)
  }

  /** The fields `initPayment` signs: its own fields with the recurrent fields merged in. */
  function InitPaymentFields(svc: Service, payType: Bytes, cost: Bytes, name: Bytes, email: Bytes, phone: Bytes,
                             orderId: Option<Bytes>, commission: Bytes, cardToken: Option<Bytes>,
                             recurrent: Option<RecurrentParams>): Fields
  {
    var own := InitPaymentOwn(svc, payType, cost, name, email, phone, orderId, commission, cardToken);
    if recurrent.Some? then Merge(own, recurrent.value.fields) else own
  }

  /**
   * Every payment starts from the nine base keys, in this order, with
   * `background` = `1`, `version` = `2.0`, the service's id, and the amount,
   * name, contact details, commission and type it was given.
   */
  lemma InitPaymentBaseShape(svc: Service, payType: Bytes, cost: Bytes, name: Bytes, email: Bytes, phone: Bytes, commission: Bytes)
    ensures var b := InitPaymentBase(svc, payType, cost, name, email, phone, commission);
      UniqueKeys(b) && Keys(b) == InitPaymentBaseKeys
      && (forall k :: k in KeySet(b) <==> k in InitPaymentBaseKeys)
      && Get(b, "cost") == Some(cost) && Get(b, "name") == Some(name) && Get(b, "email") == Some(email)
      && Get(b, "phone_number") == Some(phone) && Get(b, "background") == Some("1")
      && Get(b, "commission") == Some(commission) && Get(b, "type") == Some(payType)
      && Get(b, "service_id") == Some(svc.serviceId) && Get(b, "version") == Some(ApiVersion)
  {
    var values := [cost, name, email, phone, "1", commission, payType, svc.serviceId, ApiVersion];
    OwnKeyNames();
    ArrayLiteralShape(InitPaymentBaseKeys, values);
    ArrayLiteralGet(InitPaymentBaseKeys, values, 0);
    ArrayLiteralGet(InitPaymentBaseKeys, values, 1);
    ArrayLiteralGet(InitPaymentBaseKeys, values, 2);
    ArrayLiteralGet(InitPaymentBaseKeys, values, 3);
    ArrayLiteralGet(InitPaymentBaseKeys, values, 4);
    ArrayLiteralGet(InitPaymentBaseKeys, values, 5);
    ArrayLiteralGet(InitPaymentBaseKeys, values, 6);
    ArrayLiteralGet(InitPaymentBaseKeys, values, 7);
    ArrayLiteralGet(InitPaymentBaseKeys, values, 8);
  }

  lemma InitPaymentBaseKeySet(svc: Service, payType: Bytes, cost: Bytes, name: Bytes, email: Bytes, phone: Bytes, commission: Bytes)
    ensures var b := InitPaymentBase(svc, payType, cost, name, email, phone, commission);
      UniqueKeys(b) && Keys(b) == InitPaymentBaseKeys
      && forall k :: k in KeySet(b) <==> k in InitPaymentBaseKeys
  {
    OwnKeyNames();
    ArrayLiteralShape(InitPaymentBaseKeys, [cost, name, email, phone, "1", commission, payType, svc.serviceId, ApiVersion]);
  }

  /**
   * `order_id` and `card_token` appended, each when given, to an array
   * holding just the base keys: no key twice, and never `check`.
   */
  lemma OwnKeysFrom(b: Fields, orderId: Option<Bytes>, cardToken: Option<Bytes>)
    requires UniqueKeys(b) && forall k :: k in KeySet(b) <==> k in InitPaymentBaseKeys
    ensures var own := b + OptionalEntry("order_id", orderId) + OptionalEntry("card_token", cardToken);
      UniqueKeys(own)
      && Keys(own) == Keys(b) + OptionalKey("order_id", orderId) + OptionalKey("card_token", cardToken)
      && (forall k | k in KeySet(own) :: k in InitPaymentOwnKeys && k != CheckKey)
  {
    OwnKeyNames();
    TwoOptionalKeys(b, "order_id", orderId, "card_token", cardToken);
    forall k | k in KeySet(b + OptionalEntry("order_id", orderId) + OptionalEntry("card_token", cardToken))
      ensures k in InitPaymentOwnKeys && k != CheckKey
    {
      TwoOptionalKeySet(b, "order_id", orderId, "card_token", cardToken, k);
    }
  }

  /** The same appends leave every base key's value alone. */
  lemma OwnValuesFrom(b: Fields, orderId: Option<Bytes>, cardToken: Option<Bytes>, k: Bytes)
    requires forall k :: k in KeySet(b) <==> k in InitPaymentBaseKeys
    ensures Get(b + OptionalEntry("order_id", orderId) + OptionalEntry("card_token", cardToken), k)
      == if k == "order_id" then orderId else if k == "card_token" then cardToken else Get(b, k)
  {
    OwnKeyNames();
    TwoOptionalGet(b, "order_id", orderId, "card_token", cardToken, k);
  }

  /**
   * Its own fields: the base keys, then `order_id` and `card_token` each
   * when given, none of them twice, and never `check`.
   */
  lemma InitPaymentOwnShape(svc: Service, payType: Bytes, cost: Bytes, name: Bytes, email: Bytes, phone: Bytes,
                            orderId: Option<Bytes>, commission: Bytes, cardToken: Option<Bytes>)
    ensures var own := InitPaymentOwn(svc, payType, cost, name, email, phone, orderId, commission, cardToken);
      UniqueKeys(own)
      && Keys(own) == InitPaymentBaseKeys + OptionalKey("order_id", orderId) + OptionalKey("card_token", cardToken)
      && (forall k | k in KeySet(own) :: k in InitPaymentOwnKeys && k != CheckKey)
  {
    InitPaymentBaseKeySet(svc, payType, cost, name, email, phone, commission);
    OwnKeysFrom(InitPaymentBase(svc, payType, cost, name, email, phone, commission), orderId, cardToken);
  }

  /** The values of its own fields. */
  lemma InitPaymentOwnValues(svc: Service, payType: Bytes, cost: Bytes, name: Bytes, email: Bytes, phone: Bytes,
                             orderId: Option<Bytes>, commission: Bytes, cardToken: Option<Bytes>, k: Bytes)
    ensures var own := InitPaymentOwn(svc, payType, cost, name, email, phone, orderId, commission, cardToken);
      Get(own, k) == if k == "order_id" then orderId else if k == "card_token" then cardToken
                     else Get(InitPaymentBase(svc, payType, cost, name, email, phone, commission), k)
  {
    InitPaymentBaseKeySet(svc, payType, cost, name, email, phone, commission);
    OwnValuesFrom(InitPaymentBase(svc, payType, cost, name, email, phone, commission), orderId, cardToken, k);
  }

  /**
   * `initPayment`'s own steps: `$fields['order_id'] = ...` and
   * `$fields['card_token'] = ...` on the base, each only when given, build
   * exactly its own fields.
   */
  lemma InitPaymentOwnByPuts(svc: Service, payType: Bytes, cost: Bytes, name: Bytes, email: Bytes, phone: Bytes,
                             orderId: Option<Bytes>, commission: Bytes, cardToken: Option<Bytes>)
    ensures var b := InitPaymentBase(svc, payType, cost, name, email, phone, commission);
      var b1 := if orderId.Some? then Put(b, "order_id", orderId.value) else b;
      (if cardToken.Some? then Put(b1, "card_token", cardToken.value) else b1)
      == InitPaymentOwn(svc, payType, cost, name, email, phone, orderId, commission, cardToken)
  {
    InitPaymentBaseKeySet(svc, payType, cost, name, email, phone, commission);
    OwnByPutsFrom(InitPaymentBase(svc, payType, cost, name, email, phone, commission), orderId, cardToken);
  }

  lemma OwnByPutsFrom(b: Fields, orderId: Option<Bytes>, cardToken: Option<Bytes>)
    requires forall k :: k in KeySet(b) <==> k in InitPaymentBaseKeys
    ensures var b1 := if orderId.Some? then Put(b, "order_id", orderId.value) else b;
      (if cardToken.Some? then Put(b1, "card_token", cardToken.value) else b1)
      == b + OptionalEntry("order_id", orderId) + OptionalEntry("card_token", cardToken)
  {
    OwnKeyNames();
    TwoOptionalPuts(b, "order_id", orderId, "card_token", cardToken);
  }

  /** Recurrent fields without repeated keys that keep clear of the keys `initPayment` sets itself. */
  ghost predicate RecurrentFits(recurrent: Option<RecurrentParams>) {
    recurrent.Some? ==>
      UniqueKeys(recurrent.value.fields)
      && forall k | k in KeySet(recurrent.value.fields) :: k !in InitPaymentOwnKeys
  }

  function RecurrentKeys(recurrent: Option<RecurrentParams>): seq<Bytes> {
    if recurrent.Some? then Keys(recurrent.value.fields) else []
  }

  /** `first_pay` and `next_pay` both keep clear of the payment's own keys. */
  lemma RecurrentParamsFit(url: Bytes, comment: Bytes, orderId: Bytes)
    ensures RecurrentFits(Some(FirstPay(url, comment)))
    ensures RecurrentFits(Some(NextPay(orderId)))
  {
    RecurrentKeyNames();
    FirstPayKeySet(url, comment);
    NextPayKeySet(orderId);
  }

  /**
   * With recurrent fields that keep clear of its own keys, a payment signs
   * exactly these keys, in this order: the nine base keys, `order_id` and
   * `card_token` when given, then the recurrent keys; never `check`.
   */
  lemma InitPaymentFieldsKeys(svc: Service, payType: Bytes, cost: Bytes, name: Bytes, email: Bytes, phone: Bytes,
                             orderId: Option<Bytes>, commission: Bytes, cardToken: Option<Bytes>,
                             recurrent: Option<RecurrentParams>)
    requires RecurrentFits(recurrent)
    ensures var fields := InitPaymentFields(svc, payType, cost, name, email, phone, orderId, commission, cardToken, recurrent);
      UniqueKeys(fields) && CheckKey !in KeySet(fields)
      && Keys(fields) == InitPaymentBaseKeys + OptionalKey("order_id", orderId) + OptionalKey("card_token", cardToken)
                         + RecurrentKeys(recurrent)
  {
    var own := InitPaymentOwn(svc, payType, cost, name, email, phone, orderId, commission, cardToken);
    InitPaymentOwnShape(svc, payType, cost, name, email, phone, orderId, commission, cardToken);
    if recurrent.Some? {
      var rec := recurrent.value.fields;
      assert KeySet(own) !! KeySet(rec);
      MergeShape(own, rec);
      KeysAppend(own, rec);
      KeySetAppend(own, rec);
      UniqueAppend(own, rec);
      assert CheckKey in InitPaymentOwnKeys;
    }
  }

  /**
   * What each signed field holds: a recurrent field wins over the payment's
   * own field of the same name (`array_merge`), and every other field keeps
   * its own value.
   */
  lemma InitPaymentFieldsGet(svc: Service, payType: Bytes, cost: Bytes, name: Bytes, email: Bytes, phone: Bytes,
                             orderId: Option<Bytes>, commission: Bytes, cardToken: Option<Bytes>,
                             recurrent: Option<RecurrentParams>, k: Bytes)
    requires recurrent.Some? ==> UniqueKeys(recurrent.value.fields)
    ensures Get(InitPaymentFields(svc, payType, cost, name, email, phone, orderId, commission, cardToken, recurrent), k)
      == if recurrent.Some? && k in KeySet(recurrent.value.fields) then Get(recurrent.value.fields, k)
         else if k == "order_id" then orderId
         else if k == "card_token" then cardToken
         else Get(InitPaymentBase(svc, payType, cost, name, email, phone, commission), k)
  {
    var own := InitPaymentOwn(svc, payType, cost, name, email, phone, orderId, commission, cardToken);
    if recurrent.Some? {
      MergeGet(own, recurrent.value.fields, k);
    }
    InitPaymentOwnValues(svc, payType, cost, name, email, phone, orderId, commission, cardToken, k);
  }

  /**
   * Unless recurrent fields override them, every payment signs
   * `background` = `1`, `version` = `2.0`, the service's id, the amount and
   * type it was given, and `order_id` and `card_token` exactly when given.
   */
  lemma InitPaymentFixedValues(svc: Service, payType: Bytes, cost: Bytes, name: Bytes, email: Bytes, phone: Bytes,
                             orderId: Option<Bytes>, commission: Bytes, cardToken: Option<Bytes>,
                             recurrent: Option<RecurrentParams>)
    requires RecurrentFits(recurrent)
    ensures var fields := InitPaymentFields(svc, payType, cost, name, email, phone, orderId, commission, cardToken, recurrent);
      Get(fields, "background") == Some("1") && Get(fields, "version") == Some(ApiVersion)
      && Get(fields, "service_id") == Some(svc.serviceId) && Get(fields, "cost") == Some(cost)
      && Get(fields, "type") == Some(payType)
      && Get(fields, "order_id") == orderId && Get(fields, "card_token") == cardToken
  {
    InitPaymentBaseShape(svc, payType, cost, name, email, phone, commission);
    assert "background" in InitPaymentOwnKeys && "version" in InitPaymentOwnKeys && "service_id" in InitPaymentOwnKeys;
    assert "cost" in InitPaymentOwnKeys && "type" in InitPaymentOwnKeys;
    assert "order_id" in InitPaymentOwnKeys && "card_token" in InitPaymentOwnKeys;
    InitPaymentFieldsGet(svc, payType, cost, name, email, phone, orderId, commission, cardToken, recurrent, "background");
    InitPaymentFieldsGet(svc, payType, cost, name, email, phone, orderId, commission, cardToken, recurrent, "version");
    InitPaymentFieldsGet(svc, payType, cost, name, email, phone, orderId, commission, cardToken, recurrent, "service_id");
    InitPaymentFieldsGet(svc, payType, cost, name, email, phone, orderId, commission, cardToken, recurrent, "cost");
    InitPaymentFieldsGet(svc, payType, cost, name, email, phone, orderId, commission, cardToken, recurrent, "type");
    InitPaymentFieldsGet(svc, payType, cost, name, email, phone, orderId, commission, cardToken, recurrent, "order_id");
    InitPaymentFieldsGet(svc, payType, cost, name, email, phone, orderId, commission, cardToken, recurrent, "card_token");
  }

  /** A payment made without naming a commission signs `commission` = `partner`. */
  lemma InitPaymentDefaultCommission(svc: Service, payType: Bytes, cost: Bytes, name: Bytes, email: Bytes, phone: Bytes,
                                     orderId: Option<Bytes>, cardToken: Option<Bytes>, recurrent: Option<RecurrentParams>)
    requires RecurrentFits(recurrent)
    ensures Get(InitPaymentFields(svc, payType, cost, name, email, phone, orderId, DefaultCommission, cardToken, recurrent),
                "commission") == Some("partner")
  {
    InitPaymentBaseShape(svc, payType, cost, name, email, phone, DefaultCommission);
    assert "commission" in InitPaymentOwnKeys;
    InitPaymentFieldsGet(svc, payType, cost, name, email, phone, orderId, DefaultCommission, cardToken, recurrent, "commission");
  }

  /**
   * With `next_pay` the payment is marked `next` and names the first order,
   * and sends no recurrent comment or URL.
   */
  lemma InitPaymentNextPay(svc: Service, payType: Bytes, cost: Bytes, name: Bytes, email: Bytes, phone: Bytes,
                           orderId: Option<Bytes>, commission: Bytes, cardToken: Option<Bytes>, firstOrder: Bytes)
    ensures var fields := InitPaymentFields(svc, payType, cost, name, email, phone, orderId, commission, cardToken, Some(NextPay(firstOrder)));
      Get(fields, "recurrent_type") == Some("next")
      && Get(fields, "recurrent_order_id") == Some(firstOrder)
      && Get(fields, "recurrent_comment") == None
      && Get(fields, "recurrent_url") == None
  {
    InitPaymentOwnShape(svc, payType, cost, name, email, phone, orderId, commission, cardToken);
    NextPayOver(InitPaymentOwn(svc, payType, cost, name, email, phone, orderId, commission, cardToken), firstOrder);
  }

  /** `next_pay` merged over fields that hold only the payment's own keys. */
  lemma NextPayOver(own: Fields, firstOrder: Bytes)
    requires forall k | k in KeySet(own) :: k in InitPaymentOwnKeys
    ensures var fields := Merge(own, NextPay(firstOrder).fields);
      Get(fields, "recurrent_type") == Some("next")
      && Get(fields, "recurrent_order_id") == Some(firstOrder)
      && Get(fields, "recurrent_comment") == None
      && Get(fields, "recurrent_url") == None
  {
    NextPayShape(firstOrder);
    NextPayLikeOver(own, NextPay(firstOrder).fields, firstOrder);
  }

  lemma NextPayLikeOver(own: Fields, rec: Fields, firstOrder: Bytes)
    requires forall k | k in KeySet(own) :: k in InitPaymentOwnKeys
    requires UniqueKeys(rec) && forall k :: k in KeySet(rec) <==> k in NextPayKeys
    requires Get(rec, "recurrent_type") == Some("next") && Get(rec, "recurrent_order_id") == Some(firstOrder)
    ensures var fields := Merge(own, rec);
      Get(fields, "recurrent_type") == Some("next")
      && Get(fields, "recurrent_order_id") == Some(firstOrder)
      && Get(fields, "recurrent_comment") == None
      && Get(fields, "recurrent_url") == None
  {
    MergeGet(own, rec, "recurrent_type");
    MergeGet(own, rec, "recurrent_order_id");
    RecurrentKeyNames();
    NextPayMisses(own, rec, "recurrent_comment");
    NextPayMisses(own, rec, "recurrent_url");
  }

  lemma NextPayMisses(own: Fields, rec: Fields, k: Bytes)
    requires forall k | k in KeySet(own) :: k in InitPaymentOwnKeys
    requires UniqueKeys(rec) && forall k :: k in KeySet(rec) <==> k in NextPayKeys
    requires k !in InitPaymentOwnKeys && k !in NextPayKeys
    ensures Get(Merge(own, rec), k) == None
  {
    MergeGet(own, rec, k);
  }

  // ------------------------------------------------------------------ refund

  const RefundBaseKeys: seq<Bytes> := ["version", "tid"]

  /** `version` and `tid` differ, and the optional refund keys and `check` are neither of them nor each other. */
  lemma RefundKeyNames()
    ensures Distinct(RefundBaseKeys)
    ensures "amount" !in RefundBaseKeys && "test" !in RefundBaseKeys && "reason" !in RefundBaseKeys && CheckKey !in RefundBaseKeys
    ensures "amount" != "test" && "amount" != "reason" && "test" != "reason"
    ensures CheckKey != "amount" && CheckKey != "test" && CheckKey != "reason"
  {
  }

  /** The field `test` = `1` when the refund is a test. */
  function TestFlag(test: bool): Option<Bytes> {
    if test then Some("1") else None
  }

  /** The fields `refund` signs: `version`, `tid`, then `amount`, `test` and `reason` when PHP deems them true. */
  function RefundFields(tid: Bytes, amount: Option<Bytes>, test: bool, reason: Option<Bytes>): Fields {
    ArrayLiteral(RefundBaseKeys, [ApiVersion, tid])
      + OptionalEntry("amount", IfTruthy(amount))
      + OptionalEntry("test", TestFlag(test))
      + OptionalEntry("reason", IfTruthy(reason))
  }

  /** The refund fields hold no key twice and never `check`. */
  lemma RefundFieldsKeys(tid: Bytes, amount: Option<Bytes>, test: bool, reason: Option<Bytes>)
    ensures var fields := RefundFields(tid, amount, test, reason);
      UniqueKeys(fields) && CheckKey !in KeySet(fields)
      && Keys(fields) == RefundBaseKeys + OptionalKey("amount", IfTruthy(amount)) + OptionalKey("test", TestFlag(test))
                         + OptionalKey("reason", IfTruthy(reason))
  {
    var f0 := ArrayLiteral(RefundBaseKeys, [ApiVersion, tid]);
    var f1 := f0 + OptionalEntry("amount", IfTruthy(amount));
    var f2 := f1 + OptionalEntry("test", TestFlag(test));
    RefundKeyNames();
    ArrayLiteralShape(RefundBaseKeys, [ApiVersion, tid]);
    AppendOptional(f0, "amount", IfTruthy(amount));
    KeySetPastOptional(f0, "amount", IfTruthy(amount), "test");
    AppendOptional(f1, "test", TestFlag(test));
    KeySetPastOptional(f0, "amount", IfTruthy(amount), "reason");
    KeySetPastOptional(f1, "test", TestFlag(test), "reason");
    AppendOptional(f2, "reason", IfTruthy(reason));
    KeySetPastOptional(f0, "amount", IfTruthy(amount), CheckKey);
    KeySetPastOptional(f1, "test", TestFlag(test), CheckKey);
    KeySetPastOptional(f2, "reason", IfTruthy(reason), CheckKey);
  }

  /** The values the refund fields hold. */
  lemma RefundFieldsValues(tid: Bytes, amount: Option<Bytes>, test: bool, reason: Option<Bytes>)
    ensures var fields := RefundFields(tid, amount, test, reason);
      Get(fields, "version") == Some(ApiVersion) && Get(fields, "tid") == Some(tid)
      && Get(fields, "amount") == IfTruthy(amount)
      && Get(fields, "test") == TestFlag(test)
      && Get(fields, "reason") == IfTruthy(reason)
  {
    var f0 := ArrayLiteral(RefundBaseKeys, [ApiVersion, tid]);
    var f1 := f0 + OptionalEntry("amount", IfTruthy(amount));
    var f2 := f1 + OptionalEntry("test", TestFlag(test));
    RefundKeyNames();
    ArrayLiteralShape(RefundBaseKeys, [ApiVersion, tid]);
    ArrayLiteralGet(RefundBaseKeys, [ApiVersion, tid], 0);
    ArrayLiteralGet(RefundBaseKeys, [ApiVersion, tid], 1);
    GetOptional(f0, "amount", IfTruthy(amount));
    KeySetPastOptional(f0, "amount", IfTruthy(amount), "test");
    GetOptional(f1, "test", TestFlag(test));
    KeySetPastOptional(f0, "amount", IfTruthy(amount), "reason");
    KeySetPastOptional(f1, "test", TestFlag(test), "reason");
    GetOptional(f2, "reason", IfTruthy(reason));
    GetPastOptional(f0, "amount", IfTruthy(amount), "version");
    GetPastOptional(f0, "amount", IfTruthy(amount), "tid");
    GetPastOptional(f1, "test", TestFlag(test), "version");
    GetPastOptional(f1, "test", TestFlag(test), "tid");
    GetPastOptional(f1, "test", TestFlag(test), "amount");
    GetPastOptional(f2, "reason", IfTruthy(reason), "version");
    GetPastOptional(f2, "reason", IfTruthy(reason), "tid");
    GetPastOptional(f2, "reason", IfTruthy(reason), "amount");
    GetPastOptional(f2, "reason", IfTruthy(reason), "test");
  }

  /**
   * `refund`'s steps: the literal, then `$fields[...] = ...` for `amount`,
   * `test` and `reason`, each under its own condition, build exactly the
   * refund fields.
   */
  lemma RefundByPuts(tid: Bytes, amount: Option<Bytes>, test: bool, reason: Option<Bytes>)
    ensures var f0 := ArrayLiteral(RefundBaseKeys, [ApiVersion, tid]);
      var f1 := if amount.Some? && Truthy(amount.value) then Put(f0, "amount", amount.value) else f0;
      var f2 := if test then Put(f1, "test", "1") else f1;
      (if reason.Some? && Truthy(reason.value) then Put(f2, "reason", reason.value) else f2)
      == RefundFields(tid, amount, test, reason)
  {
    var f0 := ArrayLiteral(RefundBaseKeys, [ApiVersion, tid]);
    var f1 := f0 + OptionalEntry("amount", IfTruthy(amount));
    RefundKeyNames();
    ArrayLiteralShape(RefundBaseKeys, [ApiVersion, tid]);
    PutOptional(f0, "amount", IfTruthy(amount));
    KeySetPastOptional(f0, "amount", IfTruthy(amount), "test");
    PutOptional(f1, "test", TestFlag(test));
    KeySetPastOptional(f0, "amount", IfTruthy(amount), "reason");
    KeySetPastOptional(f1, "test", TestFlag(test), "reason");
    PutOptional(f1 + OptionalEntry("test", TestFlag(test)), "reason", IfTruthy(reason));
  }

  // --------------------------------------------------------- createCardToken

  const CardTokenBaseKeys: seq<Bytes> := ["service_id", "card", "exp_month", "exp_year", "cvc"]

  /** The fields `createCardToken` sends: the card data with the month padded to two digits, and the holder when given. */
  function CardTokenFields(svc: Service, card: Bytes, expMonth: Bytes, expYear: Bytes, cvc: Bytes, cardHolder: Option<Bytes>): Fields {
    ArrayLiteral(CardTokenBaseKeys, [svc.serviceId, card, ZeroPad2(expMonth), expYear, cvc])
      + OptionalEntry("card_holder", IfTruthy(cardHolder))
  }


  /**
   * An array literal without repeated keys followed by an optional pair with
   * a key of its own: the literal's keys in order, then the optional key when
   * given, each looking up the value written beside it.
   */
  lemma LiteralThenOptional(keys: seq<Bytes>, values: seq<Bytes>, key: Bytes, v: Option<Bytes>)
    requires |keys| == |values| && Distinct(keys) && key !in keys
    ensures var f := ArrayLiteral(keys, values) + OptionalEntry(key, v);
      UniqueKeys(f) && Keys(f) == keys + OptionalKey(key, v)
      && (forall k :: k in KeySet(f) <==> k in keys || (v.Some? && k == key))
      && (forall i | 0 <= i < |keys| :: Get(f, keys[i]) == Some(values[i]))
      && Get(f, key) == v
  {
    var lit := ArrayLiteral(keys, values);
    ArrayLiteralShape(keys, values);
    AppendOptional(lit, key, v);
    GetOptional(lit, key, v);
    forall k
      ensures k in KeySet(lit + OptionalEntry(key, v)) <==> k in keys || (v.Some? && k == key)
    {
      KeySetPastOptional(lit, key, v, k);
    }
    forall i | 0 <= i < |keys|
      ensures Get(lit + OptionalEntry(key, v), keys[i]) == Some(values[i])
    {
      ArrayLiteralGet(keys, values, i);
      GetPastOptional(lit, key, v, keys[i]);
    }
  }

  /** The card-token keys are all different, and neither `card_holder` nor `check` is one of them. */
  lemma CardTokenKeyNames()
    ensures Distinct(CardTokenBaseKeys)
    ensures "card_holder" !in CardTokenBaseKeys && CheckKey !in CardTokenBaseKeys && "card_holder" != CheckKey
  {
  }

  /**
   * A card-token request sends exactly the service id, the card number, the
   * expiry month and year and the CVC, in this order, then the holder when
   * given and neither empty nor `"0"`; it carries no signature.
   */
  lemma CardTokenFieldsKeys(svc: Service, card: Bytes, expMonth: Bytes, expYear: Bytes, cvc: Bytes, cardHolder: Option<Bytes>)
    ensures var fields := CardTokenFields(svc, card, expMonth, expYear, cvc, cardHolder);
      UniqueKeys(fields)
      && Keys(fields) == CardTokenBaseKeys + OptionalKey("card_holder", IfTruthy(cardHolder))
      && CheckKey !in KeySet(fields)
  {
    CardTokenKeyNames();
    LiteralThenOptional(CardTokenBaseKeys, [svc.serviceId, card, ZeroPad2(expMonth), expYear, cvc], "card_holder", IfTruthy(cardHolder));
  }

  /** The values sent: the month zero-padded to at least two digits, everything else as given. */
  lemma CardTokenFieldsValues(svc: Service, card: Bytes, expMonth: Bytes, expYear: Bytes, cvc: Bytes, cardHolder: Option<Bytes>)
    ensures var fields := CardTokenFields(svc, card, expMonth, expYear, cvc, cardHolder);
      Get(fields, "service_id") == Some(svc.serviceId) && Get(fields, "card") == Some(card)
      && Get(fields, "exp_month") == Some(ZeroPad2(expMonth))
      && Get(fields, "exp_year") == Some(expYear) && Get(fields, "cvc") == Some(cvc)
      && Get(fields, "card_holder") == IfTruthy(cardHolder)
  {
    var values := [svc.serviceId, card, ZeroPad2(expMonth), expYear, cvc];
    var f := CardTokenFields(svc, card, expMonth, expYear, cvc, cardHolder);
    CardTokenKeyNames();
    LiteralThenOptional(CardTokenBaseKeys, values, "card_holder", IfTruthy(cardHolder));
    assert Get(f, CardTokenBaseKeys[0]) == Some(values[0]);
    assert Get(f, CardTokenBaseKeys[1]) == Some(values[1]);
    assert Get(f, CardTokenBaseKeys[2]) == Some(values[2]);
    assert Get(f, CardTokenBaseKeys[3]) == Some(values[3]);
    assert Get(f, CardTokenBaseKeys[4]) == Some(values[4]);
  }

  /** `createCardToken`'s steps: the literal, then `$fields['card_holder'] = ...` when the holder is truthy. */
  lemma CardTokenByPuts(svc: Service, card: Bytes, expMonth: Bytes, expYear: Bytes, cvc: Bytes, cardHolder: Option<Bytes>)
    ensures var f := ArrayLiteral(CardTokenBaseKeys, [svc.serviceId, card, ZeroPad2(expMonth), expYear, cvc]);
      (if cardHolder.Some? && Truthy(cardHolder.value) then Put(f, "card_holder", cardHolder.value) else f)
      == CardTokenFields(svc, card, expMonth, expYear, cvc, cardHolder)
  {
    var values := [svc.serviceId, card, ZeroPad2(expMonth), expYear, cvc];
    CardTokenKeyNames();
    ArrayLiteralShape(CardTokenBaseKeys, values);
    PutOptional(ArrayLiteral(CardTokenBaseKeys, values), "card_holder", IfTruthy(cardHolder));
  }
}
