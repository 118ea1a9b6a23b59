/**
 * The inbound side: `PaymentnepalService::checkCallbackSign`, which checks
 * the MD5 `check` of a gateway notification, and `PaymentnepalCallback`,
 * which finds the service a notification belongs to, verifies it, and hands
 * it to one of four hooks according to its `command`.
 */
module Callback {
  import opened Wrappers
  import opened PhpStrings
  import opened PhpArray
  import opened Crypto
  import opened RequestFields

  /** The notification fields the digest covers, in the order it covers them. */
  const CallbackFields: seq<Bytes> := [
    "tid", "name", "comment", "partner_id", "service_id", "order_id", "type", "cost",
    "income_total", "income", "partner_income", "system_income", "command",
    "phone_number", "email", "resultStr", "date_created", "version"]

  const ServiceIdKey: Bytes := "service_id"
  const CommandKey: Bytes := "command"

  // -------------------------------------------------------- checkCallbackSign

  /**
   * The values of the listed fields the notification carries (`isset`), in
   * list order: one value per listed field, short exactly when a field is
   * missing.
   */
  function PresentValues(post: Fields, fields: seq<Bytes>): (r: seq<Bytes>)
    ensures |r| <= |fields|
    ensures |r| == |fields| <==> forall i | 0 <= i < |fields| :: Get(post, fields[i]).Some?
  {
    if fields == [] then []
    else
      var v := Get(post, fields[|fields| - 1]);
      PresentValues(post, fields[..|fields| - 1]) + (if v.Some? then [v.value] else [])
  }

  /** What `md5` is applied to: the present values, then the service secret, concatenated. */
  function DigestInput(post: Fields, secret: Bytes): Bytes {
    Concat(PresentValues(post, CallbackFields) + [secret])
  }

  /** `checkCallbackSign`'s verdict: `check` is present and equals the MD5 of the digest input. */
  predicate CallbackSignValid(prims: Primitives, secret: Bytes, post: Fields) {
    Get(post, CheckKey) == Some(prims.md5Hex(DigestInput(post, secret)))
  }

  /** `$service->checkCallbackSign($post)`. */
  method CheckCallbackSign(prims: Primitives, svc: Service, post: Fields) returns (ok: bool)
    ensures ok <==> CallbackSignValid(prims, svc.secret, post)
  {
    var params: seq<Bytes> := [];
    for i := 0 to |CallbackFields|
      invariant params == PresentValues(post, CallbackFields[..i])
    {
      assert CallbackFields[..i + 1][..i] == CallbackFields[..i];
      var v := Get(post, CallbackFields[i]);
      if v.Some? {
        params := params + [v.value];
      }
    }
    assert CallbackFields[..|CallbackFields|] == CallbackFields;
    params := params + [svc.secret];
    var digest := prims.md5Hex(Concat(params));
    ok := Get(post, CheckKey) == Some(digest);
  }

  /** The secret is the last thing hashed, after every present value. */
  lemma DigestInputLayout(post: Fields, secret: Bytes)
    ensures DigestInput(post, secret) == Concat(PresentValues(post, CallbackFields)) + secret
  {
    var vs := PresentValues(post, CallbackFields);
    assert (vs + [secret])[..|vs|] == vs;
  }

  /** A notification without `check` never passes. */
  lemma MissingCheckFails(prims: Primitives, secret: Bytes, post: Fields)
    requires CheckKey !in KeySet(post)
    ensures !CallbackSignValid(prims, secret, post)
  {
  }

  /** Only the listed fields reach the digest: two notifications that agree on them agree on the digest input. */
  lemma {:induction false} PresentValuesAgree(a: Fields, b: Fields, fields: seq<Bytes>)
    requires forall i | 0 <= i < |fields| :: Get(a, fields[i]) == Get(b, fields[i])
    ensures PresentValues(a, fields) == PresentValues(b, fields)
  {
    if fields != [] {
      PresentValuesAgree(a, b, fields[..|fields| - 1]);
    }
  }

  /** The values of two lists of fields, one after the other, are the values of each list in turn. */
  lemma {:induction false} PresentValuesAppend(post: Fields, a: seq<Bytes>, b: seq<Bytes>)
    ensures PresentValues(post, a + b) == PresentValues(post, a) + PresentValues(post, b)
  {
    if b == [] {
      assert a + b == a;
    } else {
      assert (a + b)[..|a + b| - 1] == a + b[..|b| - 1];
      PresentValuesAppend(post, a, b[..|b| - 1]);
    }
  }

  /** When every listed field is present, each contributes its value, in order. */
  lemma {:induction false} PresentValuesAll(post: Fields, fields: seq<Bytes>)
    requires forall i | 0 <= i < |fields| :: fields[i] in KeySet(post)
    ensures |PresentValues(post, fields)| == |fields|
    ensures forall i | 0 <= i < |fields| :: Some(PresentValues(post, fields)[i]) == Get(post, fields[i])
  {
    if fields != [] {
      var n := |fields|;
      PresentValuesAll(post, fields[..n - 1]);
    }
  }

  /** A field that is absent contributes nothing: with no listed field present, only the secret is hashed. */
  lemma {:induction false} PresentValuesNone(post: Fields, fields: seq<Bytes>)
    requires forall i | 0 <= i < |fields| :: fields[i] !in KeySet(post)
    ensures PresentValues(post, fields) == []
  {
    if fields != [] {
      PresentValuesNone(post, fields[..|fields| - 1]);
    }
  }

  /**
   * The verdict depends only on the eighteen listed fields and `check`:
   * extra fields, and their order, never change it.
   */
  lemma CallbackSignDependsOnListedFields(prims: Primitives, secret: Bytes, a: Fields, b: Fields)
    requires forall i | 0 <= i < |CallbackFields| :: Get(a, CallbackFields[i]) == Get(b, CallbackFields[i])
    requires Get(a, CheckKey) == Get(b, CheckKey)
    ensures CallbackSignValid(prims, secret, a) <==> CallbackSignValid(prims, secret, b)
  {
    PresentValuesAgree(a, b, CallbackFields);
  }

  // -------------------------------------------------------------- dispatch

  /** The four overridable hooks of `PaymentnepalCallback`. */
  datatype Hook = OnProcess | OnSuccess | OnRecurrentCancel | OnRefund

  /** Why `handle` or `callback` throws. */
  datatype CallbackError =
    | MissingServiceId
    | UnknownService(serviceId: Bytes)
    | SignError
    | UnexpectedCommand(command: Option<Bytes>)

  /** `callback`'s choice of hook by `$data['command']`, compared strictly. */
  function Route(command: Option<Bytes>): (r: Result<Hook, CallbackError>)
    ensures r.Failure? ==> r.error == UnexpectedCommand(command)
  {
    if command == Some("process") then Success(OnProcess)
    else if command == Some("success") then Success(OnSuccess)
    else if command == Some("recurrent_cancel") then Success(OnRecurrentCancel)
    else if command == Some("refund") then Success(OnRefund)
    else Failure(UnexpectedCommand(command))
  }

  /** The command each hook answers to. */
  function HookCommand(h: Hook): Bytes {
    match h
    case OnProcess => "process"
    case OnSuccess => "success"
    case OnRecurrentCancel => "recurrent_cancel"
    case OnRefund => "refund"
  }

  /** Exactly the four commands are routed, each to its own hook. */
  lemma RouteExact(command: Option<Bytes>, h: Hook)
    ensures Route(command) == Success(h) <==> command == Some(HookCommand(h))
  {
  }

  /** The service registry `__construct` builds: keyed by service id, a later service replacing an earlier one with the same id. */
  function Registry(services: seq<Service>): (r: map<Bytes, Service>)
    ensures forall id :: id in r <==> exists i | 0 <= i < |services| :: services[i].serviceId == id
  {
    if services == [] then map[]
    else
      var last := services[|services| - 1];
      var front := Registry(services[..|services| - 1]);
      assert forall i | 0 <= i < |services| - 1 :: services[..|services| - 1][i] == services[i];
      front[last.serviceId := last]
  }

  /** The service registered under an id is the last one in the list with that id. */
  lemma {:induction false} RegistryLastWins(services: seq<Service>, j: nat)
    requires j < |services|
    requires forall i | j < i < |services| :: services[i].serviceId != services[j].serviceId
    ensures Registry(services)[services[j].serviceId] == services[j]
  {
    var n := |services|;
    if j < n - 1 {
      RegistryLastWins(services[..n - 1], j);
    }
  }

  /** `handle($post)`'s outcome: the hook it runs, or the exception it throws, checked in this order. */
  function HandleOutcome(prims: Primitives, services: map<Bytes, Service>, post: Fields): Result<Hook, CallbackError> {
    var sid := Get(post, ServiceIdKey);
    if sid.None? then Failure(MissingServiceId)
    else if sid.value !in services then Failure(UnknownService(sid.value))
    else if !CallbackSignValid(prims, services[sid.value].secret, post) then Failure(SignError)
    else Route(Get(post, CommandKey))
  }

  /**
   * A notification reaches a hook exactly when it names a registered
   * service, its `check` verifies under that service's secret, and its
   * command is one of the four; the hook is the one for that command.
   */
  lemma HandleSucceedsIff(prims: Primitives, services: map<Bytes, Service>, post: Fields, h: Hook)
    ensures HandleOutcome(prims, services, post) == Success(h)
      <==> (exists id :: Get(post, ServiceIdKey) == Some(id) && id in services
                         && CallbackSignValid(prims, services[id].secret, post))
           && Get(post, CommandKey) == Some(HookCommand(h))
  {
    RouteExact(Get(post, CommandKey), h);
    var sid := Get(post, ServiceIdKey);
    if sid.Some? && sid.value in services && CallbackSignValid(prims, services[sid.value].secret, post) {
      assert exists id :: Get(post, ServiceIdKey) == Some(id) && id in services
                          && CallbackSignValid(prims, services[id].secret, post);
    }
  }

  /**
   * The checks come in the source's order: a missing `service_id` is
   * reported before anything else, an unknown service before the signature,
   * a bad signature before the command.
   */
  lemma HandleErrorOrder(prims: Primitives, services: map<Bytes, Service>, post: Fields)
    ensures ServiceIdKey !in KeySet(post) ==> HandleOutcome(prims, services, post) == Failure(MissingServiceId)
    ensures forall id | Get(post, ServiceIdKey) == Some(id) && id !in services ::
      HandleOutcome(prims, services, post) == Failure(UnknownService(id))
    ensures forall id | Get(post, ServiceIdKey) == Some(id) && id in services && !CallbackSignValid(prims, services[id].secret, post) ::
      HandleOutcome(prims, services, post) == Failure(SignError)
  {
  }

  /** `PaymentnepalCallback`: the registry, and the hooks run so far (the hooks themselves do nothing). */
  class PaymentCallback {
    var services: map<Bytes, Service>
    var hooksRun: seq<Hook>

    /** `new PaymentnepalCallback($services)`. */
    constructor (svcs: seq<Service>)
      ensures services == Registry(svcs)
      ensures hooksRun == []
    {
      var registry: map<Bytes, Service> := map[];
      for i := 0 to |svcs|
        invariant registry == Registry(svcs[..i])
      {
        assert svcs[..i + 1][..i] == svcs[..i];
        registry := registry[svcs[i].serviceId := svcs[i]];
      }
      assert svcs[..|svcs|] == svcs;
      services := registry;
      hooksRun := [];
    }

    /** `callbackProcess`: called for any payment, partial ones included. */
    method CallbackProcess(data: Fields)
      modifies this
      ensures services == old(services) && hooksRun == old(hooksRun) + [OnProcess]
    {
      hooksRun := hooksRun + [OnProcess];
    }

    /** `callbackSuccess`: called for a full payment. */
    method CallbackSuccess(data: Fields)
      modifies this
      ensures services == old(services) && hooksRun == old(hooksRun) + [OnSuccess]
    {
      hooksRun := hooksRun + [OnSuccess];
    }

    /** `callbackRecurrentCancel`: the card holder cancelled the recurring payments. */
    method CallbackRecurrentCancel(data: Fields)
      modifies this
      ensures services == old(services) && hooksRun == old(hooksRun) + [OnRecurrentCancel]
    {
      hooksRun := hooksRun + [OnRecurrentCancel];
    }

    /** `callbackRefund`: the result of a refund. */
    method CallbackRefund(data: Fields)
      modifies this
      ensures services == old(services) && hooksRun == old(hooksRun) + [OnRefund]
    {
      hooksRun := hooksRun + [OnRefund];
    }

    /** `callback($data)`: runs the hook for the command, or throws for any other command. */
    method Callback(data: Fields) returns (r: Result<Hook, CallbackError>)
      modifies this
      ensures r == Route(Get(data, CommandKey))
      ensures services == old(services)
      ensures hooksRun == old(hooksRun) + (if r.Success? then [r.value] else [])
    {
      var command := Get(data, CommandKey);
      if command == Some("process") {
        CallbackProcess(data);
        r := Success(OnProcess);
      } else if command == Some("success") {
        CallbackSuccess(data);
        r := Success(OnSuccess);
      } else if command == Some("recurrent_cancel") {
        CallbackRecurrentCancel(data);
        r := Success(OnRecurrentCancel);
      } else if command == Some("refund") {
        CallbackRefund(data);
        r := Success(OnRefund);
      } else {
        r := Failure(UnexpectedCommand(command));
      }
    }

    /**
     * `handle($post)`: the outcome is `HandleOutcome`, the registry is
     * unchanged, and exactly one hook has run when it succeeds and none when
     * it throws.
     */
    method Handle(prims: Primitives, post: Fields) returns (r: Result<Hook, CallbackError>)
      modifies this
      ensures r == HandleOutcome(prims, old(services), post)
      ensures services == old(services)
      ensures hooksRun == old(hooksRun) + (if r.Success? then [r.value] else [])
    {
      var sid := Get(post, ServiceIdKey);
      if sid.None? {
        return Failure(MissingServiceId);
      }
      var serviceId := sid.value;
      if serviceId in services {
        var service := services[serviceId];
        var ok := CheckCallbackSign(prims, service, post);
        if ok {
          r := Callback(post);
        } else {
          r := Failure(SignError);
        }
      } else {
        r := Failure(UnknownService(serviceId));
      }
    }
  }
}
