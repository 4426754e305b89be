/** The responses the views return and the request data they hand to a serializer. */
module Http {
  import opened Fields

  const HTTP_200_OK: nat := 200
  const HTTP_201_CREATED: nat := 201
  const HTTP_400_BAD_REQUEST: nat := 400
  const HTTP_401_UNAUTHORIZED: nat := 401

  /** The body of a response: one serialised record, a list of them, the serializer's
      per-field errors, a `{"res": …}` message, or a `{"detail": …}` message. */
  datatype Body =
    | Record(record: Payload)
    | Records(records: seq<Payload>)
    | FieldErrors(errors: Errors)
    | Res(res: string)
    | Detail(detail: string)

  datatype Response = Response(status: nat, body: Body)

  const NOT_AUTHENTICATED: string := "Authentication credentials were not provided."

  /** What every view answers to a request without credentials: the permission check
      runs before the handler, so nothing is read or written. */
  function Unauthorized(): (r: Response)
    ensures r.status == HTTP_401_UNAUTHORIZED && r.body.Detail?
  {
    Response(HTTP_401_UNAUTHORIZED, Detail(NOT_AUTHENTICATED))
  }

  /** The dictionary a view builds from the request body with `request.data.get(k)`
      for each of its fixed keys: exactly those keys, null where the body lacks one. */
  function Forward(body: Payload, keys: set<string>): (r: Payload)
    ensures r.Keys == keys
    ensures forall k | k in keys && k in body :: r[k] == body[k]
    ensures forall k | k in keys && k !in body :: r[k] == Null
  {
    map k | k in keys :: if k in body then body[k] else Null
  }

  /** Keys outside the forwarded set are dropped: adding, changing or removing one in
      the request body does not change what the serializer sees. */
  lemma ForwardDropsOtherKeys(body: Payload, keys: set<string>, key: string, v: Value)
    requires key !in keys
    ensures Forward(body[key := v], keys) == Forward(body, keys)
    ensures Forward(body - {key}, keys) == Forward(body, keys)
  {
    assert Forward(body[key := v], keys).Keys == Forward(body, keys).Keys;
    assert Forward(body - {key}, keys).Keys == Forward(body, keys).Keys;
  }
}
