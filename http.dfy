/** Requests and responses of the route handlers, without the wire format: a
    query is the list of its decoded name/value pairs, a reply is a status
    and the value that would be serialised as its JSON body. */
module Http {

  import opened Wrappers

  type Query = seq<(string, string)>

  /** `searchParams.get(name)`: the value of the first pair with that name. */
  function Param(q: Query, name: string): Option<string> {
    if q == [] then None
    else if q[0].0 == name then Some(q[0].1)
    else Param(q[1..], name)
  }

  /** Param finds a value exactly when some pair has the name, and the value
      is that of the first such pair. */
  lemma {:induction false} ParamSpec(q: Query, name: string) returns (k: int)
    ensures Param(q, name).None? <==> forall i :: 0 <= i < |q| ==> q[i].0 != name
    ensures Param(q, name).Some? ==>
              && 0 <= k < |q| && q[k] == (name, Param(q, name).value)
              && forall j :: 0 <= j < k ==> q[j].0 != name
  {
    k := 0;
    if q != [] && q[0].0 != name {
      k := ParamSpec(q[1..], name);
      assert forall i :: 1 <= i < |q| ==> q[i] == q[1..][i - 1];
      k := k + 1;
    }
  }

  datatype Body<T> =
    | Error(error: string)
    | UpstreamError(error: string, upstreamStatus: int, details: string)
    | Payload(value: T)

  datatype Reply<T> = Reply(status: nat, body: Body<T>)

  /** The reply a route's `catch` block gives for an exception. */
  function Failed<T>(message: string): (r: Reply<T>)
    ensures r.status == 500 && r.body == Error(message)
  {
    Reply(500, Error(message))
  }
}
