/**
 * `required_param` of utils/decorators.py: a view wrapped by it is called only
 * when every required parameter is present in the request; otherwise the
 * wrapper answers 400 naming the missing parameters.
 */
module Decorators {
  import opened Wrappers
  import opened Strings

  /** The parameter names a request carries in its query string and in its body. */
  datatype Request = Request(queryParams: set<string>, data: set<string>)

  /** What the wrapped view returns: the rejection the wrapper builds, or the view's own response
      (`R`, the view being code this model does not see). */
  datatype Outcome<R> =
    | Rejected(success: bool, message: string, status: int)
    | Called(response: R)

  /** `[param for param in params if param not in data]`. */
  function MissingParams(params: seq<string>, data: set<string>): (missing: seq<string>)
    ensures |missing| <= |params|
    ensures forall p :: p in missing <==> p in params && p !in data
  {
    if |params| == 0 then []
    else (if params[0] in data then [] else [params[0]]) + MissingParams(params[1..], data)
  }

  /** The missing parameters keep the order of `params`: the filter distributes over concatenation. */
  lemma {:induction false} MissingParamsAppend(a: seq<string>, b: seq<string>, data: set<string>)
    ensures MissingParams(a + b, data) == MissingParams(a, data) + MissingParams(b, data)
    decreases |a|
  {
    if |a| > 0 {
      var head := if a[0] in data then [] else [a[0]];
      assert (a + b)[0] == a[0];
      assert (a + b)[1..] == a[1..] + b;
      assert MissingParams(a + b, data) == head + MissingParams(a[1..] + b, data);
      MissingParamsAppend(a[1..], b, data);
      assert MissingParams(a, data) == head + MissingParams(a[1..], data);
    } else {
      assert a + b == b;
    }
  }

  /** When no parameter is present, all are missing, in their declared order. */
  lemma {:induction false} NothingPresentAllMissing(params: seq<string>, data: set<string>)
    requires forall p :: p in params ==> p !in data
    ensures MissingParams(params, data) == params
    decreases |params|
  {
    if |params| > 0 {
      NothingPresentAllMissing(params[1..], data);
      assert params == [params[0]] + params[1..];
    }
  }

  /** `params=None` is read as an empty list. */
  function ParamsOrEmpty(params: Option<seq<string>>): seq<string> {
    if params.Some? then params.value else []
  }

  /** `request.query_params` for GET, `request.data` for every other method. */
  function RequestData(httpMethod: string, request: Request): set<string> {
    if httpMethod == "GET" then request.queryParams else request.data
  }

  /** `_wrapped_view`: 400 with `missing <names> in request.` when something is missing, else the
      view's response. */
  function RequiredParam<R>(httpMethod: string, params: Option<seq<string>>, request: Request, view: R): (r: Outcome<R>)
    ensures r.Called? <==> forall p :: p in ParamsOrEmpty(params) ==> p in RequestData(httpMethod, request)
    ensures r.Called? ==> r.response == view
    ensures r.Rejected? ==> !r.success && r.status == 400
    ensures r.Rejected? ==>
      r.message == "missing " + Join(MissingParams(ParamsOrEmpty(params), RequestData(httpMethod, request)), ", ") + " in request."
  {
    var missingParams := MissingParams(ParamsOrEmpty(params), RequestData(httpMethod, request));
    if |missingParams| > 0 then
      assert missingParams[0] in missingParams;
      Rejected(false, "missing " + Join(missingParams, ", ") + " in request.", 400)
    else
      Called(view)
  }

  /** Without `params` the wrapper never rejects. */
  lemma NoParamsNeverRejects<R>(httpMethod: string, request: Request, view: R)
    ensures RequiredParam(httpMethod, None, request, view) == Called(view)
  {
  }

  /** A GET is judged on its query string alone, any other method on its body alone. */
  lemma MethodPicksTheSource<R>(httpMethod: string, params: Option<seq<string>>, q1: set<string>, q2: set<string>, d1: set<string>, d2: set<string>, view: R)
    ensures httpMethod == "GET" ==> RequiredParam(httpMethod, params, Request(q1, d1), view) == RequiredParam(httpMethod, params, Request(q1, d2), view)
    ensures httpMethod != "GET" ==> RequiredParam(httpMethod, params, Request(q1, d1), view) == RequiredParam(httpMethod, params, Request(q2, d1), view)
  {
  }

  /** A GET without `user_id` is answered 'missing user_id in request.'; a POST lacking both
      `content_type` and `object_id` names them in that order. */
  lemma RejectionMessages<R>(view: R)
    ensures RequiredParam("GET", Some(["user_id"]), Request({}, {"user_id"}), view)
         == Rejected(false, "missing " + "user_id" + " in request.", 400)
    ensures RequiredParam("POST", Some(["content_type", "object_id"]), Request({"content_type", "object_id"}, {}), view)
         == Rejected(false, "missing " + "content_type" + ", " + "object_id" + " in request.", 400)
  {
    NothingPresentAllMissing(["user_id"], {});
    NothingPresentAllMissing(["content_type", "object_id"], {});
    assert ["content_type", "object_id"][1..] == ["object_id"];
  }
}
