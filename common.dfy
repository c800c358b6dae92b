/** Value types shared by every part of the model: optional values, the
    outcome of a call into a collaborator the model cannot see, JavaScript
    truthiness over strings, and searches over the record sequences that
    stand for the database collections. */
module Common {

  /** A database identifier (a Mongo ObjectId). */
  type Id = nat

  datatype Option<+T> = None | Some(value: T)

  /** The outcome of a call into code the model does not see: the AI
      service over HTTP, the image host, the file system, the database. */
  datatype Outcome<+T> = Ok(value: T) | Fail

  /** How a request handler ends: with an HTTP status it chooses itself
      (`res.status(code)` or `next(new ErrorHandler(message, code))`), or with
      an error it does not catch, such as a document the schema rejects,
      which `catchAsyncErrors` hands on to the error middleware. That
      middleware is not part of this model, so such an error is kept apart
      from the statuses the handlers choose. */
  datatype Reply = Status(code: nat) | Uncaught

  /** A JavaScript string is truthy exactly when it is not empty. Request
      fields that are absent are modelled as "", which is falsy as well. */
  predicate Truthy(s: string) {
    s != ""
  }

  /** `c0 || c1 || … || fallback` over strings: the first truthy candidate,
      else the fallback. */
  function FirstTruthy(candidates: seq<string>, fallback: string): (r: string)
    ensures (forall i | 0 <= i < |candidates| :: candidates[i] == "") ==> r == fallback
    ensures forall i | 0 <= i < |candidates| ::
              candidates[i] != "" && (forall j | 0 <= j < i :: candidates[j] == "") ==> r == candidates[i]
  {
    if |candidates| == 0 then fallback
    else if candidates[0] != "" then candidates[0]
    else
      var r := FirstTruthy(candidates[1..], fallback);
      assert forall i | 1 <= i < |candidates| :: candidates[1..][i - 1] == candidates[i];
      r
  }

  /** `true` when every field is truthy: the negation of `!a || !b || …`. */
  predicate AllTruthy(fields: seq<string>) {
    forall i | 0 <= i < |fields| :: fields[i] != ""
  }

  /** The first position whose element satisfies `p`, as `findOne` or
      `findById` find the first matching document of a collection. */
  function FindIndex<T>(s: seq<T>, p: T -> bool): (r: Option<nat>)
    ensures r.Some? ==> r.value < |s| && p(s[r.value])
    ensures r.Some? ==> forall j | 0 <= j < r.value :: !p(s[j])
    ensures r.None? <==> forall j | 0 <= j < |s| :: !p(s[j])
  {
    if |s| == 0 then None
    else if p(s[0]) then Some(0)
    else
      match FindIndex(s[1..], p)
      case None => None
      case Some(k) => Some(k + 1)
  }

  /** The collection without its element at position `k`. */
  function RemoveAt<T>(s: seq<T>, k: nat): (r: seq<T>)
    requires k < |s|
    ensures |r| == |s| - 1
    ensures forall j | 0 <= j < k :: r[j] == s[j]
    ensures forall j | k <= j < |r| :: r[j] == s[j + 1]
    ensures multiset(r) + multiset{s[k]} == multiset(s)
  {
    assert s == s[..k] + [s[k]] + s[k + 1..];
    s[..k] + s[k + 1..]
  }

  /** The elements of `s` that satisfy `p`, in their order (a query with a filter). */
  function Filter<T>(s: seq<T>, p: T -> bool): (r: seq<T>)
    ensures |r| <= |s|
    ensures forall x | x in r :: x in s && p(x)
    ensures forall x | x in s && p(x) :: x in r
    ensures multiset(r) <= multiset(s)
  {
    if |s| == 0 then []
    else
      var rest := Filter(s[1..], p);
      assert s == [s[0]] + s[1..];
      if p(s[0]) then [s[0]] + rest else rest
  }
}
