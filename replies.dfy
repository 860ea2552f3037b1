/** What a worker script receives from `fetch` and what it posts back.
    The network is abstract: a request either fails (fetch rejects) or yields
    a response with a status and a body that the worker then reads
    (`res.json()` or `res.blob()`), which may itself fail. */
module Replies {
  import opened Wrappers
  import Decimal

  /** A value a worker can post: what `res.json()` parses (numbers restricted
      to integers) or what `res.blob()` yields. */
  datatype Value =
    | Null
    | Bool(b: bool)
    | Num(n: int)
    | Str(s: string)
    | Arr(items: seq<Value>)
    | Obj(fields: seq<(string, Value)>)
    | Blob(bytes: seq<bv8>)

  /** JavaScript truthiness: null, false, 0 and the empty string are falsy;
      arrays, objects and blobs are truthy even when empty. */
  predicate Truthy(v: Value)
  {
    match v
    case Null => false
    case Bool(b) => b
    case Num(n) => n != 0
    case Str(s) => s != ""
    case _ => true
  }

  /** Truthiness of a property that may be absent (undefined is falsy). */
  predicate IsTruthy(p: Option<Value>)
  {
    p.Some? && Truthy(p.value)
  }

  /** The outcome of reading a response body. */
  datatype Body = Read(value: Value) | ReadFailed(reason: string)

  /** The outcome of `fetch`: a rejection, or a response. */
  datatype Fetched = Rejected(reason: string) | Response(status: nat, body: Body)

  /** `Response.ok`: the status is in the range 200 to 299 (Fetch Standard). */
  predicate IsOk(status: nat)
  {
    200 <= status <= 299
  }

  /** The object a worker passes to `self.postMessage`: `{payload}` or
      `{error}`; an absent property is `None`. */
  datatype Message = Message(error: Option<Value>, payload: Option<Value>)

  function PayloadMessage(v: Value): Message
  {
    Message(None, Some(v))
  }

  function ErrorMessage(text: string): Message
  {
    Message(Some(Str(text)), None)
  }

  /** What one run of a worker's `onmessage` handler does: the messages it
      posts, in order, and the reason of the exception it leaves uncaught, if
      any (an async handler's rejected promise; nothing is posted for it). */
  datatype Run = Run(posts: seq<Message>, thrown: Option<string>)

  /** The message of `new Error(`HTTP ${res.status}`)`. */
  function HttpError(status: nat): string
  {
    "HTTP " + Decimal.Show(status)
  }

  /** Reads the status back out of an error text of the form "HTTP <digits>". */
  function StatusOfError(text: string): Option<nat>
  {
    if |text| > 5 && text[..5] == "HTTP " && Decimal.AllDigits(text[5..])
    then Some(Decimal.Parse(text[5..]))
    else None
  }

  /** The status a non-ok response is reported with can be recovered from the
      error text, so distinct statuses give distinct errors. */
  lemma {:induction false} StatusOfHttpError(status: nat)
    ensures StatusOfError(HttpError(status)) == Some(status)
  {
    var text := HttpError(status);
    assert text[..5] == "HTTP ";
    assert text[5..] == Decimal.Show(status);
    Decimal.ParseShow(status);
  }

  /** The error text is never empty, so the store always sees it as truthy. */
  lemma HttpErrorIsTruthy(status: nat)
    ensures Truthy(Str(HttpError(status)))
  {
  }

  /** The style of the editing, copy/move, creation and search workers: the
      fetch, the status check and the body read sit in one try block whose
      catch posts `{error: err.message}`. */
  function TryCatch(res: Fetched): (r: Run)
    ensures |r.posts| == 1 && r.thrown == None
    ensures r.posts[0].payload.Some? != r.posts[0].error.Some?
    ensures r.posts[0].payload.Some? <==> res.Response? && IsOk(res.status) && res.body.Read?
    ensures res.Response? && IsOk(res.status) && res.body.Read? ==> r.posts[0] == PayloadMessage(res.body.value)
    ensures res.Response? && !IsOk(res.status) ==> r.posts[0] == ErrorMessage(HttpError(res.status))
    ensures res.Rejected? ==> r.posts[0] == ErrorMessage(res.reason)
    ensures res.Response? && IsOk(res.status) && res.body.ReadFailed? ==> r.posts[0] == ErrorMessage(res.body.reason)
  {
    match res
    case Rejected(reason) => Run([ErrorMessage(reason)], None)
    case Response(status, body) =>
      if !IsOk(status) then Run([ErrorMessage(HttpError(status))], None)
      else match body
        case Read(v) => Run([PayloadMessage(v)], None)
        case ReadFailed(reason) => Run([ErrorMessage(reason)], None)
  }

  /** The style of the content and listing loaders: a non-ok status throws
      before anything is posted, and nothing catches the throw. */
  function ThrowIfNotOk(res: Fetched): (r: Run)
    ensures |r.posts| <= 1 && (r.posts == [] <==> r.thrown.Some?)
    ensures forall m :: m in r.posts ==> m.error == None
    ensures r.posts != [] <==> res.Response? && IsOk(res.status) && res.body.Read?
    ensures r.posts != [] ==> r.posts[0] == PayloadMessage(res.body.value)
    ensures res.Response? && !IsOk(res.status) ==> r.thrown == Some(HttpError(res.status))
  {
    match res
    case Rejected(reason) => Run([], Some(reason))
    case Response(status, body) =>
      if !IsOk(status) then Run([], Some(HttpError(status)))
      else match body
        case Read(v) => Run([PayloadMessage(v)], None)
        case ReadFailed(reason) => Run([], Some(reason))
  }

  /** The style of the directory creation worker and the downloader: the
      status is never looked at; whatever body is read is posted. */
  function Unchecked(res: Fetched): (r: Run)
    ensures |r.posts| <= 1 && (r.posts == [] <==> r.thrown.Some?)
    ensures forall m :: m in r.posts ==> m.error == None
    ensures r.posts != [] <==> res.Response? && res.body.Read?
    ensures res.Response? && res.body.Read? ==> r.posts == [PayloadMessage(res.body.value)]
  {
    match res
    case Rejected(reason) => Run([], Some(reason))
    case Response(_, body) =>
      match body
      case Read(v) => Run([PayloadMessage(v)], None)
      case ReadFailed(reason) => Run([], Some(reason))
  }

  /** Without a status check, a response's status makes no difference to the
      run: a 500 with a body posts what a 200 with the same body posts. */
  lemma UncheckedIgnoresStatus(s1: nat, s2: nat, body: Body)
    ensures Unchecked(Response(s1, body)) == Unchecked(Response(s2, body))
  {
  }

  /** The loaders agree with the try/catch style on success and differ only
      in how failures surface: posted as `{error}` there, thrown here. */
  lemma {:induction false} ThrowIfNotOkAgreesOnSuccess(res: Fetched)
    ensures ThrowIfNotOk(res).posts != [] <==> TryCatch(res).posts[0].payload.Some?
    ensures ThrowIfNotOk(res).posts != [] ==> ThrowIfNotOk(res).posts == TryCatch(res).posts
    ensures ThrowIfNotOk(res).thrown.Some? ==> TryCatch(res).posts == [ErrorMessage(ThrowIfNotOk(res).thrown.value)]
  {
    match res
    case Rejected(_) =>
    case Response(status, body) =>
  }
}
