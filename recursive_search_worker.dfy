/** The worker script that asks the server for a recursive search below a
    directory (`recursiveSearchWorker.js`). */
module RecursiveSearchWorker {
  import opened Wrappers
  import opened SearchParams
  import opened Replies

  /** The fields of the message the worker is sent, each as the string that
      `URLSearchParams.append` receives; the request URL only addresses the
      fetch and is not modelled. */
  datatype Request = Request(dir: string, pattern: string)

  /** The `onmessage` handler: three pairs, then the try/catch reply. */
  method OnMessage(req: Request, res: Fetched) returns (sent: seq<Pair>, run: Run)
    ensures Names(sent) == ["api", "dir", "pattern"]
    ensures Get(sent, "api") == Some("searchItems")
    ensures Get(sent, "dir") == Some(req.dir)
    ensures Get(sent, "pattern") == Some(req.pattern)
    ensures run == TryCatch(res)
  {
    var params := new Params();
    params.Append("api", "searchItems");
    params.Append("dir", req.dir);
    params.Append("pattern", req.pattern);
    sent := params.list;
    GetOfDistinct(sent);
    assert sent[0].0 == "api" && sent[1].0 == "dir" && sent[2].0 == "pattern";
    run := TryCatch(res);
  }
}
