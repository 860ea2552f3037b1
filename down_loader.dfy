/** The worker script that downloads a file or a zipped directory
    (`downLoader.js`); the operation name comes from the caller. */
module DownLoader {
  import opened Wrappers
  import opened SearchParams
  import opened Replies

  /** The fields of the message the worker is sent, each as the string that
      `URLSearchParams.append` receives; the request URL only addresses the
      fetch and is not modelled. */
  datatype Request = Request(api: string, dir: string, filename: string)

  /** The `onmessage` handler: three pairs, the first carrying the caller's
      operation name verbatim; the blob is posted whatever the status. */
  method OnMessage(req: Request, res: Fetched) returns (sent: seq<Pair>, run: Run)
    ensures Names(sent) == ["api", "dir", "filename"]
    ensures Get(sent, "api") == Some(req.api)
    ensures Get(sent, "dir") == Some(req.dir)
    ensures Get(sent, "filename") == Some(req.filename)
    ensures run == Unchecked(res)
  {
    var params := new Params();
    params.Append("api", req.api);
    params.Append("dir", req.dir);
    params.Append("filename", req.filename);
    sent := params.list;
    GetOfDistinct(sent);
    assert sent[0].0 == "api" && sent[1].0 == "dir" && sent[2].0 == "filename";
    run := Unchecked(res);
  }
}
