/** The worker script that fetches the content of one file (`contentLoader.js`). */
module ContentLoader {
  import opened Wrappers
  import opened SearchParams
  import opened Replies

  /** The fields of the message the worker is sent, each as the string that
      `URLSearchParams.append` receives; the request URL only addresses the
      fetch and is not modelled. */
  datatype Request = Request(dir: string, filename: string)

  /** The `onmessage` handler: three pairs; a non-ok status throws and posts
      nothing. */
  method OnMessage(req: Request, res: Fetched) returns (sent: seq<Pair>, run: Run)
    ensures Names(sent) == ["api", "dir", "filename"]
    ensures Get(sent, "api") == Some("getContent")
    ensures Get(sent, "dir") == Some(req.dir)
    ensures Get(sent, "filename") == Some(req.filename)
    ensures run == ThrowIfNotOk(res)
  {
    var params := new Params();
    params.Append("api", "getContent");
    params.Append("dir", req.dir);
    params.Append("filename", req.filename);
    sent := params.list;
    GetOfDistinct(sent);
    assert sent[0].0 == "api" && sent[1].0 == "dir" && sent[2].0 == "filename";
    run := ThrowIfNotOk(res);
  }
}
