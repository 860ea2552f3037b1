/** The worker script that lists one directory (`fileLoader.js`). */
module FileLoader {
  import opened Wrappers
  import opened SearchParams
  import opened Replies

  /** The fields of the message the worker is sent, each as the string that
      `URLSearchParams.append` receives; the request URL only addresses the
      fetch and is not modelled. */
  datatype Request = Request(dir: string)

  /** The `onmessage` handler: two pairs; a non-ok status throws and posts
      nothing. */
  method OnMessage(req: Request, res: Fetched) returns (sent: seq<Pair>, run: Run)
    ensures Names(sent) == ["api", "dir"]
    ensures Get(sent, "api") == Some("getFiles")
    ensures Get(sent, "dir") == Some(req.dir)
    ensures run == ThrowIfNotOk(res)
  {
    var params := new Params();
    params.Append("api", "getFiles");
    params.Append("dir", req.dir);
    sent := params.list;
    GetOfDistinct(sent);
    assert sent[0].0 == "api" && sent[1].0 == "dir";
    run := ThrowIfNotOk(res);
  }
}
