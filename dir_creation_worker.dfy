/** The worker script that creates a directory (`dirCreationWorker.js`). */
module DirCreationWorker {
  import opened Wrappers
  import opened SearchParams
  import opened Replies

  /** The fields of the message the worker is sent, each as the string that
      `URLSearchParams.append` receives; the request URL only addresses the
      fetch and is not modelled. */
  datatype Request = Request(dir: string, dirname: string)

  /** The `onmessage` handler: three pairs; the parsed body is posted whatever
      the status. */
  method OnMessage(req: Request, res: Fetched) returns (sent: seq<Pair>, run: Run)
    ensures Names(sent) == ["api", "dir", "dirname"]
    ensures Get(sent, "api") == Some("createDir")
    ensures Get(sent, "dir") == Some(req.dir)
    ensures Get(sent, "dirname") == Some(req.dirname)
    ensures run == Unchecked(res)
  {
    var params := new Params();
    params.Append("api", "createDir");
    params.Append("dir", req.dir);
    params.Append("dirname", req.dirname);
    sent := params.list;
    GetOfDistinct(sent);
    assert sent[0].0 == "api" && sent[1].0 == "dir" && sent[2].0 == "dirname";
    run := Unchecked(res);
  }
}
