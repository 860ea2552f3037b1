/** The worker script that creates a file with initial content (`fileCreationWorker.js`). */
module FileCreationWorker {
  import opened Wrappers
  import opened SearchParams
  import opened Replies

  /** The fields of the message the worker is sent, each as the string that
      `URLSearchParams.append` receives; the request URL only addresses the
      fetch and is not modelled. */
  datatype Request = Request(dir: string, filename: string, content: string)

  /** The `onmessage` handler: four pairs and no `override` pair at all, then
      the try/catch reply. */
  method OnMessage(req: Request, res: Fetched) returns (sent: seq<Pair>, run: Run)
    ensures Names(sent) == ["api", "dir", "filename", "content"]
    ensures Get(sent, "api") == Some("saveFile")
    ensures Get(sent, "dir") == Some(req.dir)
    ensures Get(sent, "filename") == Some(req.filename)
    ensures Get(sent, "content") == Some(req.content)
    ensures Get(sent, "override") == None
    ensures run == TryCatch(res)
  {
    var params := new Params();
    params.Append("api", "saveFile");
    params.Append("dir", req.dir);
    params.Append("filename", req.filename);
    params.Append("content", req.content);
    sent := params.list;
    GetOfDistinct(sent);
    assert sent[0].0 == "api" && sent[1].0 == "dir" && sent[2].0 == "filename" && sent[3].0 == "content";
    GetAllAbsent(sent, "override");
    GetIsFirstOfGetAll(sent, "override");
    run := TryCatch(res);
  }
}
