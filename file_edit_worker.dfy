/** The worker script that saves an edited file, possibly under a new name
    (`fileEditWorker.js`). */
module FileEditWorker {
  import opened Wrappers
  import opened SearchParams
  import opened Replies

  /** The fields of the message the worker is sent, each as the string that
      `URLSearchParams.append` receives; the request URL only addresses the
      fetch and is not modelled. */
  datatype Request = Request(dir: string, filename: string, newname: string, content: string, override: string)

  /** The `onmessage` handler: the parameters it sends, given the request,
      and what it posts, given the outcome of the fetch. */
  method OnMessage(req: Request, res: Fetched) returns (sent: seq<Pair>, run: Run)
    ensures Names(sent) == ["api", "dir", "filename", "newname", "content", "override"]
    ensures Get(sent, "api") == Some("editFile")
    ensures Get(sent, "dir") == Some(req.dir)
    ensures Get(sent, "filename") == Some(req.filename)
    ensures req.newname == req.filename ==> Get(sent, "newname") == Some("")
    ensures req.newname != req.filename ==> Get(sent, "newname") == Some(req.newname)
    ensures Get(sent, "content") == Some(req.content)
    ensures Get(sent, "override") == Some(req.override)
    ensures run == TryCatch(res)
  {
    var params := new Params();
    params.Append("api", "editFile");
    params.Append("dir", req.dir);
    params.Append("filename", req.filename);
    params.Append("newname", if req.newname == req.filename then "" else req.newname);
    params.Append("content", req.content);
    params.Append("override", req.override);
    sent := params.list;
    GetOfDistinct(sent);
    assert sent[0].0 == "api" && sent[1].0 == "dir" && sent[2].0 == "filename";
    assert sent[3].0 == "newname" && sent[4].0 == "content" && sent[5].0 == "override";
    run := TryCatch(res);
  }
}
