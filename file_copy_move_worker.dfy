/** The worker script that copies or moves a list of files to another
    directory (`fileCopyMoveWorker.js`). */
module FileCopyMoveWorker {
  import opened Wrappers
  import opened SearchParams
  import opened Replies

  /** The fields of the message the worker is sent; `files` is the list of
      names to copy or move, `action` the string the caller chose. */
  datatype Request = Request(dir: string, destination: string, files: seq<string>, action: string)

  /** The `onmessage` handler: a fixed prefix of four pairs, then one
      `filenames[]` pair per file, in list order, duplicates included. */
  method OnMessage(req: Request, res: Fetched) returns (sent: seq<Pair>, run: Run)
    ensures |sent| >= 4 && sent[0].0 == "api" && sent[1].0 == "dir" && sent[2].0 == "destination" && sent[3].0 == "action"
    ensures Get(sent, "api") == Some("copyMove")
    ensures Get(sent, "dir") == Some(req.dir)
    ensures Get(sent, "destination") == Some(req.destination)
    ensures Get(sent, "action") == Some(req.action)
    ensures |sent| == 4 + |req.files| && forall i :: 0 <= i < |req.files| ==> sent[4 + i] == ("filenames[]", req.files[i])
    ensures GetAll(sent, "filenames[]") == req.files
    ensures run == TryCatch(res)
  {
    var params := new Params();
    params.Append("api", "copyMove");
    params.Append("dir", req.dir);
    params.Append("destination", req.destination);
    params.Append("action", req.action);
    var prefix := params.list;
    assert Names(prefix) == ["api", "dir", "destination", "action"];
    GetAllAbsent(prefix, "filenames[]");
    for i := 0 to |req.files|
      invariant |params.list| == 4 + i && params.list[..4] == prefix
      invariant forall k :: 0 <= k < i ==> params.list[4 + k] == ("filenames[]", req.files[k])
    {
      params.Append("filenames[]", req.files[i]);
    }
    sent := params.list;
    var rest := sent[4..];
    assert sent == prefix + rest;
    GetAllOfOneName(rest, "filenames[]", req.files);
    GetAllAppend(prefix, rest, "filenames[]");
    PrefixGet(prefix, rest);
    assert prefix[0].0 == "api" && prefix[1].0 == "dir" && prefix[2].0 == "destination" && prefix[3].0 == "action";
    run := TryCatch(res);
  }
}
