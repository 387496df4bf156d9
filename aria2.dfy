/** The aria2 JSON-RPC client: request payloads (JSON-RPC 2.0 request objects) and the
    classification of decoded response objects. The HTTP transport and JSON decoding are
    an oracle (`Rpc`) that yields either a transport/decoding failure or a decoded response. */
module Aria2 {
  import opened Wrappers
  import Text

  const AddUri := "aria2.addUri"
  const TellStatus := "aria2.tellStatus"

  const StatusError := "error"
  const StatusWaiting := "waiting"
  const StatusActive := "active"
  const StatusComplete := "complete"

  datatype Client = Client(token: string, serverUrl: string)

  /** The `error` member of a JSON-RPC response object. */
  datatype RpcError = RpcError(code: int, message: string)

  datatype StatusFile = StatusFile(path: string, length: string, completedLength: string)

  datatype StatusResult = StatusResult(gid: string, status: string, errorMessage: string, files: seq<StatusFile>)

  /** A decoded `aria2.tellStatus` response; absent members are `None`. */
  datatype StatusResp = StatusResp(id: string, jsonrpc: string, error: Option<RpcError>, result: Option<StatusResult>)

  /** A decoded `aria2.addUri` response: `result` carries the new job's gid. */
  datatype DownloadResp = DownloadResp(id: string, jsonrpc: string, error: Option<RpcError>, gid: string)

  /** What an HTTP request plus `json.Unmarshal` yields: an error, or the decoded body. */
  datatype Reply<T> = TransportError(message: string) | Decoded(body: T)

  datatype DownloadOption = DownloadOption(out: string, dir: string)

  /** One element of the heterogeneous `params` array. */
  datatype Param = Str(s: string) | Strs(ss: seq<string>) | Opts(options: DownloadOption)

  datatype Payload = Payload(jsonrpc: string, id: string, methodName: string, params: seq<Param>)

  /** The aria2 server as seen through HTTP: its answer to the `n`-th `addUri` payload and to
      the `n`-th `tellStatus` payload of the session (answers change over time, so a repeated
      request may be answered differently). */
  datatype Rpc = Rpc(
    addUri: (string, Payload, nat) -> Reply<DownloadResp>,
    tellStatus: (string, Payload, nat) -> Reply<StatusResp>)

  /** The `(ok, err)` pair returned by `DownloadStatus`. */
  datatype StatusReply = StatusReply(ok: bool, err: Option<string>)

  function NewClient(host: string, port: int, secret: string): Client
  {
    Client(secret, "http://" + host + ":" + Text.Itoa(port) + "/jsonrpc")
  }

  /** The server URL names the configured host and port, and the port can be read back. */
  lemma ServerUrlShape(host: string, port: int, secret: string)
    ensures var c := NewClient(host, port, secret);
      && c.token == secret
      && exists p :: c.serverUrl == "http://" + host + ":" + p + "/jsonrpc" && Text.ParseDecimal(p) == port
  {
    Text.ItoaRoundTrip(port);
  }

  /** The `aria2.tellStatus` request for job `gid`. */
  function StatusPayload(c: Client, gid: string): Payload
  {
    Payload("2.0", "", TellStatus, [Str("token:" + c.token), Str(gid)])
  }

  /** The request that starts a download of `uri` into `outDir/outFilename`; its id is the URI. */
  function DownloadPayload(c: Client, methodName: string, uri: string, outDir: string, outFilename: string): Payload
  {
    Payload("2.0", uri, methodName, [Str("token:" + c.token), Strs([uri]), Opts(DownloadOption(outFilename, outDir))])
  }

  /** The reply is a well-formed status report: no error object and a result about exactly one file. */
  predicate WellFormed(reply: Reply<StatusResp>)
  {
    reply.Decoded? && reply.body.error.None? && reply.body.result.Some? && |reply.body.result.value.files| == 1
  }

  /** Classifies the reply to a `tellStatus` request for job `gid`; `stat` is `os.Stat`'s error
      for a path, or `None` when the path exists. */
  function Classify(gid: string, reply: Reply<StatusResp>, stat: string -> Option<string>): (r: StatusReply)
    // a job is reported finished only when it is complete and its file is on disk
    ensures r.ok <==>
      (WellFormed(reply) && reply.body.result.value.status == StatusComplete
       && stat(reply.body.result.value.files[0].path).None?)
    // never both finished and failed
    ensures r.ok ==> r.err.None?
    // "not finished yet, no error" exactly for waiting and active jobs
    ensures (!r.ok && r.err.None?) <==>
      (WellFormed(reply) && reply.body.result.value.status in {StatusWaiting, StatusActive})
    ensures reply.TransportError? ==> r.err == Some(reply.message)
    ensures (reply.Decoded? && reply.body.error.Some?) ==> r.err == Some(reply.body.error.value.message)
    ensures (reply.Decoded? && reply.body.error.None? && !WellFormed(reply)) ==> r.err == Some("invalid response")
    ensures (WellFormed(reply) && reply.body.result.value.status == StatusError)
      ==> r.err == Some(reply.body.result.value.errorMessage)
    ensures (WellFormed(reply) && reply.body.result.value.status == StatusComplete
             && stat(reply.body.result.value.files[0].path).Some?)
      ==> r.err == Some("download gid: " + gid + ", error: " + stat(reply.body.result.value.files[0].path).value
                        + ", please check aria2 services")
    ensures (WellFormed(reply) && reply.body.result.value.status !in {StatusError, StatusWaiting, StatusActive, StatusComplete})
      ==> r.err == Some("invalid download status: " + reply.body.result.value.status)
  {
    match reply
    case TransportError(m) => StatusReply(false, Some(m))
    case Decoded(resp) =>
      if resp.error.Some? then StatusReply(false, Some(resp.error.value.message))
      else if resp.result.None? || |resp.result.value.files| != 1 then StatusReply(false, Some("invalid response"))
      else
        var result := resp.result.value;
        var filePath := result.files[0].path;
        if result.status == StatusError then StatusReply(false, Some(result.errorMessage))
        else if result.status == StatusWaiting then StatusReply(false, None)
        else if result.status == StatusActive then StatusReply(false, None)
        else if result.status == StatusComplete then
          match stat(filePath)
          case Some(e) => StatusReply(false, Some("download gid: " + gid + ", error: " + e + ", please check aria2 services"))
          case None => StatusReply(true, None)
        else StatusReply(false, Some("invalid download status: " + result.status))
  }

  /** `Client.DownloadStatus`: asks the server for the status of `gid` (the `n`-th query) and classifies the reply. */
  function DownloadStatus(c: Client, rpc: Rpc, stat: string -> Option<string>, gid: string, n: nat): StatusReply
  {
    Classify(gid, rpc.tellStatus(c.serverUrl, StatusPayload(c, gid), n), stat)
  }

  /** The result handling of `Client.DownloadFile`: the gid, unless the request failed or the
      response carries an error object. */
  function StartResult(reply: Reply<DownloadResp>): (r: Result<string>)
    ensures r.Ok? <==> reply.Decoded? && reply.body.error.None?
    ensures r.Ok? ==> r.value == reply.body.gid
    ensures reply.TransportError? ==> r == Err(reply.message)
    ensures reply.Decoded? && reply.body.error.Some? ==> r == Err(reply.body.error.value.message)
  {
    match reply
    case TransportError(m) => Err(m)
    case Decoded(resp) => if resp.error.Some? then Err(resp.error.value.message) else Ok(resp.gid)
  }

  /** `Client.DownloadFile` as the `n`-th download request of the session: asks aria2 to fetch
      `uri` into `outDir/outFilename`. */
  function DownloadFile(c: Client, rpc: Rpc, uri: string, outDir: string, outFilename: string, n: nat): Result<string>
  {
    StartResult(rpc.addUri(c.serverUrl, DownloadPayload(c, AddUri, uri, outDir, outFilename), n))
  }
}
