/** The download job loop: `DownloadFiles` registers the URLs, and `checkDownload` starts
    aria2 jobs one at a time in submission order and polls them until all succeed or one fails.
    The feeder goroutine, the channels and the ticker are folded into one sequential
    state machine: one handler per `select` case (`OnSignal`, `OnPoll`, `OnTick`), driven
    by `CheckDownload` for a bounded number of turns. */
module Downloader {
  import opened Wrappers
  import FilePath
  import Aria2

  /** `Status` values of a job: 0 while not finished, 1 after success, -1 after a failed poll. */
  const StatusNone := 0
  const StatusSucceeded := 1
  const StatusFailed := -1

  datatype DownloadInfo = DownloadInfo(dirPath: string, fileUrl: string, gid: string, status: int, err: Option<string>)

  /** What `os.Stat` says about the destination directory. */
  datatype DirStat = StatError(message: string) | NotDir | IsDir

  /** How the job loop ended: all jobs done, an error, or still running when the step bound ran out. */
  datatype Verdict = Finished | Aborted(error: string) | Unfinished

  /** `downloadFile`'s destination file name: the URL's base name followed by the optional format suffix. */
  function JobFileName(fileUrl: string, format: seq<string>): string
  {
    FilePath.Base(fileUrl) + (if |format| > 0 then format[0] else "")
  }

  /** The job for `fileUrl` asks aria2 to write `Base(fileUrl) + ".car"` directly inside `dirPath`. */
  lemma JobDestination(c: Aria2.Client, fileUrl: string, dirPath: string)
    ensures var out := JobFileName(fileUrl, [".car"]);
      && Aria2.DownloadPayload(c, Aria2.AddUri, fileUrl, dirPath, out).params[2]
         == Aria2.Opts(Aria2.DownloadOption(FilePath.Base(fileUrl) + ".car", dirPath))
      && FilePath.Ext(out) == ".car"
      && (FilePath.Base(fileUrl) != "/" ==> '/' !in out)
  {
    var b := FilePath.Base(fileUrl);
    assert b + ".car" == b + "." + "car";
    FilePath.ExtOfSuffix(b, "car");
  }

  /** The job table `m` has one entry per distinct URL of `q` (its keys are `keys`), each naming
      its URL and the directory `dir`. */
  ghost predicate Registry(m: map<string, DownloadInfo>, q: seq<string>, keys: set<string>, dir: string)
  {
    && m.Keys == keys
    && (forall i :: 0 <= i < |q| ==> q[i] in keys)
    && (forall u :: u in m ==> m[u].fileUrl == u && m[u].dirPath == dir)
  }

  /** The first `n` URLs of `q` are all recorded as succeeded. */
  ghost predicate AllSucceeded(m: map<string, DownloadInfo>, q: seq<string>, n: nat)
  {
    forall i :: 0 <= i < n && i < |q| ==> q[i] in m && m[q[i]].status == StatusSucceeded
  }

  /** The job table `DownloadFiles` starts from: a fresh entry per distinct URL. */
  function InitialTable(dirPath: string, fileURLs: seq<string>): (m: map<string, DownloadInfo>)
    ensures forall u :: u in m <==> u in fileURLs
    ensures forall u :: u in m ==> m[u] == DownloadInfo(dirPath, u, "", StatusNone, None)
  {
    map u | u in fileURLs :: DownloadInfo(dirPath, u, "", StatusNone, None)
  }

  lemma InitialRegistry(dirPath: string, fileURLs: seq<string>)
    ensures Registry(InitialTable(dirPath, fileURLs), fileURLs, InitialTable(dirPath, fileURLs).Keys, dirPath)
  {
    var m := InitialTable(dirPath, fileURLs);
    assert forall i :: 0 <= i < |fileURLs| ==> fileURLs[i] in m;
  }

  /** Replacing an entry by one for the same URL and directory keeps the registry. */
  lemma RegistryUpdate(m: map<string, DownloadInfo>, q: seq<string>, keys: set<string>, dir: string, info: DownloadInfo)
    requires Registry(m, q, keys, dir) && info.fileUrl in m && info.dirPath == dir
    ensures Registry(m[info.fileUrl := info], q, keys, dir)
  {
    assert m[info.fileUrl := info].Keys == m.Keys;
  }

  /** Replacing an entry without changing its status keeps every recorded success. */
  lemma AllSucceededKeep(m: map<string, DownloadInfo>, q: seq<string>, n: nat, u: string, info: DownloadInfo)
    requires AllSucceeded(m, q, n) && u in m && info.status == m[u].status
    ensures AllSucceeded(m[u := info], q, n)
  {
  }

  /** Marking the next URL succeeded extends the succeeded prefix by one. */
  lemma AllSucceededNext(m: map<string, DownloadInfo>, q: seq<string>, n: nat, info: DownloadInfo)
    requires AllSucceeded(m, q, n) && n < |q| && info.status == StatusSucceeded
    ensures AllSucceeded(m[q[n] := info], q, n + 1)
  {
  }

  /** Marking a URL failed keeps the success of every earlier entry for another URL. */
  lemma AllSucceededOthers(m: map<string, DownloadInfo>, q: seq<string>, n: nat, info: DownloadInfo)
    requires AllSucceeded(m, q, n) && n < |q|
    ensures forall i :: 0 <= i < n && q[i] != q[n] ==> m[q[n] := info][q[i]].status == StatusSucceeded
  {
  }

  // ---------------------------------------------------------------------------------------
  // The job loop as a function of aria2's answers

  /** The aria2 side of one `DownloadFiles` call: the client, the server, `os.Stat` and the
      destination directory. */
  datatype Jobs = Jobs(client: Aria2.Client, rpc: Aria2.Rpc, stat: string -> Option<string>, dir: string)

  /** aria2's answer to starting the job for `fileUrl` as the `n`-th start of the session. */
  function Start(j: Jobs, fileUrl: string, n: nat): Result<string>
  {
    Aria2.DownloadFile(j.client, j.rpc, fileUrl, j.dir, JobFileName(fileUrl, [".car"]), n)
  }

  /** aria2's answer to the `n`-th status query of the session, about job `gid`. */
  function Query(j: Jobs, gid: string, n: nat): Aria2.StatusReply
  {
    Aria2.DownloadStatus(j.client, j.rpc, j.stat, gid, n)
  }

  /** What aria2 answers to the `n`-th start (of the job for a URL) and to the `n`-th status
      query (about a gid); the loop's behaviour depends on nothing else. */
  datatype Answers = Answers(start: (string, nat) -> Result<string>, query: (string, nat) -> Aria2.StatusReply)

  function AnswersOf(j: Jobs): Answers
  {
    Answers((u, k: nat) => Start(j, u, k), (g, n: nat) => Query(j, g, n))
  }

  /** The gid recorded for the job started for `fileUrl` as the `k`-th start (empty when the
      start failed). */
  function Gid(a: Answers, fileUrl: string, k: nat): string
  {
    var r := a.start(fileUrl, k);
    if r.Ok? then r.value else ""
  }

  /** Where the loop stands: waiting for the start signal, with the job in flight queued for a
      poll, or with it parked until the next tick. */
  datatype Phase = Starting | Polling | Waiting

  /** How many URLs were handed over, the phase, and how many status queries were made. */
  datatype Position = Position(sent: nat, phase: Phase, polls: nat)

  /** One turn's result: the loop goes on from a new position, or ends with a verdict. */
  datatype Move = Next(pos: Position) | Stop(verdict: Verdict)

  /** The positions the loop can be in for the URL list `q`: a job is in flight only after
      one was handed over. */
  predicate Reachable(q: seq<string>, p: Position)
  {
    p.sent <= |q| && (p.phase != Starting ==> 0 < p.sent)
  }

  /** One turn of `checkDownload`, given aria2's answers. */
  function Advance(a: Answers, q: seq<string>, p: Position): (m: Move)
    requires Reachable(q, p)
    ensures m.Next? ==> Reachable(q, m.pos) && p.sent <= m.pos.sent <= p.sent + 1 && p.polls <= m.pos.polls
    ensures m.Stop? ==> m.verdict != Unfinished
    // a job is handed over only at the start signal, and only when it starts
    ensures m.Next? && m.pos.sent != p.sent ==> p.phase == Starting && a.start(q[p.sent], p.sent).Ok?
    // the loop ends with success only at the start signal, when every URL was handed over
    ensures m == Stop(Finished) <==> p.phase == Starting && p.sent == |q|
  {
    match p.phase
    case Starting =>
      if p.sent == |q| then Stop(Finished)
      else
        var r := a.start(q[p.sent], p.sent);
        if r.Err? then Stop(Aborted(r.error)) else Next(Position(p.sent + 1, Polling, p.polls))
    case Polling =>
      var s := a.query(Gid(a, q[p.sent - 1], p.sent - 1), p.polls);
      if !s.ok && s.err.None? then Next(Position(p.sent, Waiting, p.polls + 1))
      else if s.err.Some? then Stop(Aborted(s.err.value))
      else Next(Position(p.sent, Starting, p.polls + 1))
    case Waiting =>
      Next(Position(p.sent, Polling, p.polls))
  }

  /** The verdict of at most `fuel` turns from `p`. */
  function Run(a: Answers, q: seq<string>, p: Position, fuel: nat): Verdict
    requires Reachable(q, p)
    decreases fuel
  {
    if fuel == 0 then Unfinished
    else
      match Advance(a, q, p)
      case Stop(v) => v
      case Next(p') => Run(a, q, p', fuel - 1)
  }

  /** `DownloadFiles`' verdict: the directory check, then the job loop from the first URL. */
  function Downloads(a: Answers, dirStat: DirStat, q: seq<string>, fuel: nat): Verdict
  {
    match dirStat
    case StatError(m) => Aborted(m)
    case NotDir => Aborted("dir path is not a directory")
    case IsDir => Run(a, q, Position(0, Starting, 0), fuel)
  }

  /** Two sets of answers agree on every start and every status query. */
  ghost predicate Agree(a: Answers, b: Answers)
  {
    && (forall u, k :: a.start(u, k) == b.start(u, k))
    && (forall g, n :: a.query(g, n) == b.query(g, n))
  }

  /** The loop depends on aria2's answers only: answers that agree give the same verdict. */
  lemma {:induction false} RunAgree(a: Answers, b: Answers, q: seq<string>, p: Position, fuel: nat)
    requires Agree(a, b) && Reachable(q, p)
    ensures Run(a, q, p, fuel) == Run(b, q, p, fuel)
    decreases fuel
  {
    if fuel > 0 {
      if p.phase == Polling {
        assert Gid(a, q[p.sent - 1], p.sent - 1) == Gid(b, q[p.sent - 1], p.sent - 1);
      }
      var m := Advance(a, q, p);
      assert m == Advance(b, q, p);
      if m.Next? {
        RunAgree(a, b, q, m.pos, fuel - 1);
      }
    }
  }

  lemma DownloadsAgree(a: Answers, b: Answers, dirStat: DirStat, q: seq<string>, fuel: nat)
    requires dirStat.IsDir? ==> Agree(a, b)
    ensures Downloads(a, dirStat, q, fuel) == Downloads(b, dirStat, q, fuel)
  {
    if dirStat.IsDir? {
      RunAgree(a, b, q, Position(0, Starting, 0), fuel);
    }
  }

  /** Each of the first `k` jobs of `q` starts, and its first status query (the `i`-th of the
      session) reports it done without error. */
  ghost predicate GoodPrefix(a: Answers, q: seq<string>, k: nat)
    requires k <= |q|
  {
    forall i :: 0 <= i < k ==>
      a.start(q[i], i).Ok? && a.query(Gid(a, q[i], i), i).ok && a.query(Gid(a, q[i], i), i).err.None?
  }

  /** Jobs that start and finish at their first poll take two turns each. */
  lemma {:induction false} RunPrefix(a: Answers, q: seq<string>, m: nat, k: nat, fuel: nat)
    requires m <= k <= |q| && GoodPrefix(a, q, k) && 2 * (k - m) <= fuel
    ensures Run(a, q, Position(m, Starting, m), fuel) == Run(a, q, Position(k, Starting, k), fuel - 2 * (k - m))
    decreases k - m
  {
    if m < k {
      var p1 := Position(m + 1, Polling, m);
      assert Advance(a, q, Position(m, Starting, m)) == Next(p1);
      assert Advance(a, q, p1) == Next(Position(m + 1, Starting, m + 1));
      RunPrefix(a, q, m + 1, k, fuel - 2);
    }
  }

  /** When every job starts and finishes at its first poll, `2 * |q| + 1` turns end the loop
      with success. */
  lemma RunAllSucceed(a: Answers, q: seq<string>, fuel: nat)
    requires GoodPrefix(a, q, |q|) && 2 * |q| + 1 <= fuel
    ensures Run(a, q, Position(0, Starting, 0), fuel) == Finished
  {
    RunPrefix(a, q, 0, |q|, fuel);
  }

  /** The first job that fails to start ends the loop with aria2's error, before any later job. */
  lemma RunStartFails(a: Answers, q: seq<string>, k: nat, fuel: nat)
    requires k < |q| && GoodPrefix(a, q, k) && a.start(q[k], k).Err? && 2 * k + 1 <= fuel
    ensures Run(a, q, Position(0, Starting, 0), fuel) == Aborted(a.start(q[k], k).error)
  {
    RunPrefix(a, q, 0, k, fuel);
  }

  /** A started job whose status query reports an error ends the loop with that error. */
  lemma RunQueryFails(a: Answers, q: seq<string>, k: nat, fuel: nat)
    requires k < |q| && GoodPrefix(a, q, k) && a.start(q[k], k).Ok?
    requires a.query(Gid(a, q[k], k), k).err.Some? && 2 * k + 2 <= fuel
    ensures Run(a, q, Position(0, Starting, 0), fuel) == Aborted(a.query(Gid(a, q[k], k), k).err.value)
  {
    RunPrefix(a, q, 0, k, fuel);
    var p1 := Position(k + 1, Polling, k);
    assert Advance(a, q, Position(k, Starting, k)) == Next(p1);
  }

  /** A job reported "not yet, no error" is parked and polled again after the next tick. */
  lemma RunRetries(a: Answers, q: seq<string>, p: Position, fuel: nat)
    requires Reachable(q, p) && p.phase == Polling && 2 <= fuel
    requires var s := a.query(Gid(a, q[p.sent - 1], p.sent - 1), p.polls); !s.ok && s.err.None?
    ensures Run(a, q, p, fuel) == Run(a, q, Position(p.sent, Polling, p.polls + 1), fuel - 2)
  {
    assert Advance(a, q, p) == Next(Position(p.sent, Waiting, p.polls + 1));
  }

  /** Success means every URL from the current one on started without error. */
  lemma {:induction false} RunFinishedStarted(a: Answers, q: seq<string>, p: Position, fuel: nat)
    requires Reachable(q, p) && Run(a, q, p, fuel) == Finished
    ensures forall i :: p.sent <= i < |q| ==> a.start(q[i], i).Ok?
    decreases fuel
  {
    var m := Advance(a, q, p);
    if m.Next? {
      RunFinishedStarted(a, q, m.pos, fuel - 1);
    }
  }

  /** `e` is aria2's answer to starting, or to some status query about, one of the URLs of `q`. */
  ghost predicate AnsweredError(a: Answers, q: seq<string>, e: string)
  {
    || (exists i: nat :: i < |q| && a.start(q[i], i) == Err(e))
    || (exists i: nat, n: nat :: i < |q| && a.query(Gid(a, q[i], i), n).err == Some(e))
  }

  /** An abort's error is aria2's answer to starting, or to a status query about, one of the URLs. */
  lemma {:induction false} RunAbortedCause(a: Answers, q: seq<string>, p: Position, fuel: nat)
    requires Reachable(q, p) && Run(a, q, p, fuel).Aborted?
    ensures AnsweredError(a, q, Run(a, q, p, fuel).error)
    decreases fuel
  {
    var e := Run(a, q, p, fuel).error;
    var m := Advance(a, q, p);
    if m.Next? {
      assert Run(a, q, p, fuel) == Run(a, q, m.pos, fuel - 1);
      RunAbortedCause(a, q, m.pos, fuel - 1);
    } else if p.phase == Starting {
      assert a.start(q[p.sent], p.sent) == Err(e);
    } else {
      assert a.query(Gid(a, q[p.sent - 1], p.sent - 1), p.polls).err == Some(e);
    }
  }

  class Downloader {
    var total: int
    const maxNum: nat
    var statusMap: map<string, DownloadInfo>
    const client: Aria2.Client
    /** `downloadFile(dirPath, fileURL, format...)` as the `n`-th start of the session: starts an
        aria2 job, yielding its gid. */
    const downloadFile: (string, string, seq<string>, nat) -> Result<string>
    /** `downloadStatus(gid)` as the `n`-th status query of the session. */
    const downloadStatus: (string, nat) -> Aria2.StatusReply

    // The feeder goroutine's state and the coordinating loop's view of the channels.
    /** The URLs handed to the feeder, in submission order. */
    var queue: seq<string>
    /** The feeder's index: how many URLs it has handed over on `preChan`. */
    var sent: nat
    /** A value is waiting on `finishChan`. */
    var signalled: bool
    /** Jobs queued on `inChan` for a status poll. */
    var inbox: seq<string>
    /** Jobs whose last poll said "not yet" (`temp`). */
    var parked: seq<string>
    /** Number of status queries made so far. */
    var polls: nat

    ghost var dir: string
    /** The distinct submitted URLs. */
    ghost var keys: set<string>
    /** What aria2 answers in this session (see `Linked`). */
    ghost var session: Answers

    /** `session` is what the two job operations answer for jobs written into `d`. */
    ghost predicate Serves(d: string)
      reads this
    {
      && (forall u, k :: session.start(u, k) == downloadFile(d, u, [".car"], k))
      && (forall g, n :: session.query(g, n) == downloadStatus(g, n))
    }

    /** `session` is what the job operations answer for this session's directory. */
    ghost predicate Linked()
      reads this
    {
      Serves(dir)
    }

    /** The loop's position: the start signal is pending, or the job in flight is queued or parked. */
    ghost function Abs(): Position
      reads this
    {
      Position(sent, if signalled then Starting else if inbox != [] then Polling else Waiting, polls)
    }

    /** Jobs that have succeeded: all started ones, except the one in flight. */
    ghost function Succeeded(): nat
      reads this
    {
      if signalled || sent == 0 then sent else sent - 1
    }

    /** The job table holds one entry per distinct submitted URL, naming that URL and the directory. */
    ghost predicate Registered()
      reads this
    {
      Registry(statusMap, queue, keys, dir)
    }

    /** At most one job is in flight: either the start signal is pending and every job handed
        over has succeeded, or the last one handed over is queued or parked and `total` still
        counts it. */
    ghost predicate Valid()
      reads this
      ensures Valid() ==> |inbox| + |parked| <= 1 && sent <= |queue| && Reachable(queue, Abs())
    {
      && sent <= |queue|
      && Registry(statusMap, queue, keys, dir)
      && (signalled ==> inbox == [] && parked == [] && total == |queue| - sent)
      && (!signalled ==>
            && 0 < sent && total == |queue| - sent + 1
            && |inbox| + |parked| == 1
            && (inbox != [] ==> inbox[0] == queue[sent - 1])
            && (parked != [] ==> parked[0] == queue[sent - 1])
            && statusMap[queue[sent - 1]].gid == Gid(session, queue[sent - 1], sent - 1))
      && AllSucceeded(statusMap, queue, Succeeded())
    }

    /** `NewDownloader`; `rpc` is the aria2 server and `stat` is `os.Stat`'s error for a path
        (`None` when it exists). The two job operations go through `client`. */
    constructor (max: nat, client: Aria2.Client, rpc: Aria2.Rpc, stat: string -> Option<string>)
      ensures maxNum == max && this.client == client
      ensures forall d, u, f, n :: downloadFile(d, u, f, n) == Aria2.DownloadFile(client, rpc, u, d, JobFileName(u, f), n)
      ensures forall g, n :: downloadStatus(g, n) == Aria2.DownloadStatus(client, rpc, stat, g, n)
      ensures total == 0 && statusMap == map[]
    {
      maxNum := max;
      this.client := client;
      this.downloadFile := (d: string, u: string, f: seq<string>, n: nat) => Aria2.DownloadFile(client, rpc, u, d, JobFileName(u, f), n);
      this.downloadStatus := (g: string, n: nat) => Aria2.DownloadStatus(client, rpc, stat, g, n);
      total := 0;
      statusMap := map[];
      queue, sent, signalled, inbox, parked, polls := [], 0, false, [], [], 0;
      dir, keys := "", {};
      session := Answers((u, k: nat) => Err(""), (g, n: nat) => Aria2.StatusReply(false, None));
    }

    /** The set-up part of `DownloadFiles`: one entry per distinct URL, a count of all URLs,
        the feeder loaded with the URLs in order, and the start signal sent. */
    method Init(dirPath: string, fileURLs: seq<string>)
      modifies this
      ensures Valid()
      ensures total == |fileURLs|
      ensures statusMap == InitialTable(dirPath, fileURLs)
      ensures queue == fileURLs && sent == 0 && signalled && inbox == [] && parked == [] && polls == 0
      ensures dir == dirPath && Linked()
    {
      total := |fileURLs|;
      statusMap := InitialTable(dirPath, fileURLs);
      InitialRegistry(dirPath, fileURLs);
      queue, sent, signalled, inbox, parked, polls := fileURLs, 0, true, [], [], 0;
      dir := dirPath;
      keys := statusMap.Keys;
      session := Answers((u, k: nat) => downloadFile(dirPath, u, [".car"], k), downloadStatus);
    }

    /** The start-signal case of `checkDownload`'s `select`: it is ready only when no job is in
        flight. With nothing left to do the loop ends; otherwise the next URL in submission order
        is started, and a failure to start it ends the loop with that error. */
    method OnSignal() returns (exit: Option<Verdict>)
      requires Valid() && Linked() && signalled
      modifies this
      ensures queue == old(queue) && dir == old(dir) && keys == old(keys) && session == old(session) && polls == old(polls)
      ensures Registered()
      ensures exit.None? ==> Valid()
      ensures old(total) == 0 ==>
        && exit == Some(Finished) && sent == |queue| && total == 0 && statusMap == old(statusMap)
        && forall i :: 0 <= i < |queue| ==> statusMap[queue[i]].status == StatusSucceeded
      ensures old(total) != 0 ==>
        && sent == old(sent) + 1 && !signalled && total == old(total) && parked == []
        && var u := queue[old(sent)];
           var r := session.start(u, old(sent));
           && statusMap == old(statusMap)[u := old(statusMap)[u].(gid := if r.Ok? then r.value else "",
                                                                 err := if r.Ok? then None else Some(r.error))]
           && (r.Err? ==> exit == Some(Aborted(r.error)))
           && (r.Ok? ==> exit.None? && inbox == [u])
      // the job started, successful or not, comes after jobs that all succeeded
      ensures old(total) != 0 ==>
        forall i :: 0 <= i < sent - 1 && queue[i] != queue[sent - 1] ==> statusMap[queue[i]].status == StatusSucceeded
      ensures var m := Advance(session, queue, old(Abs()));
        && (m.Stop? ==> exit == Some(m.verdict))
        && (m.Next? ==> exit.None? && Abs() == m.pos)
    {
      if total == 0 {
        signalled := false;
        return Some(Finished);
      }
      var u := queue[sent];
      var r := downloadFile(statusMap[u].dirPath, u, [".car"], sent);
      exit := Begin(r);
    }

    /** Hands the next URL over from the feeder and records the outcome `r` of starting its job. */
    method Begin(r: Result<string>) returns (exit: Option<Verdict>)
      requires Valid() && signalled && total != 0 && r == session.start(queue[sent], sent)
      modifies this
      ensures queue == old(queue) && dir == old(dir) && keys == old(keys) && session == old(session) && polls == old(polls)
      ensures Registered()
      ensures exit.None? ==> Valid()
      ensures sent == old(sent) + 1 && !signalled && total == old(total) && parked == []
      ensures var u := queue[old(sent)];
        && statusMap == old(statusMap)[u := old(statusMap)[u].(gid := if r.Ok? then r.value else "",
                                                              err := if r.Ok? then None else Some(r.error))]
        && (r.Err? ==> exit == Some(Aborted(r.error)))
        && (r.Ok? ==> exit.None? && inbox == [u])
      ensures AllSucceeded(statusMap, queue, sent - 1)
    {
      var u := queue[sent];
      var info := statusMap[u];
      var gid := if r.Ok? then r.value else "";
      var err := if r.Ok? then None else Some(r.error);
      var info' := info.(gid := gid, err := err);
      RegistryUpdate(statusMap, queue, keys, dir, info');
      AllSucceededKeep(statusMap, queue, sent, u, info');
      sent := sent + 1;
      signalled := false;
      statusMap := statusMap[u := info'];
      if r.Err? {
        return Some(Aborted(r.error));
      }
      inbox := [u];
      return None;
    }

    /** The `inChan` case: polls the queued job. "Not finished, no error" parks it; an error marks
        it failed and ends the loop with that error; success marks it done, counts it off `total`
        and signals that the next job may start. */
    method OnPoll() returns (exit: Option<Verdict>)
      requires Valid() && Linked() && !signalled && inbox != []
      modifies this
      ensures queue == old(queue) && dir == old(dir) && keys == old(keys) && session == old(session) && sent == old(sent)
      ensures Registered()
      ensures exit.None? ==> Valid()
      ensures polls == old(polls) + 1 && inbox == []
      ensures var u := old(inbox)[0];
        var s := session.query(Gid(session, u, sent - 1), old(polls));
        && u == queue[sent - 1]
        && (!s.ok && s.err.None? ==>
              exit.None? && parked == [u] && !signalled && statusMap == old(statusMap) && total == old(total))
        && (s.err.Some? ==>
              exit == Some(Aborted(s.err.value))
              && statusMap == old(statusMap)[u := old(statusMap)[u].(status := StatusFailed, err := s.err)])
        && (s.ok && s.err.None? ==>
              exit.None? && signalled && parked == [] && total == old(total) - 1
              && statusMap == old(statusMap)[u := old(statusMap)[u].(status := StatusSucceeded)])
      // a failed job comes after jobs that all succeeded
      ensures exit.Some? ==>
        forall i :: 0 <= i < sent - 1 && queue[i] != queue[sent - 1] ==> statusMap[queue[i]].status == StatusSucceeded
      ensures var m := Advance(session, queue, old(Abs()));
        && (m.Stop? ==> exit == Some(m.verdict))
        && (m.Next? ==> exit.None? && Abs() == m.pos)
    {
      var s := downloadStatus(statusMap[inbox[0]].gid, polls);
      assert s == session.query(Gid(session, inbox[0], sent - 1), polls);
      exit := Settle(s);
    }

    /** Takes the queued job off `inChan` and applies the answer `s` to its status query. */
    method Settle(s: Aria2.StatusReply) returns (exit: Option<Verdict>)
      requires Valid() && !signalled && inbox != [] && s == session.query(Gid(session, inbox[0], sent - 1), polls)
      modifies this
      ensures queue == old(queue) && dir == old(dir) && keys == old(keys) && session == old(session) && sent == old(sent)
      ensures Registered()
      ensures exit.None? ==> Valid()
      ensures polls == old(polls) + 1 && inbox == []
      ensures var u := old(inbox)[0];
        && u == queue[sent - 1]
        && (!s.ok && s.err.None? ==>
              exit.None? && parked == [u] && !signalled && statusMap == old(statusMap) && total == old(total))
        && (s.err.Some? ==>
              exit == Some(Aborted(s.err.value))
              && statusMap == old(statusMap)[u := old(statusMap)[u].(status := StatusFailed, err := s.err)])
        && (s.ok && s.err.None? ==>
              exit.None? && signalled && parked == [] && total == old(total) - 1
              && statusMap == old(statusMap)[u := old(statusMap)[u].(status := StatusSucceeded)])
      ensures exit.Some? ==>
        forall i :: 0 <= i < sent - 1 && queue[i] != queue[sent - 1] ==> statusMap[queue[i]].status == StatusSucceeded
      ensures var m := Advance(session, queue, old(Abs()));
        && (m.Stop? ==> exit == Some(m.verdict))
        && (m.Next? ==> exit.None? && Abs() == m.pos)
    {
      if !s.ok && s.err.None? {
        Park();
        exit := None;
      } else if s.err.Some? {
        exit := Fail(s.err.value);
      } else {
        Succeed();
        exit := None;
      }
    }

    /** "Not finished, no error": the polled job moves to `temp`. */
    method Park()
      requires Valid() && !signalled && inbox != []
      modifies this
      ensures Valid()
      ensures polls == old(polls) + 1 && inbox == [] && parked == old(inbox) && signalled == old(signalled)
      ensures queue == old(queue) && dir == old(dir) && keys == old(keys) && session == old(session) && sent == old(sent)
      ensures statusMap == old(statusMap) && total == old(total)
    {
      parked := inbox;
      inbox := [];
      polls := polls + 1;
    }

    /** The poll reported error `e`: the job is marked failed with that error. */
    method Fail(e: string) returns (exit: Option<Verdict>)
      requires Valid() && !signalled && inbox != []
      modifies this
      ensures Registered() && exit == Some(Aborted(e))
      ensures polls == old(polls) + 1 && inbox == []
      ensures queue == old(queue) && dir == old(dir) && keys == old(keys) && session == old(session) && sent == old(sent)
      ensures var u := old(inbox)[0];
        statusMap == old(statusMap)[u := old(statusMap)[u].(status := StatusFailed, err := Some(e))]
      ensures forall i :: 0 <= i < sent - 1 && queue[i] != queue[sent - 1] ==> statusMap[queue[i]].status == StatusSucceeded
    {
      var u := inbox[0];
      var info := statusMap[u].(status := StatusFailed, err := Some(e));
      RegistryUpdate(statusMap, queue, keys, dir, info);
      AllSucceededOthers(statusMap, queue, sent - 1, info);
      inbox := [];
      polls := polls + 1;
      statusMap := statusMap[u := info];
      return Some(Aborted(e));
    }

    /** The poll reported success: the job is marked done, counted off and the next start signalled. */
    method Succeed()
      requires Valid() && !signalled && inbox != []
      modifies this
      ensures Valid() && signalled && parked == []
      ensures polls == old(polls) + 1 && inbox == [] && total == old(total) - 1
      ensures queue == old(queue) && dir == old(dir) && keys == old(keys) && session == old(session) && sent == old(sent)
      ensures var u := old(inbox)[0];
        statusMap == old(statusMap)[u := old(statusMap)[u].(status := StatusSucceeded)]
    {
      var u := inbox[0];
      var info := statusMap[u].(status := StatusSucceeded);
      RegistryUpdate(statusMap, queue, keys, dir, info);
      AllSucceededNext(statusMap, queue, sent - 1, info);
      inbox := [];
      polls := polls + 1;
      statusMap := statusMap[u := info];
      total := total - 1;
      signalled := true;
    }

    /** The ticker case: every parked job is queued for polling again and the parked list is emptied. */
    method OnTick()
      requires Valid() && !signalled && inbox == []
      modifies this
      ensures Valid()
      ensures inbox == old(parked) && parked == []
      ensures queue == old(queue) && dir == old(dir) && keys == old(keys) && session == old(session) && sent == old(sent) && statusMap == old(statusMap)
      ensures total == old(total) && polls == old(polls) && signalled == old(signalled)
      ensures Advance(session, queue, old(Abs())) == Next(Abs())
    {
      inbox := parked;
      parked := [];
    }

    /** One turn of `checkDownload`'s loop: the `select` case that is ready runs; `Some` ends the loop. */
    method Turn() returns (exit: Option<Verdict>)
      requires Valid() && Linked()
      modifies this
      ensures Linked()
      ensures queue == old(queue) && dir == old(dir) && keys == old(keys) && session == old(session)
      ensures Registered() && sent <= |queue|
      ensures exit.None? ==> Valid()
      ensures exit == Some(Finished) ==>
        sent == |queue| && total == 0
        && forall i :: 0 <= i < |queue| ==> statusMap[queue[i]].status == StatusSucceeded
      ensures exit.Some? && exit.value.Aborted? ==>
        && 0 < sent && statusMap[queue[sent - 1]].err == Some(exit.value.error)
        && forall i :: 0 <= i < sent - 1 && queue[i] != queue[sent - 1] ==> statusMap[queue[i]].status == StatusSucceeded
      ensures exit != Some(Unfinished)
      // the turn is the reference loop's next move, given aria2's answers
      ensures var m := Advance(session, queue, old(Abs()));
        && (m.Stop? ==> exit == Some(m.verdict))
        && (m.Next? ==> exit.None? && Abs() == m.pos)
    {
      if signalled {
        exit := OnSignal();
      } else if inbox != [] {
        exit := OnPoll();
      } else {
        OnTick();
        exit := None;
      }
    }

    /** `checkDownload`, run for at most `fuel` turns of the loop. */
    method CheckDownload(fuel: nat) returns (v: Verdict)
      requires Valid() && Linked()
      modifies this
      ensures queue == old(queue) && dir == old(dir) && keys == old(keys) && session == old(session)
      ensures Registered() && sent <= |queue|
      ensures v == Finished ==>
        sent == |queue| && total == 0
        && forall i :: 0 <= i < |queue| ==> statusMap[queue[i]].status == StatusSucceeded
      // the job that failed is the last one handed over; every earlier job for another URL succeeded
      ensures v.Aborted? ==>
        && 0 < sent && statusMap[queue[sent - 1]].err == Some(v.error)
        && forall i :: 0 <= i < sent - 1 && queue[i] != queue[sent - 1] ==> statusMap[queue[i]].status == StatusSucceeded
      ensures v == Unfinished ==> Valid()
      // the verdict is the reference loop's, given aria2's answers
      ensures v == Run(session, queue, old(Abs()), fuel)
    {
      var steps := 0;
      while steps < fuel
        invariant Valid() && Linked() && queue == old(queue) && dir == old(dir) && keys == old(keys) && session == old(session)
        invariant steps <= fuel
        invariant Run(session, queue, old(Abs()), fuel) == Run(session, queue, Abs(), fuel - steps)
      {
        ghost var p := Abs();
        var exit := Turn();
        ghost var m := Advance(session, queue, p);
        assert Run(session, queue, p, fuel - steps) == if m.Stop? then m.verdict else Run(session, queue, m.pos, fuel - steps - 1);
        if exit.Some? {
          return exit.value;
        }
        steps := steps + 1;
      }
      return Unfinished;
    }

    /** `DownloadFiles`: checks the destination directory, registers the URLs and runs the job loop. */
    method DownloadFiles(dirPath: string, dirStat: DirStat, fileURLs: seq<string>, fuel: nat)
      returns (status: map<string, DownloadInfo>, v: Verdict)
      modifies this
      ensures dirStat.StatError? ==> v == Aborted(dirStat.message) && status == map[]
      ensures dirStat.NotDir? ==> v == Aborted("dir path is not a directory") && status == map[]
      ensures dirStat.IsDir? ==>
        && status == statusMap && (forall u :: u in status <==> u in fileURLs)
        && (forall u :: u in status ==> status[u].dirPath == dirPath && status[u].fileUrl == u)
        && queue == fileURLs && sent <= |fileURLs|
      // success means every submitted URL, duplicates included, was downloaded
      ensures v == Finished ==>
        dirStat.IsDir? && sent == |fileURLs| && total == 0
        && forall u :: u in status ==> status[u].status == StatusSucceeded
      ensures v.Aborted? && dirStat.IsDir? ==>
        0 < sent && status[fileURLs[sent - 1]].err == Some(v.error)
      // the verdict is the reference loop's, given aria2's answers for `dirPath`
      ensures dirStat.IsDir? ==> Serves(dirPath)
      ensures v == Downloads(session, dirStat, fileURLs, fuel)
    {
      match dirStat
      case StatError(m) => return map[], Aborted(m);
      case NotDir => return map[], Aborted("dir path is not a directory");
      case IsDir =>
        Init(dirPath, fileURLs);
        v := CheckDownload(fuel);
        status := statusMap;
        if v == Finished {
          forall u | u in status ensures status[u].status == StatusSucceeded {
            var i :| 0 <= i < |queue| && queue[i] == u;
          }
        }
    }
  }
}
