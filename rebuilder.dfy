/** The rebuilder: configuration checks, `Build` (download the CAR files, then restore and
    upload), `Retrieve` (fetch each CAR file from the first miner that serves it, then restore
    and upload) and `RetrieveFile`. The file system, aria2, the Lotus node and the MCS bucket
    are oracles; the orchestrating methods also return the effects they caused, in order. */
module Rebuilder {
  import opened Wrappers
  import FilePath
  import Aria2
  import Lotus
  import Downloader

  const DefaultParallel := 3

  datatype TaskConf = TaskConf(inputPath: string, outputPath: string, parallel: int)
  datatype Aria2Conf = Aria2Conf(host: string, port: int, secret: string)
  datatype McsConf = McsConf(apiKey: string, apiToken: string, network: string, bucketName: string)
  datatype LotusConf = LotusConf(nodeApi: string, timeout: int, wallet: string)

  /** The configuration; a missing section is `None`. */
  datatype Config = Config(task: Option<TaskConf>, aria2: Option<Aria2Conf>, mcs: Option<McsConf>, lotus: Option<LotusConf>)

  /** What uploading one file yields: its download URL and an error. */
  datatype Uploaded = Uploaded(url: string, err: Option<string>)

  /** An MCS bucket client. */
  datatype Bucket = Bucket(upload: string -> Uploaded)

  /** The constructors of the bucket and Lotus clients, which connect to the outside world. */
  datatype Connectors = Connectors(newBucket: McsConf -> Result<Bucket>, newLotus: LotusConf -> Result<Lotus.Node>)

  datatype Rebuilder = Rebuilder(
    inputPath: string,
    outputPath: string,
    parallel: int,
    bucket: Bucket,
    aria2: Aria2.Client,
    lotus: Option<Lotus.Node>,
    wallet: string)

  datatype CarDeal = CarDeal(dealId: int, dealCid: string, minerFid: string)
  datatype CarInfo = CarInfo(carFileUrl: string, cid: string, deals: seq<CarDeal>)

  /** One entry of `filepath.WalkDir`'s walk, in walk order, or the error it reports. */
  datatype WalkEntry = Entry(path: string, isDir: bool) | WalkError(message: string)

  /** The machine the rebuilder runs on: `os.MkdirAll`'s error for a path, what `os.Stat` says
      about a directory and whether a file exists, the aria2 server, and the walk of a directory. */
  datatype Env = Env(
    mkdirAll: string -> Option<string>,
    dirStat: string -> Downloader.DirStat,
    fileError: string -> Option<string>,
    rpc: Aria2.Rpc,
    walk: string -> seq<WalkEntry>)

  /** Effects on the outside world, in the order they happen. */
  datatype Effect =
    | MakeDir(path: string)
    | DownloadAll(dir: string, urls: seq<string>)
    | Restore(carPath: string, outputDir: string)
    | Upload(path: string)
    | Fetch(cid: string, miner: string)

  /** What a command returns: the download URL and the error; or no answer because the job loop
      was still running when the turn bound ran out; or a run-time panic. */
  datatype Answer = Answer(downloadURL: string, err: Option<string>) | StillRunning | Panic(reason: string)

  datatype Step = Step(answer: Answer, effects: seq<Effect>)

  /** `NewRebuilder`: each required section must be present (checked in the order task, aria2,
      MCS), a zero `parallel` becomes 3, and a missing Lotus section leaves no Lotus client and
      an empty wallet. */
  function NewRebuilder(conf: Option<Config>, connect: Connectors): (r: Result<Rebuilder>)
    ensures conf.None? ==> r == Err("conf not be nil")
    ensures conf.Some? && conf.value.task.None? ==> r == Err("conf not set task")
    ensures conf.Some? && conf.value.task.Some? && conf.value.aria2.None? ==> r == Err("conf not set aria2")
    ensures conf.Some? && conf.value.task.Some? && conf.value.aria2.Some? && conf.value.mcs.None?
      ==> r == Err("conf not set mcs")
    ensures r.Ok? ==> conf.Some? && conf.value.task.Some? && conf.value.aria2.Some? && conf.value.mcs.Some?
    ensures r.Ok? ==>
      var c := conf.value;
      && r.value.inputPath == c.task.value.inputPath && r.value.outputPath == c.task.value.outputPath
      && r.value.parallel == (if c.task.value.parallel == 0 then DefaultParallel else c.task.value.parallel)
      && r.value.parallel != 0
      && r.value.aria2 == Aria2.NewClient(c.aria2.value.host, c.aria2.value.port, c.aria2.value.secret)
      && Ok(r.value.bucket) == connect.newBucket(c.mcs.value)
      && (c.lotus.None? ==> r.value.lotus.None? && r.value.wallet == "")
      && (c.lotus.Some? ==> r.value.wallet == c.lotus.value.wallet && r.value.lotus.Some?
                            && Ok(r.value.lotus.value) == connect.newLotus(c.lotus.value))
    // with every required section present, only the client constructors can fail
    ensures conf.Some? && conf.value.task.Some? && conf.value.aria2.Some? && conf.value.mcs.Some? ==>
      (r.Ok? <==> connect.newBucket(conf.value.mcs.value).Ok?
                  && (conf.value.lotus.None? || connect.newLotus(conf.value.lotus.value).Ok?))
  {
    if conf.None? then Err("conf not be nil")
    else
      var c := conf.value;
      if c.task.None? then Err("conf not set task")
      else
        var parallel := if c.task.value.parallel == 0 then DefaultParallel else c.task.value.parallel;
        if c.aria2.None? then Err("conf not set aria2")
        else
          var aria2 := Aria2.NewClient(c.aria2.value.host, c.aria2.value.port, c.aria2.value.secret);
          if c.mcs.None? then Err("conf not set mcs")
          else
            var bucket := connect.newBucket(c.mcs.value);
            if bucket.Err? then Err(bucket.error)
            else if c.lotus.None? then
              Ok(Rebuilder(c.task.value.inputPath, c.task.value.outputPath, parallel, bucket.value, aria2, None, ""))
            else
              var node := connect.newLotus(c.lotus.value);
              if node.Err? then Err(node.error)
              else Ok(Rebuilder(c.task.value.inputPath, c.task.value.outputPath, parallel, bucket.value, aria2,
                                Some(node.value), c.lotus.value.wallet))
  }

  // ---------------------------------------------------------------------------------------
  // Restore and upload

  /** What the upload walk returns: the last download URL, the error that stopped it, and the
      files it uploaded, in order. */
  datatype Walked = Walked(downloadURL: string, err: Option<string>, uploaded: seq<string>)

  /** The upload walk over `entries`, starting with download URL `url`: directories are skipped,
      every file is uploaded, and a walk error or a failed upload stops it. */
  function WalkUpload(b: Bucket, entries: seq<WalkEntry>, url: string): Walked
    decreases |entries|
  {
    if entries == [] then Walked(url, None, [])
    else match entries[0]
      case WalkError(m) => Walked(url, Some(m), [])
      case Entry(p, isDir) =>
        if isDir then WalkUpload(b, entries[1..], url)
        else
          var up := b.upload(p);
          if up.err.Some? then Walked(up.url, up.err, [p])
          else
            var rest := WalkUpload(b, entries[1..], up.url);
            Walked(rest.downloadURL, rest.err, [p] + rest.uploaded)
  }

  /** The files of a walk, in walk order. */
  function Files(entries: seq<WalkEntry>): (r: seq<string>)
    ensures |r| <= |entries|
    decreases |entries|
  {
    if entries == [] then []
    else if entries[0].Entry? && !entries[0].isDir then [entries[0].path] + Files(entries[1..])
    else Files(entries[1..])
  }

  /** The walk reports no error and every file uploads successfully. */
  predicate CleanWalk(b: Bucket, entries: seq<WalkEntry>)
  {
    forall i :: 0 <= i < |entries| ==> entries[i].Entry? && (!entries[i].isDir ==> b.upload(entries[i].path).err.None?)
  }

  /** The download URL after uploading `files` in order, starting from `url`. */
  function LastUrl(b: Bucket, files: seq<string>, url: string): string
  {
    if files == [] then url else b.upload(files[|files| - 1]).url
  }

  /** Files are uploaded in walk order, each at most once, stopping at the first error; the walk
      succeeds exactly when nothing fails, and then every file was uploaded and the URL returned
      is the last file's. */
  lemma {:induction false} WalkUploadSpec(b: Bucket, entries: seq<WalkEntry>, url: string)
    ensures WalkUpload(b, entries, url).uploaded <= Files(entries)
    ensures WalkUpload(b, entries, url).err.None? <==> CleanWalk(b, entries)
    ensures CleanWalk(b, entries) ==>
      WalkUpload(b, entries, url).uploaded == Files(entries)
      && WalkUpload(b, entries, url).downloadURL == LastUrl(b, Files(entries), url)
    decreases |entries|
  {
    if entries != [] {
      var rest := entries[1..];
      assert CleanWalk(b, entries) <==>
        (entries[0].Entry? && (!entries[0].isDir ==> b.upload(entries[0].path).err.None?) && CleanWalk(b, rest)) by {
        if CleanWalk(b, entries) {
          forall i | 0 <= i < |rest|
            ensures rest[i].Entry? && (!rest[i].isDir ==> b.upload(rest[i].path).err.None?)
          {
            assert rest[i] == entries[i + 1];
          }
        }
        if entries[0].Entry? && (!entries[0].isDir ==> b.upload(entries[0].path).err.None?) && CleanWalk(b, rest) {
          forall i | 0 <= i < |entries|
            ensures entries[i].Entry? && (!entries[i].isDir ==> b.upload(entries[i].path).err.None?)
          {
            if i > 0 { assert entries[i] == rest[i - 1]; }
          }
        }
      }
      match entries[0]
      case WalkError(m) =>
      case Entry(p, isDir) =>
        if isDir {
          WalkUploadSpec(b, rest, url);
        } else {
          var up := b.upload(p);
          WalkUploadSpec(b, rest, up.url);
          if CleanWalk(b, rest) && Files(rest) != [] {
            var fs := [p] + Files(rest);
            assert fs[|fs| - 1] == Files(rest)[|Files(rest)| - 1];
          }
        }
    }
  }

  function Uploads(paths: seq<string>): (r: seq<Effect>)
    ensures |r| == |paths| && forall i :: 0 <= i < |r| ==> r[i] == Upload(paths[i])
  {
    seq(|paths|, i requires 0 <= i < |paths| => Upload(paths[i]))
  }

  /** What `RestoreAndUpload` does: the CAR files are reassembled into `outputDir` (the outcome of
      reassembly is not checked), then the upload walk runs over `outputDir`. */
  function Restored(r: Rebuilder, env: Env, carPath: string, outputDir: string): Step
  {
    var w := WalkUpload(r.bucket, env.walk(outputDir), "");
    Step(Answer(w.downloadURL, w.err), [Restore(carPath, outputDir)] + Uploads(w.uploaded))
  }

  /** The `filepath.Walk` callback of `RestoreAndUpload`, applied to the walk's entries in order. */
  method UploadWalk(b: Bucket, entries: seq<WalkEntry>) returns (w: Walked)
    ensures w == WalkUpload(b, entries, "")
  {
    var downloadURL := "";
    var uploaded: seq<string> := [];
    var i := 0;
    while i < |entries|
      invariant 0 <= i <= |entries|
      invariant WalkUpload(b, entries, "").downloadURL == WalkUpload(b, entries[i..], downloadURL).downloadURL
      invariant WalkUpload(b, entries, "").err == WalkUpload(b, entries[i..], downloadURL).err
      invariant WalkUpload(b, entries, "").uploaded == uploaded + WalkUpload(b, entries[i..], downloadURL).uploaded
    {
      assert entries[i..][0] == entries[i] && entries[i..][1..] == entries[i + 1..];
      match entries[i]
      case WalkError(m) =>
        return Walked(downloadURL, Some(m), uploaded);
      case Entry(p, isDir) =>
        if !isDir {
          var up := b.upload(p);
          if up.err.Some? {
            return Walked(up.url, up.err, uploaded + [p]);
          }
          assert uploaded + ([p] + WalkUpload(b, entries[i + 1..], up.url).uploaded)
            == (uploaded + [p]) + WalkUpload(b, entries[i + 1..], up.url).uploaded;
          uploaded := uploaded + [p];
          downloadURL := up.url;
        }
      i := i + 1;
    }
    assert entries[i..] == [];
    return Walked(downloadURL, None, uploaded);
  }

  /** `RestoreAndUpload`: reassembles the CAR files, then uploads what the walk finds. */
  method RestoreAndUpload(r: Rebuilder, env: Env, carPath: string, outputDir: string) returns (s: Step)
    ensures s == Restored(r, env, carPath, outputDir)
  {
    var w := UploadWalk(r.bucket, env.walk(outputDir));
    return Step(Answer(w.downloadURL, w.err), [Restore(carPath, outputDir)] + Uploads(w.uploaded));
  }

  // ---------------------------------------------------------------------------------------
  // Build

  /** aria2's answers for jobs that write into `carDir`. */
  function CarJobs(r: Rebuilder, env: Env, carDir: string): Downloader.Answers
  {
    Downloader.AnswersOf(Downloader.Jobs(r.aria2, env.rpc, env.fileError, carDir))
  }

  /** What the second half of `Build` does, given the machine's and aria2's answers: a negative
      parallelism panics; otherwise everything is downloaded into `carDir`, and restore and upload
      follow only a download that finished. */
  function AfterDownload(r: Rebuilder, env: Env, carDir: string, sourceDir: string, fileURLs: seq<string>, fuel: nat): (s: Step)
    ensures r.parallel >= 0 ==> 1 <= |s.effects| && s.effects[0] == DownloadAll(carDir, fileURLs)
  {
    if r.parallel < 0 then Step(Panic("makechan: size out of range"), [])
    else
      var fetched := [DownloadAll(carDir, fileURLs)];
      match Downloader.Downloads(CarJobs(r, env, carDir), env.dirStat(carDir), fileURLs, fuel)
      case Unfinished => Step(StillRunning, fetched)
      case Aborted(e) => Step(Answer("", Some(e)), fetched)
      case Finished =>
        var x := Restored(r, env, carDir, sourceDir);
        Step(x.answer, fetched + x.effects)
  }

  /** Restoring happens exactly when the downloader finished. */
  lemma RestoresIffDownloaded(r: Rebuilder, env: Env, carDir: string, sourceDir: string, fileURLs: seq<string>, fuel: nat)
    ensures var s := AfterDownload(r, env, carDir, sourceDir, fileURLs, fuel);
      (exists i :: 0 <= i < |s.effects| && s.effects[i].Restore?)
      <==> r.parallel >= 0 && Downloader.Downloads(CarJobs(r, env, carDir), env.dirStat(carDir), fileURLs, fuel) == Downloader.Finished
  {
    var s := AfterDownload(r, env, carDir, sourceDir, fileURLs, fuel);
    if r.parallel >= 0 && Downloader.Downloads(CarJobs(r, env, carDir), env.dirStat(carDir), fileURLs, fuel) == Downloader.Finished {
      assert s.effects[1].Restore?;
    }
  }

  /** When every job starts and finishes at its first poll, and the loop may run long enough,
      the CAR files are restored and uploaded after the download. */
  lemma AllDownloadedRestores(r: Rebuilder, env: Env, carDir: string, sourceDir: string, fileURLs: seq<string>, fuel: nat)
    requires r.parallel >= 0 && env.dirStat(carDir).IsDir?
    requires Downloader.GoodPrefix(CarJobs(r, env, carDir), fileURLs, |fileURLs|) && 2 * |fileURLs| + 1 <= fuel
    ensures var x := Restored(r, env, carDir, sourceDir);
      AfterDownload(r, env, carDir, sourceDir, fileURLs, fuel) == Step(x.answer, [DownloadAll(carDir, fileURLs)] + x.effects)
  {
    Downloader.RunAllSucceed(CarJobs(r, env, carDir), fileURLs, fuel);
  }

  /** A job that fails to start, after earlier jobs all succeeded, is the answer's error, and
      nothing is restored or uploaded. */
  lemma StartFailureStopsBuild(r: Rebuilder, env: Env, carDir: string, sourceDir: string, fileURLs: seq<string>, k: nat, fuel: nat)
    requires r.parallel >= 0 && env.dirStat(carDir).IsDir? && k < |fileURLs|
    requires Downloader.GoodPrefix(CarJobs(r, env, carDir), fileURLs, k)
    requires CarJobs(r, env, carDir).start(fileURLs[k], k).Err? && 2 * k + 1 <= fuel
    ensures AfterDownload(r, env, carDir, sourceDir, fileURLs, fuel)
      == Step(Answer("", Some(CarJobs(r, env, carDir).start(fileURLs[k], k).error)), [DownloadAll(carDir, fileURLs)])
  {
    Downloader.RunStartFails(CarJobs(r, env, carDir), fileURLs, k, fuel);
  }

  /** A download directory that cannot be examined is the answer's error, before any job. */
  lemma BadCarDirStopsBuild(r: Rebuilder, env: Env, carDir: string, sourceDir: string, fileURLs: seq<string>, fuel: nat)
    requires r.parallel >= 0 && !env.dirStat(carDir).IsDir?
    ensures AfterDownload(r, env, carDir, sourceDir, fileURLs, fuel).answer
      == Answer("", Some(if env.dirStat(carDir).NotDir? then "dir path is not a directory" else env.dirStat(carDir).message))
  {
  }

  /** `Rebuilder.Build`: checks the URL list and the paths, creates the source and CAR
      directories, downloads every URL into the CAR directory (at most `fuel` turns of the job
      loop), and only then restores and uploads. `status` is the downloader's job table. */
  method Build(r: Rebuilder, env: Env, name: string, fileURLs: seq<string>, fuel: nat)
    returns (s: Step, ghost status: map<string, Downloader.DownloadInfo>)
    ensures |fileURLs| == 0 ==> s == Step(Answer("", Some("no file URLs")), [])
    ensures |fileURLs| > 0 && r.inputPath == r.outputPath ==>
      s == Step(Answer("", Some("input path not be same with output path")), [])
    ensures |fileURLs| > 0 && r.inputPath != r.outputPath ==>
      var n := if name == "" then FilePath.Base(fileURLs[0]) else name;
      var sourceDir, carDir := FilePath.Join(r.outputPath, n), FilePath.Join(r.inputPath, n);
      && 1 <= |s.effects|
      && s.effects[0] == MakeDir(sourceDir)
      && (env.mkdirAll(sourceDir).Some? ==> s == Step(Answer("", env.mkdirAll(sourceDir)), [MakeDir(sourceDir)]))
      && (2 <= |s.effects| ==> s.effects[1] == MakeDir(carDir) && env.mkdirAll(sourceDir).None?)
      && (3 <= |s.effects| ==> s.effects[2] == DownloadAll(carDir, fileURLs) && env.mkdirAll(carDir).None?)
      // restoring starts only after every URL was downloaded
      && (3 < |s.effects| ==>
            && (forall u :: u in fileURLs ==> u in status && status[u].status == Downloader.StatusSucceeded)
            && Step(s.answer, s.effects[3..]) == Restored(r, env, carDir, sourceDir))
      && (env.mkdirAll(sourceDir).None? && env.mkdirAll(carDir).Some? ==>
            s == Step(Answer("", env.mkdirAll(carDir)), [MakeDir(sourceDir), MakeDir(carDir)]))
      // with both directories made, the rest is the download and what follows it
      && (env.mkdirAll(sourceDir).None? && env.mkdirAll(carDir).None? ==>
            var rest := AfterDownload(r, env, carDir, sourceDir, fileURLs, fuel);
            s == Step(rest.answer, [MakeDir(sourceDir), MakeDir(carDir)] + rest.effects))
    ensures s.answer.Panic? ==> r.parallel < 0
    ensures s.answer.StillRunning? ==> |s.effects| == 3
  {
    if |fileURLs| == 0 {
      return Step(Answer("", Some("no file URLs")), []), map[];
    }
    if r.inputPath == r.outputPath {
      return Step(Answer("", Some("input path not be same with output path")), []), map[];
    }
    var n := if name == "" then FilePath.Base(fileURLs[0]) else name;
    var sourceDir := FilePath.Join(r.outputPath, n);
    var effects := [MakeDir(sourceDir)];
    var err := env.mkdirAll(sourceDir);
    if err.Some? {
      return Step(Answer("", err), effects), map[];
    }
    var carDir := FilePath.Join(r.inputPath, n);
    effects := effects + [MakeDir(carDir)];
    err := env.mkdirAll(carDir);
    if err.Some? {
      return Step(Answer("", err), effects), map[];
    }
    var rest;
    rest, status := DownloadThenRestore(r, env, carDir, sourceDir, fileURLs, fuel);
    assert |effects| == 2;
    if 1 < |rest.effects| {
      assert (effects + rest.effects)[3..] == rest.effects[1..];
    }
    return Step(rest.answer, effects + rest.effects), status;
  }

  /** The second half of `Rebuilder.Build`: the downloader is made (a negative parallelism panics
      when its job channel is made), every URL is downloaded into `carDir`, and only when all
      succeeded are the files restored into `sourceDir` and uploaded. */
  method DownloadThenRestore(r: Rebuilder, env: Env, carDir: string, sourceDir: string, fileURLs: seq<string>, fuel: nat)
    returns (s: Step, ghost status: map<string, Downloader.DownloadInfo>)
    ensures r.parallel < 0 <==> s == Step(Panic("makechan: size out of range"), [])
    ensures s.answer.Panic? ==> r.parallel < 0
    ensures r.parallel >= 0 ==> 1 <= |s.effects| && s.effects[0] == DownloadAll(carDir, fileURLs)
    ensures s.answer.StillRunning? ==> |s.effects| == 1
    ensures 1 < |s.effects| ==>
      && (forall u :: u in fileURLs ==> u in status && status[u].status == Downloader.StatusSucceeded)
      && Step(s.answer, s.effects[1..]) == Restored(r, env, carDir, sourceDir)
    ensures s == AfterDownload(r, env, carDir, sourceDir, fileURLs, fuel)
  {
    if r.parallel < 0 {
      return Step(Panic("makechan: size out of range"), []), map[];
    }
    var downloader := new Downloader.Downloader(r.parallel, r.aria2, env.rpc, env.fileError);
    var effects := [DownloadAll(carDir, fileURLs)];
    var st, v := downloader.DownloadFiles(carDir, env.dirStat(carDir), fileURLs, fuel);
    status := st;
    if env.dirStat(carDir).IsDir? {
      forall u, k ensures downloader.session.start(u, k) == CarJobs(r, env, carDir).start(u, k) {
        assert downloader.session.start(u, k) == downloader.downloadFile(carDir, u, [".car"], k);
      }
      forall g, n ensures downloader.session.query(g, n) == CarJobs(r, env, carDir).query(g, n) {
        assert downloader.session.query(g, n) == downloader.downloadStatus(g, n);
      }
    }
    Downloader.DownloadsAgree(downloader.session, CarJobs(r, env, carDir), env.dirStat(carDir), fileURLs, fuel);
    match v
    case Unfinished =>
      return Step(StillRunning, effects), status;
    case Aborted(e) =>
      return Step(Answer("", Some(e)), effects), status;
    case Finished =>
      var restored := RestoreAndUpload(r, env, carDir, sourceDir);
      assert (effects + restored.effects)[1..] == restored.effects;
      return Step(restored.answer, effects + restored.effects), status;
  }

  // ---------------------------------------------------------------------------------------
  // Retrieve

  /** The name of the CAR file retrieved for `cid` from `miner`. */
  function CarName(miner: string, cid: string): string
  {
    miner + "-" + cid + ".car"
  }

  /** `Rebuilder.RetrieveFile`: the error and the Lotus node calls of retrieving `cid` from
      `miner` into `savePath`, paying from `wallet` or else the configured wallet. */
  function RetrieveFile(r: Rebuilder, cid: string, miner: string, wallet: string, savePath: string): (run: Lotus.Run)
    ensures r.lotus.None? ==> run == Lotus.Run(Some("conf net set lotus"), [])
    ensures r.lotus.Some? && (cid == "" || miner == "") ==> run == Lotus.Run(Some("invalid empty cid or miner"), [])
  {
    if r.lotus.None? then Lotus.Run(Some("conf net set lotus"), [])
    else if cid == "" || miner == "" then Lotus.Run(Some("invalid empty cid or miner"), [])
    else
      var payer := if wallet == "" then r.wallet else wallet;
      Lotus.Retrieval(r.lotus.value, miner, cid, FilePath.Join(savePath, CarName(miner, cid)), payer)
  }

  /** The CAR file for `cid` from `miner` lies directly inside `savePath` and has extension ".car". */
  lemma CarPath(savePath: string, miner: string, cid: string)
    requires '/' !in miner && '/' !in cid
    ensures FilePath.Base(FilePath.Join(savePath, CarName(miner, cid))) == CarName(miner, cid)
    ensures FilePath.Ext(FilePath.Join(savePath, CarName(miner, cid))) == ".car"
  {
    var name := CarName(miner, cid);
    assert name == (miner + "-" + cid) + "." + "car";
    assert '/' !in name;
    FilePath.JoinBase(savePath, name);
    FilePath.ExtOfSuffix(miner + "-" + cid, "car");
    ExtOfJoin(savePath, name);
  }

  /** A retrieval pays from the given wallet, or from the configured one when none is given,
      and exports only to a CAR file at `savePath`/`<miner>-<cid>.car` (which `CarPath` places
      directly inside `savePath`). */
  lemma RetrieveFileTarget(r: Rebuilder, cid: string, miner: string, wallet: string, savePath: string)
    ensures var run := RetrieveFile(r, cid, miner, wallet, savePath);
      && (forall i :: 0 <= i < |run.calls| && run.calls[i].Retrieve? ==>
            run.calls[i].order.wallet == (if wallet == "" then r.wallet else wallet))
      && (forall i :: 0 <= i < |run.calls| && run.calls[i].Export? ==>
            run.calls[i].file == Lotus.FileRef(FilePath.Join(savePath, CarName(miner, cid)), true))
  {
    if r.lotus.Some? && cid != "" && miner != "" {
      var path := FilePath.Join(savePath, CarName(miner, cid));
      var payer := if wallet == "" then r.wallet else wallet;
      Lotus.ExportAfterCompletion(r.lotus.value, miner, cid, path, payer);
      Lotus.OrderFromOffer(r.lotus.value, miner, cid, path, payer);
    }
  }

  /** Joining a directory does not change the extension of a name without separators. */
  lemma ExtOfJoin(dir: string, name: string)
    requires name != "" && '/' !in name
    ensures FilePath.Ext(FilePath.Join(dir, name)) == FilePath.Ext(name)
  {
    if dir != "" {
      ExtOfJoinRec(dir, name);
    }
  }

  lemma {:induction false} ExtOfJoinRec(dir: string, name: string)
    requires '/' !in name
    ensures FilePath.Ext(dir + "/" + name) == FilePath.Ext(name)
    decreases |name|
  {
    var s := dir + "/" + name;
    if |name| == 0 {
      assert s[|s| - 1] == '/';
    } else {
      var init, last := name[..|name| - 1], name[|name| - 1];
      assert s[..|s| - 1] == dir + "/" + init;
      assert s[|s| - 1] == last;
      assert name[..|name| - 1] == init;
      ExtOfJoinRec(dir, init);
    }
  }

  function Miners(deals: seq<CarDeal>): (r: seq<string>)
    ensures |r| == |deals| && forall i :: 0 <= i < |r| ==> r[i] == deals[i].minerFid
  {
    seq(|deals|, i requires 0 <= i < |deals| => deals[i].minerFid)
  }

  /** Whether retrieving `cid` from `miner` succeeds. */
  predicate Serves(r: Rebuilder, cid: string, miner: string, wallet: string, carDir: string)
  {
    RetrieveFile(r, cid, miner, wallet, carDir).err.None?
  }

  /** The position of the first miner, in list order, that serves `cid`. */
  function FirstSuccess(r: Rebuilder, cid: string, miners: seq<string>, wallet: string, carDir: string): (k: Option<nat>)
    ensures k.Some? ==> k.value < |miners|
    decreases |miners|
  {
    if miners == [] then None
    else if Serves(r, cid, miners[0], wallet, carDir) then Some(0)
    else
      var k := FirstSuccess(r, cid, miners[1..], wallet, carDir);
      if k.None? then None else Some(k.value + 1)
  }

  /** A position found in a suffix starting at `j`, as a position in the whole list. */
  function Shift(k: Option<nat>, j: nat): (s: Option<nat>)
    ensures s.Some? <==> k.Some?
    ensures s.Some? ==> s.value == k.value + j
  {
    if k.None? then None else Some(k.value + j)
  }

  /** One step of the search from position `j`. */
  lemma FirstSuccessStep(r: Rebuilder, cid: string, miners: seq<string>, wallet: string, carDir: string, j: nat)
    requires j < |miners|
    ensures Shift(FirstSuccess(r, cid, miners[j..], wallet, carDir), j)
      == if Serves(r, cid, miners[j], wallet, carDir) then Some(j)
         else Shift(FirstSuccess(r, cid, miners[j + 1..], wallet, carDir), j + 1)
  {
    assert miners[j..][0] == miners[j] && miners[j..][1..] == miners[j + 1..];
  }

  /** `FirstSuccess` finds the first serving miner, and finds none exactly when no miner serves. */
  lemma {:induction false} FirstSuccessSpec(r: Rebuilder, cid: string, miners: seq<string>, wallet: string, carDir: string)
    ensures var k := FirstSuccess(r, cid, miners, wallet, carDir);
      && (k.Some? ==> Serves(r, cid, miners[k.value], wallet, carDir)
                      && forall j :: 0 <= j < k.value ==> !Serves(r, cid, miners[j], wallet, carDir))
      && (k.None? <==> forall j :: 0 <= j < |miners| ==> !Serves(r, cid, miners[j], wallet, carDir))
    decreases |miners|
  {
    if miners != [] {
      var rest := miners[1..];
      FirstSuccessSpec(r, cid, rest, wallet, carDir);
      assert forall j :: 0 <= j < |rest| ==> rest[j] == miners[j + 1];
      if !Serves(r, cid, miners[0], wallet, carDir) {
        var k := FirstSuccess(r, cid, rest, wallet, carDir);
        if k.None? {
          forall j | 0 <= j < |miners| ensures !Serves(r, cid, miners[j], wallet, carDir) {
            if j > 0 { assert miners[j] == rest[j - 1]; }
          }
        }
      }
    }
  }

  /** One retrieval attempt per miner, in order. */
  function Fetches(cid: string, miners: seq<string>): (r: seq<Effect>)
    ensures |r| == |miners|
    decreases |miners|
  {
    if miners == [] then [] else Fetches(cid, miners[..|miners| - 1]) + [Fetch(cid, miners[|miners| - 1])]
  }

  lemma FetchesSnoc(cid: string, miners: seq<string>, miner: string)
    ensures Fetches(cid, miners + [miner]) == Fetches(cid, miners) + [Fetch(cid, miner)]
  {
    assert (miners + [miner])[..|miners|] == miners;
  }

  lemma {:induction false} FetchesAreFetches(cid: string, miners: seq<string>)
    ensures forall i :: 0 <= i < |miners| ==> Fetches(cid, miners)[i] == Fetch(cid, miners[i])
    decreases |miners|
  {
    if miners != [] {
      var init := miners[..|miners| - 1];
      FetchesAreFetches(cid, init);
      assert forall i :: 0 <= i < |init| ==> init[i] == miners[i];
    }
  }

  /** The miners tried for one entry: up to and including the first that serves it, or all. */
  function Tried(r: Rebuilder, info: CarInfo, wallet: string, carDir: string): seq<string>
  {
    var miners := Miners(info.deals);
    var k := FirstSuccess(r, info.cid, miners, wallet, carDir);
    if k.Some? then miners[..k.value + 1] else miners
  }

  /** The miners tried for one entry are a prefix of its miners in list order: every one but the
      last failed, and the last succeeded exactly when some miner serves the CID; when none does,
      every miner was tried. */
  lemma TriedSpec(r: Rebuilder, info: CarInfo, wallet: string, carDir: string)
    ensures var miners, t := Miners(info.deals), Tried(r, info, wallet, carDir);
      && t <= miners
      && (forall j :: 0 <= j < |t| - 1 ==> !Serves(r, info.cid, t[j], wallet, carDir))
      && (FirstSuccess(r, info.cid, miners, wallet, carDir).Some? <==>
            |t| > 0 && Serves(r, info.cid, t[|t| - 1], wallet, carDir))
      && (FirstSuccess(r, info.cid, miners, wallet, carDir).None? ==> t == miners)
  {
    var miners := Miners(info.deals);
    FirstSuccessSpec(r, info.cid, miners, wallet, carDir);
  }

  /** An entry that can be retrieved: it names a CID and a deal, and one of its miners serves it. */
  predicate Retrievable(r: Rebuilder, info: CarInfo, wallet: string, carDir: string)
  {
    info.cid != "" && |info.deals| > 0 && FirstSuccess(r, info.cid, Miners(info.deals), wallet, carDir).Some?
  }

  /** The error, if any, and the effects of `Retrieve`'s loop over the entries. */
  datatype Progress = Progress(err: Option<string>, effects: seq<Effect>)

  function RetrieveLoop(r: Rebuilder, infos: seq<CarInfo>, wallet: string, carDir: string): Progress
    decreases |infos|
  {
    if infos == [] then Progress(None, [])
    else
      var info := infos[0];
      if info.cid == "" || |info.deals| == 0 then Progress(Some("invalid empty cid or miners"), [])
      else
        var tried := Fetches(info.cid, Tried(r, info, wallet, carDir));
        if !Retrievable(r, info, wallet, carDir) then Progress(Some("retrieve failed with file :" + info.cid), tried)
        else
          var rest := RetrieveLoop(r, infos[1..], wallet, carDir);
          Progress(rest.err, tried + rest.effects)
  }

  /** The loop succeeds exactly when every entry can be retrieved. */
  lemma {:induction false} RetrieveLoopOk(r: Rebuilder, infos: seq<CarInfo>, wallet: string, carDir: string)
    ensures RetrieveLoop(r, infos, wallet, carDir).err.None? <==>
      forall i :: 0 <= i < |infos| ==> Retrievable(r, infos[i], wallet, carDir)
    decreases |infos|
  {
    if infos != [] {
      var rest := infos[1..];
      RetrieveLoopOk(r, rest, wallet, carDir);
      if forall i :: 0 <= i < |rest| ==> Retrievable(r, rest[i], wallet, carDir) {
        if Retrievable(r, infos[0], wallet, carDir) {
          forall i | 0 <= i < |infos| ensures Retrievable(r, infos[i], wallet, carDir) {
            if i > 0 { assert infos[i] == rest[i - 1]; }
          }
        }
      } else {
        var i :| 0 <= i < |rest| && !Retrievable(r, rest[i], wallet, carDir);
        assert infos[i + 1] == rest[i];
      }
    }
  }

  /** At the first entry that cannot be retrieved the loop stops with an error naming it:
      what happens does not depend on any later entry. */
  lemma {:induction false} RetrieveLoopStops(r: Rebuilder, infos: seq<CarInfo>, wallet: string, carDir: string, i: nat)
    requires i < |infos| && !Retrievable(r, infos[i], wallet, carDir)
    requires forall j :: 0 <= j < i ==> Retrievable(r, infos[j], wallet, carDir)
    ensures RetrieveLoop(r, infos, wallet, carDir) == RetrieveLoop(r, infos[..i + 1], wallet, carDir)
    ensures RetrieveLoop(r, infos, wallet, carDir).err ==
      Some(if infos[i].cid == "" || |infos[i].deals| == 0 then "invalid empty cid or miners"
           else "retrieve failed with file :" + infos[i].cid)
    decreases i
  {
    var pre := infos[..i + 1];
    assert pre[0] == infos[0];
    if i > 0 {
      assert infos[1..][..i] == pre[1..];
      RetrieveLoopStops(r, infos[1..], wallet, carDir, i - 1);
    } else {
      assert pre == [infos[0]];
    }
  }

  /** What `Retrieve` does. */
  function RetrieveSpec(r: Rebuilder, env: Env, name: string, infos: seq<CarInfo>, wallet: string,
                        savePath: seq<string>): Step
  {
    if infos == [] then Step(Answer("", Some("invalid empty carInfos")), [])
    else
      var carDir := FilePath.Join(r.inputPath, name);
      if env.mkdirAll(carDir).Some? then Step(Answer("", env.mkdirAll(carDir)), [MakeDir(carDir)])
      else
        var loop := RetrieveLoop(r, infos, wallet, carDir);
        var done := [MakeDir(carDir)] + loop.effects;
        if loop.err.Some? then Step(Answer("", loop.err), done)
        else
          var path := if |savePath| > 0 && savePath[0] != "" then savePath[0] else r.outputPath;
          var sourceDir := FilePath.Join(path, name);
          if env.mkdirAll(sourceDir).Some? then Step(Answer("", env.mkdirAll(sourceDir)), done + [MakeDir(sourceDir)])
          else
            var restored := Restored(r, env, carDir, sourceDir);
            Step(restored.answer, done + [MakeDir(sourceDir)] + restored.effects)
  }

  /** No effect in `es` is a restore. */
  predicate RestoreFree(es: seq<Effect>)
  {
    forall i :: 0 <= i < |es| ==> !es[i].Restore?
  }

  /** In `pre + [x] + post` with restore-free `pre` and `post`, the only restore is `x`. */
  lemma OnlyRestore(pre: seq<Effect>, x: Effect, post: seq<Effect>)
    requires RestoreFree(pre) && RestoreFree(post)
    ensures (pre + [x] + post)[|pre|] == x
    ensures forall i :: 0 <= i < |pre + [x] + post| && i != |pre| ==> !(pre + [x] + post)[i].Restore?
  {
    forall i | 0 <= i < |pre + [x] + post| && i != |pre|
      ensures !(pre + [x] + post)[i].Restore?
    {
      if i < |pre| { assert (pre + [x] + post)[i] == pre[i]; }
      else { assert (pre + [x] + post)[i] == post[i - |pre| - 1]; }
    }
  }

  /** A restore in `Retrieve`'s effects comes after a loop without error, and restores the CAR
      directory into the save path (or the output path) under `name`. */
  lemma RestoreAfterLoop(r: Rebuilder, env: Env, name: string, infos: seq<CarInfo>, wallet: string,
                         savePath: seq<string>)
    ensures var s := RetrieveSpec(r, env, name, infos, wallet, savePath);
      var carDir := FilePath.Join(r.inputPath, name);
      forall i :: 0 <= i < |s.effects| && s.effects[i].Restore? ==>
        && |infos| > 0
        && RetrieveLoop(r, infos, wallet, carDir).err.None?
        && s.effects[i] == Restore(carDir, FilePath.Join(if |savePath| > 0 && savePath[0] != "" then savePath[0]
                                                        else r.outputPath, name))
  {
    var carDir := FilePath.Join(r.inputPath, name);
    if infos != [] && env.mkdirAll(carDir).None? {
      var loop := RetrieveLoop(r, infos, wallet, carDir);
      NoRestoreInLoop(r, infos, wallet, carDir);
      var done := [MakeDir(carDir)] + loop.effects;
      assert RestoreFree(done) by {
        assert forall i :: 0 < i < |done| ==> done[i] == loop.effects[i - 1];
      }
      if loop.err.None? {
        var path := if |savePath| > 0 && savePath[0] != "" then savePath[0] else r.outputPath;
        var sourceDir := FilePath.Join(path, name);
        var pre := done + [MakeDir(sourceDir)];
        assert RestoreFree(pre) by {
          assert forall i :: 0 <= i < |done| ==> pre[i] == done[i];
        }
        if env.mkdirAll(sourceDir).None? {
          var w := WalkUpload(r.bucket, env.walk(sourceDir), "");
          OnlyRestore(pre, Restore(carDir, sourceDir), Uploads(w.uploaded));
          assert (pre + [Restore(carDir, sourceDir)]) + Uploads(w.uploaded)
            == done + [MakeDir(sourceDir)] + ([Restore(carDir, sourceDir)] + Uploads(w.uploaded));
        }
      }
    }
  }

  /** Nothing is restored unless every entry was retrieved, and then the CAR directory is
      restored into the save path (or the output path) under `name`. */
  lemma RestoreOnlyAfterRetrieval(r: Rebuilder, env: Env, name: string, infos: seq<CarInfo>, wallet: string,
                                  savePath: seq<string>)
    ensures var s := RetrieveSpec(r, env, name, infos, wallet, savePath);
      var carDir := FilePath.Join(r.inputPath, name);
      forall i :: 0 <= i < |s.effects| && s.effects[i].Restore? ==>
        && |infos| > 0
        && (forall j :: 0 <= j < |infos| ==> Retrievable(r, infos[j], wallet, carDir))
        && s.effects[i] == Restore(carDir, FilePath.Join(if |savePath| > 0 && savePath[0] != "" then savePath[0]
                                                        else r.outputPath, name))
  {
    var s := RetrieveSpec(r, env, name, infos, wallet, savePath);
    var carDir := FilePath.Join(r.inputPath, name);
    RestoreAfterLoop(r, env, name, infos, wallet, savePath);
    RetrieveLoopOk(r, infos, wallet, carDir);
    var ok := RetrieveLoop(r, infos, wallet, carDir).err.None?;
    assert ok ==> forall j :: 0 <= j < |infos| ==> Retrievable(r, infos[j], wallet, carDir);
  }

  /** The loop itself only makes retrieval attempts. */
  lemma {:induction false} NoRestoreInLoop(r: Rebuilder, infos: seq<CarInfo>, wallet: string, carDir: string)
    ensures RestoreFree(RetrieveLoop(r, infos, wallet, carDir).effects)
    ensures forall e :: e in RetrieveLoop(r, infos, wallet, carDir).effects ==> e.Fetch?
    decreases |infos|
  {
    if infos != [] {
      NoRestoreInLoop(r, infos[1..], wallet, carDir);
      FetchesAreFetches(infos[0].cid, Tried(r, infos[0], wallet, carDir));
    }
  }

  lemma TakeNext<T>(s: seq<T>, j: nat)
    requires j < |s|
    ensures s[..j + 1] == s[..j] + [s[j]]
  {
  }

  /** The inner loop of `Rebuilder.Retrieve`: tries the entry's miners in list order and stops at
      the first that serves the CID. */
  method TryMiners(r: Rebuilder, info: CarInfo, wallet: string, carDir: string) returns (success: bool, fetched: seq<Effect>)
    ensures success <==> FirstSuccess(r, info.cid, Miners(info.deals), wallet, carDir).Some?
    ensures fetched == Fetches(info.cid, Tried(r, info, wallet, carDir))
  {
    ghost var miners := Miners(info.deals);
    ghost var first := FirstSuccess(r, info.cid, miners, wallet, carDir);
    success := false;
    fetched := [];
    var j := 0;
    while j < |info.deals|
      invariant 0 <= j <= |info.deals|
      invariant fetched == Fetches(info.cid, miners[..j])
      invariant first == Shift(FirstSuccess(r, info.cid, miners[j..], wallet, carDir), j)
    {
      var miner := info.deals[j].minerFid;
      FirstSuccessStep(r, info.cid, miners, wallet, carDir, j);
      TakeNext(miners, j);
      FetchesSnoc(info.cid, miners[..j], miner);
      fetched := fetched + [Fetch(info.cid, miner)];
      var run := RetrieveFile(r, info.cid, miner, wallet, carDir);
      if run.err.None? {
        success := true;
        break;
      }
      j := j + 1;
    }
    if !success {
      assert miners[j..] == [];
      assert miners[..j] == miners;
    }
  }

  /** The outer loop of `Rebuilder.Retrieve`: retrieves the entries in order and stops at the first
      that cannot be retrieved. */
  method RetrieveAll(r: Rebuilder, carInfos: seq<CarInfo>, wallet: string, carDir: string) returns (p: Progress)
    ensures p == RetrieveLoop(r, carInfos, wallet, carDir)
  {
    var effects := [];
    var i := 0;
    while i < |carInfos|
      invariant 0 <= i <= |carInfos|
      invariant var rest := RetrieveLoop(r, carInfos[i..], wallet, carDir);
        RetrieveLoop(r, carInfos, wallet, carDir) == Progress(rest.err, effects + rest.effects)
    {
      var info := carInfos[i];
      assert carInfos[i..][0] == info && carInfos[i..][1..] == carInfos[i + 1..];
      if info.cid == "" || |info.deals| == 0 {
        return Progress(Some("invalid empty cid or miners"), effects);
      }
      var success, fetched := TryMiners(r, info, wallet, carDir);
      if !success {
        return Progress(Some("retrieve failed with file :" + info.cid), effects + fetched);
      }
      assert (effects + fetched) + RetrieveLoop(r, carInfos[i + 1..], wallet, carDir).effects
        == effects + (fetched + RetrieveLoop(r, carInfos[i + 1..], wallet, carDir).effects);
      effects := effects + fetched;
      i := i + 1;
    }
    assert carInfos[i..] == [];
    return Progress(None, effects);
  }

  /** `Rebuilder.Retrieve`: for each entry in order, tries its deals' miners in list order until
      one serves the CID; an entry without CID or deals, or one no miner serves, ends the command
      with an error. Then the retrieved CAR files are restored and uploaded. */
  method Retrieve(r: Rebuilder, env: Env, name: string, carInfos: seq<CarInfo>, wallet: string, savePath: seq<string>)
    returns (s: Step)
    ensures s == RetrieveSpec(r, env, name, carInfos, wallet, savePath)
  {
    if |carInfos| == 0 {
      return Step(Answer("", Some("invalid empty carInfos")), []);
    }
    var carDir := FilePath.Join(r.inputPath, name);
    var effects := [MakeDir(carDir)];
    var err := env.mkdirAll(carDir);
    if err.Some? {
      return Step(Answer("", err), effects);
    }
    var loop := RetrieveAll(r, carInfos, wallet, carDir);
    effects := effects + loop.effects;
    if loop.err.Some? {
      return Step(Answer("", loop.err), effects);
    }
    var path := if |savePath| > 0 && savePath[0] != "" then savePath[0] else r.outputPath;
    var sourceDir := FilePath.Join(path, name);
    effects := effects + [MakeDir(sourceDir)];
    err := env.mkdirAll(sourceDir);
    if err.Some? {
      return Step(Answer("", err), effects);
    }
    var restored := RestoreAndUpload(r, env, carDir, sourceDir);
    return Step(restored.answer, effects + restored.effects);
  }
}
