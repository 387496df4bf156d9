/** The `build` and `retrieve` commands of the command-line tool (cmd/rebuilder/main.go): how
    they gather CarInfo records and download URLs, check them, set up the rebuilder, and call
    `Build`, `Retrieve` or both. Flag parsing, configuration decoding and logging are outside
    the model: the flags arrive as records, and `config.Init` is an oracle. */
module Cli {
  import opened Wrappers
  import FilePath
  import Rebuilder
  import CarFiles

  type CarInfo = Rebuilder.CarInfo

  /** Used when `--conf` is not given; it is never empty, so the "need run init" error of both
      commands cannot happen. */
  const DefaultConfPath := "./rebuilder.conf"

  const NoInput := "file or download urls is required"
  const NoUrls := "no valid car urls"
  const SizeMismatch := "miners size must be equal to miners size"
  const NoRecordSource := "file or cids/miners is required"
  const NoRecords := "not found valid info"
  const IncompleteRecord := "cids/miners not be empty"
  const NoWallet := "wallet is required"
  /** Writing through the configuration's missing Lotus section. */
  const NilLotus := "invalid memory address or nil pointer dereference"

  datatype BuildFlags = BuildFlags(
    file: string, conf: string, name: string, lotusNode: string, wallet: string, timeout: int,
    args: seq<string>)

  datatype RetrieveFlags = RetrieveFlags(
    file: string, miners: seq<string>, cids: seq<string>, name: string, savePath: string,
    lotusNode: string, wallet: string, timeout: int, conf: string)

  function ConfPath(flag: string): string
  {
    if flag == "" then DefaultConfPath else flag
  }

  // ---------------------------------------------------------------------------------------
  // build: the download URLs

  /** The non-empty download URLs of the records, in record order. */
  function RecordUrls(infos: seq<CarInfo>): seq<string>
    decreases |infos|
  {
    if infos == [] then []
    else
      var init := RecordUrls(infos[..|infos| - 1]);
      var u := infos[|infos| - 1].carFileUrl;
      if u != "" then init + [u] else init
  }

  /** The URLs taken from the records are exactly their non-empty download URLs, and a record's
      URL comes after those of the records before it. */
  lemma {:induction false} RecordUrlsSpec(infos: seq<CarInfo>)
    ensures forall u :: u in RecordUrls(infos) <==> u != "" && exists i :: 0 <= i < |infos| && infos[i].carFileUrl == u
    ensures |RecordUrls(infos)| <= |infos|
    ensures RecordUrls(infos) == [] <==> forall i :: 0 <= i < |infos| ==> infos[i].carFileUrl == ""
    decreases |infos|
  {
    if infos != [] {
      var init := infos[..|infos| - 1];
      RecordUrlsSpec(init);
      assert forall i :: 0 <= i < |init| ==> init[i] == infos[i];
      forall u | u != "" && exists i :: 0 <= i < |infos| && infos[i].carFileUrl == u
        ensures u in RecordUrls(infos)
      {
        var i :| 0 <= i < |infos| && infos[i].carFileUrl == u;
        if i < |init| {
          assert init[i].carFileUrl == u;
        }
      }
    }
  }

  /** The records and URLs the `build` command works from. */
  datatype BuildInput = BuildInput(infos: seq<CarInfo>, urls: seq<string>)

  /** What the `build` command gathers before it loads the configuration: the records of
      `--file` (none without it), and the positional URLs followed by the records' URLs. */
  function BuildInputs(f: BuildFlags, io: CarFiles.Io): Result<BuildInput>
  {
    if f.file == "" && f.args == [] then Err(NoInput)
    else
      var infos := if f.file == "" then Ok([]) else CarFiles.ReadCarFile(io, f.file);
      if infos.Err? then Err(infos.error)
      else
        var urls := f.args + RecordUrls(infos.value);
        if urls == [] then Err(NoUrls) else Ok(BuildInput(infos.value, urls))
  }

  /** The command downloads at least one URL: the positional ones first, in order, then every
      non-empty URL of the records; it is refused only when there is neither input nor URL. */
  lemma BuildInputsSpec(f: BuildFlags, io: CarFiles.Io)
    ensures f.file == "" && f.args == [] ==> BuildInputs(f, io) == Err(NoInput)
    ensures f.file != "" && CarFiles.ReadCarFile(io, f.file).Err? ==>
      BuildInputs(f, io) == Err(CarFiles.ReadCarFile(io, f.file).error)
    ensures BuildInputs(f, io).Ok? ==>
      var input := BuildInputs(f, io).value;
      && input.infos == (if f.file == "" then [] else CarFiles.ReadCarFile(io, f.file).value)
      && |input.urls| > 0
      && input.urls[..|f.args|] == f.args
      && (forall u :: u in input.urls[|f.args|..] <==>
            u != "" && exists i :: 0 <= i < |input.infos| && input.infos[i].carFileUrl == u)
    ensures f.file != "" && CarFiles.ReadCarFile(io, f.file).Ok? ==>
      (BuildInputs(f, io) == Err(NoUrls) <==>
         f.args == [] && forall i :: 0 <= i < |CarFiles.ReadCarFile(io, f.file).value| ==>
                           CarFiles.ReadCarFile(io, f.file).value[i].carFileUrl == "")
  {
    if f.file != "" && CarFiles.ReadCarFile(io, f.file).Ok? {
      RecordUrlsSpec(CarFiles.ReadCarFile(io, f.file).value);
    }
    if BuildInputs(f, io).Ok? {
      var input := BuildInputs(f, io).value;
      RecordUrlsSpec(input.infos);
      assert input.urls[|f.args|..] == RecordUrls(input.infos);
    }
  }

  /** The loop of the `build` command that appends the records' non-empty URLs to the
      positional ones. */
  method AppendRecordUrls(args: seq<string>, infos: seq<CarInfo>) returns (urls: seq<string>)
    ensures urls == args + RecordUrls(infos)
  {
    urls := args;
    for i := 0 to |infos|
      invariant urls == args + RecordUrls(infos[..i])
    {
      assert infos[..i + 1][..i] == infos[..i];
      if infos[i].carFileUrl != "" {
        urls := urls + [infos[i].carFileUrl];
      }
    }
    assert infos[..|infos|] == infos;
  }

  /** The first part of the `build` action: the records and the URL list. */
  method GatherBuildInputs(f: BuildFlags, io: CarFiles.Io) returns (r: Result<BuildInput>)
    ensures r == BuildInputs(f, io)
  {
    if f.file == "" && |f.args| == 0 {
      return Err(NoInput);
    }
    var infos: seq<CarInfo> := [];
    if f.file != "" {
      var read := CarFiles.ReadCarFile(io, f.file);
      if read.Err? {
        return Err(read.error);
      }
      infos := read.value;
    }
    var urls := AppendRecordUrls(f.args, infos);
    if |urls| == 0 {
      return Err(NoUrls);
    }
    return Ok(BuildInput(infos, urls));
  }

  // ---------------------------------------------------------------------------------------
  // Configuration and the rebuilder

  /** A configured rebuilder, or the answer a command gives when it cannot make one. */
  datatype Setup = Ready(rebuilder: Rebuilder.Rebuilder) | Refused(answer: Rebuilder.Answer)

  /** The `--lotus-node` and `--timeout` flags applied to the Lotus section. */
  function WithLotusFlags(l: Rebuilder.LotusConf, lotusNode: string, timeout: int): (r: Rebuilder.LotusConf)
    ensures r.wallet == l.wallet
    ensures r.nodeApi == (if lotusNode != "" then lotusNode else l.nodeApi)
    ensures r.timeout == (if timeout > 0 then timeout else l.timeout)
  {
    var l1 := if lotusNode != "" then l.(nodeApi := lotusNode) else l;
    if timeout > 0 then l1.(timeout := timeout) else l1
  }

  /** The rebuilder of the `build` command: the configuration is loaded, the Lotus flags are
      written into its Lotus section (a nil pointer when there is none) and `NewRebuilder` runs. */
  function BuildSetup(f: BuildFlags, loadConf: string -> Result<Rebuilder.Config>, connect: Rebuilder.Connectors): (r: Setup)
    ensures loadConf(ConfPath(f.conf)).Err? ==> r == Refused(Rebuilder.Answer("", Some(loadConf(ConfPath(f.conf)).error)))
    // the flags are written only when given, and then only into an existing Lotus section
    ensures r == Refused(Rebuilder.Panic(NilLotus)) <==>
      loadConf(ConfPath(f.conf)).Ok? && loadConf(ConfPath(f.conf)).value.lotus.None? && (f.lotusNode != "" || f.timeout > 0)
    ensures r.Ready? ==>
      var c := loadConf(ConfPath(f.conf));
      && c.Ok?
      && Rebuilder.NewRebuilder(Some(c.value.(lotus := if c.value.lotus.None? then None
                                                       else Some(WithLotusFlags(c.value.lotus.value, f.lotusNode, f.timeout)))),
                                connect) == Ok(r.rebuilder)
    ensures r.Refused? ==> r.answer.Panic? || (r.answer.Answer? && r.answer.err.Some?)
  {
    var c := loadConf(ConfPath(f.conf));
    if c.Err? then Refused(Rebuilder.Answer("", Some(c.error)))
    else if c.value.lotus.None? && (f.lotusNode != "" || f.timeout > 0) then Refused(Rebuilder.Panic(NilLotus))
    else
      var conf := c.value.(lotus := if c.value.lotus.None? then None
                                    else Some(WithLotusFlags(c.value.lotus.value, f.lotusNode, f.timeout)));
      var rb := Rebuilder.NewRebuilder(Some(conf), connect);
      if rb.Err? then Refused(Rebuilder.Answer("", Some(rb.error))) else Ready(rb.value)
  }

  /** The rebuilder of the `retrieve` command: the configuration is loaded; its Lotus section must
      exist (it is read unchecked) and a wallet must come from it or from `--wallet`; then the
      Lotus flags are applied and `NewRebuilder` runs. */
  function RetrieveSetup(f: RetrieveFlags, loadConf: string -> Result<Rebuilder.Config>, connect: Rebuilder.Connectors): (r: Setup)
    ensures loadConf(ConfPath(f.conf)).Err? ==> r == Refused(Rebuilder.Answer("", Some(loadConf(ConfPath(f.conf)).error)))
    ensures loadConf(ConfPath(f.conf)).Ok? && loadConf(ConfPath(f.conf)).value.lotus.None? ==> r == Refused(Rebuilder.Panic(NilLotus))
    // the rebuilder is made only when some wallet can pay
    ensures r.Ready? ==>
      var c := loadConf(ConfPath(f.conf));
      && c.Ok? && c.value.lotus.Some?
      && (c.value.lotus.value.wallet != "" || f.wallet != "")
      && Rebuilder.NewRebuilder(Some(c.value.(lotus := Some(WithLotusFlags(c.value.lotus.value, f.lotusNode, f.timeout)))),
                                connect) == Ok(r.rebuilder)
      && r.rebuilder.wallet == c.value.lotus.value.wallet
    ensures (loadConf(ConfPath(f.conf)).Ok? && loadConf(ConfPath(f.conf)).value.lotus.Some?
             && loadConf(ConfPath(f.conf)).value.lotus.value.wallet == "" && f.wallet == "")
      ==> r == Refused(Rebuilder.Answer("", Some(NoWallet)))
  {
    var c := loadConf(ConfPath(f.conf));
    if c.Err? then Refused(Rebuilder.Answer("", Some(c.error)))
    else if c.value.lotus.None? then Refused(Rebuilder.Panic(NilLotus))
    else if c.value.lotus.value.wallet == "" && f.wallet == "" then Refused(Rebuilder.Answer("", Some(NoWallet)))
    else
      var conf := c.value.(lotus := Some(WithLotusFlags(c.value.lotus.value, f.lotusNode, f.timeout)));
      var rb := Rebuilder.NewRebuilder(Some(conf), connect);
      if rb.Err? then Refused(Rebuilder.Answer("", Some(rb.error))) else Ready(rb.value)
  }

  // ---------------------------------------------------------------------------------------
  // build

  /** A step that ended with an error (not a panic, and not a job loop still running). */
  predicate Failed(s: Rebuilder.Step)
  {
    s.answer.Answer? && s.answer.err.Some?
  }

  /** The directory name `Retrieve` works under when `build` falls back to it. */
  function FallbackName(f: BuildFlags): string
  {
    if f.name == "" then FilePath.Base(f.file) else f.name
  }

  /** The `build` action: gathers the records and URLs, sets up the rebuilder, downloads and
      rebuilds; when that fails with an error and the first record has deals, it retrieves the
      records from their miners instead. `built` is what `Build` did, `fellBack` whether
      `Retrieve` ran. */
  method BuildCommand(f: BuildFlags, io: CarFiles.Io, loadConf: string -> Result<Rebuilder.Config>,
                      connect: Rebuilder.Connectors, env: Rebuilder.Env, fuel: nat)
    returns (s: Rebuilder.Step, ghost built: Option<Rebuilder.Step>, ghost fellBack: bool)
    ensures BuildInputs(f, io).Err? ==> s == Rebuilder.Step(Rebuilder.Answer("", Some(BuildInputs(f, io).error)), [])
    ensures BuildInputs(f, io).Ok? && BuildSetup(f, loadConf, connect).Refused? ==>
      s == Rebuilder.Step(BuildSetup(f, loadConf, connect).answer, [])
    ensures built.Some? <==> BuildInputs(f, io).Ok? && BuildSetup(f, loadConf, connect).Ready?
    // `Build` downloads exactly the gathered URLs
    ensures built.Some? && 3 <= |built.value.effects| ==>
      built.value.effects[2] == Rebuilder.DownloadAll(
        FilePath.Join(BuildSetup(f, loadConf, connect).rebuilder.inputPath,
                      if f.name == "" then FilePath.Base(BuildInputs(f, io).value.urls[0]) else f.name),
        BuildInputs(f, io).value.urls)
    // the fallback runs exactly when `Build` failed and the first record names deals
    ensures fellBack <==>
      built.Some? && Failed(built.value)
      && |BuildInputs(f, io).value.infos| > 0 && |BuildInputs(f, io).value.infos[0].deals| > 0
    ensures built.Some? && !fellBack ==> s == built.value
    ensures fellBack ==>
      var rs := Rebuilder.RetrieveSpec(BuildSetup(f, loadConf, connect).rebuilder, env, FallbackName(f),
                                       BuildInputs(f, io).value.infos, f.wallet, []);
      s == Rebuilder.Step(rs.answer, built.value.effects + rs.effects)
    // records read from a JSON file carry no CID, so falling back on them always fails
    ensures fellBack && CarFiles.JsonPath(f.file) ==> Failed(s)
  {
    built, fellBack := None, false;
    var input := GatherBuildInputs(f, io);
    if input.Err? {
      return Rebuilder.Step(Rebuilder.Answer("", Some(input.error)), []), built, fellBack;
    }
    var setup := BuildSetup(f, loadConf, connect);
    if setup.Refused? {
      return Rebuilder.Step(setup.answer, []), built, fellBack;
    }
    var rb := setup.rebuilder;
    var step, _ := Rebuilder.Build(rb, env, f.name, input.value.urls, fuel);
    built := Some(step);
    if !Failed(step) || |input.value.infos| == 0 || |input.value.infos[0].deals| == 0 {
      return step, built, fellBack;
    }
    fellBack := true;
    if CarFiles.JsonPath(f.file) {
      JsonRecordsRefused(io, f.file);
      EmptyCidRetrieveFails(rb, env, FallbackName(f), input.value.infos, f.wallet, []);
    }
    var retrieved := Rebuilder.Retrieve(rb, env, FallbackName(f), input.value.infos, f.wallet, []);
    return Rebuilder.Step(retrieved.answer, step.effects + retrieved.effects), built, fellBack;
  }

  // ---------------------------------------------------------------------------------------
  // retrieve

  /** The record made from the CID and the miner at the same position of the flags. */
  function PairedRecord(cid: string, miner: string): CarInfo
  {
    Rebuilder.CarInfo("", cid, [Rebuilder.CarDeal(0, "", miner)])
  }

  /** The records made from the `--cids` and `--miners` flags. */
  function Paired(cids: seq<string>, miners: seq<string>): seq<CarInfo>
    requires |cids| == |miners|
    decreases |cids|
  {
    if cids == [] then []
    else Paired(cids[..|cids| - 1], miners[..|miners| - 1]) + [PairedRecord(cids[|cids| - 1], miners[|miners| - 1])]
  }

  /** One record per CID, in order, each with a single deal on the miner at the same position. */
  lemma {:induction false} PairedSpec(cids: seq<string>, miners: seq<string>)
    requires |cids| == |miners|
    ensures |Paired(cids, miners)| == |cids|
    ensures forall i :: 0 <= i < |cids| ==>
      && Paired(cids, miners)[i].carFileUrl == "" && Paired(cids, miners)[i].cid == cids[i]
      && |Paired(cids, miners)[i].deals| == 1 && Paired(cids, miners)[i].deals[0].minerFid == miners[i]
    decreases |cids|
  {
    if cids != [] {
      var n := |cids| - 1;
      PairedSpec(cids[..n], miners[..n]);
      assert forall i :: 0 <= i < n ==> cids[..n][i] == cids[i] && miners[..n][i] == miners[i];
    }
  }

  /** The loop of the `retrieve` command that pairs the CIDs with the miners. */
  method PairRecords(cids: seq<string>, miners: seq<string>) returns (r: Result<seq<CarInfo>>)
    ensures |cids| != |miners| ==> r == Err(SizeMismatch)
    ensures |cids| == |miners| ==> r == Ok(Paired(cids, miners))
  {
    if |cids| != |miners| {
      return Err(SizeMismatch);
    }
    var carInfos: seq<CarInfo> := [];
    for i := 0 to |cids|
      invariant carInfos == Paired(cids[..i], miners[..i])
    {
      assert cids[..i + 1][..i] == cids[..i] && miners[..i + 1][..i] == miners[..i];
      carInfos := carInfos + [PairedRecord(cids[i], miners[i])];
    }
    assert cids[..|cids|] == cids && miners[..|miners|] == miners;
    return Ok(carInfos);
  }

  /** Where the `retrieve` command takes its records from: `--file` if given, otherwise the
      `--cids` and `--miners` flags when both are given, which must have the same length. */
  function RetrieveRecords(f: RetrieveFlags, io: CarFiles.Io): Result<seq<CarInfo>>
  {
    if f.file != "" then CarFiles.ReadCarFile(io, f.file)
    else if |f.cids| > 0 && |f.miners| > 0 then
      if |f.cids| != |f.miners| then Err(SizeMismatch) else Ok(Paired(f.cids, f.miners))
    else Err(NoRecordSource)
  }

  /** A record the `retrieve` command accepts: it names a CID and at least one deal. */
  predicate Complete(info: CarInfo)
  {
    info.cid != "" && |info.deals| > 0
  }

  /** The check loop of the `retrieve` command: there must be a record, and every record must be
      complete. */
  method CheckRecords(infos: seq<CarInfo>) returns (err: Option<string>)
    ensures |infos| == 0 ==> err == Some(NoRecords)
    ensures |infos| > 0 ==> (err.None? <==> forall i :: 0 <= i < |infos| ==> Complete(infos[i]))
    ensures |infos| > 0 && err.Some? ==> err == Some(IncompleteRecord)
  {
    if |infos| == 0 {
      return Some(NoRecords);
    }
    for i := 0 to |infos|
      invariant forall j :: 0 <= j < i ==> Complete(infos[j])
    {
      if infos[i].cid == "" || |infos[i].deals| == 0 {
        return Some(IncompleteRecord);
      }
    }
    return None;
  }

  /** Records paired from the flags pass the check exactly when every CID is non-empty: each has
      its deal, even for an empty miner name. */
  lemma PairedComplete(cids: seq<string>, miners: seq<string>)
    requires |cids| == |miners|
    ensures |Paired(cids, miners)| == |cids|
    ensures (forall i :: 0 <= i < |cids| ==> Complete(Paired(cids, miners)[i])) <==>
      forall i :: 0 <= i < |cids| ==> cids[i] != ""
  {
    PairedSpec(cids, miners);
  }

  /** No record read from a JSON file carries a CID (the JSON reader never copies it), so none
      passes the `retrieve` command's check. */
  lemma JsonRecordsRefused(io: CarFiles.Io, path: string)
    requires CarFiles.JsonPath(path)
    ensures var read := CarFiles.ReadCarFile(io, path);
      read.Ok? ==> forall i :: 0 <= i < |read.value| ==> read.value[i].cid == "" && !Complete(read.value[i])
  {
    CarFiles.JsonCidsDropped(io, path);
  }

  /** `Retrieve` on records whose first one has no CID fails: with the error of making the CAR
      directory, or with "invalid empty cid or miners", and before anything is restored. */
  lemma EmptyCidRetrieveFails(rb: Rebuilder.Rebuilder, env: Rebuilder.Env, name: string, infos: seq<CarInfo>,
                              wallet: string, savePath: seq<string>)
    requires |infos| > 0 && infos[0].cid == ""
    ensures var s, carDir := Rebuilder.RetrieveSpec(rb, env, name, infos, wallet, savePath), FilePath.Join(rb.inputPath, name);
      && s.answer == Rebuilder.Answer("", if env.mkdirAll(carDir).Some? then env.mkdirAll(carDir)
                                          else Some("invalid empty cid or miners"))
      && forall i :: 0 <= i < |s.effects| ==> !s.effects[i].Restore?
  {
  }

  /** The directory name `Retrieve` works under: `--name`, or else the first record's CID. */
  function RetrieveName(f: RetrieveFlags, infos: seq<CarInfo>): string
    requires |infos| > 0
  {
    if f.name == "" then infos[0].cid else f.name
  }

  /** The `retrieve` action: gathers and checks the records, sets up the rebuilder and retrieves
      the records into `--save-path` (or the output path). */
  method RetrieveCommand(f: RetrieveFlags, io: CarFiles.Io, loadConf: string -> Result<Rebuilder.Config>,
                         connect: Rebuilder.Connectors, env: Rebuilder.Env)
    returns (s: Rebuilder.Step)
    ensures RetrieveRecords(f, io).Err? ==> s == Rebuilder.Step(Rebuilder.Answer("", Some(RetrieveRecords(f, io).error)), [])
    ensures RetrieveRecords(f, io).Ok? && RetrieveRecords(f, io).value == [] ==>
      s == Rebuilder.Step(Rebuilder.Answer("", Some(NoRecords)), [])
    // nothing is configured or retrieved unless every record is complete
    ensures RetrieveRecords(f, io).Ok? && (exists i :: 0 <= i < |RetrieveRecords(f, io).value| && !Complete(RetrieveRecords(f, io).value[i])) ==>
      s == Rebuilder.Step(Rebuilder.Answer("", Some(IncompleteRecord)), [])
    ensures s.effects != [] ==>
      && RetrieveRecords(f, io).Ok? && |RetrieveRecords(f, io).value| > 0
      && (forall i :: 0 <= i < |RetrieveRecords(f, io).value| ==> Complete(RetrieveRecords(f, io).value[i]))
      && RetrieveSetup(f, loadConf, connect).Ready?
    ensures (RetrieveRecords(f, io).Ok? && |RetrieveRecords(f, io).value| > 0
      && forall i :: 0 <= i < |RetrieveRecords(f, io).value| ==> Complete(RetrieveRecords(f, io).value[i])) ==>
      var infos := RetrieveRecords(f, io).value;
      match RetrieveSetup(f, loadConf, connect)
      case Refused(a) => s == Rebuilder.Step(a, [])
      case Ready(rb) => s == Rebuilder.RetrieveSpec(rb, env, RetrieveName(f, infos), infos, f.wallet, [f.savePath])
    // records read from a JSON file carry no CID, so such a file never gets past the check
    ensures f.file != "" && CarFiles.JsonPath(f.file) ==> s.effects == [] && Failed(s)
  {
    var infos: seq<CarInfo>;
    if f.file != "" {
      var read := CarFiles.ReadCarFile(io, f.file);
      if read.Err? {
        return Rebuilder.Step(Rebuilder.Answer("", Some(read.error)), []);
      }
      infos := read.value;
      if CarFiles.JsonPath(f.file) {
        JsonRecordsRefused(io, f.file);
        assert infos == [] || !Complete(infos[0]);
      }
    } else if |f.cids| > 0 && |f.miners| > 0 {
      var paired := PairRecords(f.cids, f.miners);
      if paired.Err? {
        return Rebuilder.Step(Rebuilder.Answer("", Some(paired.error)), []);
      }
      infos := paired.value;
    } else {
      return Rebuilder.Step(Rebuilder.Answer("", Some(NoRecordSource)), []);
    }
    var err := CheckRecords(infos);
    if err.Some? {
      return Rebuilder.Step(Rebuilder.Answer("", err), []);
    }
    var setup := RetrieveSetup(f, loadConf, connect);
    if setup.Refused? {
      return Rebuilder.Step(setup.answer, []);
    }
    var name := if f.name == "" then infos[0].cid else f.name;
    s := Rebuilder.Retrieve(setup.rebuilder, env, name, infos, f.wallet, [f.savePath]);
    RetrieveHasEffects(setup.rebuilder, env, name, infos, f.wallet, [f.savePath]);
  }

  /** `Retrieve` on a non-empty record list always records at least the making of its CAR directory. */
  lemma RetrieveHasEffects(rb: Rebuilder.Rebuilder, env: Rebuilder.Env, name: string, infos: seq<CarInfo>,
                           wallet: string, savePath: seq<string>)
    requires |infos| > 0
    ensures Rebuilder.RetrieveSpec(rb, env, name, infos, wallet, savePath).effects != []
  {
  }
}
