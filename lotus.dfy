/** The Lotus client: `RetrieveData`'s pre-checks, its retrieval-event loop and the export of
    the retrieved data, and `getDealsCounts`. The full node is an oracle (`Node`); address and
    CID parsing are part of that oracle. */
module Lotus {
  import opened Wrappers

  const RetrievalTimeout := "retrieval timeout"
  const RejectedPrefix := "retrieval Proposal Rejected: "
  const ErrorPrefix := "retrieval error: "
  const UpdatesPrefix := "error setting up retrieval updates: "
  const RetrievePrefix := "error setting up retrieval: "

  /** The retrieval deal statuses the loop tells apart; every other status is `OtherStatus`. */
  datatype DealStatus = Completed | Rejected | DealNotFound | Errored | OtherStatus(code: nat)

  /** One update on the retrieval subscription. */
  datatype RetrievalInfo = RetrievalInfo(id: nat, status: DealStatus, message: string)

  /** The offer a miner answers a query with, as the node describes it. */
  datatype Offer = Offer(terms: string)

  /** `offer.Order(pay)` with its data selector (`None` selects the whole DAG). */
  datatype Order = Order(offer: Offer, wallet: string, dataSelector: Option<string>)

  datatype ExportRef = ExportRef(root: string, dealId: nat)
  datatype FileRef = FileRef(path: string, isCar: bool)

  /** The full node. `addressError`/`cidError` are the parse errors of `address.NewFromString`
      and `cid.Parse` (`None` for valid input). `updates(d)` is what arrives on the retrieval
      subscription before the ten-minute deadline once deal `d` is under way, in order. */
  datatype Node = Node(
    addressError: string -> Option<string>,
    cidError: string -> Option<string>,
    queryOffer: (string, string) -> Result<Offer>,
    subscribeError: Option<string>,
    retrieve: Order -> Result<nat>,
    updates: nat -> seq<RetrievalInfo>,
    exportCar: (ExportRef, FileRef) -> Option<string>,
    marketDeals: Result<map<string, MarketDeal>>)

  /** The node calls `RetrieveData` makes, in order. */
  datatype Call = QueryOffer(miner: string, root: string) | Subscribe | Retrieve(order: Order) | Export(ref: ExportRef, file: FileRef)

  /** The error `RetrieveData` returns (`None` for success) and the node calls it made. */
  datatype Run = Run(err: Option<string>, calls: seq<Call>)

  /** How the event loop ends: the deal completed, or the loop stopped with an error. */
  datatype Ending = DataReady | Stopped(error: string)

  /** Statuses that end the event loop. */
  predicate Terminal(s: DealStatus)
  {
    !s.OtherStatus?
  }

  /** The ending a terminal event for the deal brings about. */
  function Verdict(e: RetrievalInfo): (r: Ending)
    requires Terminal(e.status)
    ensures r == DataReady <==> e.status == Completed
    ensures e.status == Rejected ==> r == Stopped(RejectedPrefix + e.message)
    ensures e.status in {DealNotFound, Errored} ==> r == Stopped(ErrorPrefix + e.message)
  {
    match e.status
    case Completed => DataReady
    case Rejected => Stopped(RejectedPrefix + e.message)
    case DealNotFound => Stopped(ErrorPrefix + e.message)
    case Errored => Stopped(ErrorPrefix + e.message)
  }

  /** An event that decides the loop for `deal`. */
  predicate Decides(e: RetrievalInfo, deal: nat)
  {
    e.id == deal && Terminal(e.status)
  }

  /** The event loop as a fold over the updates: the first deciding event gives the verdict,
      and the deadline ends the loop when none arrives. */
  function Await(events: seq<RetrievalInfo>, deal: nat): Ending
    decreases |events|
  {
    if events == [] then Stopped(RetrievalTimeout)
    else if Decides(events[0], deal) then Verdict(events[0])
    else Await(events[1..], deal)
  }

  /** The updates about `deal`. */
  function About(events: seq<RetrievalInfo>, deal: nat): (r: seq<RetrievalInfo>)
    ensures |r| <= |events|
    ensures forall i :: 0 <= i < |r| ==> r[i].id == deal && r[i] in events
    decreases |events|
  {
    if events == [] then []
    else if events[0].id == deal then [events[0]] + About(events[1..], deal)
    else About(events[1..], deal)
  }

  /** `RetrieveData`'s `readEvents` loop over the updates that arrive before the deadline. */
  method ReadEvents(events: seq<RetrievalInfo>, deal: nat) returns (e: Ending)
    ensures e == Await(events, deal)
  {
    var i := 0;
    while i < |events|
      invariant 0 <= i <= |events|
      invariant Await(events[i..], deal) == Await(events, deal)
    {
      var evt := events[i];
      if evt.id != deal {
        i := i + 1;
        continue;
      }
      match evt.status
      case Completed =>
        return DataReady;
      case Rejected =>
        return Stopped(RejectedPrefix + evt.message);
      case DealNotFound =>
        return Stopped(ErrorPrefix + evt.message);
      case Errored =>
        return Stopped(ErrorPrefix + evt.message);
      case OtherStatus(_) =>
        i := i + 1;
    }
    return Stopped(RetrievalTimeout);
  }

  /** An update that does not decide the loop, wherever it arrives, leaves the outcome unchanged. */
  lemma {:induction false} AwaitSkips(a: seq<RetrievalInfo>, e: RetrievalInfo, b: seq<RetrievalInfo>, deal: nat)
    requires !Decides(e, deal)
    ensures Await(a + [e] + b, deal) == Await(a + b, deal)
    decreases |a|
  {
    if a == [] {
      assert a + [e] + b == [e] + b && a + b == b;
      assert ([e] + b)[1..] == b;
    } else {
      assert (a + [e] + b)[1..] == a[1..] + [e] + b;
      assert (a + b)[1..] == a[1..] + b;
      AwaitSkips(a[1..], e, b, deal);
    }
  }

  /** Updates about other deals are ignored: only those about `deal` decide the outcome. */
  lemma {:induction false} AwaitAbout(events: seq<RetrievalInfo>, deal: nat)
    ensures Await(About(events, deal), deal) == Await(events, deal)
    decreases |events|
  {
    if events != [] {
      AwaitAbout(events[1..], deal);
      if events[0].id == deal {
        assert ([events[0]] + About(events[1..], deal))[1..] == About(events[1..], deal);
      }
    }
  }

  /** The first deciding update gives the verdict, whatever follows it. */
  lemma {:induction false} AwaitFirst(events: seq<RetrievalInfo>, deal: nat, k: nat)
    requires k < |events| && Decides(events[k], deal)
    requires forall j :: 0 <= j < k ==> !Decides(events[j], deal)
    ensures Await(events, deal) == Verdict(events[k])
    decreases k
  {
    if k > 0 {
      AwaitFirst(events[1..], deal, k - 1);
    }
  }

  /** Without a deciding update the deadline ends the loop. */
  lemma {:induction false} AwaitTimeout(events: seq<RetrievalInfo>, deal: nat)
    requires forall j :: 0 <= j < |events| ==> !Decides(events[j], deal)
    ensures Await(events, deal) == Stopped(RetrievalTimeout)
    decreases |events|
  {
    if events != [] {
      AwaitTimeout(events[1..], deal);
    }
  }

  /** The outcome of `RetrieveData`, call by call. */
  function Retrieval(node: Node, minerId: string, dataCid: string, savePath: string, wallet: string): Run
  {
    if node.addressError(minerId).Some? then Run(node.addressError(minerId), [])
    else if node.cidError(dataCid).Some? then Run(node.cidError(dataCid), [])
    else
      var q := QueryOffer(minerId, dataCid);
      var offer := node.queryOffer(minerId, dataCid);
      if offer.Err? then Run(Some(offer.error), [q])
      else if node.addressError(wallet).Some? then Run(node.addressError(wallet), [q])
      else if node.subscribeError.Some? then Run(Some(UpdatesPrefix + node.subscribeError.value), [q, Subscribe])
      else
        var order := Order(offer.value, wallet, None);
        var res := node.retrieve(order);
        if res.Err? then Run(Some(RetrievePrefix + res.error), [q, Subscribe, Retrieve(order)])
        else
          match Await(node.updates(res.value), res.value)
          case Stopped(e) => Run(Some(e), [q, Subscribe, Retrieve(order)])
          case DataReady =>
            var ref, file := ExportRef(dataCid, res.value), FileRef(savePath, true);
            Run(node.exportCar(ref, file), [q, Subscribe, Retrieve(order), Export(ref, file)])
  }

  /** `Client.RetrieveData`: validates the miner address and the CID, queries the offer,
      validates the wallet, subscribes to updates, starts the retrieval, waits for its outcome
      and exports the data as a CAR file. */
  method RetrieveData(node: Node, minerId: string, dataCid: string, savePath: string, wallet: string) returns (r: Run)
    ensures r == Retrieval(node, minerId, dataCid, savePath, wallet)
  {
    var err := node.addressError(minerId);
    if err.Some? {
      return Run(err, []);
    }
    err := node.cidError(dataCid);
    if err.Some? {
      return Run(err, []);
    }
    var calls := [QueryOffer(minerId, dataCid)];
    var offer := node.queryOffer(minerId, dataCid);
    if offer.Err? {
      return Run(Some(offer.error), calls);
    }
    err := node.addressError(wallet);
    if err.Some? {
      return Run(err, calls);
    }
    var order := Order(offer.value, wallet, None);
    calls := calls + [Subscribe];
    if node.subscribeError.Some? {
      return Run(Some(UpdatesPrefix + node.subscribeError.value), calls);
    }
    calls := calls + [Retrieve(order)];
    var res := node.retrieve(order);
    if res.Err? {
      return Run(Some(RetrievePrefix + res.error), calls);
    }
    var ending := ReadEvents(node.updates(res.value), res.value);
    if ending.Stopped? {
      return Run(Some(ending.error), calls);
    }
    var ref, file := ExportRef(dataCid, res.value), FileRef(savePath, true);
    calls := calls + [Export(ref, file)];
    return Run(node.exportCar(ref, file), calls);
  }

  /** An invalid miner address, CID or wallet is reported before any retrieval is started,
      and an invalid miner address or CID before the node is asked anything. */
  lemma PreChecks(node: Node, minerId: string, dataCid: string, savePath: string, wallet: string)
    ensures var r := Retrieval(node, minerId, dataCid, savePath, wallet);
      && ((exists o :: Retrieve(o) in r.calls) ==>
            node.addressError(minerId).None? && node.cidError(dataCid).None? && node.addressError(wallet).None?)
      && (node.addressError(minerId).Some? ==> r == Run(node.addressError(minerId), []))
      && (node.addressError(minerId).None? && node.cidError(dataCid).Some? ==> r == Run(node.cidError(dataCid), []))
  {
  }

  /** The retrieval order is built from the miner's offer for the CID, pays from `wallet` and
      selects the whole DAG. */
  lemma OrderFromOffer(node: Node, minerId: string, dataCid: string, savePath: string, wallet: string)
    ensures var r := Retrieval(node, minerId, dataCid, savePath, wallet);
      forall i :: 0 <= i < |r.calls| && r.calls[i].Retrieve? ==>
        && node.queryOffer(minerId, dataCid).Ok?
        && r.calls[i].order == Order(node.queryOffer(minerId, dataCid).value, wallet, None)
  {
  }

  /** Data is exported only after the deal completed, with the query's root and the deal's ID,
      as a CAR file at `savePath`; the export's own error is then the result. Any failure before
      it is an error. */
  lemma ExportAfterCompletion(node: Node, minerId: string, dataCid: string, savePath: string, wallet: string)
    ensures var r := Retrieval(node, minerId, dataCid, savePath, wallet);
      && |r.calls| <= 4
      && (forall i :: 0 <= i < |r.calls| && r.calls[i].Export? ==>
            && i == 3 && r.calls[2].Retrieve?
            && var deal := node.retrieve(r.calls[2].order).value;
               && node.retrieve(r.calls[2].order) == Ok(deal)
               && Await(node.updates(deal), deal) == DataReady
               && r.calls[i] == Export(ExportRef(dataCid, deal), FileRef(savePath, true))
               && r.err == node.exportCar(ExportRef(dataCid, deal), FileRef(savePath, true)))
      && ((|r.calls| < 4 || !r.calls[3].Export?) ==> r.err.Some?)
  {
  }

  /** A deal as `StateMarketDeals` reports it: the provider and the sector start epoch (-1 while
      the deal is not yet in a sector). */
  datatype MarketDeal = MarketDeal(provider: string, sectorStartEpoch: int)

  /** The deals, among the keys `ks`, of `provider` that have started. */
  ghost function Active(deals: map<string, MarketDeal>, ks: set<string>, provider: string): set<string>
  {
    set k | k in ks && k in deals && deals[k].provider == provider && deals[k].sectorStartEpoch != -1
  }

  /** Adding a started deal of `provider` to the counted keys adds it to its set; other providers
      and deals that have not started are unaffected. */
  lemma ActiveAdd(deals: map<string, MarketDeal>, ks: set<string>, k: string, p: string)
    requires k in deals && k !in ks
    ensures (deals[k].provider == p && deals[k].sectorStartEpoch != -1) ==>
      |Active(deals, ks + {k}, p)| == |Active(deals, ks, p)| + 1
    ensures !(deals[k].provider == p && deals[k].sectorStartEpoch != -1) ==>
      Active(deals, ks + {k}, p) == Active(deals, ks, p)
  {
    if deals[k].provider == p && deals[k].sectorStartEpoch != -1 {
      assert Active(deals, ks + {k}, p) == Active(deals, ks, p) + {k};
    }
  }

  /** `getDealsCounts`: the number of started deals per provider; providers without one are absent. */
  method DealsCounts(node: Node) returns (out: Result<map<string, nat>>)
    ensures node.marketDeals.Err? ==> out == Err(node.marketDeals.error)
    ensures node.marketDeals.Ok? ==> out.Ok?
    ensures node.marketDeals.Ok? ==> var deals := node.marketDeals.value;
      forall p :: p in out.value <==> Active(deals, deals.Keys, p) != {}
    ensures node.marketDeals.Ok? ==> var deals := node.marketDeals.value;
      forall p :: p in out.value ==> out.value[p] == |Active(deals, deals.Keys, p)|
  {
    var allDeals := node.marketDeals;
    if allDeals.Err? {
      return Err(allDeals.error);
    }
    var deals := allDeals.value;
    var counts: map<string, nat> := map[];
    var rest := deals.Keys;
    ghost var done: set<string> := {};
    while rest != {}
      invariant done + rest == deals.Keys && done !! rest
      invariant forall p :: p in counts <==> Active(deals, done, p) != {}
      invariant forall p :: p in counts ==> counts[p] == |Active(deals, done, p)|
      decreases rest
    {
      var k :| k in rest;
      var d := deals[k];
      forall p ensures (d.provider == p && d.sectorStartEpoch != -1) ==> |Active(deals, done + {k}, p)| == |Active(deals, done, p)| + 1
        ensures !(d.provider == p && d.sectorStartEpoch != -1) ==> Active(deals, done + {k}, p) == Active(deals, done, p)
      {
        ActiveAdd(deals, done, k, p);
      }
      if d.sectorStartEpoch != -1 {
        var n := if d.provider in counts then counts[d.provider] else 0;
        assert k in Active(deals, done + {k}, d.provider);
        counts := counts[d.provider := n + 1];
      }
      rest := rest - {k};
      done := done + {k};
    }
    return Ok(counts);
  }
}
