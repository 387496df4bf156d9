/** The CAR metadata files the `build` and `retrieve` commands read (cmd/rebuilder/main.go):
    a JSON list or a CSV table of CarInfo records, merged by download URL. The JSON decoder,
    the CSV library and the file system are oracles held in `Io`. */
module CarFiles {
  import opened Wrappers
  import Text
  import FilePath
  import Rebuilder

  type CarInfo = Rebuilder.CarInfo
  type CarDeal = Rebuilder.CarDeal

  const HttpPrefix := "http://"
  const HttpsPrefix := "https://"
  const InvalidUrl := "invalid download URL"

  /** File reading and the library decoders: `readFile` is `os.ReadFile`, `decodeJson` is
      `json.Unmarshal` into a CarInfo list, `parseCsv` is `csv.Reader.ReadAll` and
      `decodeDeals` is `json.Unmarshal` of one CSV deals cell. */
  datatype Io = Io(
    readFile: string -> Result<string>,
    decodeJson: string -> Result<seq<CarInfo>>,
    parseCsv: string -> Result<seq<seq<string>>>,
    decodeDeals: string -> Result<seq<CarDeal>>)

  // ---------------------------------------------------------------------------------------
  // httpDownloadURL

  /** `httpDownloadURL`. */
  predicate IsHttpUrl(u: string)
  {
    Text.HasPrefix(u, HttpPrefix) || Text.HasPrefix(u, HttpsPrefix)
  }

  /** Every "http://" or "https://" URL is a download URL ... */
  lemma HttpUrlOf(rest: string)
    ensures IsHttpUrl(HttpPrefix + rest) && IsHttpUrl(HttpsPrefix + rest)
  {
    assert (HttpPrefix + rest)[..|HttpPrefix|] == HttpPrefix;
    assert (HttpsPrefix + rest)[..|HttpsPrefix|] == HttpsPrefix;
  }

  /** ... and every download URL is one of those. */
  lemma HttpUrlParts(u: string)
    requires IsHttpUrl(u)
    ensures u == HttpPrefix + u[|HttpPrefix|..] || u == HttpsPrefix + u[|HttpsPrefix|..]
  {
    if Text.HasPrefix(u, HttpPrefix) {
      assert u == u[..|HttpPrefix|] + u[|HttpPrefix|..];
    } else {
      assert u == u[..|HttpsPrefix|] + u[|HttpsPrefix|..];
    }
  }

  /** The scheme is matched character by character: exactly the URLs that begin with the
      lower-case letters `http`, then `://` or `s://`, are download URLs. */
  lemma SchemeCaseSensitive(u: string)
    ensures IsHttpUrl(u) <==>
      && 7 <= |u| && u[..4] == "http"
      && (u[4..7] == "://" || (8 <= |u| && u[4..8] == "s://"))
  {
    if 7 <= |u| && u[..4] == "http" {
      assert u[..7] == u[..4] + u[4..7];
      if 8 <= |u| {
        assert u[..8] == u[..4] + u[4..8];
      }
    }
    if Text.HasPrefix(u, HttpPrefix) {
      assert u[..4] == u[..7][..4] && u[4..7] == u[..7][4..7];
    }
    if Text.HasPrefix(u, HttpsPrefix) {
      assert u[..4] == u[..8][..4] && u[4..8] == u[..8][4..8];
    }
  }

  // ---------------------------------------------------------------------------------------
  // Merging records by URL (the map `m` of readCarJson and readCarCsv)

  /** What one input record contributes to the CarInfo of its URL: a CID that replaces the
      current one (None leaves it alone) and deals appended to the current ones. */
  datatype Entry = Entry(url: string, cid: Option<string>, deals: seq<CarDeal>)

  function Urls(es: seq<Entry>): (r: seq<string>)
    ensures |r| == |es| && forall i :: 0 <= i < |es| ==> r[i] == es[i].url
  {
    seq(|es|, i requires 0 <= i < |es| => es[i].url)
  }

  /** The distinct elements of `s`, in order of first appearance. */
  function Distinct(s: seq<string>): seq<string>
    decreases |s|
  {
    if s == [] then []
    else
      var d := Distinct(s[..|s| - 1]);
      if s[|s| - 1] in d then d else d + [s[|s| - 1]]
  }

  /** The position of the first occurrence of `u` in `s`. */
  function FirstIndex(s: seq<string>, u: string): (k: nat)
    requires u in s
    ensures k < |s| && s[k] == u && u !in s[..k]
  {
    if s[0] == u then 0
    else
      assert s == [s[0]] + s[1..];
      var k := FirstIndex(s[1..], u);
      assert s[..k + 1] == [s[0]] + s[1..][..k];
      k + 1
  }

  lemma {:induction false} FirstIndexSnoc(s: seq<string>, x: string, u: string)
    requires u in s
    ensures FirstIndex(s + [x], u) == FirstIndex(s, u)
  {
    if s[0] != u {
      assert (s + [x])[1..] == s[1..] + [x];
      assert u in s[1..] by { assert s == [s[0]] + s[1..]; }
      FirstIndexSnoc(s[1..], x, u);
    }
  }

  /** Every element is kept, none is repeated, and they come in order of first appearance. */
  lemma {:induction false} DistinctSpec(s: seq<string>)
    ensures forall u :: u in Distinct(s) <==> u in s
    ensures forall i, j :: 0 <= i < j < |Distinct(s)| ==> Distinct(s)[i] != Distinct(s)[j]
    ensures forall i, j :: 0 <= i < j < |Distinct(s)| ==>
      FirstIndex(s, Distinct(s)[i]) < FirstIndex(s, Distinct(s)[j])
    decreases |s|
  {
    if s != [] {
      var init, x := s[..|s| - 1], s[|s| - 1];
      assert s == init + [x];
      DistinctSpec(init);
      var d := Distinct(init);
      forall u | u in init ensures FirstIndex(s, u) == FirstIndex(init, u) {
        FirstIndexSnoc(init, x, u);
      }
      if x !in d {
        assert Distinct(s) == d + [x];
        assert FirstIndex(s, x) == |init| by {
          assert x !in init;
          assert s[..|init|] == init;
        }
        forall i | 0 <= i < |d| ensures FirstIndex(s, d[i]) < FirstIndex(s, x) {
          assert d[i] in init;
        }
      }
    }
  }

  /** The deals the entries for `u` contribute, concatenated in entry order. */
  function DealsFor(es: seq<Entry>, u: string): seq<CarDeal>
    decreases |es|
  {
    if es == [] then []
    else
      var last := es[|es| - 1];
      DealsFor(es[..|es| - 1], u) + (if last.url == u then last.deals else [])
  }

  /** The CID of `u` after the entries: that of the last entry for `u` that sets one, or "". */
  function CidFor(es: seq<Entry>, u: string): string
    decreases |es|
  {
    if es == [] then ""
    else
      var last := es[|es| - 1];
      if last.url == u && last.cid.Some? then last.cid.value else CidFor(es[..|es| - 1], u)
  }

  /** Whether some entry for `u` sets a CID. */
  predicate SetsCid(es: seq<Entry>, u: string)
  {
    exists i :: 0 <= i < |es| && es[i].url == u && es[i].cid.Some?
  }

  /** Deals are gathered piecewise: those of a concatenation are the concatenation. */
  lemma {:induction false} DealsForAppend(es: seq<Entry>, ds: seq<Entry>, u: string)
    ensures DealsFor(es + ds, u) == DealsFor(es, u) + DealsFor(ds, u)
    decreases |ds|
  {
    if ds == [] {
      assert es + ds == es;
    } else {
      var init := ds[..|ds| - 1];
      assert (es + ds)[..|es + ds| - 1] == es + init;
      DealsForAppend(es, init, u);
    }
  }

  /** The last CID set wins: after `es + ds` it is the CID from `ds` if `ds` sets one for `u`,
      and the CID from `es` otherwise. */
  lemma {:induction false} CidForAppend(es: seq<Entry>, ds: seq<Entry>, u: string)
    ensures CidFor(es + ds, u) == if SetsCid(ds, u) then CidFor(ds, u) else CidFor(es, u)
    decreases |ds|
  {
    if ds == [] {
      assert es + ds == es;
    } else {
      var init, last := ds[..|ds| - 1], ds[|ds| - 1];
      assert (es + ds)[..|es + ds| - 1] == es + init;
      CidForAppend(es, init, u);
      if !(last.url == u && last.cid.Some?) {
        assert SetsCid(ds, u) <==> SetsCid(init, u) by {
          if SetsCid(ds, u) {
            var i :| 0 <= i < |ds| && ds[i].url == u && ds[i].cid.Some?;
            assert init[i] == ds[i];
          }
          if SetsCid(init, u) {
            var i :| 0 <= i < |init| && init[i].url == u && init[i].cid.Some?;
            assert ds[i] == init[i];
          }
        }
      } else {
        assert SetsCid(ds, u) by { assert ds[|ds| - 1] == last; }
      }
    }
  }

  /** A URL no entry names has no CID and no deals. */
  lemma {:induction false} Unnamed(es: seq<Entry>, u: string)
    requires u !in Urls(es)
    ensures CidFor(es, u) == "" && DealsFor(es, u) == []
    decreases |es|
  {
    if es != [] {
      var init := es[..|es| - 1];
      assert es[|es| - 1].url == Urls(es)[|es| - 1];
      assert Urls(init) == Urls(es)[..|init|];
      Unnamed(init, u);
    }
  }

  /** One CarInfo per distinct URL, in order of first appearance, with the CID set last and all
      deals of the URL's entries in entry order. */
  function Merged(es: seq<Entry>): (r: seq<CarInfo>)
    ensures |r| == |Distinct(Urls(es))|
  {
    var d := Distinct(Urls(es));
    seq(|d|, j requires 0 <= j < |d| => Rebuilder.CarInfo(d[j], CidFor(es, d[j]), DealsFor(es, d[j])))
  }

  /** The merged URLs are those of the entries, each once, in order of first appearance. */
  lemma MergedUrls(es: seq<Entry>)
    ensures forall u :: (exists j :: 0 <= j < |Merged(es)| && Merged(es)[j].carFileUrl == u) <==> u in Urls(es)
    ensures forall i, j :: 0 <= i < j < |Merged(es)| ==> Merged(es)[i].carFileUrl != Merged(es)[j].carFileUrl
    ensures forall i, j :: 0 <= i < j < |Merged(es)| ==>
      FirstIndex(Urls(es), Merged(es)[i].carFileUrl) < FirstIndex(Urls(es), Merged(es)[j].carFileUrl)
  {
    var d := Distinct(Urls(es));
    DistinctSpec(Urls(es));
    forall u | u in Urls(es) ensures exists j :: 0 <= j < |Merged(es)| && Merged(es)[j].carFileUrl == u {
      assert u in d;
      var j :| 0 <= j < |d| && d[j] == u;
      assert Merged(es)[j].carFileUrl == u;
    }
  }

  lemma UrlsSnoc(es: seq<Entry>, e: Entry)
    ensures Urls(es + [e]) == Urls(es) + [e.url]
  {
  }

  /** An entry for a new URL adds a CarInfo at the end. */
  lemma MergedNew(es: seq<Entry>, e: Entry)
    requires e.url !in Urls(es)
    ensures Merged(es + [e]) == Merged(es) + [Rebuilder.CarInfo(e.url, if e.cid.Some? then e.cid.value else "", e.deals)]
  {
    var s := es + [e];
    UrlsSnoc(es, e);
    var d := Distinct(Urls(es));
    DistinctSpec(Urls(es));
    assert Urls(s)[..|Urls(s)| - 1] == Urls(es);
    assert Distinct(Urls(s)) == d + [e.url];
    assert s[..|s| - 1] == es;
    Unnamed(es, e.url);
    assert CidFor(s, e.url) == if e.cid.Some? then e.cid.value else "";
    assert DealsFor(s, e.url) == [] + e.deals;
    assert Merged(s)[|d|] == Rebuilder.CarInfo(e.url, if e.cid.Some? then e.cid.value else "", e.deals);
    forall j | 0 <= j < |d| ensures Merged(s)[j] == Merged(es)[j] {
      assert d[j] != e.url;
    }
  }

  /** An entry for a URL already present updates that URL's CarInfo in place. */
  lemma MergedOld(es: seq<Entry>, e: Entry, k: nat)
    requires k < |Merged(es)| && Merged(es)[k].carFileUrl == e.url
    ensures Merged(es + [e]) == Merged(es)[k := Merged(es)[k].(
      cid := if e.cid.Some? then e.cid.value else Merged(es)[k].cid,
      deals := Merged(es)[k].deals + e.deals)]
  {
    var s := es + [e];
    UrlsSnoc(es, e);
    var d := Distinct(Urls(es));
    DistinctSpec(Urls(es));
    assert Urls(s)[..|Urls(s)| - 1] == Urls(es);
    assert d[k] == e.url;
    assert Distinct(Urls(s)) == d;
    assert s[..|s| - 1] == es;
    forall j | 0 <= j < |d| && j != k ensures Merged(s)[j] == Merged(es)[j] {
      assert d[j] != d[k];
    }
  }

  /** `infos` and the URL index `m` are the running state of the merge after `es`. */
  ghost predicate Tabulates(es: seq<Entry>, infos: seq<CarInfo>, m: map<string, nat>)
  {
    && infos == Merged(es)
    && (forall u :: u in m <==> u in Urls(es))
    && (forall u :: u in m ==> m[u] < |infos| && infos[m[u]].carFileUrl == u)
  }

  lemma TabulatesEmpty()
    ensures Tabulates([], [], map[])
  {
  }

  /** One record's update of the merge state: a CarInfo is made the first time its URL is seen,
      then its CID is replaced (when the record has one) and its deals extended. */
  method Absorb(ghost es: seq<Entry>, infos: seq<CarInfo>, m: map<string, nat>, e: Entry)
    returns (infos': seq<CarInfo>, m': map<string, nat>)
    requires Tabulates(es, infos, m)
    ensures Tabulates(es + [e], infos', m')
  {
    infos', m' := infos, m;
    if e.url !in m' {
      m' := m'[e.url := |infos'|];
      infos' := infos' + [Rebuilder.CarInfo(e.url, "", [])];
    }
    var k := m'[e.url];
    ghost var mid := infos';
    if e.cid.Some? {
      infos' := infos'[k := infos'[k].(cid := e.cid.value)];
    }
    infos' := infos'[k := infos'[k].(deals := infos'[k].deals + e.deals)];
    AbsorbState(es, infos, m, e, mid, k, m', infos');
  }

  /** The state `Absorb` leaves: `mid` is the table once the URL has a CarInfo, at `k`. */
  lemma AbsorbState(es: seq<Entry>, infos: seq<CarInfo>, m: map<string, nat>, e: Entry,
                    mid: seq<CarInfo>, k: nat, m': map<string, nat>, infos': seq<CarInfo>)
    requires Tabulates(es, infos, m)
    requires e.url in m ==> mid == infos && k == m[e.url] && m' == m
    requires e.url !in m ==> mid == infos + [Rebuilder.CarInfo(e.url, "", [])] && k == |infos| && m' == m[e.url := k]
    requires k < |mid|
    requires infos' == mid[k := mid[k].(cid := if e.cid.Some? then e.cid.value else mid[k].cid,
                                        deals := mid[k].deals + e.deals)]
    ensures Tabulates(es + [e], infos', m')
  {
    UrlsSnoc(es, e);
    if e.url in m {
      MergedOld(es, e, k);
    } else {
      MergedNew(es, e);
      assert [] + e.deals == e.deals;
      assert infos' == infos + [Rebuilder.CarInfo(e.url, if e.cid.Some? then e.cid.value else "", e.deals)];
    }
    forall u | u in m' ensures m'[u] < |infos'| && infos'[m'[u]].carFileUrl == u {
      if u != e.url {
        assert m'[u] == m[u];
      }
    }
  }

  /** When the last entry for `u` is a given one that sets a CID, the URL ends with that CID. */
  lemma {:induction false} CidOfLast(es: seq<Entry>, k: nat)
    requires k < |es| && es[k].cid.Some?
    requires forall j :: k < j < |es| ==> es[j].url != es[k].url
    ensures CidFor(es, es[k].url) == es[k].cid.value
    decreases |es|
  {
    if k < |es| - 1 {
      var init := es[..|es| - 1];
      assert init[k] == es[k];
      assert forall j :: k < j < |init| ==> init[j] == es[j];
      CidOfLast(init, k);
    }
  }

  // ---------------------------------------------------------------------------------------
  // readCarJson

  /** The entries of a decoded JSON list. `keepCid` says whether a record's `PayloadCid` is
      copied into its CarInfo. */
  function JsonEntries(list: seq<CarInfo>, keepCid: bool): (r: seq<Entry>)
    ensures |r| == |list|
    ensures forall i :: 0 <= i < |list| ==>
      r[i] == Entry(list[i].carFileUrl, if keepCid then Some(list[i].cid) else None, list[i].deals)
  {
    seq(|list|, i requires 0 <= i < |list| =>
      Entry(list[i].carFileUrl, if keepCid then Some(list[i].cid) else None, list[i].deals))
  }

  predicate AllHttp(list: seq<CarInfo>)
  {
    forall i :: 0 <= i < |list| ==> IsHttpUrl(list[i].carFileUrl)
  }

  /** What reading a JSON CAR file gives, with or without the records' CIDs. */
  function CarJson(io: Io, path: string, keepCid: bool): Result<seq<CarInfo>>
  {
    var b := io.readFile(path);
    if b.Err? then Err(b.error)
    else
      var list := io.decodeJson(b.value);
      if list.Err? then Err(list.error)
      else if !AllHttp(list.value) then Err(InvalidUrl)
      else Ok(Merged(JsonEntries(list.value, keepCid)))
  }

  /** As written (`keepCid` false), every CarInfo read from a JSON file has an empty CID,
      whatever the file says. */
  lemma {:induction false} JsonCidsDropped(io: Io, path: string)
    ensures var r := CarJson(io, path, false);
      r.Ok? ==> forall i :: 0 <= i < |r.value| ==> r.value[i].cid == ""
  {
    var r := CarJson(io, path, false);
    if r.Ok? {
      var es := JsonEntries(io.decodeJson(io.readFile(path).value).value, false);
      forall u ensures CidFor(es, u) == "" {
        NoCidSet(es, u);
      }
    }
  }

  lemma {:induction false} NoCidSet(es: seq<Entry>, u: string)
    requires forall i :: 0 <= i < |es| ==> es[i].cid.None?
    ensures CidFor(es, u) == ""
    decreases |es|
  {
    if es != [] {
      NoCidSet(es[..|es| - 1], u);
    }
  }

  /** The corrected reader (`keepCid` true): the CarInfo of each URL carries the CID of the last
      record for that URL. */
  lemma JsonCidOfLastRecord(list: seq<CarInfo>, k: nat)
    requires k < |list|
    requires forall j :: k < j < |list| ==> list[j].carFileUrl != list[k].carFileUrl
    ensures var infos := Merged(JsonEntries(list, true));
      exists j :: 0 <= j < |infos| && infos[j].carFileUrl == list[k].carFileUrl && infos[j].cid == list[k].cid
  {
    var es := JsonEntries(list, true);
    var u := list[k].carFileUrl;
    CidOfLast(es, k);
    assert Urls(es)[k] == u;
    var d := Distinct(Urls(es));
    DistinctSpec(Urls(es));
    assert u in d;
    var j :| 0 <= j < |d| && d[j] == u;
    assert Merged(es)[j] == Rebuilder.CarInfo(u, CidFor(es, u), DealsFor(es, u));
  }

  /** `readCarJson` as written: a CarInfo is made with only the URL, the deals of every record
      for that URL are appended, and the record's `PayloadCid` is never copied. */
  method ReadCarJson(io: Io, path: string) returns (r: Result<seq<CarInfo>>)
    ensures r == CarJson(io, path, false)
  {
    var b := io.readFile(path);
    if b.Err? {
      return Err(b.error);
    }
    var list := io.decodeJson(b.value);
    if list.Err? {
      return Err(list.error);
    }
    ghost var all := JsonEntries(list.value, false);
    var carInfos: seq<CarInfo> := [];
    var m: map<string, nat> := map[];
    TabulatesEmpty();
    assert all[..0] == [];
    for i := 0 to |list.value|
      invariant Tabulates(all[..i], carInfos, m)
      invariant forall j :: 0 <= j < i ==> IsHttpUrl(list.value[j].carFileUrl)
    {
      var cj := list.value[i];
      if !IsHttpUrl(cj.carFileUrl) {
        return Err(InvalidUrl);
      }
      assert all[..i + 1] == all[..i] + [all[i]];
      carInfos, m := Absorb(all[..i], carInfos, m, Entry(cj.carFileUrl, None, cj.deals));
    }
    assert all[..|list.value|] == all;
    return Ok(carInfos);
  }

  // ---------------------------------------------------------------------------------------
  // readCarCsv

  const ColumnUrl := "car_file_url"
  const ColumnDeals := "deals"
  const ColumnCid := "pay_load_cid"

  /** The message of the runtime panic that indexing past the end of a row raises. */
  const IndexPanic := "panic: index out of range"

  /** `colMap`: each header name to the position of its last occurrence. */
  function Columns(header: seq<string>): map<string, nat>
    decreases |header|
  {
    if header == [] then map[] else Columns(header[..|header| - 1])[header[|header| - 1] := |header| - 1]
  }

  /** Every header name is a column, at its last position in the header. */
  lemma {:induction false} ColumnsSpec(header: seq<string>)
    ensures forall f :: f in Columns(header) <==> f in header
    ensures forall f :: f in Columns(header) ==>
      && Columns(header)[f] < |header|
      && header[Columns(header)[f]] == f
      && forall j :: Columns(header)[f] < j < |header| ==> header[j] != f
    decreases |header|
  {
    if header != [] {
      var init := header[..|header| - 1];
      ColumnsSpec(init);
      assert header == init + [header[|header| - 1]];
    }
  }

  /** The header loop of `readCarCsv`. */
  method ColumnMap(header: seq<string>) returns (colMap: map<string, nat>)
    ensures colMap == Columns(header)
  {
    colMap := map[];
    for i := 0 to |header|
      invariant colMap == Columns(header[..i])
    {
      assert header[..i + 1][..i] == header[..i];
      colMap := colMap[header[i] := i];
    }
    assert header[..|header|] == header;
  }

  /** The entry a data row contributes, or the error that stops the reader at it: the URL cell
      must exist and be an http(s) URL; a `pay_load_cid` column replaces the CID; a non-empty
      `deals` cell is decoded and its deals appended. */
  function RowEntry(fields: seq<string>, cols: map<string, nat>, decodeDeals: string -> Result<seq<CarDeal>>): Result<Entry>
    requires ColumnUrl in cols
  {
    var u := cols[ColumnUrl];
    if |fields| <= u then Err(IndexPanic)
    else if !IsHttpUrl(fields[u]) then Err(InvalidUrl)
    else if ColumnCid in cols && |fields| <= cols[ColumnCid] then Err(IndexPanic)
    else
      var cid := if ColumnCid in cols then Some(fields[cols[ColumnCid]]) else None;
      if ColumnDeals !in cols then Ok(Entry(fields[u], cid, []))
      else if |fields| <= cols[ColumnDeals] then Err(IndexPanic)
      else if fields[cols[ColumnDeals]] == "" then Ok(Entry(fields[u], cid, []))
      else
        var deals := decodeDeals(fields[cols[ColumnDeals]]);
        if deals.Err? then Err(deals.error) else Ok(Entry(fields[u], cid, deals.value))
  }

  /** The entries of the data rows, or the error of the first row that has one. */
  function RowEntries(rows: seq<seq<string>>, cols: map<string, nat>, decodeDeals: string -> Result<seq<CarDeal>>): Result<seq<Entry>>
    requires ColumnUrl in cols
    decreases |rows|
  {
    if rows == [] then Ok([])
    else
      var e := RowEntry(rows[0], cols, decodeDeals);
      if e.Err? then Err(e.error)
      else
        var rest := RowEntries(rows[1..], cols, decodeDeals);
        if rest.Err? then rest else Ok([e.value] + rest.value)
  }

  /** The rows succeed exactly when each does, and then give one entry per row, in order. */
  lemma {:induction false} RowEntriesOk(rows: seq<seq<string>>, cols: map<string, nat>, decodeDeals: string -> Result<seq<CarDeal>>)
    requires ColumnUrl in cols
    ensures var r := RowEntries(rows, cols, decodeDeals);
      && (r.Ok? <==> forall k :: 0 <= k < |rows| ==> RowEntry(rows[k], cols, decodeDeals).Ok?)
      && (r.Ok? ==> |r.value| == |rows| && forall k :: 0 <= k < |rows| ==> r.value[k] == RowEntry(rows[k], cols, decodeDeals).value)
    decreases |rows|
  {
    if rows != [] {
      var rest := rows[1..];
      RowEntriesOk(rest, cols, decodeDeals);
      assert forall k :: 0 < k < |rows| ==> rows[k] == rest[k - 1];
    }
  }

  /** Otherwise the error is that of the first failing row. */
  lemma {:induction false} RowEntriesErr(rows: seq<seq<string>>, cols: map<string, nat>, decodeDeals: string -> Result<seq<CarDeal>>)
    requires ColumnUrl in cols
    requires RowEntries(rows, cols, decodeDeals).Err?
    ensures exists k :: 0 <= k < |rows| && FirstFailure(rows, cols, decodeDeals, k)
                        && RowEntries(rows, cols, decodeDeals).error == RowEntry(rows[k], cols, decodeDeals).error
    decreases |rows|
  {
    var rest := rows[1..];
    if RowEntry(rows[0], cols, decodeDeals).Err? {
      assert FirstFailure(rows, cols, decodeDeals, 0);
    } else {
      RowEntriesErr(rest, cols, decodeDeals);
      var k :| 0 <= k < |rest| && FirstFailure(rest, cols, decodeDeals, k)
        && RowEntries(rest, cols, decodeDeals).error == RowEntry(rest[k], cols, decodeDeals).error;
      assert rows[k + 1] == rest[k];
      assert forall j :: 0 < j <= k ==> rows[j] == rest[j - 1];
      assert FirstFailure(rows, cols, decodeDeals, k + 1);
    }
  }

  /** Row `k` is the first whose entry is an error. */
  predicate FirstFailure(rows: seq<seq<string>>, cols: map<string, nat>, decodeDeals: string -> Result<seq<CarDeal>>, k: nat)
    requires ColumnUrl in cols
  {
    && k < |rows|
    && RowEntry(rows[k], cols, decodeDeals).Err?
    && forall j :: 0 <= j < k ==> RowEntry(rows[j], cols, decodeDeals).Ok?
  }

  const MissingUrlColumn := "not found column " + ColumnUrl

  /** What `readCarCsv` gives for the decoded records: the first record is the header, which
      must name a `car_file_url` column; the other records are merged by URL. */
  function CarCsv(records: seq<seq<string>>, decodeDeals: string -> Result<seq<CarDeal>>): Result<seq<CarInfo>>
  {
    if records == [] then Ok([])
    else
      var cols := Columns(records[0]);
      if ColumnUrl !in cols then Err(MissingUrlColumn)
      else
        var es := RowEntries(records[1..], cols, decodeDeals);
        if es.Err? then Err(es.error) else Ok(Merged(es.value))
  }

  /** `ReadCSVFile`: the CSV library's records, or, when the library refuses the file, the
      records of the hand-written fallback reader. */
  function CsvRecords(io: Io, path: string): Result<seq<seq<string>>>
  {
    var b := io.readFile(path);
    if b.Err? then Err(b.error)
    else
      var parsed := io.parseCsv(b.value);
      if parsed.Err? then Ok(RawRecords(b.value)) else parsed
  }

  function CarCsvFile(io: Io, path: string): Result<seq<CarInfo>>
  {
    var records := CsvRecords(io, path);
    if records.Err? then Err(records.error) else CarCsv(records.value, io.decodeDeals)
  }

  method ReadCSVFile(io: Io, path: string) returns (r: Result<seq<seq<string>>>)
    ensures r == CsvRecords(io, path)
  {
    var b := io.readFile(path);
    if b.Err? {
      return Err(b.error);
    }
    var records := io.parseCsv(b.value);
    if records.Err? {
      var raw := ReadRawCsv(b.value);
      return Ok(raw);
    }
    return records;
  }

  /** `es` followed by what the remaining rows give. */
  function Then(es: seq<Entry>, rest: Result<seq<Entry>>): Result<seq<Entry>>
  {
    if rest.Err? then rest else Ok(es + rest.value)
  }

  lemma ThenEmpty(rest: Result<seq<Entry>>)
    ensures Then([], rest) == rest
  {
    if rest.Ok? {
      assert [] + rest.value == rest.value;
    }
  }

  /** One more row: its error ends the rows, or its entry joins those before it. */
  lemma ThenStep(es: seq<Entry>, rows: seq<seq<string>>, cols: map<string, nat>, decodeDeals: string -> Result<seq<CarDeal>>)
    requires ColumnUrl in cols && rows != []
    ensures var e := RowEntry(rows[0], cols, decodeDeals);
      Then(es, RowEntries(rows, cols, decodeDeals))
        == if e.Err? then Err(e.error) else Then(es + [e.value], RowEntries(rows[1..], cols, decodeDeals))
  {
    var e := RowEntry(rows[0], cols, decodeDeals);
    var rest := RowEntries(rows[1..], cols, decodeDeals);
    if e.Ok? && rest.Ok? {
      assert es + ([e.value] + rest.value) == (es + [e.value]) + rest.value;
    }
  }

  /** `readCarCsv`. */
  method ReadCarCsv(io: Io, path: string) returns (r: Result<seq<CarInfo>>)
    ensures r == CarCsvFile(io, path)
  {
    var records := ReadCSVFile(io, path);
    if records.Err? {
      return Err(records.error);
    }
    var rs := records.value;
    if |rs| == 0 {
      return Ok([]);
    }
    var colMap := ColumnMap(rs[0]);
    if ColumnUrl !in colMap {
      return Err(MissingUrlColumn);
    }
    var carInfos: seq<CarInfo> := [];
    var m: map<string, nat> := map[];
    ghost var es: seq<Entry> := [];
    TabulatesEmpty();
    ThenEmpty(RowEntries(rs[1..], colMap, io.decodeDeals));
    for row := 1 to |rs|
      invariant Tabulates(es, carInfos, m)
      invariant RowEntries(rs[1..], colMap, io.decodeDeals) == Then(es, RowEntries(rs[row..], colMap, io.decodeDeals))
    {
      var e := RowEntry(rs[row], colMap, io.decodeDeals);
      ThenStep(es, rs[row..], colMap, io.decodeDeals);
      assert rs[row..][1..] == rs[row + 1..];
      if e.Err? {
        return Err(e.error);
      }
      carInfos, m := Absorb(es, carInfos, m, e.value);
      es := es + [e.value];
    }
    assert rs[|rs|..] == [];
    assert es + [] == es;
    return Ok(carInfos);
  }

  // ---------------------------------------------------------------------------------------
  // readRawCSVFile

  function Blanks(n: nat): (r: seq<string>)
    ensures |r| == n && forall i :: 0 <= i < n ==> r[i] == ""
  {
    seq(n, _ => "")
  }

  /** A data line cut into `n` fields: each of the first `n - 1` ends at the next comma and the
      last takes the rest of the line; when the commas run out first, the fields from there on
      stay empty. */
  function Fields(line: string, n: nat): (r: seq<string>)
    ensures |r| == n
    decreases n
  {
    if n == 0 then []
    else if n == 1 then [line]
    else
      var k := Text.IndexOf(line, ',');
      if k < 0 then Blanks(n) else [line[..k]] + Fields(line[k + 1..], n - 1)
  }

  /** The records of the fallback reader for the lines of a file: the header line split at every
      comma, then each later line cut into as many fields as the header has. */
  function RawRows(lines: seq<string>): (r: seq<seq<string>>)
    ensures |r| == |lines|
    ensures forall k :: 1 <= k < |r| ==> |r[k]| == |r[0]|
  {
    if lines == [] then []
    else
      var header := Text.Split(lines[0], ',');
      [header] + seq(|lines| - 1, i requires 0 <= i < |lines| - 1 => Fields(lines[i + 1], |header|))
  }

  function RawRecords(b: string): seq<seq<string>>
  {
    RawRows(Text.Lines(b))
  }

  /** The field loop of `readRawCSVFile`, filling a row of `n` fields in place. */
  method SplitRow(line: string, n: nat) returns (cols: array<string>)
    ensures fresh(cols) && cols.Length == n
    ensures cols[..] == Fields(line, n)
  {
    cols := new string[n](_ => "");
    assert cols[..] == [] + Blanks(n);
    // `rest` is the unread part of the line, `line[index:]` in the Go loop, and `done` holds
    // the fields cut so far
    var rest := line;
    var i := 0;
    ghost var m := n;
    ghost var done: seq<string> := [];
    while i < n
      invariant 0 <= i <= n && m == n - i && |done| == i
      invariant cols[..] == done + Blanks(m)
      invariant Fields(line, n) == done + Fields(rest, m)
    {
      if i == n - 1 {
        ghost var before := cols[..];
        cols[i] := rest;
        assert cols[..] == before[i := rest];
        Filled(done, rest, m);
        assert cols[..] == done + Fields(rest, m);
        break;
      }
      var idx := Text.IndexOf(rest, ',');
      if idx == -1 {
        assert Fields(rest, m) == Blanks(m);
        break;
      }
      ghost var before := cols[..];
      cols[i] := rest[..idx];
      assert cols[..] == before[i := rest[..idx]];
      Filled(done, rest[..idx], m);
      FieldsDone(Fields(line, n), done, rest, m, idx);
      done := done + [rest[..idx]];
      rest := rest[idx + 1..];
      i := i + 1;
      m := m - 1;
    }
  }

  /** Cutting the next field moves it from the unread part of the line to the fields done. */
  lemma FieldsDone(f: seq<string>, done: seq<string>, rest: string, m: nat, k: int)
    requires 2 <= m && k == Text.IndexOf(rest, ',') && 0 <= k
    requires f == done + Fields(rest, m)
    ensures f == (done + [rest[..k]]) + Fields(rest[k + 1..], m - 1)
  {
    FieldsAtIndex(rest, m);
    assert done + ([rest[..k]] + Fields(rest[k + 1..], m - 1))
        == (done + [rest[..k]]) + Fields(rest[k + 1..], m - 1);
  }

  /** Filling the next field of a row whose later fields are still empty. */
  lemma Filled(done: seq<string>, field: string, m: nat)
    requires 1 <= m
    ensures (done + Blanks(m))[|done| := field] == done + [field] + Blanks(m - 1)
  {
  }

  lemma RawRowsSnoc(lines: seq<string>, line: string)
    requires lines != []
    ensures RawRows(lines + [line]) == RawRows(lines) + [Fields(line, |Text.Split(lines[0], ',')|)]
  {
    assert (lines + [line])[0] == lines[0];
  }

  /** `readRawCSVFile`: one record per line of the file; never an error. */
  method ReadRawCsv(b: string) returns (records: seq<seq<string>>)
    ensures records == RawRecords(b)
  {
    var lines := Text.Lines(b);
    records := [];
    var colsCount := 0;
    for k := 0 to |lines|
      invariant records == RawRows(lines[..k])
      invariant k > 0 ==> colsCount == |Text.Split(lines[0], ',')|
    {
      var line := lines[k];
      assert lines[..k + 1] == lines[..k] + [line];
      if |records| == 0 {
        var cols := Text.Split(line, ',');
        records := records + [cols];
        colsCount := |cols|;
      } else {
        assert lines[..k][0] == lines[0];
        RawRowsSnoc(lines[..k], line);
        var cols := SplitRow(line, colsCount);
        records := records + [cols[..]];
      }
    }
    assert lines[..|lines|] == lines;
  }

  /** `ReadRawCSVFile`. */
  method ReadRawCsvFile(io: Io, path: string) returns (r: Result<seq<seq<string>>>)
    ensures io.readFile(path).Err? ==> r == Err(io.readFile(path).error)
    ensures io.readFile(path).Ok? ==> r == Ok(RawRecords(io.readFile(path).value))
  {
    var b := io.readFile(path);
    if b.Err? {
      return Err(b.error);
    }
    var records := ReadRawCsv(b.value);
    return Ok(records);
  }

  /** The first field ends at the first comma, when there is one and more fields follow. */
  lemma FieldsAtIndex(line: string, n: nat)
    requires 2 <= n && 0 <= Text.IndexOf(line, ',')
    ensures var k := Text.IndexOf(line, ',');
      Fields(line, n) == [line[..k]] + Fields(line[k + 1..], n - 1)
  {
  }

  /** A data line with exactly one comma fewer than the header has fields is cut at every
      comma, as `strings.Split` would cut it. */
  lemma {:induction false} FieldsExact(line: string, n: nat)
    requires 1 <= n && Text.Count(line, ',') == n - 1
    ensures Fields(line, n) == Text.Split(line, ',')
    decreases n
  {
    Text.CountNone(line, ',');
    if n > 1 {
      var k := Text.IndexOf(line, ',');
      Text.CountAtIndex(line, ',');
      FieldsExact(line[k + 1..], n - 1);
      FieldsAtIndex(line, n);
      Text.SplitAtIndex(line, ',');
    }
  }

  /** When the line has enough commas, no text is lost: the last field keeps the extra commas, and
      joining the fields gives the line back. */
  lemma {:induction false} FieldsJoin(line: string, n: nat)
    requires 1 <= n && n - 1 <= Text.Count(line, ',')
    ensures Text.JoinWith(Fields(line, n), ',') == line
    decreases n
  {
    if n > 1 {
      Text.CountNone(line, ',');
      var k := Text.IndexOf(line, ',');
      Text.CountAtIndex(line, ',');
      FieldsJoin(line[k + 1..], n - 1);
      FieldsAtIndex(line, n);
      Text.JoinCons(line[..k], Fields(line[k + 1..], n - 1), ',');
      Text.CutAtIndex(line, ',');
    }
  }

  /** When the line has too few commas, the pieces before its last comma are kept, and the text
      after the last comma is dropped along with every later field. */
  lemma FieldsShort(line: string, n: nat)
    requires Text.Count(line, ',') < n - 1
    ensures var c := Text.Count(line, ',');
      Fields(line, n) == Text.Split(line, ',')[..c] + Blanks(n - c)
  {
    var c := Text.Count(line, ',');
    ShortFields(line, n, c, n - c);
  }

  /** `FieldsShort` with the comma count `c` and the number `m` of empty fields named. */
  lemma {:induction false} ShortFields(line: string, n: nat, c: nat, m: nat)
    requires c == Text.Count(line, ',') && n == c + m && 2 <= m
    ensures Fields(line, n) == Text.Split(line, ',')[..c] + Blanks(m)
    decreases c
  {
    Text.CountNone(line, ',');
    var k := Text.IndexOf(line, ',');
    if k >= 0 {
      var first, rest := line[..k], line[k + 1..];
      Text.CountAtIndex(line, ',');
      ShortFields(rest, n - 1, c - 1, m);
      FieldsAtIndex(line, n);
      Text.SplitAtIndex(line, ',');
      ShortStep(first, Text.Split(rest, ','), c, Blanks(m));
    } else {
      FieldsNoComma(line, n);
    }
  }

  lemma FieldsNoComma(line: string, n: nat)
    requires Text.IndexOf(line, ',') < 0 && 2 <= n
    ensures Fields(line, n) == Text.Split(line, ',')[..0] + Blanks(n)
  {
    assert Text.Split(line, ',')[..0] + Blanks(n) == Blanks(n);
  }

  lemma ShortStep(first: string, sp: seq<string>, c: nat, blanks: seq<string>)
    requires 1 <= c <= |sp| + 1
    ensures [first] + (sp[..c - 1] + blanks) == ([first] + sp)[..c] + blanks
  {
    assert ([first] + sp)[..c] == [first] + sp[..c - 1];
  }

  /** Every column the header names lies inside every row of the fallback reader, so the CAR
      reader never indexes past the end of such a row. */
  lemma RawRowsCoverColumns(lines: seq<string>)
    requires lines != []
    ensures var rows := RawRows(lines);
      forall k, f :: 1 <= k < |rows| && f in Columns(rows[0]) ==> Columns(rows[0])[f] < |rows[k]|
  {
    ColumnsSpec(RawRows(lines)[0]);
  }

  /** A row that covers every column fails only on its URL or on its deals. */
  lemma CoveredRowErrors(fields: seq<string>, cols: map<string, nat>, decodeDeals: string -> Result<seq<CarDeal>>)
    requires ColumnUrl in cols
    requires forall f :: f in cols ==> cols[f] < |fields|
    ensures var e := RowEntry(fields, cols, decodeDeals);
      e.Err? ==> || (e.error == InvalidUrl && !IsHttpUrl(fields[cols[ColumnUrl]]))
                 || (ColumnDeals in cols && decodeDeals(fields[cols[ColumnDeals]]).Err?
                     && e.error == decodeDeals(fields[cols[ColumnDeals]]).error)
  {
  }

  // ---------------------------------------------------------------------------------------
  // readCarFile

  const UnsupportedFormat := "not supported file format :"

  /** A path `readCarFile` reads as JSON: its extension is `.json`, ignoring case. */
  predicate JsonPath(path: string)
  {
    !Text.EqualFold(FilePath.Ext(path), ".csv") && Text.EqualFold(FilePath.Ext(path), ".json")
  }

  /** `readCarFile`: the extension, compared case-insensitively, picks the reader. */
  function ReadCarFile(io: Io, path: string): Result<seq<CarInfo>>
  {
    var format := FilePath.Ext(path);
    if Text.EqualFold(format, ".csv") then CarCsvFile(io, path)
    else if Text.EqualFold(format, ".json") then CarJson(io, path, false)
    else Err(UnsupportedFormat + format)
  }

  /** The reader follows the extension after the last dot, ignoring case: `.csv` and `.CSV` are
      read as CSV, `.json` and `.Json` as JSON, and any other extension is refused by name. */
  lemma ReadCarFileFormat(io: Io, stem: string, suffix: string)
    requires '.' !in suffix && '/' !in suffix
    ensures var path := stem + "." + suffix;
      && (Text.EqualFold(suffix, "csv") ==> ReadCarFile(io, path) == CarCsvFile(io, path))
      && (Text.EqualFold(suffix, "json") ==> ReadCarFile(io, path) == CarJson(io, path, false))
      && (!Text.EqualFold(suffix, "csv") && !Text.EqualFold(suffix, "json") ==>
            ReadCarFile(io, path) == Err(UnsupportedFormat + ("." + suffix)))
  {
    FilePath.ExtOfSuffix(stem, suffix);
    ReadCarFileBySuffix(io, stem + "." + suffix, suffix);
  }

  lemma ReadCarFileBySuffix(io: Io, path: string, suffix: string)
    requires FilePath.Ext(path) == "." + suffix
    ensures && (Text.EqualFold(suffix, "csv") ==> ReadCarFile(io, path) == CarCsvFile(io, path))
      && (Text.EqualFold(suffix, "json") ==> ReadCarFile(io, path) == CarJson(io, path, false))
      && (!Text.EqualFold(suffix, "csv") && !Text.EqualFold(suffix, "json") ==>
            ReadCarFile(io, path) == Err(UnsupportedFormat + ("." + suffix)))
  {
    var format := FilePath.Ext(path);
    var csv, json := Text.EqualFold(format, ".csv"), Text.EqualFold(format, ".json");
    ReadCarFileCases(io, path);
    KnownFormats(suffix);
    assert Text.EqualFold(suffix, "csv") ==> !Text.EqualFold(suffix, "json") by {
      if Text.EqualFold(suffix, "csv") {
        assert Text.Fold(suffix[0]) == 'c';
      }
    }
  }

  lemma ReadCarFileCases(io: Io, path: string)
    ensures var format := FilePath.Ext(path);
      && (Text.EqualFold(format, ".csv") ==> ReadCarFile(io, path) == CarCsvFile(io, path))
      && (!Text.EqualFold(format, ".csv") && Text.EqualFold(format, ".json") ==> ReadCarFile(io, path) == CarJson(io, path, false))
      && (!Text.EqualFold(format, ".csv") && !Text.EqualFold(format, ".json") ==>
            ReadCarFile(io, path) == Err(UnsupportedFormat + format))
  {
  }

  lemma KnownFormats(suffix: string)
    ensures Text.EqualFold("." + suffix, ".csv") <==> Text.EqualFold(suffix, "csv")
    ensures Text.EqualFold("." + suffix, ".json") <==> Text.EqualFold(suffix, "json")
  {
    DottedFold(suffix, "csv");
    DottedFold(suffix, "json");
    assert "." + "csv" == ".csv" && "." + "json" == ".json";
  }

  lemma DottedFold(suffix: string, word: string)
    ensures Text.EqualFold("." + suffix, "." + word) <==> Text.EqualFold(suffix, word)
  {
    Text.EqualFoldCons('.', suffix, '.', word);
    assert "." + suffix == ['.'] + suffix && "." + word == ['.'] + word;
  }

  /** A path without a dot in its last element has no extension, and is refused. */
  lemma ReadCarFileNoExtension(io: Io, path: string)
    requires '.' !in path
    ensures ReadCarFile(io, path) == Err(UnsupportedFormat)
  {
  }
}
