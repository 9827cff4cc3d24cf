/**
 * Post-response processing of the Polymarket client: the trades endpoint's
 * records become validated, deduplicated trades sorted newest first; the sports
 * endpoint gives the sports tag ids; the tags endpoint gives the tag dictionary;
 * the markets endpoint gives one market's metadata. The HTTP exchange itself is
 * an input: a `Response` holding the decoded body or the failure.
 */
module PolymarketClient {
  import opened Wrappers
  import Text
  import Seqs
  import opened Types

  /** The outcome of one HTTP request: the decoded JSON body, or how it failed. */
  datatype Response<T> = Ok(body: T) | HttpStatus(code: int) | TimedOut | OtherError

  // ---------- trades ----------

  /**
   * One record of the trades endpoint. An absent or null string is `None`; an
   * absent number is 0 and an absent side is "".
   */
  datatype TradeRecord = TradeRecord(
    transactionHash: Option<string>,
    size: real,
    price: real,
    timestamp: int,
    proxyWallet: Option<string>,
    side: string,
    conditionId: Option<string>,
    outcome: Option<string>)

  /** The query string of the trades request, as a dictionary. `repr` renders a float. */
  function TradeQuery(marker: Option<TradeMarker>, minNotional: real, maxTrades: int, repr: real -> string)
    : (q: map<string, string>)
    ensures "filterAmount" in q <==> minNotional > 0.0
    ensures "minTimestamp" in q <==> marker.Some? && marker.value.lastProcessedTimestamp != 0
    ensures "minTimestamp" in q ==> q["minTimestamp"] == Text.IntToString(marker.value.lastProcessedTimestamp)
    ensures "takerOnly" in q && "filterType" in q && "limit" in q
    ensures q["takerOnly"] == "true" && q["filterType"] == "CASH" && q["limit"] == Text.IntToString(maxTrades)
  {
    var base := map["takerOnly" := "true", "limit" := Text.IntToString(maxTrades), "filterType" := "CASH"];
    var withAmount := if minNotional > 0.0 then base["filterAmount" := repr(minNotional)] else base;
    if marker.Some? && marker.value.lastProcessedTimestamp != 0
    then withAmount["minTimestamp" := Text.IntToString(marker.value.lastProcessedTimestamp)]
    else withAmount
  }

  /** The fields of a record that pass the validity checks: positive numbers and a BUY or SELL side. */
  predicate ValidRecord(r: TradeRecord) {
    r.size > 0.0 && r.price > 0.0 && r.timestamp > 0 && Text.Upper(r.side) in ["BUY", "SELL"]
  }

  /** The trade built from an accepted record. */
  function ToTrade(r: TradeRecord): (t: Trade)
    requires Truthy(r.transactionHash)
    ensures t.transactionHash == r.transactionHash.value && t.side == Text.Upper(r.side)
    ensures t.proxyWallet == (if Truthy(r.proxyWallet) then Text.Lower(r.proxyWallet.value) else "")
  {
    Trade(r.transactionHash.value,
          if Truthy(r.proxyWallet) then Text.Lower(r.proxyWallet.value) else "",
          Text.Upper(r.side), r.size, r.price, r.conditionId, r.outcome, r.timestamp)
  }

  /** The transaction hashes the loop has claimed after a prefix of the records. */
  function Claimed(data: seq<TradeRecord>): set<string> {
    if data == [] then {}
    else
      var last := data[|data| - 1];
      Claimed(data[..|data| - 1]) + (if Truthy(last.transactionHash) then {last.transactionHash.value} else {})
  }

  /**
   * Whether the record after `seen` becomes a trade. `skip` is the hash the marker
   * excludes, if any.
   */
  predicate Accepted(r: TradeRecord, seen: set<string>, skip: Option<string>) {
    Truthy(r.transactionHash) && r.transactionHash.value !in seen &&
    !(skip.Some? && skip.value == r.transactionHash.value) && ValidRecord(r)
  }

  /** The trades the conversion loop appends, in response order. */
  function Collect(data: seq<TradeRecord>, skip: Option<string>): (trades: seq<Trade>)
    ensures |trades| <= |data|
  {
    if data == [] then []
    else
      var init, last := data[..|data| - 1], data[|data| - 1];
      Collect(init, skip) + (if Accepted(last, Claimed(init), skip) then [ToTrade(last)] else [])
  }

  predicate HashesDistinct(trades: seq<Trade>) {
    forall i, j :: 0 <= i < j < |trades| ==> trades[i].transactionHash != trades[j].transactionHash
  }

  /** A trade carries a non-empty hash, positive numbers, an upper-case side BUY or SELL, and a lower-case wallet. */
  predicate WellFormed(t: Trade) {
    t.transactionHash != "" && t.size > 0.0 && t.price > 0.0 && t.timestamp > 0 &&
    t.side in ["BUY", "SELL"] && Text.Lower(t.proxyWallet) == t.proxyWallet
  }

  lemma {:induction false} ClaimedIff(data: seq<TradeRecord>, h: string)
    ensures h in Claimed(data) <==> exists i :: 0 <= i < |data| && data[i].transactionHash == Some(h) && h != ""
  {
    if data != [] {
      var init := data[..|data| - 1];
      ClaimedIff(init, h);
      assert forall i :: 0 <= i < |init| ==> init[i] == data[i];
    }
  }

  /** Every collected trade is well formed, comes from a record, and has a hash the earlier records had not claimed. */
  lemma {:induction false} CollectSound(data: seq<TradeRecord>, skip: Option<string>)
    ensures forall t :: t in Collect(data, skip) ==> WellFormed(t)
    ensures forall t :: t in Collect(data, skip) ==> t.transactionHash in Claimed(data)
    ensures forall t :: t in Collect(data, skip) ==> !(skip.Some? && skip.value == t.transactionHash)
    ensures HashesDistinct(Collect(data, skip))
  {
    if data != [] {
      var init, last := data[..|data| - 1], data[|data| - 1];
      CollectSound(init, skip);
      if Accepted(last, Claimed(init), skip) {
        var t := ToTrade(last);
        Text.LowerIdempotent(last.proxyWallet.GetOr(""));
        var c := Collect(init, skip);
        assert forall i :: 0 <= i < |c| ==> c[i].transactionHash != t.transactionHash by {
          forall i | 0 <= i < |c| ensures c[i].transactionHash != t.transactionHash {
            assert c[i] in c;
          }
        }
      }
    }
  }

  /**
   * The hash is claimed before the record is validated: when the first record with
   * a hash is invalid, no trade with that hash is returned, even if a later record
   * with the same hash is valid.
   */
  lemma FirstInvalidRecordBlocksHash(data: seq<TradeRecord>, skip: Option<string>, i: nat)
    requires i < |data| && Truthy(data[i].transactionHash) && !ValidRecord(data[i])
    requires forall j :: 0 <= j < i ==> data[j].transactionHash != data[i].transactionHash
    ensures forall t :: t in Collect(data, skip) ==> t.transactionHash != data[i].transactionHash.value
  {
    var h := data[i].transactionHash.value;
    var before, pre := data[..i], data[..i + 1];
    assert h !in Claimed(before) && h in Claimed(pre) && Collect(pre, skip) == Collect(before, skip) by {
      assert pre[..|pre| - 1] == before && pre[|pre| - 1] == data[i];
      ClaimedIff(before, h);
      assert forall j :: 0 <= j < |before| ==> before[j] == data[j];
    }
    CollectPrefixClaims(pre, data[i + 1..], skip);
    assert pre + data[i + 1..] == data;
    CollectSound(before, skip);
    forall t | t in Collect(data, skip) ensures t.transactionHash != h {
      if t.transactionHash in Claimed(pre) {
        assert t in Collect(before, skip);
      }
    }
  }

  /** Records after a prefix only add trades whose hash the prefix has not claimed. */
  lemma {:induction false} CollectPrefixClaims(pre: seq<TradeRecord>, post: seq<TradeRecord>, skip: Option<string>)
    ensures forall t :: t in Collect(pre + post, skip) && t.transactionHash in Claimed(pre) ==> t in Collect(pre, skip)
    decreases |post|
  {
    if post != [] {
      var all := pre + post;
      var init := post[..|post| - 1];
      assert all[..|all| - 1] == pre + init;
      CollectPrefixClaims(pre, init, skip);
      ClaimedMonotone(pre, init);
    } else {
      assert pre + post == pre;
    }
  }

  lemma {:induction false} ClaimedMonotone(pre: seq<TradeRecord>, post: seq<TradeRecord>)
    ensures Claimed(pre) <= Claimed(pre + post)
    decreases |post|
  {
    if post != [] {
      var all := pre + post;
      assert all[..|all| - 1] == pre + post[..|post| - 1];
      ClaimedMonotone(pre, post[..|post| - 1]);
    } else {
      assert pre + post == pre;
    }
  }

  // ---------- ordering: trades.sort(key=timestamp, reverse=True) ----------

  function InsertDesc(t: Trade, s: seq<Trade>): (r: seq<Trade>)
    ensures |r| == |s| + 1 && forall u :: u in r <==> u == t || u in s
  {
    if s == [] then [t]
    else if t.timestamp >= s[0].timestamp then [t] + s
    else
      assert s == [s[0]] + s[1..];
      [s[0]] + InsertDesc(t, s[1..])
  }

  /**
   * Sorting by timestamp, newest first. Keeping the response order among equal
   * timestamps, as Python's stable sort does, is the intent; it is not proved.
   */
  function SortNewestFirst(s: seq<Trade>): (r: seq<Trade>)
    ensures |r| == |s| && forall u :: u in r <==> u in s
  {
    if s == [] then []
    else
      assert s == [s[0]] + s[1..];
      InsertDesc(s[0], SortNewestFirst(s[1..]))
  }

  /** Inserting adds exactly the one trade. */
  lemma {:induction false} InsertDescPermutes(t: Trade, s: seq<Trade>)
    ensures multiset(InsertDesc(t, s)) == multiset(s) + multiset{t}
  {
    if s != [] && t.timestamp < s[0].timestamp {
      InsertDescPermutes(t, s[1..]);
      assert s == [s[0]] + s[1..];
    }
  }

  /** The sorted list is a permutation of the input. */
  lemma {:induction false} SortNewestFirstPermutes(s: seq<Trade>)
    ensures multiset(SortNewestFirst(s)) == multiset(s)
  {
    if s != [] {
      SortNewestFirstPermutes(s[1..]);
      InsertDescPermutes(s[0], SortNewestFirst(s[1..]));
      assert s == [s[0]] + s[1..];
    }
  }

  predicate NewestFirst(s: seq<Trade>) {
    forall i, j :: 0 <= i < j < |s| ==> s[i].timestamp >= s[j].timestamp
  }

  /** A trade at least as recent as every trade of a sorted list may go in front of it. */
  lemma ConsOrdered(x: Trade, s: seq<Trade>)
    requires NewestFirst(s) && forall u :: u in s ==> x.timestamp >= u.timestamp
    ensures NewestFirst([x] + s)
  {
    var out := [x] + s;
    forall i, j | 0 <= i < j < |out|
      ensures out[i].timestamp >= out[j].timestamp
    {
      assert out[j] == s[j - 1];
      if i > 0 {
        assert out[i] == s[i - 1];
      }
    }
  }

  /** The tail of a sorted list is sorted. */
  lemma TailOrdered(s: seq<Trade>)
    requires s != [] && NewestFirst(s)
    ensures NewestFirst(s[1..]) && forall u :: u in s[1..] ==> s[0].timestamp >= u.timestamp
  {
    forall u | u in s[1..] ensures s[0].timestamp >= u.timestamp {
      var m :| 0 <= m < |s[1..]| && s[1..][m] == u;
      assert s[m + 1] == u;
    }
  }

  lemma {:induction false} InsertDescOrdered(t: Trade, s: seq<Trade>)
    requires NewestFirst(s)
    ensures NewestFirst(InsertDesc(t, s))
  {
    if s == [] {
    } else if t.timestamp >= s[0].timestamp {
      TailOrdered(s);
      ConsOrdered(t, s);
    } else {
      TailOrdered(s);
      InsertDescOrdered(t, s[1..]);
      ConsOrdered(s[0], InsertDesc(t, s[1..]));
    }
  }

  /** The sorted list is newest first and holds the same trades. */
  lemma {:induction false} SortNewestFirstOrdered(s: seq<Trade>)
    ensures NewestFirst(SortNewestFirst(s))
    ensures forall t :: t in SortNewestFirst(s) <==> t in s
  {
    if s != [] {
      SortNewestFirstOrdered(s[1..]);
      InsertDescOrdered(s[0], SortNewestFirst(s[1..]));
    }
  }

  /** A trade whose hash no trade of a list carries may go in front of it. */
  lemma ConsHashes(x: Trade, s: seq<Trade>)
    requires HashesDistinct(s) && forall u :: u in s ==> u.transactionHash != x.transactionHash
    ensures HashesDistinct([x] + s)
  {
    var out := [x] + s;
    forall i, j | 0 <= i < j < |out|
      ensures out[i].transactionHash != out[j].transactionHash
    {
      assert out[j] == s[j - 1];
      if i > 0 {
        assert out[i] == s[i - 1];
      }
    }
  }

  /** The tail of a list with distinct hashes has distinct hashes, none of them the head's. */
  lemma TailHashes(s: seq<Trade>)
    requires s != [] && HashesDistinct(s)
    ensures HashesDistinct(s[1..]) && forall u :: u in s[1..] ==> u.transactionHash != s[0].transactionHash
  {
    forall i, j | 0 <= i < j < |s[1..]|
      ensures s[1..][i].transactionHash != s[1..][j].transactionHash
    {
      assert s[1..][i] == s[i + 1] && s[1..][j] == s[j + 1];
    }
    forall u | u in s[1..] ensures u.transactionHash != s[0].transactionHash {
      var m :| 0 <= m < |s[1..]| && s[1..][m] == u;
      assert s[m + 1] == u;
    }
  }

  lemma {:induction false} InsertDescHashes(t: Trade, s: seq<Trade>)
    requires HashesDistinct(s) && forall u :: u in s ==> u.transactionHash != t.transactionHash
    ensures HashesDistinct(InsertDesc(t, s))
  {
    if s == [] {
    } else if t.timestamp >= s[0].timestamp {
      ConsHashes(t, s);
    } else {
      TailHashes(s);
      InsertDescHashes(t, s[1..]);
      ConsHashes(s[0], InsertDesc(t, s[1..]));
    }
  }

  /** Sorting keeps transaction hashes distinct. */
  lemma {:induction false} SortKeepsHashesDistinct(s: seq<Trade>)
    requires HashesDistinct(s)
    ensures HashesDistinct(SortNewestFirst(s))
  {
    if s != [] {
      TailHashes(s);
      SortKeepsHashesDistinct(s[1..]);
      InsertDescHashes(s[0], SortNewestFirst(s[1..]));
    }
  }

  /** The hash the conversion loop skips: the marker's, when there is a marker. */
  function MarkerHash(marker: Option<TradeMarker>): Option<string> {
    if marker.Some? then marker.value.lastProcessedTxHash else None
  }

  /**
   * The conversion loop as written: besides the invalid and repeated records, it
   * drops every record whose hash is the marker's.
   */
  function CollectAsWritten(data: seq<TradeRecord>, marker: Option<TradeMarker>): (trades: seq<Trade>)
    ensures |trades| <= |data|
  {
    Collect(data, MarkerHash(marker))
  }

  /**
   * What `fetch_recent_trades(marker)` returns once the answer is in: the trades
   * the loop keeps, sorted newest first, or the failure it raises.
   */
  function RecentTrades(resp: Response<seq<TradeRecord>>, marker: Option<TradeMarker>)
    : (r: Result<seq<Trade>, Response<seq<TradeRecord>>>)
    ensures r.Failure? <==> !resp.Ok?
    ensures r.Failure? ==> r.error == resp
    ensures r.Success? ==> |r.value| <= |resp.body|
  {
    match resp
    case Ok(data) => Success(SortNewestFirst(CollectAsWritten(data, marker)))
    case _ => Failure(resp)
  }

  /**
   * The returned trades are well formed, have distinct hashes, are sorted newest
   * first, and none carries the marker's hash; any failed request is passed on.
   */
  lemma RecentTradesShape(resp: Response<seq<TradeRecord>>, marker: Option<TradeMarker>)
    ensures RecentTrades(resp, marker).Failure? <==> !resp.Ok?
    ensures RecentTrades(resp, marker).Success? ==>
      var trades := RecentTrades(resp, marker).value;
      NewestFirst(trades) && HashesDistinct(trades) && (forall t :: t in trades ==> WellFormed(t)) &&
      (MarkerHash(marker).Some? ==> forall t :: t in trades ==> t.transactionHash != MarkerHash(marker).value)
  {
    if resp.Ok? {
      var c := CollectAsWritten(resp.body, marker);
      CollectSound(resp.body, MarkerHash(marker));
      SortNewestFirstOrdered(c);
      SortKeepsHashesDistinct(c);
    }
  }

  /** As written, no returned trade carries the marker's hash. */
  lemma AsWrittenDropsCursor(data: seq<TradeRecord>, marker: TradeMarker)
    requires marker.lastProcessedTxHash.Some?
    ensures forall t :: t in CollectAsWritten(data, Some(marker)) ==>
      t.transactionHash != marker.lastProcessedTxHash.value
  {
    CollectSound(data, marker.lastProcessedTxHash);
  }

  /**
   * `fetch_recent_trades` after the request: the conversion loop, then the sort.
   * `resp` is the answer to the query `TradeQuery(marker, …)`.
   */
  method FetchRecentTrades(resp: Response<seq<TradeRecord>>, marker: Option<TradeMarker>)
    returns (r: Result<seq<Trade>, Response<seq<TradeRecord>>>)
    ensures r == RecentTrades(resp, marker)
  {
    if !resp.Ok? {
      return Failure(resp);
    }
    var data := resp.body;
    var trades: seq<Trade> := [];
    var seen: set<string> := {};
    for i := 0 to |data|
      invariant trades == Collect(data[..i], MarkerHash(marker)) && seen == Claimed(data[..i])
    {
      assert data[..i + 1][..i] == data[..i];
      var item := data[i];
      if !Truthy(item.transactionHash) {
        continue;
      }
      var txHash := item.transactionHash.value;
      if txHash in seen {
        continue;
      }
      seen := seen + {txHash};
      if marker.Some? && marker.value.lastProcessedTxHash == Some(txHash) {
        continue;
      }
      var side := Text.Upper(item.side);
      if item.size <= 0.0 || item.price <= 0.0 || item.timestamp <= 0 {
        continue;
      }
      if side !in ["BUY", "SELL"] {
        continue;
      }
      trades := trades + [ToTrade(item)];
    }
    assert data[..|data|] == data;
    return Success(SortNewestFirst(trades));
  }

  /**
   * The whole `fetch_recent_trades`: the query is built from the marker, the
   * notional floor and the page size, `api` answers it, and the answer is converted.
   */
  method RequestRecentTrades(marker: Option<TradeMarker>, minNotional: real, maxTrades: int, repr: real -> string,
                             api: map<string, string> -> Response<seq<TradeRecord>>)
    returns (r: Result<seq<Trade>, Response<seq<TradeRecord>>>)
    ensures r == RecentTrades(api(TradeQuery(marker, minNotional, maxTrades, repr)), marker)
  {
    var params := TradeQuery(marker, minNotional, maxTrades, repr);
    var resp := api(params);
    r := FetchRecentTrades(resp, marker);
  }

  /**
   * The fetch with the marker-hash skip taken out, so that the cursor's own trade
   * reaches the caller and can stop its selection.
   */
  function RecentTradesKeepingCursor(resp: Response<seq<TradeRecord>>)
    : (r: Result<seq<Trade>, Response<seq<TradeRecord>>>)
    ensures r.Failure? <==> !resp.Ok?
    ensures r.Success? ==> |r.value| <= |resp.body|
  {
    match resp
    case Ok(data) => Success(SortNewestFirst(Collect(data, None)))
    case _ => Failure(resp)
  }

  /** Every trade of a prefix's conversion survives the later records. */
  lemma {:induction false} CollectGrows(pre: seq<TradeRecord>, post: seq<TradeRecord>, skip: Option<string>)
    ensures forall t :: t in Collect(pre, skip) ==> t in Collect(pre + post, skip)
    decreases |post|
  {
    if post != [] {
      var all := pre + post;
      assert all[..|all| - 1] == pre + post[..|post| - 1];
      CollectGrows(pre, post[..|post| - 1], skip);
    } else {
      assert pre + post == pre;
    }
  }

  /** The same, for the answer cut just after that record. */
  lemma CollectPrefixKeeps(data: seq<TradeRecord>, skip: Option<string>, i: nat)
    requires i < |data| && Truthy(data[i].transactionHash) && ValidRecord(data[i])
    requires forall j :: 0 <= j < i ==> data[j].transactionHash != data[i].transactionHash
    requires !(skip.Some? && skip.value == data[i].transactionHash.value)
    ensures ToTrade(data[i]) in Collect(data[..i + 1], skip)
  {
    var h := data[i].transactionHash.value;
    var before, pre := data[..i], data[..i + 1];
    assert pre[..|pre| - 1] == before && pre[|pre| - 1] == data[i];
    assert h !in Claimed(before) by {
      ClaimedIff(before, h);
      assert forall j :: 0 <= j < |before| ==> before[j] == data[j];
    }
    assert Collect(pre, skip) == Collect(before, skip) + [ToTrade(data[i])];
  }

  /** The first record with a hash, when valid and not skipped, becomes a trade. */
  lemma CollectKeepsFirst(data: seq<TradeRecord>, skip: Option<string>, i: nat)
    requires i < |data| && Truthy(data[i].transactionHash) && ValidRecord(data[i])
    requires forall j :: 0 <= j < i ==> data[j].transactionHash != data[i].transactionHash
    requires !(skip.Some? && skip.value == data[i].transactionHash.value)
    ensures ToTrade(data[i]) in Collect(data, skip)
  {
    var pre := data[..i + 1];
    CollectPrefixKeeps(data, skip, i);
    CollectGrows(pre, data[i + 1..], skip);
    assert pre + data[i + 1..] == data;
  }

  /**
   * For a valid cursor record in the answer, the corrected fetch returns the
   * cursor's trade while the fetch as written returns no trade with its hash.
   */
  lemma CorrectedKeepsCursor(data: seq<TradeRecord>, marker: TradeMarker, i: nat)
    requires i < |data| && Truthy(data[i].transactionHash) && ValidRecord(data[i])
    requires marker.lastProcessedTxHash == data[i].transactionHash
    requires forall j :: 0 <= j < i ==> data[j].transactionHash != data[i].transactionHash
    ensures RecentTradesKeepingCursor(Ok(data)).Success? && ToTrade(data[i]) in RecentTradesKeepingCursor(Ok(data)).value
    ensures RecentTrades(Ok(data), Some(marker)).Success? &&
      forall t :: t in RecentTrades(Ok(data), Some(marker)).value ==> t.transactionHash != data[i].transactionHash.value
  {
    CollectKeepsFirst(data, None, i);
    SortNewestFirstOrdered(Collect(data, None));
    RecentTradesShape(Ok(data), Some(marker));
  }

  // ---------- sports: the tag ids of every sport ----------

  /** One record of the sports endpoint: its comma-separated `tags`, absent or null as `None`. */
  datatype SportRecord = SportRecord(tags: Option<string>)

  /** The stripped, non-empty pieces of a comma-separated tag list. */
  function TagIdsOf(tags: string): set<string> {
    set p | p in Text.Split(tags, ',') && Text.Strip(p) != "" :: Text.Strip(p)
  }

  /** The union of the tag ids of the sports. */
  function SportsIds(sports: seq<SportRecord>): set<string> {
    if sports == [] then {}
    else
      var last := sports[|sports| - 1];
      SportsIds(sports[..|sports| - 1]) + (if Truthy(last.tags) then TagIdsOf(last.tags.value) else {})
  }

  /** A sports tag id comes from some sport's list. */
  lemma {:induction false} SportsIdsIff(sports: seq<SportRecord>, id: string)
    ensures id in SportsIds(sports) <==>
      exists i :: 0 <= i < |sports| && Truthy(sports[i].tags) && id in TagIdsOf(sports[i].tags.value)
  {
    if sports != [] {
      var init := sports[..|sports| - 1];
      SportsIdsIff(init, id);
      assert forall i :: 0 <= i < |init| ==> init[i] == sports[i];
    }
  }

  /** Every id of a tag list is non-empty, unpadded and free of commas. */
  lemma TagIdsShape(tags: string, id: string)
    requires id in TagIdsOf(tags)
    ensures id != "" && ',' !in id && !Text.IsSpace(id[0]) && !Text.IsSpace(id[|id| - 1])
  {
    var p :| p in Text.Split(tags, ',') && Text.Strip(p) == id;
    Text.SplitPiecesLackSeparator(tags, ',');
  }

  /** `fetch_sports_tag_ids` after the request; any failure gives the empty set. */
  method FetchSportsTagIds(resp: Response<seq<SportRecord>>) returns (ids: set<string>)
    ensures ids == (if resp.Ok? then SportsIds(resp.body) else {})
  {
    if !resp.Ok? {
      return {};
    }
    var sports := resp.body;
    ids := {};
    for i := 0 to |sports|
      invariant ids == SportsIds(sports[..i])
    {
      assert sports[..i + 1][..i] == sports[..i];
      var tagsStr := sports[i].tags;
      if Truthy(tagsStr) {
        ids := ids + TagIdsOf(tagsStr.value);
      }
    }
    assert sports[..|sports|] == sports;
  }

  // ---------- tags: the tag dictionary ----------

  /** A JSON `id` field: absent, null, a number or a string. */
  datatype JsonId = IdAbsent | IdNull | IdInt(n: int) | IdStr(s: string)

  /** Python's `str` of the field, an absent field read as "". */
  function IdText(id: JsonId): string {
    match id
    case IdAbsent => ""
    case IdNull => "None"
    case IdInt(n) => Text.IntToString(n)
    case IdStr(s) => s
  }

  lemma NatToStringInjective(a: nat, b: nat)
    requires Text.NatToString(a) == Text.NatToString(b)
    ensures a == b
  {
    Text.NatToStringRoundTrip(a);
    Text.NatToStringRoundTrip(b);
  }

  /** Distinct numeric ids give distinct keys, and a null id gives the key "None". */
  lemma IdTextInjectiveOnNumbers(a: int, b: int)
    ensures IdText(IdInt(a)) == IdText(IdInt(b)) ==> a == b
    ensures IdText(IdNull) == "None" && IdText(IdInt(a)) != ""
  {
    var sa, sb := Text.IntToString(a), Text.IntToString(b);
    assert |sa| >= 1 && (sa[0] == '-' <==> a < 0);
    assert |sb| >= 1 && (sb[0] == '-' <==> b < 0);
    if sa == sb {
      if a < 0 {
        assert sa[1..] == Text.NatToString(-a);
        assert sb[1..] == Text.NatToString(-b);
        NatToStringInjective(-a, -b);
      } else {
        NatToStringInjective(a, b);
      }
    }
  }

  /** One record of the tags endpoint; an absent label or slug is "". */
  datatype TagRecord = TagRecord(id: JsonId, tagLabel: string, tagSlug: string)

  /** The dictionary built from the records: keyed by the id's text, later records overwriting earlier ones. */
  function TagsDict(tags: seq<TagRecord>): map<string, TagInfo> {
    if tags == [] then map[]
    else
      var last := tags[|tags| - 1];
      var d := TagsDict(tags[..|tags| - 1]);
      if IdText(last.id) != "" then d[IdText(last.id) := TagInfo(last.tagLabel, last.tagSlug)] else d
  }

  /** A key is present exactly when some record has it. */
  lemma {:induction false} TagsDictKeys(tags: seq<TagRecord>, k: string)
    ensures k in TagsDict(tags) <==> k != "" && exists i :: 0 <= i < |tags| && IdText(tags[i].id) == k
  {
    if tags != [] {
      var n := |tags| - 1;
      var init := tags[..n];
      TagsDictKeys(init, k);
      if k != "" && IdText(tags[n].id) != k && exists i :: 0 <= i < |tags| && IdText(tags[i].id) == k {
        var i :| 0 <= i < |tags| && IdText(tags[i].id) == k;
        assert init[i] == tags[i];
      }
      if k in TagsDict(init) {
        var i :| 0 <= i < |init| && IdText(init[i].id) == k;
        assert init[i] == tags[i];
      }
    }
  }

  /** A present key holds the last record with that key's label and slug. */
  lemma {:induction false} TagsDictLastWins(tags: seq<TagRecord>, k: string)
    requires k in TagsDict(tags)
    ensures exists i :: (0 <= i < |tags| && IdText(tags[i].id) == k &&
      TagsDict(tags)[k] == TagInfo(tags[i].tagLabel, tags[i].tagSlug) &&
      forall j :: i < j < |tags| ==> IdText(tags[j].id) != k)
  {
    var n := |tags| - 1;
    var init := tags[..n];
    if IdText(tags[n].id) != k {
      TagsDictLastWins(init, k);
      var i :| 0 <= i < |init| && IdText(init[i].id) == k &&
        TagsDict(init)[k] == TagInfo(init[i].tagLabel, init[i].tagSlug) &&
        forall j :: i < j < |init| ==> IdText(init[j].id) != k;
      assert init[i] == tags[i];
      forall j | i < j < |tags| ensures IdText(tags[j].id) != k {
        if j < n {
          assert init[j] == tags[j];
        }
      }
    } else {
      TagsDictKeys(tags, k);
      assert TagsDict(tags)[k] == TagInfo(tags[n].tagLabel, tags[n].tagSlug);
    }
  }

  /** `fetch_tags_dictionary` after the request; any failure gives the empty dictionary. */
  method FetchTagsDictionary(resp: Response<seq<TagRecord>>) returns (dict: map<string, TagInfo>)
    ensures dict == (if resp.Ok? then TagsDict(resp.body) else map[])
  {
    if !resp.Ok? {
      return map[];
    }
    var tags := resp.body;
    dict := map[];
    for i := 0 to |tags|
      invariant dict == TagsDict(tags[..i])
    {
      assert tags[..i + 1][..i] == tags[..i];
      var tagId := IdText(tags[i].id);
      if tagId != "" {
        dict := dict[tagId := TagInfo(tags[i].tagLabel, tags[i].tagSlug)];
      }
    }
    assert tags[..|tags|] == tags;
  }

  // ---------- markets: one market's metadata ----------

  /** An element of a market's `tags`: an object, a bare string, or anything else. */
  datatype RawTag = TagObject(id: JsonId, tagLabel: Option<string>, tagSlug: Option<string>) | TagText(text: string) | TagOther

  /** The first market record of the markets endpoint; `tags` is `None` when it is null. */
  datatype MarketRecord = MarketRecord(
    question: Option<string>,
    title: Option<string>,
    name: Option<string>,
    slug: Option<string>,
    description: Option<string>,
    image: Option<string>,
    imageUrl: Option<string>,
    tags: Option<seq<RawTag>>)

  /** The first truthy of question, title and name, else "Unknown Market". */
  function Title(m: MarketRecord): (r: string)
    ensures r != ""
    ensures Truthy(m.question) ==> r == m.question.value
    ensures !Truthy(m.question) && !Truthy(m.title) && !Truthy(m.name) ==> r == "Unknown Market"
  {
    if Truthy(m.question) then m.question.value
    else if Truthy(m.title) then m.title.value
    else if Truthy(m.name) then m.name.value
    else "Unknown Market"
  }

  /** The display label of a tag object: its label if truthy, else its slug. */
  function ObjectLabel(t: RawTag): Option<string>
    requires t.TagObject?
  {
    if Truthy(t.tagLabel) then t.tagLabel else t.tagSlug
  }

  /** The ids of the tag objects, in order, skipping empty ones. */
  function RawTagIds(raw: seq<RawTag>): (ids: seq<string>)
    ensures forall id :: id in ids ==> id != ""
  {
    if raw == [] then []
    else
      var last := raw[|raw| - 1];
      RawTagIds(raw[..|raw| - 1]) + (if last.TagObject? && IdText(last.id) != "" then [IdText(last.id)] else [])
  }

  /** The labels of the tag objects (when truthy) and every bare string (even an empty one), in order. */
  function RawTagLabels(raw: seq<RawTag>): seq<string> {
    if raw == [] then []
    else
      var last := raw[|raw| - 1];
      RawTagLabels(raw[..|raw| - 1]) +
      (if last.TagObject? && Truthy(ObjectLabel(last)) then [ObjectLabel(last).value]
       else if last.TagText? then [last.text]
       else [])
  }

  /** Whether some tag id is a sports tag id. */
  predicate SportsMarket(sports: set<string>, ids: seq<string>) {
    exists i :: 0 <= i < |ids| && ids[i] in sports
  }

  /** The labels after appending each tag id's non-empty dictionary label that is not yet present. */
  function WithDictionaryLabels(labels: seq<string>, ids: seq<string>, dict: map<string, TagInfo>): seq<string> {
    if ids == [] then labels
    else
      var acc := WithDictionaryLabels(labels, ids[..|ids| - 1], dict);
      var id := ids[|ids| - 1];
      if id in dict && dict[id].tagLabel != "" && dict[id].tagLabel !in acc then acc + [dict[id].tagLabel] else acc
  }

  /**
   * The dictionary pass keeps the labels as a prefix, adds only new, distinct,
   * non-empty dictionary labels of the market's ids, and misses none of them.
   */
  lemma {:induction false} DictionaryLabelsExtend(labels: seq<string>, ids: seq<string>, dict: map<string, TagInfo>)
    ensures var r := WithDictionaryLabels(labels, ids, dict);
      |labels| <= |r| && r[..|labels|] == labels &&
      Seqs.Distinct(r[|labels|..]) &&
      (forall x :: x in r[|labels|..] ==>
        x !in labels && x != "" && exists id :: id in ids && id in dict && dict[id].tagLabel == x) &&
      (forall id :: id in ids && id in dict && dict[id].tagLabel != "" ==> dict[id].tagLabel in r)
  {
    if ids != [] {
      var init := ids[..|ids| - 1];
      var id := ids[|ids| - 1];
      DictionaryLabelsExtend(labels, init, dict);
      var acc := WithDictionaryLabels(labels, init, dict);
      var r := WithDictionaryLabels(labels, ids, dict);
      assert forall x :: x in init ==> x in ids;
      assert forall x :: x in ids ==> x in init || x == id;
      if id in dict && dict[id].tagLabel != "" && dict[id].tagLabel !in acc {
        var x := dict[id].tagLabel;
        assert r[..|labels|] == acc[..|labels|];
        assert r[|labels|..] == acc[|labels|..] + [x];
        assert x !in acc[|labels|..];
        assert acc == acc[..|labels|] + acc[|labels|..];
        assert x !in labels;
      }
    }
  }

  const PoliticsWords: seq<string> := ["politics", "election", "president", "congress"]
  const CryptoWords: seq<string> := ["crypto", "bitcoin", "ethereum"]

  /** Whether one of the words occurs in the text. */
  predicate AnyWordIn(words: seq<string>, text: string) {
    exists k :: 0 <= k < |words| && Text.Contains(text, words[k])
  }

  /** The legacy category of the first id whose dictionary label names politics or crypto. */
  function KeywordCategory(ids: seq<string>, dict: map<string, TagInfo>): Option<string> {
    if ids == [] then None
    else if ids[0] in dict && AnyWordIn(PoliticsWords, Text.Lower(dict[ids[0]].tagLabel)) then Some("politics")
    else if ids[0] in dict && AnyWordIn(CryptoWords, Text.Lower(dict[ids[0]].tagLabel)) then Some("crypto")
    else KeywordCategory(ids[1..], dict)
  }

  /** The legacy `category`: "sports" for a sports market, else the keyword category. */
  function LegacyCategory(isSports: bool, ids: seq<string>, dict: map<string, TagInfo>): Option<string> {
    if isSports then Some("sports") else KeywordCategory(ids, dict)
  }

  /** A label that matches a politics or crypto word. */
  predicate KeywordLabel(id: string, dict: map<string, TagInfo>) {
    id in dict && (AnyWordIn(PoliticsWords, Text.Lower(dict[id].tagLabel)) ||
                   AnyWordIn(CryptoWords, Text.Lower(dict[id].tagLabel)))
  }

  /**
   * The legacy category is "sports" exactly for sports markets; otherwise it is set
   * exactly when some id's label has a keyword, and it is that of the first such id.
   */
  lemma {:induction false} LegacyCategoryIff(isSports: bool, ids: seq<string>, dict: map<string, TagInfo>)
    ensures LegacyCategory(isSports, ids, dict) == Some("sports") <==> isSports
    ensures !isSports ==>
      (LegacyCategory(isSports, ids, dict).Some? <==> exists i :: 0 <= i < |ids| && KeywordLabel(ids[i], dict))
    ensures !isSports && LegacyCategory(isSports, ids, dict).Some? ==>
      exists i :: 0 <= i < |ids| && KeywordLabel(ids[i], dict) &&
        (forall j :: 0 <= j < i ==> !KeywordLabel(ids[j], dict)) &&
        LegacyCategory(isSports, ids, dict).value ==
          (if AnyWordIn(PoliticsWords, Text.Lower(dict[ids[i]].tagLabel)) then "politics" else "crypto")
  {
    KeywordCategoryIff(ids, dict);
  }

  lemma {:induction false} KeywordCategoryIff(ids: seq<string>, dict: map<string, TagInfo>)
    ensures KeywordCategory(ids, dict) != Some("sports")
    ensures KeywordCategory(ids, dict).Some? <==> exists i :: 0 <= i < |ids| && KeywordLabel(ids[i], dict)
    ensures KeywordCategory(ids, dict).Some? ==>
      exists i :: 0 <= i < |ids| && KeywordLabel(ids[i], dict) &&
        (forall j :: 0 <= j < i ==> !KeywordLabel(ids[j], dict)) &&
        KeywordCategory(ids, dict).value ==
          (if AnyWordIn(PoliticsWords, Text.Lower(dict[ids[i]].tagLabel)) then "politics" else "crypto")
  {
    if ids != [] {
      KeywordCategoryIff(ids[1..], dict);
      assert forall i :: 0 <= i < |ids[1..]| ==> ids[1..][i] == ids[i + 1];
      if !KeywordLabel(ids[0], dict) && KeywordCategory(ids, dict).Some? {
        var i :| 0 <= i < |ids[1..]| && KeywordLabel(ids[1..][i], dict) &&
          (forall j :: 0 <= j < i ==> !KeywordLabel(ids[1..][j], dict)) &&
          KeywordCategory(ids[1..], dict).value ==
            (if AnyWordIn(PoliticsWords, Text.Lower(dict[ids[1..][i]].tagLabel)) then "politics" else "crypto");
        assert KeywordLabel(ids[i + 1], dict);
        assert forall j :: 0 <= j < i + 1 ==> !KeywordLabel(ids[j], dict) by {
          forall j | 0 <= j < i + 1 ensures !KeywordLabel(ids[j], dict) {
            if j > 0 {
              assert ids[j] == ids[1..][j - 1];
            }
          }
        }
      }
      if KeywordCategory(ids, dict).None? {
        forall i | 0 <= i < |ids| ensures !KeywordLabel(ids[i], dict) {
          if i > 0 {
            assert ids[i] == ids[1..][i - 1];
          }
        }
      }
    }
  }

  /** The metadata built from a market record. */
  function MetadataOfRecord(conditionId: string, m: MarketRecord, raw: seq<RawTag>,
                            sports: set<string>, dict: map<string, TagInfo>): MarketMetadata
  {
    var ids := RawTagIds(raw);
    var isSports := SportsMarket(sports, ids);
    MarketMetadata(conditionId, Title(m), m.slug, m.description,
                   if Truthy(m.image) then m.image else m.imageUrl,
                   LegacyCategory(isSports, ids, dict), None,
                   WithDictionaryLabels(RawTagLabels(raw), ids, dict), ids, isSports, [])
  }

  /**
   * What `fetch_market_metadata` returns, a missing sports set or dictionary read
   * as empty: nothing for a failed request, an empty list or a null `tags`.
   */
  function MarketMetadataOf(conditionId: string, resp: Response<seq<MarketRecord>>,
                            sports: set<string>, dict: map<string, TagInfo>): Option<MarketMetadata>
  {
    if resp.Ok? && resp.body != [] && resp.body[0].tags.Some? then
      Some(MetadataOfRecord(conditionId, resp.body[0], resp.body[0].tags.value, sports, dict))
    else None
  }

  /**
   * Metadata exists exactly for a successful, non-empty answer with a list of
   * tags; it carries the queried condition id, is sports exactly when a tag id is a
   * sports tag id, and then has legacy category "sports".
   */
  lemma MarketMetadataShape(conditionId: string, resp: Response<seq<MarketRecord>>,
                            sports: set<string>, dict: map<string, TagInfo>)
    ensures var r := MarketMetadataOf(conditionId, resp, sports, dict);
      (r.Some? <==> resp.Ok? && resp.body != [] && resp.body[0].tags.Some?) &&
      (r.Some? ==>
        r.value.conditionId == conditionId && r.value.subcategory.None? && r.value.categories == [] &&
        (r.value.isSports <==> exists id :: id in r.value.tagIds && id in sports) &&
        (r.value.category == Some("sports") <==> r.value.isSports) &&
        (forall id :: id in r.value.tagIds ==> id != ""))
  {
    var r := MarketMetadataOf(conditionId, resp, sports, dict);
    if r.Some? {
      LegacyCategoryIff(r.value.isSports, r.value.tagIds, dict);
    }
  }

  /** `fetch_market_metadata` after the request: a 404 or any other failure gives nothing. */
  method FetchMarketMetadata(conditionId: string, resp: Response<seq<MarketRecord>>,
                             sportsTagIds: set<string>, tagsDict: map<string, TagInfo>)
    returns (md: Option<MarketMetadata>)
    ensures md == MarketMetadataOf(conditionId, resp, sportsTagIds, tagsDict)
  {
    if !resp.Ok? || resp.body == [] {
      return None;
    }
    var market := resp.body[0];
    if market.tags.None? {
      return None;
    }
    var tagIds, base := ReadTags(market.tags.value);
    var isSports := IsSportsMarket(sportsTagIds, tagIds);
    var tagLabels := AddDictionaryLabels(base, tagIds, tagsDict);
    var category := InferLegacyCategory(isSports, tagIds, tagsDict);
    md := Some(MarketMetadata(conditionId, Title(market), market.slug, market.description,
                              if Truthy(market.image) then market.image else market.imageUrl,
                              category, None, tagLabels, tagIds, isSports, []));
  }

  /** The tag loop: ids of tag objects, and labels of tag objects and of plain strings. */
  method ReadTags(raw: seq<RawTag>) returns (tagIds: seq<string>, tagLabels: seq<string>)
    ensures tagIds == RawTagIds(raw) && tagLabels == RawTagLabels(raw)
  {
    tagLabels, tagIds := [], [];
    for i := 0 to |raw|
      invariant tagIds == RawTagIds(raw[..i]) && tagLabels == RawTagLabels(raw[..i])
    {
      assert raw[..i + 1][..i] == raw[..i];
      var tagObj := raw[i];
      if tagObj.TagObject? {
        var tagId := IdText(tagObj.id);
        if tagId != "" {
          tagIds := tagIds + [tagId];
        }
        var tagLabel := ObjectLabel(tagObj);
        if Truthy(tagLabel) {
          tagLabels := tagLabels + [tagLabel.value];
        }
      } else if tagObj.TagText? {
        tagLabels := tagLabels + [tagObj.text];
      }
    }
    assert raw[..|raw|] == raw;
  }

  /** Whether any tag id is a sports tag id; with no sports ids or no tag ids it is not. */
  method IsSportsMarket(sportsTagIds: set<string>, tagIds: seq<string>) returns (isSports: bool)
    ensures isSports == SportsMarket(sportsTagIds, tagIds)
  {
    isSports := false;
    if sportsTagIds != {} && tagIds != [] {
      isSports := sportsTagIds * (set id | id in tagIds) != {};
      assert isSports ==> SportsMarket(sportsTagIds, tagIds) by {
        if isSports {
          var id :| id in sportsTagIds * (set id | id in tagIds);
          var i :| 0 <= i < |tagIds| && tagIds[i] == id;
        }
      }
      assert SportsMarket(sportsTagIds, tagIds) ==> isSports by {
        if SportsMarket(sportsTagIds, tagIds) {
          var i :| 0 <= i < |tagIds| && tagIds[i] in sportsTagIds;
          assert tagIds[i] in sportsTagIds * (set id | id in tagIds);
        }
      }
    }
  }

  /** The dictionary pass: each id's dictionary label, when non-empty and new, is appended. */
  method AddDictionaryLabels(base: seq<string>, tagIds: seq<string>, tagsDict: map<string, TagInfo>)
    returns (tagLabels: seq<string>)
    ensures tagLabels == WithDictionaryLabels(base, tagIds, tagsDict)
  {
    tagLabels := base;
    if tagsDict != map[] && tagIds != [] {
      for i := 0 to |tagIds|
        invariant tagLabels == WithDictionaryLabels(base, tagIds[..i], tagsDict)
      {
        assert tagIds[..i + 1][..i] == tagIds[..i];
        var tagId := tagIds[i];
        if tagId in tagsDict {
          var dictLabel := tagsDict[tagId].tagLabel;
          if dictLabel != "" && dictLabel !in tagLabels {
            tagLabels := tagLabels + [dictLabel];
          }
        }
      }
      assert tagIds[..|tagIds|] == tagIds;
    } else {
      assert tagLabels == WithDictionaryLabels(base, tagIds, tagsDict) by {
        NoDictionaryLabels(base, tagIds, tagsDict);
      }
    }
  }

  /** The legacy category: "sports" for a sports market, else the first politics or crypto keyword. */
  method InferLegacyCategory(isSports: bool, tagIds: seq<string>, tagsDict: map<string, TagInfo>)
    returns (category: Option<string>)
    ensures category == LegacyCategory(isSports, tagIds, tagsDict)
  {
    category := None;
    if isSports {
      category := Some("sports");
    } else if tagsDict != map[] && tagIds != [] {
      var i := 0;
      while i < |tagIds|
        invariant 0 <= i <= |tagIds|
        invariant category.None? ==> KeywordCategory(tagIds, tagsDict) == KeywordCategory(tagIds[i..], tagsDict)
        invariant category.Some? ==> category == KeywordCategory(tagIds, tagsDict)
        decreases |tagIds| - i, category.None?
      {
        if category.Some? {
          break;
        }
        assert tagIds[i..][1..] == tagIds[i + 1..];
        var tagId := tagIds[i];
        if tagId in tagsDict {
          var labelLower := Text.Lower(tagsDict[tagId].tagLabel);
          if AnyWordIn(PoliticsWords, labelLower) {
            category := Some("politics");
          } else if AnyWordIn(CryptoWords, labelLower) {
            category := Some("crypto");
          }
        }
        if category.None? {
          i := i + 1;
        }
      }
      if category.None? {
        assert tagIds[i..] == [];
      }
    } else {
      assert KeywordCategory(tagIds, tagsDict).None? by {
        KeywordCategoryIff(tagIds, tagsDict);
      }
    }
  }

  /** With no dictionary entries or no ids, the dictionary pass adds nothing. */
  lemma {:induction false} NoDictionaryLabels(labels: seq<string>, ids: seq<string>, dict: map<string, TagInfo>)
    requires dict == map[] || ids == []
    ensures WithDictionaryLabels(labels, ids, dict) == labels
  {
    if ids != [] {
      NoDictionaryLabels(labels, ids[..|ids| - 1], dict);
    }
  }
}
