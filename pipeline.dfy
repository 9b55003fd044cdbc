/**
 * `process_domain` and the result assembly of `scrape_historical_robots` in
 * Code/main.py. The network is replaced by its outcomes: the index answer
 * of each domain (`CdxReply`) and, for each timestamp the index yields, what
 * fetching that snapshot returned (`None` for a failed fetch).
 */
module Pipeline {
  import opened Wrappers
  import opened Text
  import opened Seqs
  import opened UserAgents
  import opened Cdx
  import opened Timestamps

  /** One output row: `Domain`, `Timestamp`, `UserAgent`, `RobotsTxt`. */
  datatype Record = Record(domain: string, timestamp: string, userAgent: string, robotsTxt: string)

  /** One record per agent of `agents`, in order, all carrying the snapshot they come from. */
  function AgentRecords(domain: string, timestamp: string, agents: seq<string>, text: string): seq<Record> {
    if agents == [] then []
    else AgentRecords(domain, timestamp, agents[..|agents| - 1], text) + [Record(domain, timestamp, agents[|agents| - 1], text)]
  }

  /** The records one snapshot yields: one per `user-agent:` line of present, non-empty content. */
  function SnapshotRecords(domain: string, timestamp: string, content: Option<string>): seq<Record> {
    match content
    case None => []
    case Some(text) => if text == "" then [] else AgentRecords(domain, timestamp, UserAgentsOf(SplitLines(text)), text)
  }

  /** The records of each snapshot, in timestamp order. */
  function PerSnapshot(domain: string, timestamps: seq<string>, fetched: seq<Option<string>>): (parts: seq<seq<Record>>)
    requires |timestamps| == |fetched|
    ensures |parts| == |timestamps|
    ensures forall i :: 0 <= i < |timestamps| ==> parts[i] == SnapshotRecords(domain, timestamps[i], fetched[i])
  {
    seq(|timestamps|, i requires 0 <= i < |timestamps| => SnapshotRecords(domain, timestamps[i], fetched[i]))
  }

  /** All records of a domain. */
  function DomainRecords(domain: string, timestamps: seq<string>, fetched: seq<Option<string>>): seq<Record>
    requires |timestamps| == |fetched|
  {
    Flatten(PerSnapshot(domain, timestamps, fetched))
  }

  /**
   * The innermost loop of `process_domain`: appends to `allData` one record
   * per user agent of a snapshot, in order.
   */
  method AppendAgentRecords(allData: seq<Record>, domain: string, timestamp: string, userAgents: seq<string>, robotsTxt: string)
    returns (extended: seq<Record>)
    ensures extended == allData + AgentRecords(domain, timestamp, userAgents, robotsTxt)
  {
    extended := allData;
    for k := 0 to |userAgents|
      invariant extended == allData + AgentRecords(domain, timestamp, userAgents[..k], robotsTxt)
    {
      assert userAgents[..k + 1][..k] == userAgents[..k];
      extended := extended + [Record(domain, timestamp, userAgents[k], robotsTxt)];
    }
    assert userAgents[..|userAgents|] == userAgents;
  }

  /**
   * `process_domain`: asks the index for the domain's timestamps in the
   * window and, for each in turn, appends one record per user agent of
   * the fetched snapshot when it is present and non-empty. `fetched[i]`
   * is the outcome of fetching the `i`-th timestamp.
   */
  method ProcessDomain(domain: string, startTimestamp: string, endTimestamp: string, cdx: CdxReply, fetched: seq<Option<string>>)
    returns (allData: seq<Record>)
    requires |fetched| == |FetchCdxData(cdx, startTimestamp, endTimestamp)|
    ensures allData == DomainRecords(domain, FetchCdxData(cdx, startTimestamp, endTimestamp), fetched)
  {
    allData := [];
    var timestamps := FetchCdxData(cdx, startTimestamp, endTimestamp);
    if timestamps == [] {
      return [];
    }
    ghost var parts := PerSnapshot(domain, timestamps, fetched);
    for i := 0 to |timestamps|
      invariant allData == Flatten(parts[..i])
    {
      FlattenPrefixNext(parts, i);
      var timestamp := timestamps[i];
      var robotsTxt := fetched[i];
      if robotsTxt.Some? && robotsTxt.value != "" {
        var userAgents := ExtractUserAgent(robotsTxt.value);
        allData := AppendAgentRecords(allData, domain, timestamp, userAgents, robotsTxt.value);
      }
    }
    assert parts[..|timestamps|] == parts;
  }

  /** How many user agents a fetched snapshot declares (none when absent or empty). */
  function AgentCount(content: Option<string>): nat {
    match content
    case None => 0
    case Some(text) => if text == "" then 0 else |UserAgentsOf(SplitLines(text))|
  }

  function AgentTotal(fetched: seq<Option<string>>): nat {
    if fetched == [] then 0 else AgentTotal(fetched[..|fetched| - 1]) + AgentCount(fetched[|fetched| - 1])
  }

  lemma SnapshotRecordCount(domain: string, timestamp: string, content: Option<string>)
    ensures |SnapshotRecords(domain, timestamp, content)| == AgentCount(content)
  {
    if content.Some? && content.value != "" {
      AgentRecordsPointwise(domain, timestamp, UserAgentsOf(SplitLines(content.value)), content.value);
    }
  }

  lemma {:induction false} PerSnapshotTotal(domain: string, timestamps: seq<string>, fetched: seq<Option<string>>)
    requires |timestamps| == |fetched|
    ensures TotalLength(PerSnapshot(domain, timestamps, fetched)) == AgentTotal(fetched)
  {
    if timestamps != [] {
      var n := |timestamps|;
      var parts := PerSnapshot(domain, timestamps, fetched);
      assert parts[..n - 1] == PerSnapshot(domain, timestamps[..n - 1], fetched[..n - 1]);
      PerSnapshotTotal(domain, timestamps[..n - 1], fetched[..n - 1]);
      SnapshotRecordCount(domain, timestamps[n - 1], fetched[n - 1]);
    }
  }

  /**
   * A domain yields as many records as the user agents of its present,
   * non-empty snapshots add up to.
   */
  lemma DomainRecordCount(domain: string, timestamps: seq<string>, fetched: seq<Option<string>>)
    requires |timestamps| == |fetched|
    ensures |DomainRecords(domain, timestamps, fetched)| == AgentTotal(fetched)
  {
    FlattenLength(PerSnapshot(domain, timestamps, fetched));
    PerSnapshotTotal(domain, timestamps, fetched);
  }

  lemma SnapshotRecordsMembership(domain: string, timestamp: string, content: Option<string>, r: Record)
    ensures r in SnapshotRecords(domain, timestamp, content) <==>
      r.domain == domain && r.timestamp == timestamp && content == Some(r.robotsTxt) && r.robotsTxt != "" &&
      r.userAgent in UserAgentsOf(SplitLines(r.robotsTxt))
  {
    if content.Some? && content.value != "" {
      var agents := UserAgentsOf(SplitLines(content.value));
      SnapshotRecordOrder(domain, timestamp, content.value);
      if r.domain == domain && r.timestamp == timestamp && content == Some(r.robotsTxt) && r.userAgent in agents {
        var k :| 0 <= k < |agents| && agents[k] == r.userAgent;
        assert SnapshotRecords(domain, timestamp, content)[k] == r;
      }
    }
  }

  /**
   * Every record of a domain carries that domain, the timestamp of one of
   * its snapshots, that snapshot's full non-empty text and one of the user
   * agents the text declares; and every such combination is a record.
   */
  lemma RecordProvenance(domain: string, timestamps: seq<string>, fetched: seq<Option<string>>, r: Record)
    requires |timestamps| == |fetched|
    ensures r in DomainRecords(domain, timestamps, fetched) <==>
      r.domain == domain && r.robotsTxt != "" && r.userAgent in UserAgentsOf(SplitLines(r.robotsTxt)) &&
      exists i :: 0 <= i < |timestamps| && r.timestamp == timestamps[i] && fetched[i] == Some(r.robotsTxt)
  {
    var parts := PerSnapshot(domain, timestamps, fetched);
    FlattenMembership(parts, r);
    forall i | 0 <= i < |timestamps| {
      SnapshotRecordsMembership(domain, timestamps[i], fetched[i], r);
    }
  }

  /**
   * Records come in timestamp order: the records of the first `i`
   * snapshots precede those of the rest.
   */
  lemma DomainRecordsSplit(domain: string, timestamps: seq<string>, fetched: seq<Option<string>>, i: int)
    requires |timestamps| == |fetched| && 0 <= i <= |timestamps|
    ensures DomainRecords(domain, timestamps, fetched) ==
      DomainRecords(domain, timestamps[..i], fetched[..i]) + DomainRecords(domain, timestamps[i..], fetched[i..])
  {
    assert PerSnapshot(domain, timestamps, fetched) ==
      PerSnapshot(domain, timestamps[..i], fetched[..i]) + PerSnapshot(domain, timestamps[i..], fetched[i..]);
    FlattenAppend(PerSnapshot(domain, timestamps[..i], fetched[..i]), PerSnapshot(domain, timestamps[i..], fetched[i..]));
  }

  lemma {:induction false} AgentRecordsPointwise(domain: string, timestamp: string, agents: seq<string>, text: string)
    ensures var records := AgentRecords(domain, timestamp, agents, text);
      |records| == |agents| &&
      forall k :: 0 <= k < |agents| ==> records[k] == Record(domain, timestamp, agents[k], text)
  {
    if agents != [] {
      AgentRecordsPointwise(domain, timestamp, agents[..|agents| - 1], text);
    }
  }

  /** Within one snapshot, records follow the order of its `user-agent:` lines. */
  lemma SnapshotRecordOrder(domain: string, timestamp: string, text: string)
    requires text != ""
    ensures var agents := UserAgentsOf(SplitLines(text));
      var records := SnapshotRecords(domain, timestamp, Some(text));
      |records| == |agents| &&
      forall k :: 0 <= k < |agents| ==> records[k] == Record(domain, timestamp, agents[k], text)
  {
    AgentRecordsPointwise(domain, timestamp, UserAgentsOf(SplitLines(text)), text);
  }

  /** What the network produced for one domain: its index answer and each snapshot fetch. */
  datatype DomainFeed = DomainFeed(cdx: CdxReply, fetched: seq<Option<string>>)

  /** One fetch outcome for each timestamp the index answer yields. */
  predicate Aligned(feed: DomainFeed, startTimestamp: string, endTimestamp: string) {
    |feed.fetched| == |FetchCdxData(feed.cdx, startTimestamp, endTimestamp)|
  }

  /** The list `process_domain` returns for a domain. */
  function DomainResult(domain: string, feed: DomainFeed, startTimestamp: string, endTimestamp: string): seq<Record>
    requires Aligned(feed, startTimestamp, endTimestamp)
  {
    DomainRecords(domain, FetchCdxData(feed.cdx, startTimestamp, endTimestamp), feed.fetched)
  }

  /** The per-domain lists in the order of `domains`, as `asyncio.gather` hands them back. */
  function Results(domains: seq<string>, feeds: seq<DomainFeed>, startTimestamp: string, endTimestamp: string): (results: seq<seq<Record>>)
    requires |feeds| == |domains|
    requires forall i :: 0 <= i < |feeds| ==> Aligned(feeds[i], startTimestamp, endTimestamp)
    ensures |results| == |domains|
    ensures forall i :: 0 <= i < |domains| ==> results[i] == DomainResult(domains[i], feeds[i], startTimestamp, endTimestamp)
  {
    seq(|domains|, i requires 0 <= i < |domains| => DomainResult(domains[i], feeds[i], startTimestamp, endTimestamp))
  }

  /**
   * The `process_domain` task of every domain, awaited with `asyncio.gather`,
   * which hands the lists back in the order of `domains` whatever order the
   * tasks finish in; the tasks are run here one after the other.
   */
  method GatherDomains(domains: seq<string>, startTimestamp: string, endTimestamp: string, feeds: seq<DomainFeed>)
    returns (allResults: seq<seq<Record>>)
    requires |feeds| == |domains|
    requires forall i :: 0 <= i < |feeds| ==> Aligned(feeds[i], startTimestamp, endTimestamp)
    ensures allResults == Results(domains, feeds, startTimestamp, endTimestamp)
  {
    ghost var expected := Results(domains, feeds, startTimestamp, endTimestamp);
    allResults := [];
    for i := 0 to |domains|
      invariant allResults == expected[..i]
    {
      var result := ProcessDomain(domains[i], startTimestamp, endTimestamp, feeds[i].cdx, feeds[i].fetched);
      assert result == expected[i];
      PrefixNext(expected, i);
      allResults := allResults + [result];
    }
    assert expected[..|domains|] == expected;
  }

  /**
   * `scrape_historical_robots` up to the CSV write: builds the window from
   * the two (year, month) pairs, gathers `process_domain` of every domain
   * and flattens the per-domain lists in the order of `domains`.
   */
  method ScrapeHistoricalRobots(domains: seq<string>, startMonth: int, startYear: int, endMonth: int, endYear: int,
                                feeds: seq<DomainFeed>) returns (allData: seq<Record>)
    requires 1000 <= startYear <= 9999 && 1 <= startMonth <= 12
    requires 1000 <= endYear <= 9999 && 1 <= endMonth <= 12
    requires |feeds| == |domains|
    requires forall i :: 0 <= i < |feeds| ==>
      Aligned(feeds[i], ConvertToTimestamp(startYear, startMonth), ConvertToTimestamp(endYear, endMonth))
    ensures allData == Flatten(Results(domains, feeds, ConvertToTimestamp(startYear, startMonth), ConvertToTimestamp(endYear, endMonth)))
  {
    var startTimestamp := ConvertToTimestamp(startYear, startMonth);
    var endTimestamp := ConvertToTimestamp(endYear, endMonth);
    var allResults := GatherDomains(domains, startTimestamp, endTimestamp, feeds);
    allData := Flatten(allResults);
  }

  function FeedTotal(feeds: seq<DomainFeed>): nat {
    if feeds == [] then 0 else FeedTotal(feeds[..|feeds| - 1]) + AgentTotal(feeds[|feeds| - 1].fetched)
  }

  lemma {:induction false} ResultsTotal(domains: seq<string>, feeds: seq<DomainFeed>, startTimestamp: string, endTimestamp: string)
    requires |feeds| == |domains|
    requires forall i :: 0 <= i < |feeds| ==> Aligned(feeds[i], startTimestamp, endTimestamp)
    ensures TotalLength(Results(domains, feeds, startTimestamp, endTimestamp)) == FeedTotal(feeds)
  {
    if domains != [] {
      var n := |domains|;
      var results := Results(domains, feeds, startTimestamp, endTimestamp);
      assert results[..n - 1] == Results(domains[..n - 1], feeds[..n - 1], startTimestamp, endTimestamp);
      ResultsTotal(domains[..n - 1], feeds[..n - 1], startTimestamp, endTimestamp);
      DomainRecordCount(domains[n - 1], FetchCdxData(feeds[n - 1].cdx, startTimestamp, endTimestamp), feeds[n - 1].fetched);
    }
  }

  /**
   * The fleet output has as many records as all domains' present,
   * non-empty snapshots declare user agents; a domain whose index request
   * failed adds none.
   */
  lemma FleetRecordCount(domains: seq<string>, feeds: seq<DomainFeed>, startTimestamp: string, endTimestamp: string)
    requires |feeds| == |domains|
    requires forall i :: 0 <= i < |feeds| ==> Aligned(feeds[i], startTimestamp, endTimestamp)
    ensures |Flatten(Results(domains, feeds, startTimestamp, endTimestamp))| == FeedTotal(feeds)
  {
    FlattenLength(Results(domains, feeds, startTimestamp, endTimestamp));
    ResultsTotal(domains, feeds, startTimestamp, endTimestamp);
  }

  /** A domain whose index request failed contributes no records. */
  lemma FailedIndexNoRecords(domain: string, feed: DomainFeed, startTimestamp: string, endTimestamp: string)
    requires Aligned(feed, startTimestamp, endTimestamp)
    requires feed.cdx.TransportError? || feed.cdx.status != 200
    ensures DomainRecords(domain, FetchCdxData(feed.cdx, startTimestamp, endTimestamp), feed.fetched) == []
  {
  }

  /**
   * The fleet output keeps each domain's records together and in the order
   * of `domains`: the first `i` domains' records precede the others'.
   */
  lemma FleetOrder(domains: seq<string>, feeds: seq<DomainFeed>, startTimestamp: string, endTimestamp: string, i: int)
    requires |feeds| == |domains| && 0 <= i <= |domains|
    requires forall i :: 0 <= i < |feeds| ==> Aligned(feeds[i], startTimestamp, endTimestamp)
    ensures Flatten(Results(domains, feeds, startTimestamp, endTimestamp)) ==
      Flatten(Results(domains[..i], feeds[..i], startTimestamp, endTimestamp)) +
      Flatten(Results(domains[i..], feeds[i..], startTimestamp, endTimestamp))
  {
    assert Results(domains, feeds, startTimestamp, endTimestamp) ==
      Results(domains[..i], feeds[..i], startTimestamp, endTimestamp) + Results(domains[i..], feeds[i..], startTimestamp, endTimestamp);
    FlattenAppend(Results(domains[..i], feeds[..i], startTimestamp, endTimestamp), Results(domains[i..], feeds[i..], startTimestamp, endTimestamp));
  }
}
