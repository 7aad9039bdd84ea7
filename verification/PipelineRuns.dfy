/** Whole runs of the pipeline, column by column: what a new attempt looks like after success and after each failure. */
module PipelineRuns {
  import opened Prelude
  import opened Json
  import opened Pipeline

  /** A published attempt: checksum of its bytes, last stage PUBLISH, no failure, every payload stored. */
  function Published(bytes: Bytes, metadata: Document, proposals: seq<Proposal>, result: Document): Attempt {
    Attempt(ChecksumOf(bytes), PUBLISHED, Some(PUBLISH), None, Some(bytes), metadata, Map(ProposalToDict, proposals), result)
  }

  function AllCalls(k: nat, bytes: Bytes, proposals: seq<Proposal>): seq<Event> {
    [FetchCall(Some(bytes)), ExtractCall(k, bytes, Some(proposals)), PublishCall(k, proposals, ChecksumOf(bytes), true)]
  }


  lemma WorkAfterExtraction(a: Attempt, k: nat, entered: Stage, ports: Ports)
    requires a.content.Some? && ports.extract.Some?
    ensures var work := ExtractWork(a, k, entered, ports);
            && work.ok == ports.publish.Some?
            && work.events == [ExtractCall(k, a.content.value, ports.extract),
                               PublishCall(k, ports.extract.value, a.checksum, ports.publish.Some?)]
            && work.row == if ports.publish.Some? then
                             Attempt(a.checksum, PUBLISHED, Some(PUBLISH), None, a.content, a.metadata,
                                     Map(ProposalToDict, ports.extract.value), ports.publish.value)
                           else Attempt(a.checksum, FAILED, Some(EXTRACT), Some(entered), a.content, a.metadata,
                                        Map(ProposalToDict, ports.extract.value), a.result)
  {
    ProposalsRoundTrip(ports.extract.value);
  }

  lemma WorkWithoutExtraction(a: Attempt, k: nat, entered: Stage, ports: Ports)
    requires a.content.Some? && ports.extract.None?
    ensures ExtractWork(a, k, entered, ports)
         == Work(Attempt(a.checksum, FAILED, a.lastStage, Some(entered), a.content, a.metadata, a.extraction, a.result),
                 [ExtractCall(k, a.content.value, None)], false)
  {
  }

  /** The first run, when every port answers. */
  lemma FirstRunSucceeds(ports: Ports, bytes: Bytes, metadata: Document, proposals: seq<Proposal>, result: Document)
    requires ports == Ports(Some((bytes, metadata)), Some(proposals), Some(result))
    ensures RunOnce([], ports) == RunOutcome([Published(bytes, metadata, proposals, result)], AllCalls(0, bytes, proposals), true)
  {
    var fetched := AsFetched(NewAttempt(Unset), (bytes, metadata)).(checksum := ChecksumOf(bytes), failedStage := None);
    WorkAfterExtraction(fetched, 0, FETCH, ports);
    assert RunOnce([], ports) == Resumed([NewAttempt(Unset)], 0, ports);
    assert [NewAttempt(Unset)][0 := Published(bytes, metadata, proposals, result)] == [Published(bytes, metadata, proposals, result)];
  }

  /** The first run, when the fetch fails: a failed attempt without payloads. */
  lemma FirstFetchFails(ports: Ports)
    requires ports.fetch.None?
    ensures RunOnce([], ports)
         == RunOutcome([Attempt(Unset, FAILED, None, Some(FETCH), None, map[], [], map[])], [FetchCall(None)], false)
  {
  }

  /** The first run, when the extraction fails: the bytes are kept, and the failure is that of the stage entered. */
  lemma FirstExtractionFails(ports: Ports, bytes: Bytes, metadata: Document)
    requires ports.fetch == Some((bytes, metadata)) && ports.extract.None?
    ensures RunOnce([], ports)
         == RunOutcome([Attempt(ChecksumOf(bytes), FAILED, Some(FETCH), Some(FETCH), Some(bytes), metadata, [], map[])],
                       [FetchCall(Some(bytes)), ExtractCall(0, bytes, None)], false)
  {
    var fetched := AsFetched(NewAttempt(Unset), (bytes, metadata)).(checksum := ChecksumOf(bytes), failedStage := None);
    WorkWithoutExtraction(fetched, 0, FETCH, ports);
    assert RunOnce([], ports) == Resumed([NewAttempt(Unset)], 0, ports);
  }

  /** The first run, when publishing fails: bytes and extraction are kept. */
  lemma FirstPublishFails(ports: Ports, bytes: Bytes, metadata: Document, proposals: seq<Proposal>)
    requires ports == Ports(Some((bytes, metadata)), Some(proposals), None)
    ensures RunOnce([], ports)
         == RunOutcome([Attempt(ChecksumOf(bytes), FAILED, Some(EXTRACT), Some(FETCH), Some(bytes), metadata,
                                Map(ProposalToDict, proposals), map[])],
                       [FetchCall(Some(bytes)), ExtractCall(0, bytes, Some(proposals)),
                        PublishCall(0, proposals, ChecksumOf(bytes), false)], false)
  {
    var fetched := AsFetched(NewAttempt(Unset), (bytes, metadata)).(checksum := ChecksumOf(bytes), failedStage := None);
    WorkAfterExtraction(fetched, 0, FETCH, ports);
    assert RunOnce([], ports) == Resumed([NewAttempt(Unset)], 0, ports);
  }

  /** A stream whose newest attempt was published or found unchanged. */
  predicate Finished(rows: seq<Attempt>) {
    rows != [] && rows[|rows| - 1].status in {PUBLISHED, SKIPPED_UNCHANGED}
  }

  /** A later run that fetches the newest bytes again marks the newest attempt unchanged and calls nothing else. */
  lemma UnchangedRun(rows: seq<Attempt>, ports: Ports, bytes: Bytes, metadata: Document)
    requires Readable(rows) && Finished(rows) && ports.fetch == Some((bytes, metadata))
    requires rows[|rows| - 1].checksum == ChecksumOf(bytes)
    ensures RunOnce(rows, ports)
         == RunOutcome(rows[|rows| - 1 := rows[|rows| - 1].(status := SKIPPED_UNCHANGED)], [FetchCall(Some(bytes))], true)
  {
  }

  /** A later run that fetches bytes the stream has never seen publishes them as a new attempt. */
  lemma ChangedRun(rows: seq<Attempt>, ports: Ports, bytes: Bytes, metadata: Document, proposals: seq<Proposal>, result: Document)
    requires Readable(rows) && Finished(rows) && ports == Ports(Some((bytes, metadata)), Some(proposals), Some(result))
    requires forall i :: 0 <= i < |rows| ==> rows[i].checksum != ChecksumOf(bytes)
    ensures RunOnce(rows, ports)
         == RunOutcome(rows + [Published(bytes, metadata, proposals, result)], AllCalls(|rows|, bytes, proposals), true)
  {
    var fetched := AsFetched(NewAttempt(ChecksumOf(bytes)), (bytes, metadata));
    WorkAfterExtraction(fetched, |rows|, EXTRACT, ports);
    assert ResumeWork(fetched, |rows|, ports) == ExtractWork(fetched, |rows|, EXTRACT, ports);
    assert (rows + [fetched])[|rows| := Published(bytes, metadata, proposals, result)]
        == rows + [Published(bytes, metadata, proposals, result)];
  }

  /** A failed fetch of a finished stream changes no attempt. */
  lemma RefetchFails(rows: seq<Attempt>, ports: Ports)
    requires Readable(rows) && Finished(rows) && ports.fetch.None?
    ensures RunOnce(rows, ports) == RunOutcome(rows, [FetchCall(None)], false)
  {
  }
}
