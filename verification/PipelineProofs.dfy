/** Guarantees of the ingestion pipeline over whole runs of one stream, whatever fails. */
module PipelineProofs {
  import opened Prelude
  import opened Json
  import opened Pipeline

  predicate IsSuccess(e: Event) {
    e.PublishCall? && e.succeeded
  }

  /** The extractor returned these proposals for the attempt on these bytes. */
  predicate WasExtracted(calls: seq<Event>, k: nat, content: Bytes, proposals: seq<Proposal>) {
    ExtractCall(k, content, Some(proposals)) in calls
  }

  /** A stored extraction is what the extractor returned on the stored bytes. */
  ghost predicate FaithfulPayload(a: Attempt, k: nat, calls: seq<Event>) {
    && (a.content.Some? ==> a.checksum == ChecksumOf(a.content.value))
    && (a.content.None? ==> a.checksum == Unset && a.extraction == [] && k == 0)
    && (a.extraction != [] ==>
          a.content.Some? && exists ps :: a.extraction == Map(ProposalToDict, ps) && WasExtracted(calls, k, a.content.value, ps))
  }

  /** A publish call carries the checksum of the bytes its proposals were extracted from, and its attempt keeps both. */
  predicate FaithfulCall(e: Event, rows: seq<Attempt>, calls: seq<Event>) {
    e.PublishCall? ==>
      && e.attempt < |rows| && rows[e.attempt].content.Some?
      && e.checksum == rows[e.attempt].checksum == ChecksumOf(rows[e.attempt].content.value)
      && WasExtracted(calls, e.attempt, rows[e.attempt].content.value, e.proposals)
  }

  /** Attempts have distinct checksums, only the newest can be unfinished, payloads are faithful. */
  ghost predicate GoodRows(rows: seq<Attempt>, calls: seq<Event>) {
    && (forall i, j :: 0 <= i < j < |rows| ==> rows[i].checksum != rows[j].checksum)
    && (forall i :: 0 <= i < |rows| - 1 ==> Terminal(rows[i]))
    && (forall i :: 0 <= i < |rows| ==> FaithfulPayload(rows[i], i, calls))
    && (forall i :: 0 <= i < |rows| && rows[i].content.None? ==> |rows| == 1 && !Terminal(rows[i]))
    && (forall i :: 0 <= i < |rows| ==> (Terminal(rows[i]) <==> rows[i].lastStage == Some(PUBLISH)))
  }

  predicate WasPublished(calls: seq<Event>, k: nat) {
    exists p :: 0 <= p < |calls| && IsSuccess(calls[p]) && calls[p].attempt == k
  }

  /** An attempt is terminal exactly when it was published, and it was published once. */
  predicate GoodCalls(rows: seq<Attempt>, calls: seq<Event>) {
    && (forall i :: 0 <= i < |rows| ==> (Terminal(rows[i]) <==> WasPublished(calls, i)))
    && (forall p, q :: 0 <= p < q < |calls| && IsSuccess(calls[p]) && IsSuccess(calls[q])
                       ==> calls[p].attempt != calls[q].attempt)
    && (forall p :: 0 <= p < |calls| ==> FaithfulCall(calls[p], rows, calls))
  }

  ghost predicate StreamInvariant(rows: seq<Attempt>, calls: seq<Event>) {
    GoodRows(rows, calls) && GoodCalls(rows, calls)
  }

  lemma InvariantIsReadable(rows: seq<Attempt>, calls: seq<Event>)
    requires StreamInvariant(rows, calls)
    ensures Readable(rows)
  {
    forall i | 0 <= i < |rows| ensures ProposalsFromDicts(rows[i].extraction).Ok? {
      assert FaithfulPayload(rows[i], i, calls);
      if rows[i].extraction != [] {
        var ps :| rows[i].extraction == Map(ProposalToDict, ps) && WasExtracted(calls, i, rows[i].content.value, ps);
        ProposalsRoundTrip(ps);
      }
    }
  }

  /** The newest attempt, unfinished, may take this row. */
  ghost predicate Replaces(rows: seq<Attempt>, row: Attempt, calls: seq<Event>) {
    && rows != [] && !Terminal(rows[|rows| - 1])
    && (rows[|rows| - 1].content.Some? ==> row.content == rows[|rows| - 1].content && row.checksum == rows[|rows| - 1].checksum)
    && FaithfulPayload(row, |rows| - 1, calls)
    && (row.content.None? ==> |rows| == 1)
    && (rows[|rows| - 1].content.None? ==> |rows| == 1)
    && (Terminal(row) <==> row.lastStage == Some(PUBLISH))
    && (Terminal(row) ==> row.content.Some?)
  }

  lemma MoreCalls(a: Attempt, k: nat, calls: seq<Event>, e: Event)
    requires FaithfulPayload(a, k, calls)
    ensures FaithfulPayload(a, k, calls + [e])
  {
    if a.extraction != [] {
      var ps :| a.extraction == Map(ProposalToDict, ps) && WasExtracted(calls, k, a.content.value, ps);
      assert WasExtracted(calls + [e], k, a.content.value, ps);
    }
  }

  lemma RowsAfter(rows: seq<Attempt>, calls: seq<Event>, row: Attempt, e: Event)
    requires GoodRows(rows, calls) && Replaces(rows, row, calls + [e])
    ensures GoodRows(rows[|rows| - 1 := row], calls + [e])
  {
    var k := |rows| - 1;
    forall i | 0 <= i < k ensures FaithfulPayload(rows[i], i, calls + [e]) {
      MoreCalls(rows[i], i, calls, e);
    }
    forall i | 0 <= i < k ensures rows[i].checksum != row.checksum {
      assert |rows| > 1;
      assert rows[k].content.Some?;
      assert FaithfulPayload(rows[k], k, calls);
    }
  }

  lemma CallsAfter(rows: seq<Attempt>, calls: seq<Event>, row: Attempt, e: Event)
    requires StreamInvariant(rows, calls) && Replaces(rows, row, calls + [e])
    requires FaithfulCall(e, rows[|rows| - 1 := row], calls + [e])
    requires e.PublishCall? ==> e.attempt == |rows| - 1
    requires Terminal(row) <==> IsSuccess(e)
    ensures GoodCalls(rows[|rows| - 1 := row], calls + [e])
  {
    var k, next, more := |rows| - 1, rows[|rows| - 1 := row], calls + [e];
    assert !WasPublished(calls, k);
    forall i | 0 <= i < |rows| ensures Terminal(next[i]) <==> WasPublished(more, i) {
      if i != k {
        if WasPublished(calls, i) {
          var p :| 0 <= p < |calls| && IsSuccess(calls[p]) && calls[p].attempt == i;
          assert more[p] == calls[p];
        }
      } else if IsSuccess(e) {
        assert more[|calls|] == e;
      }
    }
    forall p | 0 <= p < |calls| ensures FaithfulCall(more[p], next, more) {
      assert FaithfulCall(calls[p], rows, calls);
    }
    forall p, q | 0 <= p < q < |more| && IsSuccess(more[p]) && IsSuccess(more[q]) ensures more[p].attempt != more[q].attempt {
      if q == |calls| && more[p].attempt == k {
        assert WasPublished(calls, k);
      }
    }
  }

  /** One call on the newest attempt, and the row it leaves, keep the invariant. */
  lemma CallKeeps(rows: seq<Attempt>, calls: seq<Event>, row: Attempt, e: Event)
    requires StreamInvariant(rows, calls) && Replaces(rows, row, calls + [e])
    requires FaithfulCall(e, rows[|rows| - 1 := row], calls + [e])
    requires e.PublishCall? ==> e.attempt == |rows| - 1
    requires Terminal(row) <==> IsSuccess(e)
    ensures StreamInvariant(rows[|rows| - 1 := row], calls + [e])
  {
    RowsAfter(rows, calls, row, e);
    CallsAfter(rows, calls, row, e);
  }

  /** Faithfulness is about the payload columns only. */
  lemma SamePayload(a: Attempt, b: Attempt, k: nat, calls: seq<Event>)
    requires FaithfulPayload(a, k, calls) && b.content == a.content && b.checksum == a.checksum && b.extraction == a.extraction
    ensures FaithfulPayload(b, k, calls)
  {
  }

  /** A row that keeps the payload of the newest attempt and stays unfinished, or is published by the call. */
  lemma StatusMayChange(rows: seq<Attempt>, row: Attempt, calls: seq<Event>, e: Event)
    requires GoodRows(rows, calls) && rows != [] && !Terminal(rows[|rows| - 1])
    requires var a := rows[|rows| - 1];
             row.content == a.content && row.checksum == a.checksum && row.extraction == a.extraction
    requires Terminal(row) <==> row.lastStage == Some(PUBLISH)
    requires Terminal(row) ==> row.content.Some?
    ensures Replaces(rows, row, calls + [e])
  {
    var k := |rows| - 1;
    MoreCalls(rows[k], k, calls, e);
    SamePayload(rows[k], row, k, calls + [e]);
  }

  lemma PublishIsFaithful(rows: seq<Attempt>, calls: seq<Event>, k: nat, row: Attempt, proposals: seq<Proposal>, succeeded: bool)
    requires k < |rows| && row.content.Some? && row.checksum == ChecksumOf(row.content.value)
    requires WasExtracted(calls, k, row.content.value, proposals)
    ensures var event := PublishCall(k, proposals, row.checksum, succeeded);
            FaithfulCall(event, rows[k := row], calls + [event])
  {
    var event := PublishCall(k, proposals, row.checksum, succeeded);
    assert WasExtracted(calls + [event], k, row.content.value, proposals);
  }

  lemma PublishedRowKeeps(rows: seq<Attempt>, calls: seq<Event>, row: Attempt, proposals: seq<Proposal>, succeeded: bool)
    requires StreamInvariant(rows, calls) && rows != [] && !Terminal(rows[|rows| - 1])
    requires rows[|rows| - 1].content.Some? && WasExtracted(calls, |rows| - 1, rows[|rows| - 1].content.value, proposals)
    requires var a := rows[|rows| - 1];
             row.content == a.content && row.checksum == a.checksum && row.extraction == a.extraction
    requires if succeeded then Terminal(row) && row.lastStage == Some(PUBLISH)
             else !Terminal(row) && row.lastStage == rows[|rows| - 1].lastStage
    ensures StreamInvariant(rows[|rows| - 1 := row], calls + [PublishCall(|rows| - 1, proposals, row.checksum, succeeded)])
  {
    var k := |rows| - 1;
    assert rows[k].lastStage != Some(PUBLISH) && FaithfulPayload(rows[k], k, calls);
    StatusMayChange(rows, row, calls, PublishCall(k, proposals, row.checksum, succeeded));
    PublishIsFaithful(rows, calls, k, row, proposals, succeeded);
    CallKeeps(rows, calls, row, PublishCall(k, proposals, row.checksum, succeeded));
  }

  lemma PublishKeeps(rows: seq<Attempt>, calls: seq<Event>, entered: Stage, ports: Ports)
    requires StreamInvariant(rows, calls) && rows != [] && !Terminal(rows[|rows| - 1])
    requires ProposalsFromDicts(rows[|rows| - 1].extraction).Ok? && rows[|rows| - 1].content.Some?
    requires WasExtracted(calls, |rows| - 1, rows[|rows| - 1].content.value, ProposalsFromDicts(rows[|rows| - 1].extraction).value)
    ensures var work := PublishWork(rows[|rows| - 1], |rows| - 1, entered, ports);
            StreamInvariant(rows[|rows| - 1 := work.row], calls + work.events)
  {
    var work := PublishWork(rows[|rows| - 1], |rows| - 1, entered, ports);
    PublishedRowKeeps(rows, calls, work.row, ProposalsFromDicts(rows[|rows| - 1].extraction).value, ports.publish.Some?);
  }

  lemma ExtractedPayload(a: Attempt, b: Attempt, k: nat, calls: seq<Event>, proposals: seq<Proposal>)
    requires FaithfulPayload(a, k, calls) && a.content.Some? && b.content == a.content && b.checksum == a.checksum
    requires b.extraction == Map(ProposalToDict, proposals)
    ensures FaithfulPayload(b, k, calls + [ExtractCall(k, a.content.value, Some(proposals))])
  {
    assert WasExtracted(calls + [ExtractCall(k, a.content.value, Some(proposals))], k, a.content.value, proposals);
  }

  function StoredExtraction(a: Attempt, proposals: seq<Proposal>): Attempt {
    a.(status := EXTRACTED, lastStage := Some(EXTRACT), failedStage := None, extraction := Map(ProposalToDict, proposals))
  }

  lemma ExtractedRowKeeps(rows: seq<Attempt>, calls: seq<Event>, proposals: seq<Proposal>)
    requires StreamInvariant(rows, calls) && rows != [] && !Terminal(rows[|rows| - 1]) && rows[|rows| - 1].content.Some?
    ensures var a := rows[|rows| - 1];
            StreamInvariant(rows[|rows| - 1 := StoredExtraction(a, proposals)],
                            calls + [ExtractCall(|rows| - 1, a.content.value, Some(proposals))])
  {
    var k := |rows| - 1;
    assert FaithfulPayload(rows[k], k, calls);
    ExtractedPayload(rows[k], StoredExtraction(rows[k], proposals), k, calls, proposals);
    CallKeeps(rows, calls, StoredExtraction(rows[k], proposals), ExtractCall(k, rows[k].content.value, Some(proposals)));
  }

  lemma FailedRowKeeps(rows: seq<Attempt>, calls: seq<Event>, stage: Stage, event: Event)
    requires StreamInvariant(rows, calls) && rows != [] && !Terminal(rows[|rows| - 1]) && !event.PublishCall?
    ensures StreamInvariant(rows[|rows| - 1 := AsFailed(rows[|rows| - 1], stage)], calls + [event])
  {
    var k := |rows| - 1;
    assert rows[k].lastStage != Some(PUBLISH);
    StatusMayChange(rows, AsFailed(rows[k], stage), calls, event);
    CallKeeps(rows, calls, AsFailed(rows[k], stage), event);
  }

  lemma PublishExtractedKeeps(rows: seq<Attempt>, calls: seq<Event>, proposals: seq<Proposal>, content: Bytes, entered: Stage, ports: Ports)
    requires rows != [] && StreamInvariant(rows, calls + [ExtractCall(|rows| - 1, content, Some(proposals))])
    requires !Terminal(rows[|rows| - 1]) && rows[|rows| - 1].content == Some(content)
    requires rows[|rows| - 1].extraction == Map(ProposalToDict, proposals)
    ensures ProposalsFromDicts(rows[|rows| - 1].extraction).Ok?
    ensures var work := PublishWork(rows[|rows| - 1], |rows| - 1, entered, ports);
            StreamInvariant(rows[|rows| - 1 := work.row], calls + [ExtractCall(|rows| - 1, content, Some(proposals))] + work.events)
  {
    ProposalsRoundTrip(proposals);
    var more := calls + [ExtractCall(|rows| - 1, content, Some(proposals))];
    assert more[|calls|] == ExtractCall(|rows| - 1, content, Some(proposals));
    PublishKeeps(rows, more, entered, ports);
  }

  lemma ExtractKeeps(rows: seq<Attempt>, calls: seq<Event>, entered: Stage, ports: Ports)
    requires StreamInvariant(rows, calls) && rows != [] && !Terminal(rows[|rows| - 1])
    requires rows[|rows| - 1].content.Some? && rows[|rows| - 1].extraction == []
    ensures var work := ExtractWork(rows[|rows| - 1], |rows| - 1, entered, ports);
            StreamInvariant(rows[|rows| - 1 := work.row], calls + work.events)
  {
    var k, a := |rows| - 1, rows[|rows| - 1];
    var event := ExtractCall(k, a.content.value, ports.extract);
    if ports.extract.None? {
      FailedRowKeeps(rows, calls, entered, event);
    } else {
      var stored := StoredExtraction(a, ports.extract.value);
      ExtractedRowKeeps(rows, calls, ports.extract.value);
      PublishExtractedKeeps(rows[k := stored], calls, ports.extract.value, a.content.value, entered, ports);
      StepsJoin(rows, k, stored, PublishWork(stored, k, entered, ports), calls, event);
    }
  }

  /** Two steps on one attempt are one step. */
  lemma StepsJoin(rows: seq<Attempt>, k: nat, middle: Attempt, rest: Work, calls: seq<Event>, event: Event)
    requires k < |rows|
    ensures rows[k := middle][k := rest.row] == rows[k := rest.row]
    ensures calls + [event] + rest.events == calls + ([event] + rest.events)
  {
  }

  lemma FetchedRowKeeps(rows: seq<Attempt>, calls: seq<Event>, stored: Attempt, content: Bytes)
    requires StreamInvariant(rows, calls) && rows != [] && !Terminal(rows[|rows| - 1]) && rows[|rows| - 1].content.None?
    requires stored.content == Some(content) && stored.checksum == ChecksumOf(content) && stored.extraction == []
    requires !Terminal(stored) && stored.lastStage == Some(FETCH)
    ensures StreamInvariant(rows[|rows| - 1 := stored], calls + [FetchCall(Some(content))])
  {
    assert FaithfulPayload(stored, |rows| - 1, calls + [FetchCall(Some(content))]);
    CallKeeps(rows, calls, stored, FetchCall(Some(content)));
  }

  lemma FetchKeeps(rows: seq<Attempt>, calls: seq<Event>, ports: Ports)
    requires StreamInvariant(rows, calls) && rows != [] && !Terminal(rows[|rows| - 1])
    requires rows[|rows| - 1].content.None? && rows[|rows| - 1].extraction == []
    ensures var work := FetchWork(rows[|rows| - 1], |rows| - 1, ports);
            StreamInvariant(rows[|rows| - 1 := work.row], calls + work.events)
  {
    var k := |rows| - 1;
    if ports.fetch.None? {
      FailedRowKeeps(rows, calls, FETCH, FetchCall(None));
    } else {
      var fetched := ports.fetch.value;
      var stored := AsFetched(rows[k], fetched).(checksum := ChecksumOf(fetched.0), failedStage := None);
      FetchedRowKeeps(rows, calls, stored, fetched.0);
      ExtractKeeps(rows[k := stored], calls + [FetchCall(Some(fetched.0))], FETCH, ports);
      StepsJoin(rows, k, stored, ExtractWork(stored, k, FETCH, ports), calls, FetchCall(Some(fetched.0)));
    }
  }

  lemma ResumeKeeps(rows: seq<Attempt>, calls: seq<Event>, ports: Ports)
    requires StreamInvariant(rows, calls) && rows != [] && !Terminal(rows[|rows| - 1])
    ensures Readable(rows)
    ensures var work := ResumeWork(rows[|rows| - 1], |rows| - 1, ports);
            StreamInvariant(rows[|rows| - 1 := work.row], calls + work.events)
  {
    InvariantIsReadable(rows, calls);
    var k := |rows| - 1;
    assert FaithfulPayload(rows[k], k, calls);
    if rows[k].extraction != [] {
      var ps :| rows[k].extraction == Map(ProposalToDict, ps) && WasExtracted(calls, k, rows[k].content.value, ps);
      ProposalsRoundTrip(ps);
      PublishKeeps(rows, calls, PUBLISH, ports);
    } else if rows[k].content.Some? {
      ExtractKeeps(rows, calls, EXTRACT, ports);
    } else {
      FetchKeeps(rows, calls, ports);
    }
  }

  lemma SkippingKeeps(rows: seq<Attempt>, calls: seq<Event>, i: nat)
    requires StreamInvariant(rows, calls) && i < |rows| && Terminal(rows[i])
    ensures StreamInvariant(rows[i := Skipped(rows[i])], calls)
  {
    var next := rows[i := Skipped(rows[i])];
    assert FaithfulPayload(rows[i], i, calls);
    forall p | 0 <= p < |calls| ensures FaithfulCall(calls[p], next, calls) {
      assert FaithfulCall(calls[p], rows, calls);
    }
  }

  lemma FetchCallKeeps(rows: seq<Attempt>, calls: seq<Event>, e: Event)
    requires StreamInvariant(rows, calls) && e.FetchCall?
    ensures StreamInvariant(rows, calls + [e])
  {
    var more := calls + [e];
    forall i | 0 <= i < |rows| ensures FaithfulPayload(rows[i], i, more) {
      MoreCalls(rows[i], i, calls, e);
    }
    forall i | 0 <= i < |rows| ensures Terminal(rows[i]) <==> WasPublished(more, i) {
      if WasPublished(calls, i) {
        var p :| 0 <= p < |calls| && IsSuccess(calls[p]) && calls[p].attempt == i;
        assert more[p] == calls[p];
      }
    }
    forall p | 0 <= p < |calls| ensures FaithfulCall(more[p], rows, more) {
      assert FaithfulCall(calls[p], rows, calls);
    }
  }

  lemma NewAttemptKeeps(rows: seq<Attempt>, calls: seq<Event>, row: Attempt)
    requires StreamInvariant(rows, calls) && !Terminal(row) && row.lastStage != Some(PUBLISH) && row.extraction == []
    requires forall i :: 0 <= i < |rows| ==> Terminal(rows[i]) && rows[i].checksum != row.checksum
    requires if row.content.Some? then row.checksum == ChecksumOf(row.content.value) else row.checksum == Unset && rows == []
    ensures StreamInvariant(rows + [row], calls)
  {
    var next := rows + [row];
    forall i | 0 <= i < |rows| ensures FaithfulPayload(next[i], i, calls) {
      assert FaithfulPayload(rows[i], i, calls);
    }
    forall p | 0 <= p < |calls| ensures FaithfulCall(calls[p], next, calls) {
      assert FaithfulCall(calls[p], rows, calls);
    }
    assert !WasPublished(calls, |rows|);
  }

  lemma UnchangedKeeps(rows: seq<Attempt>, calls: seq<Event>, fetched: (Bytes, Document), i: nat)
    requires StreamInvariant(rows, calls) && i < |rows| && Terminal(rows[i])
    ensures StreamInvariant(rows[i := Skipped(rows[i])], calls + [FetchCall(Some(fetched.0))])
  {
    FetchCallKeeps(rows, calls, FetchCall(Some(fetched.0)));
    SkippingKeeps(rows, calls + [FetchCall(Some(fetched.0))], i);
  }

  lemma ResumedKeeps(rows: seq<Attempt>, calls: seq<Event>, event: Event, ports: Ports, outcome: RunOutcome)
    requires rows != [] && !Terminal(rows[|rows| - 1]) && Readable(rows) && StreamInvariant(rows, calls + [event])
    requires outcome == Preceded(event, Resumed(rows, |rows| - 1, ports))
    ensures StreamInvariant(outcome.rows, calls + outcome.events)
  {
    var k := |rows| - 1;
    ResumeKeeps(rows, calls + [event], ports);
    StepsJoin(rows, k, rows[k], ResumeWork(rows[k], k, ports), calls, event);
  }

  lemma AttemptAdded(rows: seq<Attempt>, calls: seq<Event>, attempt: Attempt, content: Bytes)
    requires StreamInvariant(rows, calls) && rows != [] && Terminal(rows[|rows| - 1])
    requires forall i :: 0 <= i < |rows| ==> rows[i].checksum != ChecksumOf(content)
    requires !Terminal(attempt) && attempt.lastStage == Some(FETCH) && attempt.extraction == []
    requires attempt.content == Some(content) && attempt.checksum == ChecksumOf(content)
    ensures StreamInvariant(rows + [attempt], calls + [FetchCall(Some(content))])
  {
    FetchCallKeeps(rows, calls, FetchCall(Some(content)));
    NewAttemptKeeps(rows, calls + [FetchCall(Some(content))], attempt);
  }

  lemma FoundIsTerminal(rows: seq<Attempt>, calls: seq<Event>, checksum: Checksum)
    requires StreamInvariant(rows, calls) && rows != [] && Terminal(rows[|rows| - 1])
    ensures FindByChecksum(rows, checksum).Some? ==> Terminal(rows[FindByChecksum(rows, checksum).value])
  {
  }

  function ChangedAttempt(fetched: (Bytes, Document)): Attempt {
    AsFetched(NewAttempt(ChecksumOf(fetched.0)), fetched)
  }

  /** The three ways a successful re-fetch goes on. */
  lemma RefreshCases(rows: seq<Attempt>, calls: seq<Event>, ports: Ports)
    requires StreamInvariant(rows, calls) && rows != [] && Terminal(rows[|rows| - 1]) && Readable(rows) && ports.fetch.Some?
    ensures var fetched := ports.fetch.value;
            var found := FindByChecksum(rows, ChecksumOf(fetched.0));
            if found.Some? then
              exists i :: 0 <= i < |rows| && Terminal(rows[i])
                          && Refreshed(rows, ports) == RunOutcome(rows[i := Skipped(rows[i])], [FetchCall(Some(fetched.0))], true)
            else Refreshed(rows, ports)
                 == Preceded(FetchCall(Some(fetched.0)),
                             Resumed(rows + [ChangedAttempt(fetched)], |rows + [ChangedAttempt(fetched)]| - 1, ports))
  {
    FoundIsTerminal(rows, calls, ChecksumOf(ports.fetch.value.0));
    if rows[|rows| - 1].checksum == ChecksumOf(ports.fetch.value.0) {
      assert FindByChecksum(rows, ChecksumOf(ports.fetch.value.0)).Some?;
    }
  }

  lemma ChangedKeeps(rows: seq<Attempt>, next: seq<Attempt>, calls: seq<Event>, ports: Ports, outcome: RunOutcome)
    requires StreamInvariant(rows, calls) && rows != [] && Terminal(rows[|rows| - 1]) && ports.fetch.Some?
    requires FindByChecksum(rows, ChecksumOf(ports.fetch.value.0)).None?
    requires next == rows + [ChangedAttempt(ports.fetch.value)] && Readable(next)
    requires outcome == Preceded(FetchCall(Some(ports.fetch.value.0)), Resumed(next, |next| - 1, ports))
    ensures StreamInvariant(outcome.rows, calls + outcome.events)
  {
    var fetched := ports.fetch.value;
    AttemptAdded(rows, calls, ChangedAttempt(fetched), fetched.0);
    ResumedKeeps(next, calls, FetchCall(Some(fetched.0)), ports, outcome);
  }

  lemma RefreshKeeps(rows: seq<Attempt>, calls: seq<Event>, ports: Ports, outcome: RunOutcome)
    requires StreamInvariant(rows, calls) && rows != [] && Terminal(rows[|rows| - 1]) && Readable(rows)
    requires outcome == Refreshed(rows, ports)
    ensures StreamInvariant(outcome.rows, calls + outcome.events)
  {
    if ports.fetch.None? {
      FetchCallKeeps(rows, calls, FetchCall(None));
    } else {
      RefreshCases(rows, calls, ports);
      RefetchKeeps(rows, calls, ports, ports.fetch.value, outcome);
    }
  }

  lemma RefetchKeeps(rows: seq<Attempt>, calls: seq<Event>, ports: Ports, fetched: (Bytes, Document), outcome: RunOutcome)
    requires StreamInvariant(rows, calls) && rows != [] && Terminal(rows[|rows| - 1]) && Readable(rows)
    requires ports.fetch == Some(fetched)
    requires if FindByChecksum(rows, ChecksumOf(fetched.0)).Some? then
               exists i :: 0 <= i < |rows| && Terminal(rows[i])
                           && outcome == RunOutcome(rows[i := Skipped(rows[i])], [FetchCall(Some(fetched.0))], true)
             else outcome == Preceded(FetchCall(Some(fetched.0)),
                                      Resumed(rows + [ChangedAttempt(fetched)], |rows + [ChangedAttempt(fetched)]| - 1, ports))
    ensures StreamInvariant(outcome.rows, calls + outcome.events)
  {
    if FindByChecksum(rows, ChecksumOf(fetched.0)).Some? {
      RefoundKeeps(rows, calls, fetched, outcome);
    } else {
      ChangedKeeps(rows, rows + [ChangedAttempt(fetched)], calls, ports, outcome);
    }
  }

  lemma RefoundKeeps(rows: seq<Attempt>, calls: seq<Event>, fetched: (Bytes, Document), outcome: RunOutcome)
    requires StreamInvariant(rows, calls)
    requires exists i :: 0 <= i < |rows| && Terminal(rows[i])
                         && outcome == RunOutcome(rows[i := Skipped(rows[i])], [FetchCall(Some(fetched.0))], true)
    ensures StreamInvariant(outcome.rows, calls + outcome.events)
  {
    var i :| 0 <= i < |rows| && Terminal(rows[i])
             && outcome == RunOutcome(rows[i := Skipped(rows[i])], [FetchCall(Some(fetched.0))], true);
    UnchangedKeeps(rows, calls, fetched, i);
  }

  lemma FirstRunKeeps(calls: seq<Event>, ports: Ports)
    requires StreamInvariant([], calls)
    ensures var outcome := Resumed([NewAttempt(Unset)], 0, ports);
            StreamInvariant(outcome.rows, calls + outcome.events)
  {
    var rows := [NewAttempt(Unset)];
    NewAttemptKeeps([], calls, NewAttempt(Unset));
    assert [] + rows == rows;
    ResumeKeeps(rows, calls, ports);
  }

  /** Every run keeps the invariant. */
  lemma RunKeeps(rows: seq<Attempt>, calls: seq<Event>, ports: Ports)
    requires StreamInvariant(rows, calls)
    ensures Readable(rows)
    ensures StreamInvariant(RunOnce(rows, ports).rows, calls + RunOnce(rows, ports).events)
  {
    InvariantIsReadable(rows, calls);
    if rows == [] {
      FirstRunKeeps(calls, ports);
    } else if Terminal(rows[|rows| - 1]) {
      RefreshKeeps(rows, calls, ports, RunOnce(rows, ports));
    } else {
      ResumeKeeps(rows, calls, ports);
    }
  }

  /** The attempts and calls after a sequence of runs on an empty stream. */
  ghost function History(runs: seq<Ports>): (h: (seq<Attempt>, seq<Event>))
    ensures StreamInvariant(h.0, h.1) && Readable(h.0)
    decreases |runs|
  {
    if runs == [] then ([], [])
    else
      var before, ports := History(runs[..|runs| - 1]), runs[|runs| - 1];
      RunKeeps(before.0, before.1, ports);
      var outcome := RunOnce(before.0, ports);
      InvariantIsReadable(outcome.rows, before.1 + outcome.events);
      (outcome.rows, before.1 + outcome.events)
  }

  /** Publish at most once per document version: over any runs of a stream with any failures, attempts have distinct
      checksums, only the newest can be unfinished, and no checksum is published twice. */
  lemma PublishedAtMostOnce(rows: seq<Attempt>, calls: seq<Event>, runs: seq<Ports>)
    requires (rows, calls) == History(runs)
    ensures forall i, j :: 0 <= i < j < |rows| ==> rows[i].checksum != rows[j].checksum
    ensures forall i :: 0 <= i < |rows| - 1 ==> Terminal(rows[i])
    ensures forall p, q :: 0 <= p < q < |calls| && IsSuccess(calls[p]) && IsSuccess(calls[q]) ==> calls[p].checksum != calls[q].checksum
  {
    forall p, q | 0 <= p < q < |calls| && IsSuccess(calls[p]) && IsSuccess(calls[q]) ensures calls[p].checksum != calls[q].checksum {
      assert FaithfulCall(calls[p], rows, calls) && FaithfulCall(calls[q], rows, calls);
      assert calls[p].attempt != calls[q].attempt;
    }
  }

  /** No false SKIPPED_UNCHANGED, and consistent payloads: an attempt is marked unchanged only after it was published,
      and every publish call got the proposals extracted from stored bytes together with the checksum of those bytes. */
  lemma SkippedOnlyAfterPublished(rows: seq<Attempt>, calls: seq<Event>, runs: seq<Ports>)
    requires (rows, calls) == History(runs)
    ensures forall i :: 0 <= i < |rows| && rows[i].status == SKIPPED_UNCHANGED ==> WasPublished(calls, i)
    ensures forall p :: 0 <= p < |calls| && calls[p].PublishCall? ==>
                          exists content :: calls[p].checksum == ChecksumOf(content)
                                            && WasExtracted(calls, calls[p].attempt, content, calls[p].proposals)
  {
    forall p | 0 <= p < |calls| && calls[p].PublishCall?
      ensures exists content :: calls[p].checksum == ChecksumOf(content)
                                && WasExtracted(calls, calls[p].attempt, content, calls[p].proposals)
    {
      assert FaithfulCall(calls[p], rows, calls);
      assert calls[p].checksum == ChecksumOf(rows[calls[p].attempt].content.value);
    }
  }

  /** A later store of the stream: attempts stay, finished ones stay finished, stored bytes stay. */
  predicate Continues(before: seq<Attempt>, after: seq<Attempt>) {
    && |before| <= |after|
    && forall i :: 0 <= i < |before| ==>
         && (Terminal(before[i]) ==> Terminal(after[i]))
         && (before[i].content.Some? ==> after[i].content == before[i].content && after[i].checksum == before[i].checksum)
         && (before[i].extraction != [] ==> after[i].extraction == before[i].extraction)
  }

  predicate SameKind(a: Event, b: Event) {
    (a.FetchCall? && b.FetchCall?) || (a.ExtractCall? && b.ExtractCall?) || (a.PublishCall? && b.PublishCall?)
  }

  predicate AtMostOneEach(events: seq<Event>) {
    forall i, j :: 0 <= i < j < |events| ==> !SameKind(events[i], events[j])
  }

  /** The stage a resumed run enters at. */
  function EntryStage(a: Attempt): Stage {
    if a.extraction != [] then PUBLISH else if a.content.Some? then EXTRACT else FETCH
  }

  predicate NoFetch(events: seq<Event>) {
    forall i :: 0 <= i < |events| ==> !events[i].FetchCall?
  }

  predicate OnlyPublish(events: seq<Event>) {
    forall i :: 0 <= i < |events| ==> events[i].PublishCall?
  }

  /** The work never drops the stored bytes. */
  predicate KeepsContent(a: Attempt, row: Attempt) {
    a.content.Some? ==> row.content == a.content && row.checksum == a.checksum
  }

  predicate FailsUnder(work: Work, entered: Stage) {
    !work.ok ==> work.row.failedStage == Some(entered) && work.row.status == FAILED
  }

  lemma ExtractWorkCalls(a: Attempt, k: nat, entered: Stage, ports: Ports)
    requires a.content.Some?
    ensures var work := ExtractWork(a, k, entered, ports);
            AtMostOneEach(work.events) && NoFetch(work.events) && FailsUnder(work, entered) && KeepsContent(a, work.row)
  {
  }

  lemma FetchFirst(content: Option<Bytes>, events: seq<Event>)
    requires AtMostOneEach(events) && NoFetch(events)
    ensures AtMostOneEach([FetchCall(content)] + events)
  {
    var more := [FetchCall(content)] + events;
    forall i, j | 0 <= i < j < |more| ensures !SameKind(more[i], more[j]) {
      if i > 0 {
        assert more[i] == events[i - 1] && more[j] == events[j - 1];
      }
    }
  }

  lemma FetchWorkCalls(a: Attempt, k: nat, ports: Ports)
    requires a.extraction == []
    ensures var work := FetchWork(a, k, ports); AtMostOneEach(work.events) && FailsUnder(work, FETCH)
  {
    if ports.fetch.Some? {
      var stored := AsFetched(a, ports.fetch.value).(checksum := ChecksumOf(ports.fetch.value.0), failedStage := None);
      ExtractWorkCalls(stored, k, FETCH, ports);
      FetchFirst(Some(ports.fetch.value.0), ExtractWork(stored, k, FETCH, ports).events);
    }
  }

  /** Resuming an attempt calls no port whose result is stored, and each other port at most once; a failure is recorded
      under the stage entered at, which need not be the one that failed. */
  lemma ResumeCalls(a: Attempt, k: nat, ports: Ports)
    requires ProposalsFromDicts(a.extraction).Ok?
    ensures var work := ResumeWork(a, k, ports);
            && AtMostOneEach(work.events)
            && (a.content.Some? || a.extraction != [] ==> NoFetch(work.events))
            && (a.extraction != [] ==> OnlyPublish(work.events) && work.row.extraction == a.extraction)
            && FailsUnder(work, EntryStage(a)) && KeepsContent(a, work.row)
  {
    if a.extraction == [] && a.content.Some? {
      ExtractWorkCalls(a, k, EXTRACT, ports);
    } else if a.extraction == [] {
      FetchWorkCalls(a, k, ports);
    }
  }

  lemma RefreshCalls(rows: seq<Attempt>, calls: seq<Event>, ports: Ports, outcome: RunOutcome)
    requires StreamInvariant(rows, calls) && rows != [] && Terminal(rows[|rows| - 1]) && Readable(rows)
    requires outcome == Refreshed(rows, ports)
    ensures AtMostOneEach(outcome.events)
  {
    if ports.fetch.Some? {
      RefreshCases(rows, calls, ports);
      var fetched := ports.fetch.value;
      if FindByChecksum(rows, ChecksumOf(fetched.0)).None? {
        var work := ResumeWork(ChangedAttempt(fetched), |rows|, ports);
        ResumeCalls(ChangedAttempt(fetched), |rows|, ports);
        FetchFirst(Some(fetched.0), work.events);
        assert (rows + [ChangedAttempt(fetched)])[|rows|] == ChangedAttempt(fetched);
        assert outcome.events == [FetchCall(Some(fetched.0))] + work.events;
      }
    }
  }

  /** A run calls each port at most once. */
  lemma EachPortCalledOnce(rows: seq<Attempt>, calls: seq<Event>, ports: Ports, outcome: RunOutcome)
    requires StreamInvariant(rows, calls) && Readable(rows) && outcome == RunOnce(rows, ports)
    ensures AtMostOneEach(outcome.events)
  {
    if rows != [] && Terminal(rows[|rows| - 1]) {
      RefreshCalls(rows, calls, ports, outcome);
    } else {
      UnfinishedCalls(if rows == [] then [NewAttempt(Unset)] else rows, ports, outcome);
    }
  }

  lemma UnfinishedCalls(rows: seq<Attempt>, ports: Ports, outcome: RunOutcome)
    requires rows != [] && ProposalsFromDicts(rows[|rows| - 1].extraction).Ok?
    requires outcome == Resumed(rows, |rows| - 1, ports)
    ensures AtMostOneEach(outcome.events)
  {
    var k := |rows| - 1;
    var work := ResumeWork(rows[k], k, ports);
    assert AtMostOneEach(work.events) by {
      ResumeCalls(rows[k], k, ports);
    }
  }

  /** Resumption: an unfinished attempt with a stored extraction is only published, one with stored bytes is not fetched,
      the stored payloads stay, and a failure names the stage the run entered at. */
  lemma RunResumes(rows: seq<Attempt>, ports: Ports)
    requires rows != [] && !Terminal(rows[|rows| - 1]) && Readable(rows)
    ensures var a, outcome := rows[|rows| - 1], RunOnce(rows, ports);
            && (a.content.Some? ==> NoFetch(outcome.events))
            && (a.extraction != [] ==> OnlyPublish(outcome.events) && outcome.rows[|rows| - 1].extraction == a.extraction)
            && KeepsContent(a, outcome.rows[|rows| - 1])
            && (!outcome.ok ==> outcome.rows[|rows| - 1].failedStage == Some(EntryStage(a)))
  {
    ResumeCalls(rows[|rows| - 1], |rows| - 1, ports);
  }

  /** Terminal attempts stay terminal, and stored payloads survive every run, failed or not. */
  lemma RunContinues(rows: seq<Attempt>, calls: seq<Event>, ports: Ports)
    requires StreamInvariant(rows, calls) && Readable(rows)
    ensures Continues(rows, RunOnce(rows, ports).rows)
  {
    if rows == [] {
    } else if !Terminal(rows[|rows| - 1]) {
      ResumeCalls(rows[|rows| - 1], |rows| - 1, ports);
    } else if ports.fetch.Some? {
      RefreshCases(rows, calls, ports);
    }
  }

  lemma ResumeSucceeds(a: Attempt, k: nat, ports: Ports)
    requires ProposalsFromDicts(a.extraction).Ok?
    requires ports.fetch.Some? && ports.extract.Some? && ports.publish.Some?
    ensures ResumeWork(a, k, ports).ok && ResumeWork(a, k, ports).row.status == PUBLISHED
  {
  }

  /** When every port answers, the run succeeds and leaves the stream finished: published or unchanged. */
  lemma RunSucceeds(rows: seq<Attempt>, calls: seq<Event>, ports: Ports, outcome: RunOutcome)
    requires StreamInvariant(rows, calls) && Readable(rows) && outcome == RunOnce(rows, ports)
    requires ports.fetch.Some? && ports.extract.Some? && ports.publish.Some?
    ensures outcome.ok && outcome.rows != [] && Terminal(outcome.rows[|outcome.rows| - 1])
  {
    if rows == [] {
      ResumeSucceeds(NewAttempt(Unset), 0, ports);
    } else if !Terminal(rows[|rows| - 1]) {
      ResumeSucceeds(rows[|rows| - 1], |rows| - 1, ports);
    } else {
      RefreshCases(rows, calls, ports);
      ResumeSucceeds(ChangedAttempt(ports.fetch.value), |rows|, ports);
    }
  }
}
