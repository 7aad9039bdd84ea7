/** The durable ingestion pipeline (ingestion_pipeline.py) of one stream: fetch, extract and publish, each of which may
    fail, over attempts whose payloads are stored as soon as a stage succeeds. */
module Pipeline {
  import opened Prelude
  import opened Json

  type Bytes = seq<bv8>

  /** The injective stand-in for a content hash; Unset is the empty text of a new attempt. */
  datatype Checksum = Unset | ChecksumOf(content: Bytes)

  datatype PipelineStatus = PENDING | FETCHED | EXTRACTED | PUBLISHED | SKIPPED_UNCHANGED | FAILED

  datatype Stage = FETCH | EXTRACT | PUBLISH

  datatype EvidenceRef = EvidenceRef(sourceId: string, locator: Document, excerptHash: Option<string>)

  datatype Proposal = Proposal(
    proposalType: string, payload: Document, confidence: real, evidence: seq<EvidenceRef>, adapter: string)

  // ---- stored form of proposals ----

  function EvidenceToDict(e: EvidenceRef): Json {
    Obj(map["source_id" := Str(e.sourceId), "locator" := Obj(e.locator),
            "excerpt_hash" := if e.excerptHash.Some? then Str(e.excerptHash.value) else Null])
  }

  function ProposalToDict(p: Proposal): Json {
    Obj(map["proposal_type" := Str(p.proposalType), "payload" := Obj(p.payload), "confidence" := Num(p.confidence),
            "evidence" := Arr(Map(EvidenceToDict, p.evidence)), "adapter" := Str(p.adapter)])
  }

  function TextOr(fields: Document, key: string, default: string): Result<string> {
    if key !in fields then Ok(default) else if fields[key].Str? then Ok(fields[key].s) else Err(Stuck)
  }

  function ObjectOr(fields: Document, key: string): Result<Document> {
    if key !in fields then Ok(map[]) else if fields[key].Obj? then Ok(fields[key].fields) else Err(Stuck)
  }

  function EvidenceFromDict(fields: Document): Result<EvidenceRef> {
    var sourceId :- TextOr(fields, "source_id", "");
    var locator :- ObjectOr(fields, "locator");
    var hash := Get(fields, "excerpt_hash");
    if hash == Null then Ok(EvidenceRef(sourceId, locator, None))
    else if hash.Str? then Ok(EvidenceRef(sourceId, locator, Some(hash.s)))
    else Err(Stuck)
  }

  /** Items that are not objects are skipped. */
  function EvidenceItems(items: seq<Json>): Result<seq<EvidenceRef>> {
    if items == [] then Ok([])
    else if !items[0].Obj? then EvidenceItems(items[1..])
    else
      var first :- EvidenceFromDict(items[0].fields);
      var rest :- EvidenceItems(items[1..]);
      Ok([first] + rest)
  }

  function ProposalFromDict(stored: Json): Result<Proposal> {
    if !stored.Obj? then Err(Stuck)
    else
      var fields := stored.fields;
      var items := if "evidence" in fields then fields["evidence"] else Arr([]);
      var evidence :- if items.Arr? then EvidenceItems(items.items) else Err(Stuck);
      var proposalType :- TextOr(fields, "proposal_type", "OBSERVATION_CANDIDATE");
      var payload :- ObjectOr(fields, "payload");
      var confidence :- if "confidence" !in fields then Ok(0.0)
                        else if AsNumber(fields["confidence"]).Some? then Ok(AsNumber(fields["confidence"]).value)
                        else Err(Stuck);
      var adapter :- TextOr(fields, "adapter", "unknown");
      Ok(Proposal(proposalType, payload, confidence, evidence, adapter))
  }

  function ProposalsFromDicts(stored: seq<Json>): (r: Result<seq<Proposal>>)
  {
    if stored == [] then Ok([])
    else
      var first :- ProposalFromDict(stored[0]);
      var rest :- ProposalsFromDicts(stored[1..]);
      Ok([first] + rest)
  }

  lemma {:induction false} EvidenceRoundTrip(evidence: seq<EvidenceRef>)
    ensures EvidenceItems(Map(EvidenceToDict, evidence)) == Ok(evidence)
  {
    if evidence != [] {
      EvidenceRoundTrip(evidence[1..]);
      OneEvidenceRoundTrip(evidence[0]);
      assert Map(EvidenceToDict, evidence)[1..] == Map(EvidenceToDict, evidence[1..]);
      assert evidence == [evidence[0]] + evidence[1..];
    }
  }

  lemma OneEvidenceRoundTrip(e: EvidenceRef)
    ensures EvidenceFromDict(EvidenceToDict(e).fields) == Ok(e)
  {
    var fields := EvidenceToDict(e).fields;
    assert TextOr(fields, "source_id", "") == Ok(e.sourceId) && ObjectOr(fields, "locator") == Ok(e.locator);
  }

  lemma ProposalRoundTrip(p: Proposal)
    ensures ProposalFromDict(ProposalToDict(p)) == Ok(p)
  {
    EvidenceRoundTrip(p.evidence);
    var fields := ProposalToDict(p).fields;
    assert fields["evidence"].items == Map(EvidenceToDict, p.evidence);
    assert TextOr(fields, "proposal_type", "OBSERVATION_CANDIDATE") == Ok(p.proposalType);
    assert ObjectOr(fields, "payload") == Ok(p.payload);
    assert TextOr(fields, "adapter", "unknown") == Ok(p.adapter);
  }

  /** What is stored reads back as what was extracted. */
  lemma {:induction false} ProposalsRoundTrip(proposals: seq<Proposal>)
    ensures ProposalsFromDicts(Map(ProposalToDict, proposals)) == Ok(proposals)
  {
    if proposals != [] {
      ProposalRoundTrip(proposals[0]);
      ProposalsRoundTrip(proposals[1..]);
      assert Map(ProposalToDict, proposals)[1..] == Map(ProposalToDict, proposals[1..]);
      FirstProposalReads(Map(ProposalToDict, proposals), proposals[0], proposals[1..]);
      assert proposals == [proposals[0]] + proposals[1..];
    }
  }

  lemma FirstProposalReads(stored: seq<Json>, first: Proposal, rest: seq<Proposal>)
    requires stored != [] && ProposalFromDict(stored[0]) == Ok(first) && ProposalsFromDicts(stored[1..]) == Ok(rest)
    ensures ProposalsFromDicts(stored) == Ok([first] + rest)
  {
  }

  // ---- one run as a function of the stored attempts ----

  datatype Attempt = Attempt(
    checksum: Checksum, status: PipelineStatus, lastStage: Option<Stage>, failedStage: Option<Stage>,
    content: Option<Bytes>, metadata: Document, extraction: seq<Json>, result: Document)

  /** What the ports answer in one run; None is a failure. */
  datatype Ports = Ports(fetch: Option<(Bytes, Document)>, extract: Option<seq<Proposal>>, publish: Option<Document>)

  /** The calls a run makes to its ports. */
  datatype Event =
    | FetchCall(fetched: Option<Bytes>)
    | ExtractCall(attempt: nat, content: Bytes, extracted: Option<seq<Proposal>>)
    | PublishCall(attempt: nat, proposals: seq<Proposal>, checksum: Checksum, succeeded: bool)

  predicate Terminal(a: Attempt) {
    a.status == PUBLISHED || a.status == SKIPPED_UNCHANGED
  }

  function NewAttempt(checksum: Checksum): Attempt {
    Attempt(checksum, PENDING, None, None, None, map[], [], map[])
  }

  function WithContent(a: Attempt, fetched: (Bytes, Document)): Attempt {
    a.(content := Some(fetched.0), metadata := fetched.1)
  }

  function AsFetched(a: Attempt, fetched: (Bytes, Document)): Attempt {
    WithContent(a, fetched).(status := FETCHED, lastStage := Some(FETCH))
  }

  function AsFailed(a: Attempt, stage: Stage): Attempt {
    a.(status := FAILED, failedStage := Some(stage))
  }

  datatype Work = Work(row: Attempt, events: seq<Event>, ok: bool)

  /** Publishing the stored extraction; a failure is recorded under the stage the run entered at. */
  function PublishWork(a: Attempt, k: nat, entered: Stage, ports: Ports): Work
    requires ProposalsFromDicts(a.extraction).Ok?
  {
    var event := PublishCall(k, ProposalsFromDicts(a.extraction).value, a.checksum, ports.publish.Some?);
    if ports.publish.None? then Work(AsFailed(a, entered), [event], false)
    else Work(a.(status := PUBLISHED, lastStage := Some(PUBLISH), failedStage := None, result := ports.publish.value), [event], true)
  }

  function ExtractWork(a: Attempt, k: nat, entered: Stage, ports: Ports): Work
    requires a.content.Some?
  {
    var event := ExtractCall(k, a.content.value, ports.extract);
    if ports.extract.None? then Work(AsFailed(a, entered), [event], false)
    else
      var stored := a.(status := EXTRACTED, lastStage := Some(EXTRACT), failedStage := None,
                       extraction := Map(ProposalToDict, ports.extract.value));
      ProposalsRoundTrip(ports.extract.value);
      var rest := PublishWork(stored, k, entered, ports);
      Work(rest.row, [event] + rest.events, rest.ok)
  }

  function FetchWork(a: Attempt, k: nat, ports: Ports): Work
    requires a.extraction == []
  {
    if ports.fetch.None? then Work(AsFailed(a, FETCH), [FetchCall(None)], false)
    else
      var fetched := ports.fetch.value;
      var stored := AsFetched(a, fetched).(checksum := ChecksumOf(fetched.0), failedStage := None);
      var rest := ExtractWork(stored, k, FETCH, ports);
      Work(rest.row, [FetchCall(Some(fetched.0))] + rest.events, rest.ok)
  }

  /** Resumes an attempt at the first stage whose payload is missing. */
  function ResumeWork(a: Attempt, k: nat, ports: Ports): Work
    requires ProposalsFromDicts(a.extraction).Ok?
  {
    if a.extraction != [] then PublishWork(a, k, PUBLISH, ports)
    else if a.content.Some? then ExtractWork(a, k, EXTRACT, ports)
    else FetchWork(a, k, ports)
  }

  function FindByChecksum(rows: seq<Attempt>, checksum: Checksum): (r: Option<nat>)
    ensures r.Some? ==> r.value < |rows| && rows[r.value].checksum == checksum
    ensures r.None? ==> forall i :: 0 <= i < |rows| ==> rows[i].checksum != checksum
  {
    if rows == [] then None
    else if rows[0].checksum == checksum then Some(0)
    else
      match FindByChecksum(rows[1..], checksum)
      case Some(i) => Some(i + 1)
      case None => None
  }

  datatype RunOutcome = RunOutcome(rows: seq<Attempt>, events: seq<Event>, ok: bool)

  function Resumed(rows: seq<Attempt>, k: nat, ports: Ports): RunOutcome
    requires k < |rows| && ProposalsFromDicts(rows[k].extraction).Ok?
  {
    var work := ResumeWork(rows[k], k, ports);
    RunOutcome(rows[k := work.row], work.events, work.ok)
  }

  function Preceded(event: Event, outcome: RunOutcome): RunOutcome {
    outcome.(events := [event] + outcome.events)
  }

  function Skipped(a: Attempt): Attempt {
    a.(status := SKIPPED_UNCHANGED)
  }

  predicate Readable(rows: seq<Attempt>) {
    forall i :: 0 <= i < |rows| ==> ProposalsFromDicts(rows[i].extraction).Ok?
  }

  /** Re-fetches the source of a stream whose newest attempt is terminal. */
  function Refreshed(rows: seq<Attempt>, ports: Ports): RunOutcome
    requires rows != [] && Readable(rows)
  {
    if ports.fetch.None? then RunOutcome(rows, [FetchCall(None)], false)
    else
      var fetched := ports.fetch.value;
      var checksum, last := ChecksumOf(fetched.0), |rows| - 1;
      var event := FetchCall(Some(fetched.0));
      if checksum == rows[last].checksum then RunOutcome(rows[last := Skipped(rows[last])], [event], true)
      else
        match FindByChecksum(rows, checksum)
        case Some(i) =>
          if Terminal(rows[i]) then RunOutcome(rows[i := Skipped(rows[i])], [event], true)
          else Preceded(event, Resumed(rows[i := WithContent(rows[i], fetched)], i, ports))
        case None => Preceded(event, Resumed(rows + [AsFetched(NewAttempt(checksum), fetched)], |rows|, ports))
  }

  /** One run of the pipeline. */
  function RunOnce(rows: seq<Attempt>, ports: Ports): RunOutcome
    requires Readable(rows)
  {
    if rows == [] then Resumed([NewAttempt(Unset)], 0, ports)
    else if Terminal(rows[|rows| - 1]) then Refreshed(rows, ports)
    else Resumed(rows, |rows| - 1, ports)
  }

  predicate IsOutcome(outcome: RunOutcome, before: seq<Event>, rows: seq<Attempt>, calls: seq<Event>, ok: bool) {
    rows == outcome.rows && calls == before + outcome.events && ok == outcome.ok
  }

  /** A fetch followed by the work on an attempt is the outcome the specification gives. */
  lemma ContinuedAfterFetch(start: seq<Attempt>, before: seq<Event>, event: Event, k: nat, ports: Ports,
                            rows: seq<Attempt>, calls: seq<Event>, ok: bool)
    requires k < |start| && ProposalsFromDicts(start[k].extraction).Ok?
    requires var work := ResumeWork(start[k], k, ports);
             rows == start[k := work.row] && calls == before + [event] + work.events && ok == work.ok
    ensures IsOutcome(Preceded(event, Resumed(start, k, ports)), before, rows, calls, ok)
  {
  }

  // ---- the service ----

  class IngestionPipeline {
    var rows: seq<Attempt>
    ghost var calls: seq<Event>

    constructor ()
      ensures rows == [] && calls == []
    {
      rows, calls := [], [];
    }

    /** One run; false stands for the exception that leaves the method. */
    method Run(ports: Ports) returns (ok: bool)
      requires Readable(rows)
      modifies this
      ensures IsOutcome(RunOnce(old(rows), ports), old(calls), rows, calls, ok)
    {
      if rows != [] && Terminal(rows[|rows| - 1]) {
        ok := RefreshPublished(ports);
        return;
      }
      if rows == [] {
        rows := [NewAttempt(Unset)];
      }
      ok := Continue(|rows| - 1, ports);
    }

    method RefreshPublished(ports: Ports) returns (ok: bool)
      requires rows != [] && Readable(rows)
      modifies this
      ensures IsOutcome(Refreshed(old(rows), ports), old(calls), rows, calls, ok)
    {
      ghost var before := calls;
      if ports.fetch.None? {
        calls := calls + [FetchCall(None)];
        return false;
      }
      var fetched := ports.fetch.value;
      var checksum, last := ChecksumOf(fetched.0), |rows| - 1;
      calls := calls + [FetchCall(Some(fetched.0))];
      if checksum == rows[last].checksum {
        rows := rows[last := rows[last].(status := SKIPPED_UNCHANGED)];
        return true;
      }
      var existing := FindByChecksum(rows, checksum);
      if existing.Some? && !Terminal(rows[existing.value]) {
        rows := rows[existing.value := WithContent(rows[existing.value], fetched)];
        ghost var start := rows;
        ok := Continue(existing.value, ports);
        ContinuedAfterFetch(start, before, FetchCall(Some(fetched.0)), existing.value, ports, rows, calls, ok);
        return;
      }
      if existing.Some? {
        rows := rows[existing.value := rows[existing.value].(status := SKIPPED_UNCHANGED)];
        return true;
      }
      rows := rows + [NewAttempt(checksum)];
      var k := |rows| - 1;
      rows := rows[k := rows[k].(content := Some(fetched.0), metadata := fetched.1, status := FETCHED, lastStage := Some(FETCH))];
      ghost var start := rows;
      ok := Continue(k, ports);
      ContinuedAfterFetch(start, before, FetchCall(Some(fetched.0)), k, ports, rows, calls, ok);
    }

    method Continue(k: nat, ports: Ports) returns (ok: bool)
      requires k < |rows| && ProposalsFromDicts(rows[k].extraction).Ok?
      modifies this
      ensures Did(old(rows), old(calls), k, ResumeWork(old(rows[k]), k, ports), ok)
      decreases rows[k].content.None?, 3
    {
      if rows[k].extraction != [] {
        ok := Publish(k, ports);
      } else if rows[k].content.Some? {
        ok := Extract(k, ports);
      } else {
        ok := Fetch(k, ports);
      }
    }

    method Fetch(k: nat, ports: Ports) returns (ok: bool)
      requires k < |rows| && rows[k].extraction == [] && rows[k].content.None?
      modifies this
      ensures Did(old(rows), old(calls), k, FetchWork(old(rows[k]), k, ports), ok)
      decreases rows[k].content.None?, 1
    {
      if ports.fetch.None? {
        calls := calls + [FetchCall(None)];
        MarkFailed(k, FETCH);
        return false;
      }
      var fetched := ports.fetch.value;
      calls := calls + [FetchCall(Some(fetched.0))];
      rows := rows[k := rows[k].(content := Some(fetched.0), metadata := fetched.1, status := FETCHED, lastStage := Some(FETCH),
                                 checksum := ChecksumOf(fetched.0), failedStage := None)];
      ok := Continue(k, ports);
      if !ok {
        MarkFailed(k, FETCH);
      }
    }

    method Extract(k: nat, ports: Ports) returns (ok: bool)
      requires k < |rows| && rows[k].extraction == []
      modifies this
      ensures Did(old(rows), old(calls), k,
                  if old(rows[k]).content.Some? then ExtractWork(old(rows[k]), k, EXTRACT, ports)
                  else FetchWork(old(rows[k]), k, ports), ok)
      decreases rows[k].content.None?, 2
    {
      if rows[k].content.None? {
        ok := Fetch(k, ports);
        return;
      }
      calls := calls + [ExtractCall(k, rows[k].content.value, ports.extract)];
      if ports.extract.None? {
        MarkFailed(k, EXTRACT);
        return false;
      }
      rows := rows[k := rows[k].(status := EXTRACTED, lastStage := Some(EXTRACT), failedStage := None,
                                 extraction := Map(ProposalToDict, ports.extract.value))];
      ProposalsRoundTrip(ports.extract.value);
      ok := Publish(k, ports);
      if !ok {
        MarkFailed(k, EXTRACT);
      }
    }

    method Publish(k: nat, ports: Ports) returns (ok: bool)
      requires k < |rows| && ProposalsFromDicts(rows[k].extraction).Ok?
      modifies this
      ensures Did(old(rows), old(calls), k, PublishWork(old(rows[k]), k, PUBLISH, ports), ok)
      decreases rows[k].content.None?, 0
    {
      var proposals := ProposalsFromDicts(rows[k].extraction).value;
      calls := calls + [PublishCall(k, proposals, rows[k].checksum, ports.publish.Some?)];
      if ports.publish.None? {
        MarkFailed(k, PUBLISH);
        return false;
      }
      rows := rows[k := rows[k].(status := PUBLISHED, lastStage := Some(PUBLISH), failedStage := None,
                                 result := ports.publish.value)];
      return true;
    }

    /** Records the failure; every stored payload stays. */
    method MarkFailed(k: nat, stage: Stage)
      requires k < |rows|
      modifies this`rows
      ensures rows == old(rows)[k := AsFailed(old(rows[k]), stage)]
    {
      rows := rows[k := rows[k].(status := FAILED, failedStage := Some(stage))];
    }

    /** The work on attempt k was done: its row and the calls, and nothing else. */
    ghost predicate Did(rowsBefore: seq<Attempt>, callsBefore: seq<Event>, k: nat, work: Work, ok: bool)
      requires k < |rowsBefore|
      reads this
    {
      rows == rowsBefore[k := work.row] && calls == callsBefore + work.events && ok == work.ok
    }
  }
}
