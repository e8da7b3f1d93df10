/**
 * The handler (lambda.py:9-48): for each record of the event, in order, read
 * the bucket and key, then fetch, translate and store under a per-record
 * `try`; a record without a bucket or key raises outside the `try` and ends
 * the whole invocation.
 */
module Handler {
  import opened Wrappers
  import opened KeyDerivation
  import opened Request
  import opened Services
  import opened TranslateFold

  /** `record["s3"]["bucket"]["name"]` and `record["s3"]["object"]["key"]`, either possibly missing. */
  datatype Record = Record(bucket: Option<string>, key: Option<string>)

  /** The invocation event; `event["Records"]` may be missing. */
  datatype Event = Event(records: Option<seq<Record>>)

  /** Why the `try` of one record ended in its `except` (lambda.py:47-48). */
  datatype ErrorKind = GetFailed | ParseFailed | TranslateFailed(index: nat) | PutFailed

  /** What the handler logs for one record (lambda.py:45, 48). */
  datatype RecordOutcome = Saved(bucket: string, key: string) | Failed(error: ErrorKind)

  datatype RecordRun = RecordRun(outcome: RecordOutcome, effects: seq<Effect>)

  /** A batch: whether an exception escaped the handler, the outcomes logged, and every call made. */
  datatype BatchRun = BatchRun(raised: bool, outcomes: seq<RecordOutcome>, effects: seq<Effect>)

  predicate WellFormed(record: Record)
  {
    record.bucket.Some? && record.key.Some?
  }

  /** Download, decode and resolve the request (lambda.py:16-21). */
  function Fetch(bucket: string, key: string, env: Environment): Result<TranslationRequest, ErrorKind>
  {
    match env.getObject(bucket, key)
    case None => Failure(GetFailed)
    case Some(body) =>
      match env.parseRequest(body)
      case None => Failure(ParseFailed)
      case Some(raw) => Success(Resolve(raw))
  }

  /** Reference definition of the `try` body for one record (lambda.py:16-45). */
  function RunRecord(bucket: string, key: string, env: Environment): RecordRun
  {
    var get := GetObject(bucket, key);
    match Fetch(bucket, key, env)
    case Failure(error) => RecordRun(Failed(error), [get])
    case Success(request) =>
      var folded := Fold(request.texts, request.source, request.target, env.translateText);
      var calls := Calls(request.texts, request.source, request.target, CallCount(request.texts, folded));
      match folded
      case FailedAt(k) => RecordRun(Failed(TranslateFailed(k)), [get] + calls)
      case Translated(translations) =>
        var outputKey := DeriveOutputKey(key);
        var response := BuildResponse(request, translations);
        var effects := [get] + calls + [PutObject(env.responseBucket, outputKey, response)];
        if env.putObject(env.responseBucket, outputKey, response)
        then RecordRun(Saved(env.responseBucket, outputKey), effects)
        else RecordRun(Failed(PutFailed), effects)
  }

  /** What was done first, followed by a later run. */
  function Prepend(outcomes: seq<RecordOutcome>, effects: seq<Effect>, later: BatchRun): BatchRun
  {
    BatchRun(later.raised, outcomes + later.outcomes, effects + later.effects)
  }

  /** The `try` body as a function of the record's bucket and key. */
  type RecordBody = (string, string) -> RecordRun

  function Body(env: Environment): RecordBody
  {
    (bucket, key) => RunRecord(bucket, key, env)
  }

  /** Reference definition of the record loop (lambda.py:10-48), for any per-record body. */
  function RunRecords(records: seq<Record>, body: RecordBody): BatchRun
    decreases |records|
  {
    if records == [] then BatchRun(false, [], [])
    else if !WellFormed(records[0]) then BatchRun(true, [], [])
    else
      var run := body(records[0].bucket.value, records[0].key.value);
      Prepend([run.outcome], run.effects, RunRecords(records[1..], body))
  }

  function RunHandler(event: Event, env: Environment): BatchRun
  {
    match event.records
    case None => BatchRun(true, [], [])
    case Some(records) => RunRecords(records, Body(env))
  }

  /** The index of the first record without a bucket or key, or the number of records if there is none. */
  function FirstMalformed(records: seq<Record>): (m: nat)
    ensures m <= |records|
    ensures forall j :: 0 <= j < m ==> WellFormed(records[j])
    ensures m < |records| ==> !WellFormed(records[m])
    decreases |records|
  {
    if records == [] || !WellFormed(records[0]) then 0
    else 1 + FirstMalformed(records[1..])
  }

  /** The `try` body for one record, with the service calls it makes. */
  method ProcessRecord(bucket: string, key: string, env: Environment)
    returns (outcome: RecordOutcome, effects: seq<Effect>)
    ensures RecordRun(outcome, effects) == RunRecord(bucket, key, env)
  {
    effects := [GetObject(bucket, key)];
    var body := env.getObject(bucket, key);
    if body.None? {
      return Failed(GetFailed), effects;
    }
    var raw := env.parseRequest(body.value);
    if raw.None? {
      return Failed(ParseFailed), effects;
    }
    var request := Resolve(raw.value);
    var result, calls := TranslateAll(request.texts, request.source, request.target, env.translateText);
    effects := effects + calls;
    if result.FailedAt? {
      return Failed(TranslateFailed(result.index)), effects;
    }
    var outputKey := DeriveOutputKey(key);
    var response := BuildResponse(request, result.translations);
    effects := effects + [PutObject(env.responseBucket, outputKey, response)];
    if env.putObject(env.responseBucket, outputKey, response) {
      outcome := Saved(env.responseBucket, outputKey);
    } else {
      outcome := Failed(PutFailed);
    }
  }

  /** `lambda_handler`: the record loop, stopping when a record lacks its bucket or key. */
  method Handle(event: Event, env: Environment) returns (run: BatchRun)
    ensures run == RunHandler(event, env)
  {
    if event.records.None? {
      return BatchRun(true, [], []);
    }
    var records := event.records.value;
    var outcomes: seq<RecordOutcome> := [];
    var effects: seq<Effect> := [];
    var i := 0;
    while i < |records|
      invariant 0 <= i <= |records|
      invariant RunRecords(records, Body(env)) == Prepend(outcomes, effects, RunRecords(records[i..], Body(env)))
    {
      var record := records[i];
      assert records[i..][0] == record && records[i..][1..] == records[i + 1..];
      if !WellFormed(record) {
        return BatchRun(true, outcomes, effects);
      }
      var outcome, recordEffects := ProcessRecord(record.bucket.value, record.key.value, env);
      outcomes := outcomes + [outcome];
      effects := effects + recordEffects;
      i := i + 1;
    }
    assert records[i..] == [];
    run := BatchRun(false, outcomes, effects);
  }

  /**
   * A record is saved exactly when its request is fetched, every provider
   * call succeeds and the put of the assembled response succeeds.
   */
  lemma RunRecordSavedIff(bucket: string, key: string, env: Environment)
    ensures RunRecord(bucket, key, env).outcome.Saved? <==>
      && Fetch(bucket, key, env).Success?
      && var request := Fetch(bucket, key, env).value;
      && (forall i :: 0 <= i < |request.texts| ==> env.translateText(request.texts[i], request.source, request.target).Some?)
      && var translations := seq(|request.texts|, i requires 0 <= i < |request.texts| =>
           env.translateText(request.texts[i], request.source, request.target).value);
      env.putObject(env.responseBucket, DeriveOutputKey(key), BuildResponse(request, translations))
  {
    if Fetch(bucket, key, env).Success? {
      var request := Fetch(bucket, key, env).value;
      FoldSucceeds(request.texts, request.source, request.target, env.translateText);
      var folded := Fold(request.texts, request.source, request.target, env.translateText);
      if folded.Translated? {
        var translations := seq(|request.texts|, i requires 0 <= i < |request.texts| =>
          env.translateText(request.texts[i], request.source, request.target).value);
        assert folded.translations == translations;
      }
    }
  }

  /**
   * A saved record made the get, one translation per text in input order,
   * and one put to the response bucket at the derived key, whose body
   * echoes the resolved request and holds the aligned translations.
   */
  lemma RunRecordSaved(bucket: string, key: string, env: Environment)
    requires RunRecord(bucket, key, env).outcome.Saved?
    ensures Fetch(bucket, key, env).Success?
    ensures
      var run := RunRecord(bucket, key, env);
      var request := Fetch(bucket, key, env).value;
      var n := |request.texts|;
      && run.outcome == Saved(env.responseBucket, DeriveOutputKey(key))
      && |run.effects| == n + 2
      && run.effects[0] == GetObject(bucket, key)
      && (forall i :: 0 <= i < n ==> run.effects[i + 1] == TranslateText(request.texts[i], request.source, request.target))
      && run.effects[n + 1].PutObject?
      && run.effects[n + 1].bucket == env.responseBucket
      && run.effects[n + 1].key == DeriveOutputKey(key)
      && EchoedRequest(run.effects[n + 1].body) == request
      && |run.effects[n + 1].body.translatedText| == n
      && (forall i :: 0 <= i < n ==> env.translateText(request.texts[i], request.source, request.target).Some?)
      && (forall i :: 0 <= i < n ==>
            run.effects[n + 1].body.translatedText[i] == env.translateText(request.texts[i], request.source, request.target).value)
  {
    var request := Fetch(bucket, key, env).value;
    FoldSucceeds(request.texts, request.source, request.target, env.translateText);
    var run := RunRecord(bucket, key, env);
    var calls := Calls(request.texts, request.source, request.target, |request.texts|);
    assert run.effects[1..|request.texts| + 1] == calls;
  }

  /**
   * A record that failed at text k made exactly k + 1 calls in input order:
   * the k-th call is the first that failed, and nothing is written.
   */
  lemma RunRecordTranslateFailed(bucket: string, key: string, env: Environment, k: nat)
    requires RunRecord(bucket, key, env).outcome == Failed(TranslateFailed(k))
    ensures Fetch(bucket, key, env).Success?
    ensures
      var request := Fetch(bucket, key, env).value;
      var run := RunRecord(bucket, key, env);
      && k < |request.texts|
      && env.translateText(request.texts[k], request.source, request.target).None?
      && (forall j :: 0 <= j < k ==> env.translateText(request.texts[j], request.source, request.target).Some?)
      && run.effects == [GetObject(bucket, key)] + Calls(request.texts, request.source, request.target, k + 1)
      && (forall e :: e in run.effects ==> !e.PutObject?)
  {
    var request := Fetch(bucket, key, env).value;
    FoldFailsAtFirstFailure(request.texts, request.source, request.target, env.translateText, k);
  }

  /**
   * Conversely, when the provider first fails at text k, the record fails
   * at k after k + 1 calls in input order, and nothing is written.
   */
  lemma RunRecordStopsAtFirstTranslateFailure(bucket: string, key: string, env: Environment, k: nat)
    requires Fetch(bucket, key, env).Success?
    requires
      var request := Fetch(bucket, key, env).value;
      && k < |request.texts|
      && env.translateText(request.texts[k], request.source, request.target).None?
      && forall j :: 0 <= j < k ==> env.translateText(request.texts[j], request.source, request.target).Some?
    ensures
      var request := Fetch(bucket, key, env).value;
      var run := RunRecord(bucket, key, env);
      && run.outcome == Failed(TranslateFailed(k))
      && run.effects == [GetObject(bucket, key)] + Calls(request.texts, request.source, request.target, k + 1)
      && (forall e :: e in run.effects ==> !e.PutObject?)
  {
    var request := Fetch(bucket, key, env).value;
    FoldFailsAtFirstFailure(request.texts, request.source, request.target, env.translateText, k);
  }

  /**
   * Whatever happens, a record makes at most one write, as its last call,
   * to the response bucket at the derived key, and never with a partial
   * translation list.
   */
  lemma RunRecordWritesAtMostOnce(bucket: string, key: string, env: Environment)
    ensures
      var run := RunRecord(bucket, key, env);
      && run.effects != []
      && run.effects[0] == GetObject(bucket, key)
      && (forall i :: 0 <= i < |run.effects| - 1 ==> !run.effects[i].PutObject?)
      && (run.effects[|run.effects| - 1].PutObject? ==>
            var put := run.effects[|run.effects| - 1];
            && put.bucket == env.responseBucket
            && put.key == DeriveOutputKey(key)
            && |put.body.translatedText| == |put.body.originalText|)
      && (run.outcome.Saved? ==> run.effects[|run.effects| - 1].PutObject?)
  {
    if Fetch(bucket, key, env).Success? {
      var request := Fetch(bucket, key, env).value;
      FoldSucceeds(request.texts, request.source, request.target, env.translateText);
    }
  }

  /**
   * Records are run in order and each one's outcome depends on that record
   * alone; the loop stops at the first record lacking a bucket or key,
   * and raises exactly then.
   */
  lemma {:induction false} RunRecordsOutcomes(records: seq<Record>, body: RecordBody)
    ensures
      var run := RunRecords(records, body);
      var m := FirstMalformed(records);
      && (run.raised <==> m < |records|)
      && |run.outcomes| == m
      && forall j :: 0 <= j < m ==> run.outcomes[j] == body(records[j].bucket.value, records[j].key.value).outcome
    decreases |records|
  {
    if records != [] && WellFormed(records[0]) {
      RunRecordsOutcomes(records[1..], body);
      assert forall j :: 1 <= j < |records| ==> records[1..][j - 1] == records[j];
    }
  }

  /**
   * Isolation: the records after a well-formed prefix run exactly as they
   * would on their own, whatever the prefix's outcomes were.
   */
  lemma {:induction false} RunRecordsAppend(front: seq<Record>, back: seq<Record>, body: RecordBody)
    requires forall j :: 0 <= j < |front| ==> WellFormed(front[j])
    ensures RunRecords(front + back, body)
         == Prepend(RunRecords(front, body).outcomes, RunRecords(front, body).effects, RunRecords(back, body))
    decreases |front|
  {
    if front == [] {
      assert front + back == back;
    } else {
      RunRecordsAppend(front[1..], back, body);
      assert (front + back)[0] == front[0];
      assert (front + back)[1..] == front[1..] + back;
    }
  }

  /**
   * A malformed record aborts the batch: the batch makes exactly the calls
   * and logs exactly the outcomes of the well-formed records before it.
   */
  lemma RunRecordsStopsAtMalformed(records: seq<Record>, body: RecordBody)
    ensures
      var m := FirstMalformed(records);
      var run := RunRecords(records, body);
      RunRecords(records[..m], body) == BatchRun(false, run.outcomes, run.effects)
  {
    var m := FirstMalformed(records);
    RunRecordsAppend(records[..m], records[m..], body);
    assert records[..m] + records[m..] == records;
    RunRecordsOutcomes(records[..m], body);
    FirstMalformedOfWellFormed(records[..m]);
    if m < |records| {
      assert records[m..][0] == records[m];
    }
  }

  lemma {:induction false} FirstMalformedOfWellFormed(records: seq<Record>)
    requires forall j :: 0 <= j < |records| ==> WellFormed(records[j])
    ensures FirstMalformed(records) == |records|
    decreases |records|
  {
    if records != [] {
      FirstMalformedOfWellFormed(records[1..]);
    }
  }

  /** Every write of a batch goes to the response bucket, whatever bucket the request came from. */
  lemma {:induction false} RunRecordsWriteToResponseBucket(records: seq<Record>, env: Environment)
    ensures forall e :: e in RunRecords(records, Body(env)).effects && e.PutObject? ==> e.bucket == env.responseBucket
    decreases |records|
  {
    if records != [] && WellFormed(records[0]) {
      RunRecordsWriteToResponseBucket(records[1..], env);
      RunRecordWritesAtMostOnce(records[0].bucket.value, records[0].key.value, env);
    }
  }

  /** A request to French at "requests/r1.json" in bucket "in": no source code given, so it is auto-detected, and two texts. */
  lemma ExampleRecord(env: Environment, body: Bytes, requestKey: string)
    requires requestKey == "requests/r1.json"
    requires env.getObject("in", requestKey) == Some(body)
    requires env.parseRequest(body) == Some(RawRequest(None, Some("fr"), Some(["hello", "world"])))
    requires env.translateText("hello", "auto", "fr") == Some("bonjour")
    requires env.translateText("world", "auto", "fr") == Some("monde")
    requires env.putObject(env.responseBucket, "translations/r1.json",
      TranslationResponse("auto", "fr", ["hello", "world"], ["bonjour", "monde"]))
    ensures RunRecord("in", requestKey, env)
         == RecordRun(Saved(env.responseBucket, "translations/r1.json"),
              [GetObject("in", requestKey),
               TranslateText("hello", "auto", "fr"), TranslateText("world", "auto", "fr"),
               PutObject(env.responseBucket, "translations/r1.json",
                 TranslationResponse("auto", "fr", ["hello", "world"], ["bonjour", "monde"]))])
  {
    ExampleOutputKey(requestKey);
    var request := TranslationRequest("auto", "fr", ["hello", "world"]);
    assert Fetch("in", requestKey, env) == Success(request);
    assert Fold(request.texts, "auto", "fr", env.translateText) == Translated(["bonjour", "monde"]) by {
      assert request.texts[1..] == ["world"];
      assert request.texts[1..][1..] == [];
    }
    assert Calls(request.texts, "auto", "fr", 2) == [TranslateText("hello", "auto", "fr"), TranslateText("world", "auto", "fr")];
  }

  lemma ExampleOutputKey(requestKey: string)
    requires requestKey == "requests/r1.json"
    ensures DeriveOutputKey(requestKey) == "translations/r1.json"
  {
    var none, file := requestKey[..0], requestKey[9..];
    assert requestKey == none + REQUESTS_MARKER + file;
    DeriveOutputKeyAfterPrefix(none, file);
    DeriveOutputKeyWithoutQ(file);
  }

  /**
   * A two-record batch whose first object is missing: the first record
   * only logs a failure, and the second still writes its response to the
   * response bucket under "translations/r1.json".
   */
  lemma MissingObjectScenario(env: Environment, body: Bytes, missingKey: string, requestKey: string)
    requires missingKey == "requests/missing.json" && requestKey == "requests/r1.json"
    requires env.getObject("in", missingKey) == None
    requires env.getObject("in", requestKey) == Some(body)
    requires env.parseRequest(body) == Some(RawRequest(None, Some("fr"), Some(["hello", "world"])))
    requires env.translateText("hello", "auto", "fr") == Some("bonjour")
    requires env.translateText("world", "auto", "fr") == Some("monde")
    requires env.putObject(env.responseBucket, "translations/r1.json",
      TranslationResponse("auto", "fr", ["hello", "world"], ["bonjour", "monde"]))
    ensures
      var run := RunHandler(Event(Some([Record(Some("in"), Some(missingKey)), Record(Some("in"), Some(requestKey))])), env);
      && !run.raised
      && run.outcomes == [Failed(GetFailed), Saved(env.responseBucket, "translations/r1.json")]
      && run.effects == [GetObject("in", missingKey)] + RunRecord("in", requestKey, env).effects
  {
    ExampleRecord(env, body, requestKey);
    var records := [Record(Some("in"), Some(missingKey)), Record(Some("in"), Some(requestKey))];
    var first := RunRecord("in", missingKey, env);
    var second := RunRecord("in", requestKey, env);
    assert first == RecordRun(Failed(GetFailed), [GetObject("in", missingKey)]);
    assert records[1..] == [records[1]] && records[1..][1..] == [];
    assert RunRecords(records[1..], Body(env)) == Prepend([second.outcome], second.effects, BatchRun(false, [], []));
    assert RunRecords(records, Body(env)) == Prepend([first.outcome], first.effects, RunRecords(records[1..], Body(env)));
  }
}
