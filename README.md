# Translation relay handler, modelled in Dafny

This project models `lambda_handler` in `lambda.py`. The handler is an AWS Lambda function. It runs when JSON request files land in an S3 bucket. For each storage notification it does the following:

- it downloads the request and applies defaults to the missing fields;
- it sends each text to Amazon Translate, in order;
- it writes the collected result to the response bucket, at a key derived from the request key.

Storage, the JSON decoder and the translation provider become abstract, possibly failing functions. They are fields of `Services.Environment`, which also holds `RESPONSE_BUCKET`. Every call the handler makes to storage and to the provider is recorded, in order, as an `Effect`. Calls to the decoder are not recorded, because they have no effect outside the handler.

Modules:

- `Wrappers` (`wrappers.dfy`) holds `Option` and `Result`.
- `KeyDerivation` (`key_derivation.dfy`) models the output key at line 31. `ReplaceAll` is Python's `str.replace` with no count: it scans left to right and replaces every non-overlapping occurrence.
- `Request` (`request.dfy`) holds the parsed request with optional fields, the default resolution (lines 19-21) and the response object (lines 32-37).
- `Services` (`services.dfy`) holds the collaborators and the effect trace.
- `TranslateFold` (`translate_fold.dfy`) models the translation loop (lines 23-28). `Fold` is its reference definition, and the method `TranslateAll` is the loop itself.
- `Handler` (`handler.dfy`) models the `try` body for one record, both as the function `RunRecord` and as the method `ProcessRecord`. It also models the record loop, both as the function `RunRecords`/`RunHandler` and as the method `Handle`. `RunRecords` takes the per-record body as a parameter (`Body(env)` in the handler), so the facts about the loop hold for any body.

In the record loop, a record that lacks its bucket or key raises outside the `try` (lines 11-12). That ends the whole invocation: `BatchRun.raised`.

Every method is proved equal to its reference function. The properties are lemmas about those functions.

The key rule, as the code has it: Python's `replace` without a count replaces every occurrence of `requests/`, not only the first one. The model follows the code. `DeriveOutputKeyReplacesEvery` states this case.

## Model

| member | source | states |
|---|---|---|
| `KeyDerivation.ReplaceAllWithoutOccurrence` | lambda.py:31 | a string that does not contain the pattern is returned unchanged |
| `KeyDerivation.ReplaceAllAtFirstOccurrence` | lambda.py:31 | replace-all keeps everything before the first occurrence, substitutes it, and continues after it |
| `KeyDerivation.ReplaceAllLength` | lambda.py:31 | with a longer replacement the output is never shorter, and it is strictly longer when the pattern occurs |
| `KeyDerivation.ReplaceAllUnchangedIff` | lambda.py:31 | replace-all leaves a string unchanged exactly when the pattern does not occur in it |
| `KeyDerivation.ReplaceAllRemovesPattern` | lambda.py:31 | when the pattern and the replacement cannot overlap, the output never contains the pattern |
| `KeyDerivation.MarkersSeparated` | lambda.py:31 | "requests/" and "translations/" cannot overlap in either direction |
| `KeyDerivation.DerivedKeyLacksMarker` | lambda.py:31 | a derived key never contains "requests/" |
| `KeyDerivation.DeriveOutputKeyIdempotent` | lambda.py:31 | deriving twice gives the same key as deriving once |
| `KeyDerivation.DeriveOutputKeyUnchangedIff` | lambda.py:31 | the output key equals the request key exactly when the request key has no "requests/" |
| `KeyDerivation.DeriveOutputKeyAfterPrefix` | lambda.py:31 | the first "requests/" after an r-free prefix becomes "translations/", and derivation continues behind it |
| `KeyDerivation.DeriveOutputKeyReplacesEvery` | lambda.py:31 | a repeated "requests/requests/" becomes "translations/translations/": every occurrence is replaced |
| `KeyDerivation.DeriveOutputKeyExample` | lambda.py:31 | "foo/" + "requests/" + "bar.json" becomes "foo/translations/bar.json" |
| `KeyDerivation.DeriveOutputKeySingleMarker` | lambda.py:31 | the one "requests/" between a prefix without "r" and a rest without "q" is replaced and nothing else changes |
| `KeyDerivation.DeriveOutputKeyOutsideRequests` | lambda.py:31 | "other/path.json" is kept as it is |
| `Request.Resolve` | lambda.py:19-21 | a missing source becomes "auto", a missing target "de", missing texts the empty list; present fields are used as given |
| `Request.ResolveExplicit` | lambda.py:19-21 | a request with every field present resolves to itself |
| `Request.ResolveEmpty` | lambda.py:19-21 | an empty request object resolves to ("auto", "de", []) |
| `Request.BuildResponse` | lambda.py:32-37 | the response echoes the resolved codes and the original texts unchanged, and carries the translations |
| `TranslateFold.Fold` | lambda.py:23-28 | a completed loop has one result per text; a failure index lies within the texts |
| `TranslateFold.FoldSucceeds` | lambda.py:23-28 | the loop completes exactly when every provider call succeeds; then the i-th result is the provider's answer for the i-th text |
| `TranslateFold.FoldFailsAtFirstFailure` | lambda.py:24-28 | the loop fails at k exactly when call k is the first failing call |
| `TranslateFold.Calls` | lambda.py:24-27 | the first n provider calls, one per text, in input order, with the resolved source and target |
| `TranslateFold.TranslateAll` | lambda.py:23-28 | the loop returns the fold's result; it calls the provider once per text in order, and stops right after the first failure |
| `Handler.FirstMalformed` | lambda.py:10-12 | the index of the first record without a bucket or key; every earlier record has both |
| `Handler.ProcessRecord` | lambda.py:16-45 | one record's get, parse, translation and put, with outcome and calls equal to `RunRecord` |
| `Handler.Handle` | lambda.py:9-48 | the handler's outcomes, calls and escaping exception equal `RunHandler` |
| `Handler.RunRecordSavedIff` | lambda.py:16-45 | a record is saved exactly when its request is fetched and parsed, every translation succeeds, and the put of the assembled response succeeds |
| `Handler.RunRecordSaved` | lambda.py:16-43 | a saved record made the get, then one call per text in order, then one put to the response bucket at the derived key; the put's body echoes the request and holds the aligned translations |
| `Handler.RunRecordTranslateFailed` | lambda.py:23-43 | a record whose outcome is a translation failure at text k made exactly the get and k + 1 calls; call k was the first to fail; nothing is written |
| `Handler.RunRecordStopsAtFirstTranslateFailure` | lambda.py:23-43 | conversely, when call k is the provider's first failure, the record fails at k after exactly the get and k + 1 calls, and nothing is written |
| `Handler.RunRecordWritesAtMostOnce` | lambda.py:39-43 | a record writes at most once, as its last call, to the response bucket at the derived key, and never with a partial translation list |
| `Handler.RunRecordsOutcomes` | lambda.py:10-48 | records are run in order; each outcome depends on its own record only; the loop raises exactly when some record lacks a bucket or key, and it stops there |
| `Handler.RunRecordsAppend` | lambda.py:14-48 | records after a well-formed prefix run exactly as they would on their own, whatever the earlier records' outcomes |
| `Handler.RunRecordsStopsAtMalformed` | lambda.py:10-14 | an aborted batch makes exactly the calls and outcomes of the well-formed records before the malformed one |
| `Handler.FirstMalformedOfWellFormed` | lambda.py:10-12 | a batch of well-formed records has no malformed index before its end |
| `Handler.RunRecordsWriteToResponseBucket` | lambda.py:39-41 | every write of a batch goes to the response bucket, whatever bucket the request came from |
| `Handler.ExampleOutputKey` | lambda.py:31 | "requests/r1.json" becomes "translations/r1.json" |
| `Handler.ExampleRecord` | lambda.py:16-43 | {"TargetLanguageCode": "fr", "TextList": ["hello", "world"]} yields ("auto", "fr", ["hello", "world"], ["bonjour", "monde"]) under "translations/r1.json" |
| `Handler.MissingObjectScenario` | lambda.py:10-48 | in a batch whose first object is missing, the first record only logs a failure and the second is still saved |

## Left out

- The boto3 clients and their network calls (lambda.py:5-6, 16, 25-27, 39-43) are abstract functions of `Environment`. A failed call, an exception, is `None`, or `false` for a put. Retries, timeouts and throttling belong to the platform.
- `os.environ["RESPONSE_BUCKET"]` (lambda.py:7) is the `responseBucket` field. The `KeyError` raised at import when it is absent is not modelled.
- JSON decoding, `json.dumps(..., ensure_ascii=False)` and UTF-8 encoding (lambda.py:17, 42) are not modelled. A decode failure, or a top level that is not an object, is `parseRequest` returning `None`. The put receives the response as a value, not as bytes.
- A code that holds a lone surrogate (JSON `"\ud800"`) is not modelled, because a Dafny `string` holds only Unicode scalar values. In Python the UTF-8 encoding at lambda.py:42 raises for such a code, so with an empty `TextList` that record fails without a put.
- Python's dynamic typing is not modelled. A field that is present but null or of another type would flow into the provider call in Python. A `TextList` that is a string or an object would be iterated over characters or keys. The model takes `TextList` to be a list of strings and a present code to be a string.
- Storage is a fixed function of (bucket, key). A later record of the same batch that reads an object written by an earlier record is not modelled.
- The log lines (lambda.py:45, 48) are the `RecordOutcome` values, not strings. A failure of `print` itself is not modelled.
- `event["Records"]` missing is modelled as `raised`. A `Records` value that is not a list is not modelled.
- The stray expression `request.json` at lambda.py:50 is not modelled. It is not part of the handler's logic.
