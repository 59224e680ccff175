/** Uploading one file, and the bounded retry around it. The `/files/upload`
    call is an oracle `transport`: given the local file path, the remote
    target directory and the attempt number (1, 2, ...), it says what the
    server answered to that attempt. */
module Upload {
  import opened Wrappers

  /** The server's answer to one upload request: a response whose
      `data.data` may be absent, or a transport or status error. A present
      payload is its serialised text; the empty text is JavaScript-falsy. */
  datatype Response = Responded(data: Option<string>) | Failed(message: string)

  /** The value an upload returns: the response payload, or the fixed
      marker `{ message: "Upload success" }` when the server sent none. */
  datatype Payload = Data(body: string) | Marker(message: string)

  type Transport = (string, string, nat) -> Response

  const UploadFailed := "Upload file failed: "
  const SuccessMarker := Marker("Upload success")
  const DefaultRetryCount: nat := 3
  const DefaultRetryDelay: nat := 1000

  /** `uploadSingleFile(filePath, targetDir)` against one server answer. */
  function UploadSingleFile(filePath: string, targetDir: string, response: Response): (r: Result<Payload>)
    ensures r.Err? <==> response.Failed?
    ensures response.Failed? ==> r.error == UploadFailed + filePath + " - " + response.message
    ensures response.Responded? && (response.data.None? || response.data.value == "") ==> r.value == SuccessMarker
    ensures response.Responded? && response.data.Some? && response.data.value != "" ==> r.value == Data(response.data.value)
  {
    match response
    case Failed(message) => Err(UploadFailed + filePath + " - " + message)
    case Responded(data) =>
      match data
      case Some(body) => if body == "" then Ok(SuccessMarker) else Ok(Data(body))
      case None => Ok(SuccessMarker)
  }

  /** The outcome of attempt number `attempt`. */
  function AttemptResult(transport: Transport, filePath: string, targetDir: string, attempt: nat): Result<Payload>
  {
    UploadSingleFile(filePath, targetDir, transport(filePath, targetDir, attempt))
  }

  /** The first attempt in `from..retryCount` that succeeds, if any. */
  function FirstSuccessFrom(transport: Transport, filePath: string, targetDir: string, from: nat, retryCount: nat): (r: Option<nat>)
    ensures r.Some? ==> from <= r.value <= retryCount && AttemptResult(transport, filePath, targetDir, r.value).Ok?
    ensures r.Some? ==> forall j :: from <= j < r.value ==> AttemptResult(transport, filePath, targetDir, j).Err?
    ensures r.None? <==> forall j :: from <= j <= retryCount ==> AttemptResult(transport, filePath, targetDir, j).Err?
    decreases retryCount + 1 - from
  {
    if from > retryCount then None
    else if AttemptResult(transport, filePath, targetDir, from).Ok? then Some(from)
    else FirstSuccessFrom(transport, filePath, targetDir, from + 1, retryCount)
  }

  /** How many attempts the retry makes: up to and including the first
      success, or all `retryCount` of them. */
  function AttemptsMade(transport: Transport, filePath: string, targetDir: string, retryCount: nat): (n: nat)
    requires retryCount >= 1
    ensures 1 <= n <= retryCount
  {
    match FirstSuccessFrom(transport, filePath, targetDir, 1, retryCount)
    case Some(k) => k
    case None => retryCount
  }

  /** What `uploadSingleFileWithRetry` returns or throws: the outcome of the
      last attempt it makes, unchanged. */
  function RetryResult(transport: Transport, filePath: string, targetDir: string, retryCount: nat): Result<Payload>
    requires retryCount >= 1
  {
    AttemptResult(transport, filePath, targetDir, AttemptsMade(transport, filePath, targetDir, retryCount))
  }

  /** The observable steps of a retry: each upload attempt, and each wait. */
  datatype Event = Attempt(n: nat) | Delay(ms: nat)

  /** `attempts` numbered attempts with one wait of `delay` between
      consecutive attempts and none after the last. */
  function Schedule(attempts: nat, delay: nat): seq<Event>
  {
    if attempts == 0 then []
    else if attempts == 1 then [Attempt(1)]
    else Schedule(attempts - 1, delay) + [Delay(delay), Attempt(attempts)]
  }

  function CountAttempts(trace: seq<Event>): nat
  {
    if trace == [] then 0 else (if trace[0].Attempt? then 1 else 0) + CountAttempts(trace[1..])
  }

  function CountDelays(trace: seq<Event>): nat
  {
    if trace == [] then 0 else (if trace[0].Delay? then 1 else 0) + CountDelays(trace[1..])
  }

  lemma {:induction false} CountsAppend(a: seq<Event>, b: seq<Event>)
    ensures CountAttempts(a + b) == CountAttempts(a) + CountAttempts(b)
    ensures CountDelays(a + b) == CountDelays(a) + CountDelays(b)
  {
    if a != [] {
      assert (a + b)[1..] == a[1..] + b;
      CountsAppend(a[1..], b);
    } else {
      assert a + b == b;
    }
  }

  /** The schedule alternates attempt 1, wait, attempt 2, wait, ..., ending
      with attempt `n`: `n` attempts, `n - 1` waits, each of `delay`. */
  lemma {:induction false} ScheduleShape(n: nat, delay: nat)
    requires n >= 1
    ensures |Schedule(n, delay)| == 2 * n - 1
    ensures forall i :: 0 <= i < |Schedule(n, delay)| ==>
      Schedule(n, delay)[i] == if i % 2 == 0 then Attempt(i / 2 + 1) else Delay(delay)
    ensures CountAttempts(Schedule(n, delay)) == n && CountDelays(Schedule(n, delay)) == n - 1
  {
    if n > 1 {
      ScheduleShape(n - 1, delay);
      CountsAppend(Schedule(n - 1, delay), [Delay(delay), Attempt(n)]);
      var tail := [Delay(delay), Attempt(n)];
      assert tail[1..] == [Attempt(n)] && tail[1..][1..] == [];
      assert CountAttempts(tail[1..]) == 1 && CountDelays(tail[1..]) == 0;
    } else {
      assert CountAttempts([Attempt(1)]) == 1;
    }
  }

  /** Success after failures: when the first `k` attempts fail and attempt
      `k + 1` (within the bound) succeeds, the retry returns that success
      after `k + 1` attempts and `k` waits, and tries no further. */
  lemma SucceedsAfterFailures(transport: Transport, filePath: string, targetDir: string, retryCount: nat, k: nat, delay: nat)
    requires k + 1 <= retryCount
    requires forall j :: 1 <= j <= k ==> AttemptResult(transport, filePath, targetDir, j).Err?
    requires AttemptResult(transport, filePath, targetDir, k + 1).Ok?
    ensures AttemptsMade(transport, filePath, targetDir, retryCount) == k + 1
    ensures RetryResult(transport, filePath, targetDir, retryCount) == AttemptResult(transport, filePath, targetDir, k + 1)
    ensures CountAttempts(Schedule(k + 1, delay)) == k + 1 && CountDelays(Schedule(k + 1, delay)) == k
  {
    var first := FirstSuccessFrom(transport, filePath, targetDir, 1, retryCount);
    assert first.Some?;
    assert !(first.value < k + 1);
    assert !(first.value > k + 1);
    ScheduleShape(k + 1, delay);
  }

  /** Exhaustion: when every attempt fails, the retry makes exactly
      `retryCount` attempts with `retryCount - 1` waits, and throws the last
      attempt's error as it was, not wrapped again. */
  lemma Exhausted(transport: Transport, filePath: string, targetDir: string, retryCount: nat, delay: nat)
    requires retryCount >= 1
    requires forall j :: 1 <= j <= retryCount ==> AttemptResult(transport, filePath, targetDir, j).Err?
    ensures AttemptsMade(transport, filePath, targetDir, retryCount) == retryCount
    ensures transport(filePath, targetDir, retryCount).Failed?
    ensures RetryResult(transport, filePath, targetDir, retryCount)
      == Err(UploadFailed + filePath + " - " + transport(filePath, targetDir, retryCount).message)
    ensures CountAttempts(Schedule(retryCount, delay)) == retryCount
    ensures CountDelays(Schedule(retryCount, delay)) == retryCount - 1
  {
    assert AttemptResult(transport, filePath, targetDir, retryCount).Err?;
    ScheduleShape(retryCount, delay);
  }

  /** The retry succeeds exactly when some attempt within the bound does. */
  lemma RetrySucceedsIff(transport: Transport, filePath: string, targetDir: string, retryCount: nat)
    requires retryCount >= 1
    ensures RetryResult(transport, filePath, targetDir, retryCount).Ok?
        <==> exists j :: 1 <= j <= retryCount && AttemptResult(transport, filePath, targetDir, j).Ok?
  {
    var first := FirstSuccessFrom(transport, filePath, targetDir, 1, retryCount);
    if first.None? {
      assert AttemptResult(transport, filePath, targetDir, retryCount).Err?;
    }
  }
}
