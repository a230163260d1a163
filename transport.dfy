/**
 * The decision logic of the Yandex Disk client: the retry policy of every
 * request, the integer part of the back-off, `Retry-After` parsing, paginated
 * listing, recursive folder creation and the status rules of the small calls.
 *
 * The network is abstract. A request's fate is an `Attempt` (an HTTP answer or
 * a `requests` exception), and a run of requests is driven by a transcript: the
 * answers the server would give, in order.
 */
module Transport {
  import opened Wrappers
  import opened Strings

  /** The `Retry-After` header of a response as `int(...)` reads it: absent, an integer,
   *  or text that `int` refuses (see `ReadRetryAfter`). */
  datatype RetryAfter = NoHeader | Seconds(n: int) | Unreadable

  /** An HTTP response: its status and its `Retry-After` header. */
  datatype Response = Response(status: int, retryAfter: RetryAfter)

  /** The `requests` exceptions the client tells apart. */
  datatype NetError = ConnectionError | Timeout | ChunkedEncodingError | HTTPError | OtherRequestError

  /** What one attempt of a request produced. */
  datatype Attempt = Answered(response: Response) | Failed(error: NetError)

  /** `bool(response)` in `requests`: false exactly for 4xx and 5xx statuses. */
  predicate Truthy(reply: Option<Response>)
  {
    reply.Some? && !(400 <= reply.value.status < 600)
  }

  /** The exceptions worth another attempt; any other `RequestException` is final. */
  predicate RetryableError(e: NetError)
  {
    e != OtherRequestError
  }

  /** 429 (too many requests) and every 5xx-or-above status are worth another attempt. */
  predicate RetryableStatus(status: int)
  {
    status == 429 || status >= 500
  }

  predicate Retryable(a: Attempt)
  {
    match a
    case Answered(r) => RetryableStatus(r.status)
    case Failed(e) => RetryableError(e)
  }

  // ---------------------------------------------------------------- back-off

  function Pow2(n: nat): (p: nat)
    ensures p >= 1
  {
    if n == 0 then 1 else 2 * Pow2(n - 1)
  }

  lemma {:induction false} Pow2Monotone(a: nat, b: nat)
    requires a <= b
    ensures Pow2(a) <= Pow2(b)
    decreases b
  {
    if a < b {
      Pow2Monotone(a, b - 1);
    }
  }

  lemma {:induction false} Pow2StrictlyMonotone(a: nat, b: nat)
    requires a < b
    ensures Pow2(a) < Pow2(b)
    decreases b
  {
    if a < b - 1 {
      Pow2StrictlyMonotone(a, b - 1);
    }
  }

  /** The integer base of the back-off before attempt `attempt + 1`: `min(2 ** attempt, 32)` seconds
   *  (the random jitter added on top is not modelled). */
  function BackoffBase(attempt: nat): (d: nat)
    ensures 1 <= d <= 32
  {
    if Pow2(attempt) <= 32 then Pow2(attempt) else 32
  }

  /** The base delay never shrinks as the attempts go on. */
  lemma BackoffMonotone(a: nat, b: nat)
    requires a <= b
    ensures BackoffBase(a) <= BackoffBase(b)
  {
    Pow2Monotone(a, b);
  }

  /** Up to attempt 5 the base delay is exactly `2 ** attempt`, and it grows strictly there. */
  lemma BackoffDoubling(a: nat, b: nat)
    requires a < b <= 5
    ensures BackoffBase(a) == Pow2(a) && BackoffBase(b) == Pow2(b)
    ensures BackoffBase(a) < BackoffBase(b)
  {
    Pow2StrictlyMonotone(a, b);
    Pow2Monotone(b, 5);
  }

  // ------------------------------------------------------------- Retry-After

  predicate IsDigit(c: char)
  {
    '0' <= c <= '9'
  }

  predicate AllDigits(s: string)
  {
    forall i :: 0 <= i < |s| ==> IsDigit(s[i])
  }

  /** The value of a string of decimal digits. */
  function DigitsValue(s: string): nat
    requires AllDigits(s)
  {
    if s == [] then 0 else 10 * DigitsValue(s[..|s| - 1]) + (s[|s| - 1] as int - '0' as int)
  }

  /** `int(s)` for a string: optional surrounding whitespace, an optional sign and at
   *  least one ASCII digit; `None` stands for the `ValueError`. */
  function ParseInt(s: string): Option<int>
  {
    var t := Strip(s);
    if |t| > 0 && (t[0] == '+' || t[0] == '-') then
      var d := t[1..];
      if d != [] && AllDigits(d) then
        var v: int := DigitsValue(d);
        Some(if t[0] == '-' then -v else v)
      else None
    else if t != [] && AllDigits(t) then Some(DigitsValue(t))
    else None
  }

  /** The decimal digits of a natural number. */
  function NatDigits(n: nat): (s: string)
    ensures s != [] && AllDigits(s)
    ensures DigitsValue(s) == n
  {
    var last := ['0' + ((n % 10) as char)];
    if n < 10 then
      assert DigitsValue(last) == n;
      last
    else
      var s := NatDigits(n / 10) + last;
      assert s[..|s| - 1] == NatDigits(n / 10);
      s
  }

  /** `str(n)` for an integer. */
  function ShowInt(n: int): string
  {
    if n < 0 then "-" + NatDigits(-n) else NatDigits(n)
  }

  /** A string that neither starts nor ends with whitespace is its own strip. */
  lemma StripTrimmed(s: string)
    requires s != [] && !IsSpace(s[0]) && !IsSpace(s[|s| - 1])
    ensures Strip(s) == s
  {
    assert LStrip(s) == s;
  }

  /** `int(str(n)) == n`: the header value a server writes is read back unchanged. */
  lemma ParseShowInt(n: int)
    ensures ParseInt(ShowInt(n)) == Some(n)
  {
    var s := ShowInt(n);
    StripTrimmed(s);
    if n < 0 {
      assert s[1..] == NatDigits(-n);
    }
  }

  /** The value `headers.get('Retry-After', '1')` falls back on. */
  const AbsentRetryAfter: string := "1"

  /** The fallback header reads as one second. */
  lemma AbsentRetryAfterIsOne()
    ensures ParseInt(AbsentRetryAfter) == Some(1)
  {
    StripTrimmed(AbsentRetryAfter);
  }

  /** The header a response carries, as read by `int(...)`. */
  function ReadRetryAfter(header: Option<string>): (h: RetryAfter)
    ensures header.None? <==> h == NoHeader
    ensures h.Seconds? <==> header.Some? && ParseInt(header.value).Some?
  {
    match header
    case None => NoHeader
    case Some(text) => if ParseInt(text).Some? then Seconds(ParseInt(text).value) else Unreadable
  }

  /** The wait before retrying a 429: the `Retry-After` header read as an integer (the
   *  fallback "1" when absent, 1 when unreadable), capped at 60 seconds. */
  function RateLimitWait(retryAfter: RetryAfter): (w: int)
    ensures w <= 60
    ensures retryAfter.Seconds? ==> w == Min(retryAfter.n, 60)
    ensures !retryAfter.Seconds? ==> w == 1
  {
    var seconds := match retryAfter
      case NoHeader => 1  // ParseInt(AbsentRetryAfter), see AbsentRetryAfterIsOne
      case Unreadable => 1
      case Seconds(n) => n;
    Min(seconds, 60)
  }

  /** A header written as `str(n)` gives a wait of `min(n, 60)`. */
  lemma RateLimitWaitOfNumber(n: int)
    ensures RateLimitWait(ReadRetryAfter(Some(ShowInt(n)))) == Min(n, 60)
  {
    ParseShowInt(n);
  }

  /** An unreadable header, or none, counts as one second. */
  lemma RateLimitWaitOfGarbage(header: Option<string>)
    requires header.None? || ParseInt(header.value) == None
    ensures RateLimitWait(ReadRetryAfter(header)) == 1
  {
  }

  /** The sleep before the attempt after `a` (number `attempt`), when `a` is retried. */
  function WaitAfter(a: Attempt, attempt: nat): int
  {
    if a.Answered? && a.response.status == 429 then RateLimitWait(a.response.retryAfter)
    else BackoffBase(attempt)
  }

  // ------------------------------------------------------------ retry policy

  /** How a request ends: with a response or `None`, or with the `ValueError` that
   *  `time.sleep` raises for a negative `Retry-After` wait, which nothing catches. */
  datatype Reply = Returned(response: Option<Response>) | SleepRaised

  /** A request's reply together with the sleeps that completed before it ended. */
  datatype Exchange = Exchange(reply: Reply, waits: seq<int>)

  /** What the attempts from number `attempt` on give under the retry policy, when
   *  `outcomes[i]` is what attempt `i` produces and `maxRetries` retries are allowed. */
  function Policy(outcomes: seq<Attempt>, attempt: nat, maxRetries: nat): (e: Exchange)
    requires attempt <= maxRetries < |outcomes|
    decreases maxRetries - attempt
  {
    var o := outcomes[attempt];
    if Retryable(o) && attempt < maxRetries then
      var w := WaitAfter(o, attempt);
      if w < 0 then Exchange(SleepRaised, [])
      else
        var later := Policy(outcomes, attempt + 1, maxRetries);
        Exchange(later.reply, [w] + later.waits)
    else if o.Answered? then Exchange(Returned(Some(o.response)), [])
    else Exchange(Returned(None), [])
  }

  /** An attempt that is final, or the last allowed one, gives its own answer and no wait. */
  lemma PolicyStopped(outcomes: seq<Attempt>, attempt: nat, maxRetries: nat)
    requires attempt <= maxRetries < |outcomes|
    requires !Retryable(outcomes[attempt]) || attempt == maxRetries
    ensures Policy(outcomes, attempt, maxRetries).waits == []
    ensures Policy(outcomes, attempt, maxRetries).reply ==
      if outcomes[attempt].Answered? then Returned(Some(outcomes[attempt].response)) else Returned(None)
  {
  }

  /** A retried attempt whose wait is negative ends the request with the sleep's error. */
  lemma PolicyRaised(outcomes: seq<Attempt>, attempt: nat, maxRetries: nat)
    requires attempt < maxRetries < |outcomes|
    requires Retryable(outcomes[attempt]) && WaitAfter(outcomes[attempt], attempt) < 0
    ensures Policy(outcomes, attempt, maxRetries) == Exchange(SleepRaised, [])
  {
  }

  /** A retried attempt adds its wait in front of what the later attempts give. */
  lemma PolicyRetried(outcomes: seq<Attempt>, attempt: nat, maxRetries: nat)
    requires attempt < maxRetries < |outcomes|
    requires Retryable(outcomes[attempt]) && WaitAfter(outcomes[attempt], attempt) >= 0
    ensures Policy(outcomes, attempt, maxRetries).reply == Policy(outcomes, attempt + 1, maxRetries).reply
    ensures Policy(outcomes, attempt, maxRetries).waits == [WaitAfter(outcomes[attempt], attempt)] + Policy(outcomes, attempt + 1, maxRetries).waits
  {
  }

  /** The number of the attempt at which the policy stops, from attempt `attempt` on. */
  function StopAt(outcomes: seq<Attempt>, attempt: nat, maxRetries: nat): nat
    requires attempt <= maxRetries < |outcomes|
  {
    attempt + |Policy(outcomes, attempt, maxRetries).waits|
  }

  /** The attempts before the stopping one: there are at most `maxRetries` of them, each was
   *  retryable and each was followed by a completed sleep of the length the policy gives. */
  lemma {:induction false} PolicyRetries(outcomes: seq<Attempt>, attempt: nat, maxRetries: nat)
    requires attempt <= maxRetries < |outcomes|
    ensures StopAt(outcomes, attempt, maxRetries) <= maxRetries
    ensures forall i :: attempt <= i < StopAt(outcomes, attempt, maxRetries) ==>
      Retryable(outcomes[i]) && Policy(outcomes, attempt, maxRetries).waits[i - attempt] == WaitAfter(outcomes[i], i) >= 0
    decreases maxRetries - attempt
  {
    var o := outcomes[attempt];
    if Retryable(o) && attempt < maxRetries && WaitAfter(o, attempt) >= 0 {
      PolicyRetries(outcomes, attempt + 1, maxRetries);
      var e := Policy(outcomes, attempt, maxRetries);
      var later := Policy(outcomes, attempt + 1, maxRetries);
      assert e.waits == [WaitAfter(o, attempt)] + later.waits;
      forall i | attempt <= i < StopAt(outcomes, attempt, maxRetries)
        ensures Retryable(outcomes[i]) && e.waits[i - attempt] == WaitAfter(outcomes[i], i) >= 0
      {
        if i > attempt {
          assert e.waits[i - attempt] == later.waits[i - (attempt + 1)];
        }
      }
    }
  }

  /** The stopping attempt `k`: the sleep after it raised exactly when it was retryable, not
   *  the last allowed attempt and its wait negative; otherwise it is the last allowed attempt
   *  or not retryable, and the request returns its response, or `None` for an exception. */
  lemma {:induction false} PolicyStops(outcomes: seq<Attempt>, attempt: nat, maxRetries: nat)
    requires attempt <= maxRetries < |outcomes|
    ensures var k := StopAt(outcomes, attempt, maxRetries);
      var e := Policy(outcomes, attempt, maxRetries);
      && k <= maxRetries
      && (e.reply == SleepRaised <==> k < maxRetries && Retryable(outcomes[k]) && WaitAfter(outcomes[k], k) < 0)
      && (e.reply.Returned? ==> k == maxRetries || !Retryable(outcomes[k]))
      && (e.reply.Returned? ==>
            e.reply.response == (if outcomes[k].Answered? then Some(outcomes[k].response) else None))
    decreases maxRetries - attempt
  {
    var o := outcomes[attempt];
    if Retryable(o) && attempt < maxRetries && WaitAfter(o, attempt) >= 0 {
      PolicyStops(outcomes, attempt + 1, maxRetries);
      assert StopAt(outcomes, attempt, maxRetries) == StopAt(outcomes, attempt + 1, maxRetries);
    }
  }

  /** Every request is attempted at most `maxRetries + 1` times. */
  lemma AttemptsBounded(outcomes: seq<Attempt>, maxRetries: nat)
    requires maxRetries < |outcomes|
    ensures |Policy(outcomes, 0, maxRetries).waits| + 1 <= maxRetries + 1
  {
    PolicyRetries(outcomes, 0, maxRetries);
  }

  /** An answer that is not worth retrying is returned at its first occurrence, after one
   *  sleep for each attempt before it. */
  lemma {:induction false} FirstFinalAnswerReturned(outcomes: seq<Attempt>, attempt: nat, maxRetries: nat, k: nat)
    requires attempt <= k <= maxRetries < |outcomes|
    requires forall i :: attempt <= i < k ==> Retryable(outcomes[i]) && WaitAfter(outcomes[i], i) >= 0
    requires outcomes[k].Answered? && !Retryable(outcomes[k])
    ensures Policy(outcomes, attempt, maxRetries).reply == Returned(Some(outcomes[k].response))
    ensures |Policy(outcomes, attempt, maxRetries).waits| == k - attempt
    decreases k - attempt
  {
    if attempt < k {
      FirstFinalAnswerReturned(outcomes, attempt + 1, maxRetries, k);
    }
  }

  /** `_make_request` (and `_upload_file_with_retry`, which repeats the same loop): up to
   *  `maxRetries + 1` attempts, sleeping between them, as `Policy` says. */
  method MakeRequest(outcomes: seq<Attempt>, maxRetries: nat) returns (reply: Reply, waits: seq<int>)
    requires maxRetries < |outcomes|
    ensures Exchange(reply, waits) == Policy(outcomes, 0, maxRetries)
  {
    waits := [];
    var attempt: nat := 0;
    ghost var total := Policy(outcomes, attempt, maxRetries);
    // a retryable outcome with attempts left: sleep (the Retry-After wait for a 429, the
    // back-off otherwise) and try again
    while attempt < maxRetries && Retryable(outcomes[attempt]) && WaitAfter(outcomes[attempt], attempt) >= 0
      invariant attempt <= maxRetries && |waits| == attempt
      invariant total.reply == Policy(outcomes, attempt, maxRetries).reply
      invariant total.waits == waits + Policy(outcomes, attempt, maxRetries).waits
      decreases maxRetries - attempt
    {
      PolicyRetried(outcomes, attempt, maxRetries);
      waits := waits + [WaitAfter(outcomes[attempt], attempt)];
      attempt := attempt + 1;
    }
    var o := outcomes[attempt];
    if !Retryable(o) || attempt == maxRetries {
      // a final answer, or the last allowed attempt: the response, or None for an exception
      reply := if o.Answered? then Returned(Some(o.response)) else Returned(None);
      PolicyStopped(outcomes, attempt, maxRetries);
    } else {
      // a negative Retry-After: the sleep raises
      reply := SleepRaised;
      PolicyRaised(outcomes, attempt, maxRetries);
    }
  }

  /** The retries `_make_request` allows unless told otherwise, and those of `_upload_file_with_retry`. */
  const RequestRetries: nat := 3
  const UploadRetries: nat := 7

  /** With the default of 7 retries an upload issues at most 8 PUTs. */
  lemma UploadAtMostEightPuts(outcomes: seq<Attempt>)
    requires UploadRetries < |outcomes|
    ensures |Policy(outcomes, 0, UploadRetries).waits| + 1 <= 8
  {
    AttemptsBounded(outcomes, UploadRetries);
  }

  /** A 429 with `Retry-After: 2` and then a 200: two calls, a two-second wait, the 200. */
  lemma RateLimitThenSuccess(rest: seq<Attempt>)
    requires |rest| >= 2
    ensures var outcomes := [Answered(Response(429, Seconds(2))), Answered(Response(200, NoHeader))] + rest;
      Policy(outcomes, 0, RequestRetries) == Exchange(Returned(Some(Response(200, NoHeader))), [2])
  {
  }

  /** A 500 and then a 200: two calls, a one-second base wait, the 200. */
  lemma ServerErrorThenSuccess(rest: seq<Attempt>)
    requires |rest| >= 2
    ensures var outcomes := [Answered(Response(500, NoHeader)), Answered(Response(200, NoHeader))] + rest;
      Policy(outcomes, 0, RequestRetries) == Exchange(Returned(Some(Response(200, NoHeader))), [1])
  {
  }

  /** A connection error and then a 200: two calls, the 200. */
  lemma ConnectionErrorThenSuccess(rest: seq<Attempt>)
    requires |rest| >= 2
    ensures var outcomes := [Failed(ConnectionError), Answered(Response(200, NoHeader))] + rest;
      Policy(outcomes, 0, RequestRetries) == Exchange(Returned(Some(Response(200, NoHeader))), [1])
  {
  }

  /** Three 500s with two retries allowed: three calls, and the last 500 comes back, not `None`. */
  lemma ServerErrorsExhaustRetries()
    ensures var r := Answered(Response(500, NoHeader));
      Policy([r, r, r], 0, 2) == Exchange(Returned(Some(Response(500, NoHeader))), [1, 2])
  {
  }

  /** Retryable exceptions on every allowed attempt end in `None`. */
  lemma NetworkErrorsExhaustRetries()
    ensures var f := Failed(Timeout);
      Policy([f, f, f], 0, 2) == Exchange(Returned(None), [1, 2])
  {
  }

  /** A non-retryable request error ends the request at once with `None`. */
  lemma OtherErrorNotRetried(rest: seq<Attempt>, maxRetries: nat)
    requires maxRetries < |rest| + 1
    ensures Policy([Failed(OtherRequestError)] + rest, 0, maxRetries) == Exchange(Returned(None), [])
  {
  }

  /** An upload PUT answered 429 and then 201: two PUTs, the 201. */
  lemma UploadRateLimitThenCreated(rest: seq<Attempt>)
    requires |rest| >= 6
    ensures var outcomes := [Answered(Response(429, NoHeader)), Answered(Response(201, NoHeader))] + rest;
      Policy(outcomes, 0, UploadRetries) == Exchange(Returned(Some(Response(201, NoHeader))), [1])
  {
  }

  // ----------------------------------------------------------------- listing

  /** The part of a listing response the client reads: its status, `_embedded.items`
   *  and `_embedded.total` (an absent key reads as the empty list or 0). */
  datatype PageReply<T> = PageReply(status: int, items: seq<T>, total: int)

  /** The reply to the `i`-th listing request; past the end of the transcript the request
   *  gets no response. */
  function PageAt<T>(replies: seq<Option<PageReply<T>>>, i: nat): (r: Option<PageReply<T>>)
    ensures r.Some? ==> i < |replies| && r == replies[i]
  {
    if i < |replies| then replies[i] else None
  }

  /** The items `list` takes from a reply: those of a 200 response, none otherwise. */
  function PageItems<T>(reply: Option<PageReply<T>>): seq<T>
  {
    if reply.Some? && reply.value.status == 200 then reply.value.items else []
  }

  /** The items of requests `i` to `k - 1`, in order. */
  function Pages<T>(replies: seq<Option<PageReply<T>>>, i: nat, k: nat): seq<T>
    requires i <= k
    decreases k - i
  {
    if i == k then [] else PageItems(PageAt(replies, i)) + Pages(replies, i + 1, k)
  }

  /** The result of `list`: the items gathered and the offset sent with each request. */
  datatype ListRun<T> = ListRun(items: seq<T>, offsets: seq<int>)

  /** The page size `list` asks for: at most the API's maximum of 10000. */
  function PageLimit(limit: int): (p: int)
    ensures p <= 10000 && (p == limit || p == 10000)
    ensures limit <= 10000 ==> p == limit
  {
    Min(limit, 10000)
  }

  /** A reply that `list` takes items from: present, status 200, items not empty. */
  predicate Accepted<T>(reply: Option<PageReply<T>>)
  {
    reply.Some? && reply.value.status == 200 && reply.value.items != []
  }

  /** After taking the items of an accepted reply, `list` asks again while fewer than
   *  `total` items have arrived and the page was full. */
  predicate AsksAgain<T>(reply: Option<PageReply<T>>, got: seq<T>, pageLimit: int)
  {
    Accepted(reply)
    && |got| + |reply.value.items| < reply.value.total
    && |reply.value.items| >= pageLimit
  }

  /** `list` from request `i` on, having gathered `got` so far. */
  function ListFrom<T>(replies: seq<Option<PageReply<T>>>, pageLimit: int, i: nat, got: seq<T>): (r: ListRun<T>)
    decreases |replies| - i
  {
    var reply := PageAt(replies, i);
    if AsksAgain(reply, got, pageLimit) then
      var later := ListFrom(replies, pageLimit, i + 1, got + reply.value.items);
      ListRun(later.items, [|got|] + later.offsets)
    else
      ListRun(got + PageItems(reply), [|got|])
  }

  /** `list(path, limit)`: the run from the first request with nothing gathered. */
  function Listing<T>(replies: seq<Option<PageReply<T>>>, limit: int): ListRun<T>
  {
    ListFrom(replies, PageLimit(limit), 0, [])
  }

  /** The run of `list` from request `i` makes `n = |offsets|` requests, at least one and at
   *  most one past the end of the transcript; its items are those gathered before followed
   *  by every page received, in order. */
  lemma {:induction false} ListFromItems<T>(replies: seq<Option<PageReply<T>>>, pageLimit: int, i: nat, got: seq<T>)
    ensures var r := ListFrom(replies, pageLimit, i, got);
      && 1 <= |r.offsets|
      && (i <= |replies| ==> i + |r.offsets| <= |replies| + 1)
      && r.items == got + Pages(replies, i, i + |r.offsets|)
    decreases |replies| - i
  {
    var reply := PageAt(replies, i);
    var n := |ListFrom(replies, pageLimit, i, got).offsets|;
    if AsksAgain(reply, got, pageLimit) {
      var got' := got + reply.value.items;
      ListFromItems(replies, pageLimit, i + 1, got');
      assert Pages(replies, i, i + n) == reply.value.items + Pages(replies, i + 1, i + n);
      assert got' + Pages(replies, i + 1, i + n) == got + Pages(replies, i, i + n);
    } else {
      assert Pages(replies, i, i + 1) == PageItems(reply) + Pages(replies, i + 1, i + 1);
    }
  }

  /** Each request's offset is the number of items gathered before it: the offset advances
   *  by the length of each page. */
  lemma {:induction false} ListFromOffsets<T>(replies: seq<Option<PageReply<T>>>, pageLimit: int, i: nat, got: seq<T>, j: nat)
    requires j < |ListFrom(replies, pageLimit, i, got).offsets|
    ensures ListFrom(replies, pageLimit, i, got).offsets[j] == |got| + |Pages(replies, i, i + j)|
    decreases |replies| - i
  {
    var reply := PageAt(replies, i);
    if j > 0 {
      assert AsksAgain(reply, got, pageLimit);
      ListFromOffsets(replies, pageLimit, i + 1, got + reply.value.items, j - 1);
    }
  }

  /** `list` stops exactly when it should: every request but the last left it wanting more,
   *  and the last one failed, was not 200, was empty, completed `total`, or was short. */
  lemma {:induction false} ListFromStops<T>(replies: seq<Option<PageReply<T>>>, pageLimit: int, i: nat, got: seq<T>)
    ensures var n := |ListFrom(replies, pageLimit, i, got).offsets|;
      n >= 1
      && (forall k :: i <= k < i + n - 1 ==>
            AsksAgain(PageAt(replies, k), got + Pages(replies, i, k), pageLimit))
      && !AsksAgain(PageAt(replies, i + n - 1), got + Pages(replies, i, i + n - 1), pageLimit)
    decreases |replies| - i
  {
    var reply := PageAt(replies, i);
    assert got + Pages(replies, i, i) == got;
    if AsksAgain(reply, got, pageLimit) {
      var got' := got + reply.value.items;
      ListFromStops(replies, pageLimit, i + 1, got');
      var n := |ListFrom(replies, pageLimit, i, got).offsets|;
      forall k | i + 1 <= k <= i + n - 1
        ensures got + Pages(replies, i, k) == got' + Pages(replies, i + 1, k)
      {
        assert Pages(replies, i, k) == reply.value.items + Pages(replies, i + 1, k);
      }
    }
  }

  /** `list`: pages of `PageLimit(limit)` items at increasing offsets until a reply fails,
   *  is not 200, is empty, completes `total`, or is short. */
  method List<T>(replies: seq<Option<PageReply<T>>>, limit: int) returns (items: seq<T>, offsets: seq<int>)
    ensures ListRun(items, offsets) == Listing(replies, limit)
  {
    var pageLimit := PageLimit(limit);
    items := [];
    offsets := [];
    var offset := 0;
    var i: nat := 0;
    ghost var total := ListFrom(replies, pageLimit, i, items);
    while true
      invariant offset == |items|
      invariant total.items == ListFrom(replies, pageLimit, i, items).items
      invariant total.offsets == offsets + ListFrom(replies, pageLimit, i, items).offsets
      decreases |replies| - i
    {
      var response := PageAt(replies, i);
      offsets := offsets + [offset];
      if response.None? || response.value.status != 200 {
        break;
      }
      var page := response.value.items;
      if page == [] {
        break;
      }
      items := items + page;
      if |items| >= response.value.total || |page| < pageLimit {
        break;
      }
      offset := offset + |page|;
      i := i + 1;
    }
  }

  /** Two pages of 3 and 2 items with `total` 5 and a limit of 3: two requests, at offsets
   *  0 and 3, and the five items in order. */
  lemma TwoPagesListing(page1: seq<int>, page2: seq<int>)
    requires |page1| == 3 && |page2| == 2
    ensures var replies := [Some(PageReply(200, page1, 5)), Some(PageReply(200, page2, 5))];
      Listing(replies, 3) == ListRun(page1 + page2, [0, 3])
  {
    var replies := [Some(PageReply(200, page1, 5)), Some(PageReply(200, page2, 5))];
    assert AsksAgain(PageAt(replies, 0), [], 3);
    assert !AsksAgain(PageAt(replies, 1), page1, 3);
    assert ListFrom(replies, 3, 1, [] + page1) == ListRun(page1 + page2, [3]);
  }

  // -------------------------------------------------------- status rules

  /** `exists`: a response with status 200. */
  predicate Exists(reply: Option<Response>)
  {
    reply.Some? && reply.value.status == 200
  }

  /** `get_item_state`: the response's data on a truthy 200, otherwise nothing. */
  function GetItemState(reply: Option<Response>): (r: Option<Response>)
    ensures r.Some? <==> Exists(reply)
    ensures r.Some? ==> r == reply
  {
    if Truthy(reply) && reply.value.status == 200 then reply else None
  }

  /** `remove`: a truthy response with status 202 or 204. */
  predicate Removed(reply: Option<Response>)
  {
    Truthy(reply) && reply.value.status in {202, 204}
  }

  /** `move` and `copy`: a truthy response with status 201 or 202. */
  predicate Relocated(reply: Option<Response>)
  {
    Truthy(reply) && reply.value.status in {201, 202}
  }

  /** The truthiness test in front of the status test changes nothing: each call succeeds
   *  exactly on its success statuses. */
  lemma StatusRules(reply: Option<Response>)
    ensures Removed(reply) <==> reply.Some? && (reply.value.status == 202 || reply.value.status == 204)
    ensures Relocated(reply) <==> reply.Some? && (reply.value.status == 201 || reply.value.status == 202)
    ensures Exists(reply) ==> Truthy(reply)
  {
  }

  // ------------------------------------------------------------- create_dir

  /** The parent of a cloud path given as its components (`app:` first): the path less its
   *  last component, where `[]` stands for `.`, the one path that is its own parent. */
  function Parent(path: seq<string>): (p: seq<string>)
    ensures |p| <= |path| && p == path[..|p|]
    ensures path != [] ==> |p| == |path| - 1
  {
    if path == [] then [] else path[..|path| - 1]
  }

  /** How `create_dir` ends: with its boolean, or with the `AttributeError` that reading the
   *  status of a missing response raises. */
  datatype DirResult = Done(created: bool) | Raised

  /** A `create_dir` run: its result, the transcript left unread, and the paths it PUT. */
  datatype DirRun = DirRun(result: DirResult, rest: seq<Option<Response>>, puts: seq<seq<string>>)

  function Head(replies: seq<Option<Response>>): Option<Response>
  {
    if replies == [] then None else replies[0]
  }

  function Tail(replies: seq<Option<Response>>): (t: seq<Option<Response>>)
    ensures |t| <= |replies| && (replies != [] ==> |t| < |replies|)
  {
    if replies == [] then [] else replies[1..]
  }

  /** `create_dir(path, create_parent)` as written, answering its PUTs and `exists` GETs from
   *  `replies` in order (a request past the end gets no response). */
  function CreateDir(path: seq<string>, createParent: bool, replies: seq<Option<Response>>): (r: DirRun)
    ensures |r.rest| <= |replies|
    ensures r.puts != [] && r.puts[0] == path
    decreases |replies|
  {
    var put := Head(replies);
    var afterPut := Tail(replies);
    if put.None? then DirRun(Raised, afterPut, [path])
    else if put.value.status == 201 then DirRun(Done(true), afterPut, [path])
    else if put.value.status == 409 then
      var afterGet := Tail(afterPut);
      if Exists(Head(afterPut)) then DirRun(Done(true), afterGet, [path])
      else if createParent then
        var first := CreateDir(Parent(path), true, afterGet);
        if first.result == Done(true) then
          var second := CreateDir(path, false, first.rest);
          DirRun(second.result, second.rest, [path] + first.puts + second.puts)
        else DirRun(first.result, first.rest, [path] + first.puts)
      else DirRun(Done(false), afterGet, [path])
    else DirRun(Done(false), afterPut, [path])
  }

  /** Every path `create_dir` PUTs is the path itself or one of its ancestors; without
   *  `create_parent` it PUTs once; and when it reports success its last PUT was the path. */
  lemma {:induction false} CreateDirPuts(path: seq<string>, createParent: bool, replies: seq<Option<Response>>)
    ensures var r := CreateDir(path, createParent, replies);
      && (forall p :: p in r.puts ==> |p| <= |path| && p == path[..|p|])
      && (!createParent ==> |r.puts| == 1)
      && (r.result == Done(true) ==> r.puts[|r.puts| - 1] == path)
    decreases |replies|
  {
    var put := Head(replies);
    var afterPut := Tail(replies);
    if put.Some? && put.value.status == 409 && !Exists(Head(afterPut)) && createParent {
      var afterGet := Tail(afterPut);
      var first := CreateDir(Parent(path), true, afterGet);
      CreateDirPuts(Parent(path), true, afterGet);
      forall p | p in first.puts ensures |p| <= |path| && p == path[..|p|] {
        assert Parent(path) == path[..|Parent(path)|];
      }
      if first.result == Done(true) {
        CreateDirPuts(path, false, first.rest);
      }
    }
  }

  /** The answers a PUT and an `exists` GET get when the folder is neither created nor found. */
  const Conflict: Option<Response> := Some(Response(409, NoHeader))
  const NotFound: Option<Response> := Some(Response(404, NoHeader))

  /** `n` rounds of "409, then not found". */
  function ConflictRounds(n: nat): (s: seq<Option<Response>>)
    ensures |s| == 2 * n
  {
    if n == 0 then [] else [Conflict, NotFound] + ConflictRounds(n - 1)
  }

  /** At the path that is its own parent, a server that answers 409 and "not found" keeps
   *  `create_dir` asking for the same path: `n` such rounds make it PUT that path `n + 1`
   *  times, so only the server (here: running out of answers) can stop the recursion. */
  lemma {:induction false} RootRecursionUnbounded(n: nat)
    ensures var r := CreateDir([], true, ConflictRounds(n));
      r.result == Raised && |r.puts| == n + 1 && (forall p :: p in r.puts ==> p == [])
  {
    if n > 0 {
      var rounds := ConflictRounds(n);
      assert Head(rounds) == Conflict;
      assert Head(Tail(rounds)) == NotFound;
      assert Tail(Tail(rounds)) == ConflictRounds(n - 1);
      RootRecursionUnbounded(n - 1);
    }
  }

  /** `create_dir` as evidently intended: the same, except that a path that is its own
   *  parent is not asked for again. It PUTs at most `2 * |path| + 1` times whatever the
   *  server answers. */
  function CreateDirBounded(path: seq<string>, createParent: bool, replies: seq<Option<Response>>): (r: DirRun)
    ensures |r.rest| <= |replies|
    ensures r.puts != [] && r.puts[0] == path
    ensures |r.puts| <= 2 * |path| + 1
    ensures !createParent ==> |r.puts| == 1
    decreases |path|, createParent
  {
    var put := Head(replies);
    var afterPut := Tail(replies);
    if put.None? then DirRun(Raised, afterPut, [path])
    else if put.value.status == 201 then DirRun(Done(true), afterPut, [path])
    else if put.value.status == 409 then
      var afterGet := Tail(afterPut);
      if Exists(Head(afterPut)) then DirRun(Done(true), afterGet, [path])
      else if createParent && path != [] then
        var first := CreateDirBounded(Parent(path), true, afterGet);
        if first.result == Done(true) then
          var second := CreateDirBounded(path, false, first.rest);
          DirRun(second.result, second.rest, [path] + first.puts + second.puts)
        else DirRun(first.result, first.rest, [path] + first.puts)
      else DirRun(Done(false), afterGet, [path])
    else DirRun(Done(false), afterPut, [path])
  }
}
