/**
 * The delivery gateway: posts one birthday message to the configured webhook,
 * retrying a bounded number of times with a linearly growing wait, and
 * reports a boolean verdict; plus the one-shot webhook probe used at startup.
 *
 * The HTTP client is abstract: `transport(k)` is what the k-th call of one
 * delivery (k = 1, 2, ...) yields, a status code or a thrown error. Waits are
 * not slept but recorded, in order, as durations in milliseconds.
 */
module Notifications {
  import opened Models

  const DefaultMaxRetries := 3
  const DefaultRetryDelayMs := 5000
  /** Per-request timeout handed to the HTTP client. */
  const RequestTimeoutMs := 10000

  const MessagePrefix := "Hey, "
  const MessageSuffix := " it's your birthday"
  const TestMessage := "Test message from Birthday Notification Service"

  /** Who a payload is about: a user, or the fixed 'test-user' of the probe. */
  datatype Recipient = Subject(id: UserId) | TestUser

  datatype NotificationMessage = NotificationMessage(fullName: string, userId: UserId, scheduledDate: Instant)

  datatype WebhookPayload = WebhookPayload(message: string, userId: Recipient, timestamp: string)

  /** One POST handed to the HTTP client. */
  datatype Post = Post(url: string, payload: WebhookPayload, timeoutMs: int)

  datatype TransportOutcome = Responded(status: int) | Threw(error: string)

  /** The 2xx (Successful) class of status codes, section 15.3 of RFC 9110. */
  predicate IsSuccess(o: TransportOutcome) {
    o.Responded? && 200 <= o.status < 300
  }

  function BirthdayMessage(fullName: string): string {
    MessagePrefix + fullName + MessageSuffix
  }

  function BirthdayPayload(n: NotificationMessage, timestamp: string): WebhookPayload {
    WebhookPayload(BirthdayMessage(n.fullName), Subject(n.userId), timestamp)
  }

  function TestPayload(timestamp: string): WebhookPayload {
    WebhookPayload(TestMessage, TestUser, timestamp)
  }

  /** Recovers the name from a birthday message. */
  function NameOf(message: string): string
    requires |message| >= |MessagePrefix| + |MessageSuffix|
  {
    message[|MessagePrefix| .. |message| - |MessageSuffix|]
  }

  /** The name can be read back out of the message, so two different users
      never receive the same text. */
  lemma NameRoundTrip(fullName: string)
    ensures |BirthdayMessage(fullName)| == |fullName| + |MessagePrefix| + |MessageSuffix|
    ensures NameOf(BirthdayMessage(fullName)) == fullName
  {
    var m := BirthdayMessage(fullName);
    assert m == MessagePrefix + (fullName + MessageSuffix);
    assert m[|MessagePrefix|..] == fullName + MessageSuffix;
    assert m[|MessagePrefix|..][..|fullName|] == fullName;
  }

  lemma BirthdayMessageInjective(a: string, b: string)
    ensures BirthdayMessage(a) == BirthdayMessage(b) ==> a == b
  {
    NameRoundTrip(a);
    NameRoundTrip(b);
  }

  /** The message the unit test expects for "John Doe". */
  lemma JohnDoeMessage()
    ensures BirthdayMessage("John Doe") == "Hey, John Doe it's your birthday"
  {
  }

  /** The first attempt number in `from..last` whose reply is a success, or
      `last + 1` when there is none (or `from` when the range is empty). */
  function FirstSuccess(transport: nat -> TransportOutcome, from: nat, last: int): (a: nat)
    ensures from <= a
    ensures from <= last + 1 ==> a <= last + 1
    ensures a <= last ==> IsSuccess(transport(a))
    ensures forall k :: from <= k < a && k <= last ==> !IsSuccess(transport(k))
    decreases last - from
  {
    if from > last then from
    else if IsSuccess(transport(from)) then from
    else FirstSuccess(transport, from + 1, last)
  }

  /** The gateway's verdict for `maxRetries` attempts. */
  function Verdict(transport: nat -> TransportOutcome, maxRetries: int): bool {
    FirstSuccess(transport, 1, maxRetries) <= maxRetries
  }

  /** How many times the transport is called for `maxRetries` attempts. */
  function CallCount(transport: nat -> TransportOutcome, maxRetries: int): nat {
    if Verdict(transport, maxRetries) then FirstSuccess(transport, 1, maxRetries)
    else if maxRetries < 0 then 0 else maxRetries
  }

  /** The waits after failed attempts 1..n: `delay * k` after attempt k. */
  function Backoff(delay: int, n: int): (waits: seq<int>)
    ensures |waits| == if n < 0 then 0 else n
    ensures forall k :: 0 <= k < |waits| ==> waits[k] == delay * (k + 1)
    decreases n
  {
    if n <= 0 then [] else Backoff(delay, n - 1) + [delay * n]
  }

  /** The verdict is true exactly when one of the first `maxRetries` replies is 2xx. */
  lemma VerdictIffSomeSuccess(transport: nat -> TransportOutcome, maxRetries: int)
    ensures Verdict(transport, maxRetries) <==> exists a :: 1 <= a <= maxRetries && IsSuccess(transport(a))
  {
    var f := FirstSuccess(transport, 1, maxRetries);
    if Verdict(transport, maxRetries) {
      assert 1 <= f <= maxRetries && IsSuccess(transport(f));
    }
  }

  /** The transport is called up to and including the first success, and
      never more than `maxRetries` times (never at all when that is not positive). */
  lemma CallCountIsFirstSuccess(transport: nat -> TransportOutcome, maxRetries: int)
    ensures CallCount(transport, maxRetries) <= if maxRetries < 0 then 0 else maxRetries
    ensures Verdict(transport, maxRetries) ==>
      && CallCount(transport, maxRetries) >= 1
      && IsSuccess(transport(CallCount(transport, maxRetries)))
    ensures forall k :: 1 <= k < CallCount(transport, maxRetries) ==> !IsSuccess(transport(k))
  {
  }

  /** The unit test: two attempts against a transport that always throws
      make two calls and report failure. */
  lemma PersistentErrorTwoRetries()
    ensures !Verdict(_ => Threw("Persistent network error"), 2)
    ensures CallCount(_ => Threw("Persistent network error"), 2) == 2
  {
  }

  /** The deployed sender takes the default budget: against a webhook that
      never answers 2xx it posts three times, waiting 5 s and then 10 s. */
  lemma DefaultScheduleAgainstDeadWebhook(transport: nat -> TransportOutcome)
    requires forall k :: !IsSuccess(transport(k))
    ensures !Verdict(transport, DefaultMaxRetries)
    ensures CallCount(transport, DefaultMaxRetries) == 3
    ensures Backoff(DefaultRetryDelayMs, CallCount(transport, DefaultMaxRetries) - 1) == [5000, 10000]
  {
    VerdictIffSomeSuccess(transport, DefaultMaxRetries);
  }

  class NotificationService {
    const webhookUrl: string
    const maxRetries: int
    const retryDelay: int

    constructor (webhookUrl: string, maxRetries: int, retryDelay: int)
      ensures this.webhookUrl == webhookUrl && this.maxRetries == maxRetries && this.retryDelay == retryDelay
    {
      this.webhookUrl := webhookUrl;
      this.maxRetries := maxRetries;
      this.retryDelay := retryDelay;
    }

    /** Posts the birthday payload until a 2xx reply or `maxRetries` failed
        attempts; a non-2xx reply counts as a failure exactly like a thrown
        error, and no failure escapes: the result is then `false`. */
    method SendBirthdayNotification(notification: NotificationMessage, transport: nat -> TransportOutcome, timestamp: string)
      returns (ok: bool, posts: seq<Post>, waits: seq<int>)
      ensures ok <==> exists a :: 1 <= a <= maxRetries && IsSuccess(transport(a))
      ensures ok ==> |posts| >= 1 && IsSuccess(transport(|posts|))
      ensures !ok ==> |posts| == if maxRetries < 0 then 0 else maxRetries
      ensures forall k :: 1 <= k < |posts| ==> !IsSuccess(transport(k))
      ensures forall p :: p in posts ==> p == Post(webhookUrl, BirthdayPayload(notification, timestamp), RequestTimeoutMs)
      ensures waits == Backoff(retryDelay, |posts| - 1)
      ensures ok == Verdict(transport, maxRetries) && |posts| == CallCount(transport, maxRetries)
    {
      var post := Post(webhookUrl, BirthdayPayload(notification, timestamp), RequestTimeoutMs);
      posts, waits := [], [];
      var attempt := 1;
      while attempt <= maxRetries
        invariant 1 <= attempt && (attempt == 1 || attempt <= maxRetries)
        invariant |posts| == attempt - 1
        invariant forall k :: 1 <= k < attempt ==> !IsSuccess(transport(k))
        invariant forall p :: p in posts ==> p == post
        invariant waits == Backoff(retryDelay, attempt - 1)
        decreases maxRetries - attempt
      {
        var reply := transport(attempt);
        posts := posts + [post];
        if IsSuccess(reply) {
          ok := true;
          VerdictIffSomeSuccess(transport, maxRetries);
          assert FirstSuccess(transport, 1, maxRetries) == attempt;
          return;
        }
        if attempt == maxRetries {
          ok := false;
          VerdictIffSomeSuccess(transport, maxRetries);
          return;
        }
        waits := waits + [retryDelay * attempt];
        attempt := attempt + 1;
      }
      ok := false;
      VerdictIffSomeSuccess(transport, maxRetries);
    }

    /** The startup probe: exactly one post of the test payload; true iff the
        reply is 2xx, false on a thrown error. */
    method TestWebhook(reply: TransportOutcome, timestamp: string) returns (ok: bool, post: Post)
      ensures ok <==> reply.Responded? && 200 <= reply.status < 300
      ensures post == Post(webhookUrl, TestPayload(timestamp), RequestTimeoutMs)
      ensures post.payload.userId == TestUser && post.payload.message == TestMessage
    {
      post := Post(webhookUrl, TestPayload(timestamp), RequestTimeoutMs);
      match reply
      case Responded(status) => ok := 200 <= status < 300;
      case Threw(_) => ok := false;
    }
  }
}
