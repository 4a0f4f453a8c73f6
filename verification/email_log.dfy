/**
 * EmailLog: the delivery record of one e-mail and its retry budget.
 */
module EmailLogs {
  import opened Wrappers
  import opened JavaStrings

  /** The send statuses; Succeeded is SUCCESS, and with FAILED the ones the entity sets. */
  datatype SendStatus = Succeeded | Failed | OtherSend(name: string)

  const MAX_RETRIES: int := 3

  datatype EmailLog = EmailLog(
    recipient: Option<string>,
    subject: Option<string>,
    sendStatus: Option<SendStatus>,
    errorMessage: Option<string>,
    sendTime: Option<int>,
    retryCount: Option<int>)

  /** markAsSent, with the clock reading `now`. */
  function MarkAsSent(e: EmailLog, now: int): (r: EmailLog)
    ensures r.sendStatus == Some(Succeeded) && r.sendTime == Some(now)
    ensures r.(sendStatus := e.sendStatus, sendTime := e.sendTime) == e
  {
    e.(sendStatus := Some(Succeeded), sendTime := Some(now))
  }

  /** markAsFailed: the status and the message, nothing else. */
  function MarkAsFailed(e: EmailLog, message: Option<string>): (r: EmailLog)
    ensures r.sendStatus == Some(Failed) && r.errorMessage == message
    ensures r.(sendStatus := e.sendStatus, errorMessage := e.errorMessage) == e
  {
    e.(sendStatus := Some(Failed), errorMessage := message)
  }

  /** incrementRetryCount: null counts as zero; the Integer wraps at its maximum. */
  function IncrementRetryCount(e: EmailLog): (r: EmailLog)
    requires e.retryCount.None? || IsInt32(e.retryCount.value)
    ensures r.retryCount.Some? && IsInt32(r.retryCount.value)
    ensures e.retryCount.None? ==> r.retryCount == Some(1)
    ensures e.retryCount.Some? && e.retryCount.value < INT_MAX ==> r.retryCount == Some(e.retryCount.value + 1)
    ensures r.(retryCount := e.retryCount) == e
  {
    var before := e.retryCount.GetOr(0);
    e.(retryCount := Some(Wrap32(before + 1)))
  }

  /** canRetry: a recorded count below three. */
  predicate CanRetry(e: EmailLog)
    ensures e.retryCount.None? ==> !CanRetry(e)
    ensures e.retryCount.Some? && MAX_RETRIES <= e.retryCount.value ==> !CanRetry(e)
    ensures e.retryCount.Some? && 0 <= e.retryCount.value < MAX_RETRIES ==> CanRetry(e)
  {
    e.retryCount.Some? && e.retryCount.value < MAX_RETRIES
  }

  function Increments(e: EmailLog, n: nat): (r: EmailLog)
    requires e.retryCount.None? || IsInt32(e.retryCount.value)
    ensures r.retryCount.Some? || (n == 0 && r == e)
    ensures r.retryCount.None? || IsInt32(r.retryCount.value)
  {
    if n == 0 then e else IncrementRetryCount(Increments(e, n - 1))
  }

  /** A fresh log can be retried after one or two increments, and not after three or more. */
  lemma {:induction false} RetryBudget(e: EmailLog, n: nat)
    requires e.retryCount.None? && n <= 1000
    ensures n >= 1 ==> Increments(e, n).retryCount == Some(n)
    ensures CanRetry(Increments(e, n)) <==> 1 <= n < MAX_RETRIES
  {
    if n >= 2 {
      RetryBudget(e, n - 1);
    }
  }
}
