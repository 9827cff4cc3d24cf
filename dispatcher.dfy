/**
 * The notification queue: a FIFO of (chat id, message) pairs drained one item at a
 * time, with a global and a per-chat send throttle over the process clock, and a
 * bounded retry loop over Telegram's answers. The HTTP answers are an input: the
 * answer to attempt number k is `replies(k)`.
 */
module Dispatcher {
  import opened Wrappers
  import Time
  import Db

  /** Minimum seconds between any two sends (about 30 messages a second). */
  const GlobalMinInterval: real := 0.034
  /** Minimum seconds between two sends to one chat. */
  const PerChatMinInterval: real := 1.0
  /** Attempts per message. */
  const MaxRetries: nat := 3

  // ---------- throttling ----------

  function Max(a: real, b: real): real {
    if a >= b then a else b
  }

  /** The clock reading after `_apply_rate_limits` has slept as much as it needs. */
  function ThrottledTime(now: real, lastGlobal: real, lastChat: map<string, real>, chatId: string): (t: real)
    ensures t >= now
  {
    var afterGlobal := if now - lastGlobal < GlobalMinInterval then lastGlobal + GlobalMinInterval else now;
    if chatId in lastChat && afterGlobal - lastChat[chatId] < PerChatMinInterval
    then lastChat[chatId] + PerChatMinInterval
    else afterGlobal
  }

  /**
   * The throttled time is the earliest time no earlier than the current one that
   * is at least the global interval after the last send and, when the chat has
   * been sent to, at least the per-chat interval after that send.
   */
  lemma ThrottledTimeIsEarliest(now: real, lastGlobal: real, lastChat: map<string, real>, chatId: string)
    ensures var t := ThrottledTime(now, lastGlobal, lastChat, chatId);
      t >= now && t >= lastGlobal + GlobalMinInterval &&
      (chatId in lastChat ==> t >= lastChat[chatId] + PerChatMinInterval) &&
      t == (if chatId in lastChat then Max(Max(now, lastGlobal + GlobalMinInterval), lastChat[chatId] + PerChatMinInterval)
            else Max(now, lastGlobal + GlobalMinInterval))
  {
  }

  // ---------- the retry machine ----------

  /** The `retry_after` of a 429 body: absent (read as 1), a number of seconds, or a body that cannot be read. */
  datatype RetryAfter = RetryAbsent | RetrySeconds(seconds: real) | RetryUnreadable

  /** Telegram's answer to one `sendMessage` attempt. */
  datatype Attempt =
    | RateLimited(retry: RetryAfter)  // status 429
    | Forbidden                       // status 403: the user blocked the bot
    | BadRequest                      // status 400: the chat id is invalid
    | HttpFailure(status: int)        // any other status outside 2xx
    | Answered(ok: bool)              // a 2xx JSON body and its `ok` flag
    | AttemptTimedOut                 // the request timed out
    | Errored                         // any other exception, such as a body that is not JSON

  /**
   * The pause before the next attempt after answer `a` to attempt `k`, or `None`
   * when the send ends there. A negative `retry_after` makes `time.sleep` raise,
   * which ends the send like an unreadable body.
   */
  function Pause(a: Attempt, k: nat): (r: Option<real>)
    ensures r.Some? ==> a.RateLimited? || (a == AttemptTimedOut && k + 1 < MaxRetries)
  {
    match a
    case RateLimited(RetryAbsent) => Some(1.0)
    case RateLimited(RetrySeconds(s)) => if s >= 0.0 then Some(s) else None
    case RateLimited(RetryUnreadable) => None
    case AttemptTimedOut => if k + 1 < MaxRetries then Some(1.0) else None
    case _ => None
  }

  /** How a send ends: delivered or not, attempts made, pauses slept in order, and whether the chat is deactivated. */
  datatype SendResult = SendResult(sent: bool, attempts: nat, pauses: seq<real>, deactivates: bool)

  /** The send from attempt `k` on. */
  function Send(replies: nat -> Attempt, k: nat): (r: SendResult)
    ensures r.deactivates ==> !r.sent
    ensures |r.pauses| <= r.attempts <= (if k < MaxRetries then MaxRetries - k else 0)
    decreases MaxRetries - k
  {
    if k >= MaxRetries then SendResult(false, 0, [], false)
    else
      var a := replies(k);
      match Pause(a, k)
      case Some(d) =>
        var rest := Send(replies, k + 1);
        rest.(attempts := rest.attempts + 1, pauses := [d] + rest.pauses)
      case None =>
        SendResult(a == Answered(true), 1, [], a == Forbidden || a == BadRequest)
  }

  /** Every attempt before `k` was followed by a pause and another attempt. */
  predicate PausedBefore(replies: nat -> Attempt, k: nat) {
    forall j :: 0 <= j < k ==> Pause(replies(j), j).Some?
  }

  /** At most three attempts, at least one, and one pause between consecutive attempts at most. */
  lemma {:induction false} SendBounded(replies: nat -> Attempt, k: nat)
    requires k < MaxRetries
    ensures 1 <= Send(replies, k).attempts <= MaxRetries - k
    ensures |Send(replies, k).pauses| <= Send(replies, k).attempts
    ensures forall d :: d in Send(replies, k).pauses ==> d >= 0.0
    decreases MaxRetries - k
  {
    if Pause(replies(k), k).Some? && k + 1 < MaxRetries {
      SendBounded(replies, k + 1);
    }
  }

  /**
   * A send succeeds exactly when some attempt within the first three is answered
   * with ok=true and every attempt before it was a 429 or a timeout followed by a pause.
   */
  lemma {:induction false} SendSucceedsIff(replies: nat -> Attempt, k: nat)
    requires k <= MaxRetries
    ensures Send(replies, k).sent <==>
      exists n :: k <= n < MaxRetries && replies(n) == Answered(true) &&
        forall j :: k <= j < n ==> Pause(replies(j), j).Some?
    decreases MaxRetries - k
  {
    if k < MaxRetries {
      SendSucceedsIff(replies, k + 1);
      if Pause(replies(k), k).None? && Send(replies, k).sent {
        assert replies(k) == Answered(true);
      }
      if Pause(replies(k), k).None? {
        forall n | k < n < MaxRetries
          ensures !(replies(n) == Answered(true) && forall j :: k <= j < n ==> Pause(replies(j), j).Some?)
        {
          assert !Pause(replies(k), k).Some?;
        }
      }
    }
  }

  /**
   * A chat is deactivated exactly when a 403 or 400 comes after only paused
   * attempts, and then the send fails.
   */
  lemma {:induction false} SendDeactivatesIff(replies: nat -> Attempt, k: nat)
    requires k <= MaxRetries
    ensures Send(replies, k).deactivates <==>
      exists n :: k <= n < MaxRetries && (replies(n) == Forbidden || replies(n) == BadRequest) &&
        forall j :: k <= j < n ==> Pause(replies(j), j).Some?
    ensures Send(replies, k).deactivates ==> !Send(replies, k).sent
    decreases MaxRetries - k
  {
    if k < MaxRetries {
      SendDeactivatesIff(replies, k + 1);
      if Pause(replies(k), k).None? {
        forall n | k < n < MaxRetries
          ensures !((replies(n) == Forbidden || replies(n) == BadRequest) &&
                    forall j :: k <= j < n ==> Pause(replies(j), j).Some?)
        {
          assert !Pause(replies(k), k).Some?;
        }
      }
    }
  }

  /** Answers that end the send at once: one attempt, no pause, and a failure. */
  lemma ImmediateFailure(replies: nat -> Attempt)
    requires replies(0) in {RateLimited(RetryUnreadable), Errored, Answered(false)} || replies(0).HttpFailure?
    ensures Send(replies, 0) == SendResult(false, 1, [], false)
  {
  }

  /** Two 429s with `retry_after` 5, then ok=true: delivered on the third attempt after sleeping 10 seconds. */
  lemma RetryAfterExample()
    ensures var replies := (k: nat) => if k < 2 then RateLimited(RetrySeconds(5.0)) else Answered(true);
      Send(replies, 0) == SendResult(true, 3, [5.0, 5.0], false)
  {
  }

  /** Three timeouts: three attempts, a one-second pause after each of the first two, and a failure. */
  lemma TimeoutsExhaust()
    ensures var replies := (k: nat) => AttemptTimedOut;
      Send(replies, 0) == SendResult(false, 3, [1.0, 1.0], false)
  {
  }

  function Sum(s: seq<real>): real {
    if s == [] then 0.0 else Sum(s[..|s| - 1]) + s[|s| - 1]
  }

  /** The whole send, seen after `n` paused attempts that slept `slept` and with `rest` still to come. */
  function After(n: nat, slept: seq<real>, rest: SendResult): SendResult {
    rest.(attempts := rest.attempts + n, pauses := slept + rest.pauses)
  }

  /** A paused attempt moves one step along the send. */
  lemma PausedStep(replies: nat -> Attempt, k: nat, slept: seq<real>, d: real)
    requires k < MaxRetries && Pause(replies(k), k) == Some(d)
    ensures After(k, slept, Send(replies, k)) == After(k + 1, slept + [d], Send(replies, k + 1))
    ensures Sum(slept + [d]) == Sum(slept) + d
  {
    assert (slept + [d])[..|slept|] == slept;
    assert slept + ([d] + Send(replies, k + 1).pauses) == (slept + [d]) + Send(replies, k + 1).pauses;
  }

  /** An attempt without a pause ends the send. */
  lemma FinalStep(replies: nat -> Attempt, k: nat, slept: seq<real>)
    requires k < MaxRetries && Pause(replies(k), k).None?
    ensures After(k, slept, Send(replies, k)) ==
      SendResult(replies(k) == Answered(true), k + 1, slept, replies(k) == Forbidden || replies(k) == BadRequest)
  {
    assert slept + [] == slept;
  }

  /** Once all attempts are used, the send ends unsent with the pauses slept so far. */
  lemma ExhaustedStep(replies: nat -> Attempt, slept: seq<real>)
    ensures After(MaxRetries, slept, Send(replies, MaxRetries)) == SendResult(false, MaxRetries, slept, false)
  {
    assert slept + [] == slept;
  }

  // ---------- the queue ----------

  /** One `NotificationQueue`; messages are of type `M`. */
  class NotificationQueue<M> {
    /** The queued (chat id, message) pairs, oldest first. */
    var items: seq<(string, M)>
    /** The queue's count of items not yet marked done. */
    var unfinished: nat
    var running: bool
    var lastGlobalSend: real
    var lastChatSend: map<string, real>
    const clock: Time.Clock
    const db: Db.Database

    /** Between items every queued item is unfinished and no other is. */
    predicate Valid()
      reads this
    {
      unfinished == |items|
    }

    constructor(clock: Time.Clock, db: Db.Database)
      ensures Valid() && items == [] && !running && lastGlobalSend == 0.0 && lastChatSend == map[]
      ensures this.clock == clock && this.db == db
    {
      items := [];
      unfinished := 0;
      running := false;
      lastGlobalSend := 0.0;
      lastChatSend := map[];
      this.clock := clock;
      this.db := db;
    }

    /** `start`: a running queue is left as it is. The worker thread is not modelled. */
    method Start()
      modifies this`running
      ensures running
    {
      if running {
        return;
      }
      running := true;
    }

    /** `stop`. */
    method Stop()
      modifies this`running
      ensures !running
    {
      running := false;
    }

    /** `enqueue`: the pair goes to the back. */
    method Enqueue(chatId: string, message: M)
      requires Valid()
      modifies this`items, this`unfinished
      ensures Valid() && items == old(items) + [(chatId, message)]
    {
      items := items + [(chatId, message)];
      unfinished := unfinished + 1;
    }

    /** `_apply_rate_limits`: sleeps until both intervals have passed, then records the send time. */
    method ApplyRateLimits(chatId: string)
      modifies clock, this`lastGlobalSend, this`lastChatSend
      ensures clock.now == ThrottledTime(old(clock.now), old(lastGlobalSend), old(lastChatSend), chatId)
      ensures lastGlobalSend == clock.now && lastChatSend == old(lastChatSend)[chatId := clock.now]
    {
      var currentTime := clock.now;
      var timeSinceGlobal := currentTime - lastGlobalSend;
      if timeSinceGlobal < GlobalMinInterval {
        clock.Sleep(GlobalMinInterval - timeSinceGlobal);
        currentTime := clock.now;
      }
      if chatId in lastChatSend {
        var timeSinceChat := currentTime - lastChatSend[chatId];
        if timeSinceChat < PerChatMinInterval {
          clock.Sleep(PerChatMinInterval - timeSinceChat);
          currentTime := clock.now;
        }
      }
      lastGlobalSend := currentTime;
      lastChatSend := lastChatSend[chatId := currentTime];
    }

    /** `_deactivate_chat` with its write reaching the store: the first account with the chat id becomes inactive. */
    method DeactivateChat(chatId: string)
      modifies db`telegramAccounts
      ensures db.telegramAccounts == Db.Deactivated(old(db.telegramAccounts), chatId)
    {
      db.DeactivateChat(chatId);
    }

    /**
     * `_deactivate_chat` as written: the collection lookup it uses is not a method
     * of the database object, so it raises before any write and the error is
     * swallowed.
     */
    method DeactivateChatAsWritten(chatId: string)
      ensures unchanged(db)
    {
    }

    /**
     * `_send_message`: without a bot token nothing is attempted; otherwise the retry
     * loop runs over the answers, sleeping on the clock between attempts. A 403 or
     * 400 reaches `_deactivate_chat`, whose write fails, so the accounts stay as
     * they were.
     */
    method SendMessage(chatId: string, token: string, replies: nat -> Attempt) returns (success: bool)
      modifies clock
      ensures token == "" ==> !success && clock.now == old(clock.now)
      ensures token != "" ==>
        var r := Send(replies, 0);
        success == r.sent && clock.now == old(clock.now) + Sum(r.pauses)
      ensures db.telegramAccounts == old(db.telegramAccounts)
    {
      if token == "" {
        return false;
      }
      var retryCount := 0;
      ghost var slept: seq<real> := [];
      ghost var whole := Send(replies, retryCount);
      assert whole == After(0, [], whole);
      while retryCount < MaxRetries
        invariant retryCount <= MaxRetries && |slept| == retryCount
        invariant clock.now == old(clock.now) + Sum(slept)
        invariant whole == After(retryCount, slept, Send(replies, retryCount))
      {
        var pause, sent := SendStep(chatId, replies, retryCount, slept, whole);
        if pause.None? {
          return sent;
        }
        slept := slept + [pause.value];
        retryCount := retryCount + 1;
      }
      ExhaustedStep(replies, slept);
      return false;
    }

    /**
     * `_send_message` with `_deactivate_chat`'s write reaching the store: a send
     * that ends on a 403 or 400 deactivates the first account with the chat id.
     * That answer is the send's last, so deactivating once the loop is over leaves
     * the same store.
     */
    method SendMessageDeactivating(chatId: string, token: string, replies: nat -> Attempt) returns (success: bool)
      modifies clock, db`telegramAccounts
      ensures token == "" ==> !success && clock.now == old(clock.now) && db.telegramAccounts == old(db.telegramAccounts)
      ensures token != "" ==>
        var r := Send(replies, 0);
        success == r.sent && clock.now == old(clock.now) + Sum(r.pauses) &&
        db.telegramAccounts == (if r.deactivates then Db.Deactivated(old(db.telegramAccounts), chatId)
                                else old(db.telegramAccounts))
    {
      success := SendMessage(chatId, token, replies);
      if token != "" && Send(replies, 0).deactivates {
        DeactivateChat(chatId);
      }
    }

    /** One attempt of the retry loop, seen as a step along the whole send. */
    method SendStep(chatId: string, replies: nat -> Attempt, retryCount: nat, ghost slept: seq<real>,
                    ghost whole: SendResult) returns (pause: Option<real>, sent: bool)
      requires retryCount < MaxRetries && whole == After(retryCount, slept, Send(replies, retryCount))
      modifies clock
      ensures pause.Some? ==>
        whole == After(retryCount + 1, slept + [pause.value], Send(replies, retryCount + 1)) &&
        clock.now == old(clock.now) + pause.value && Sum(slept + [pause.value]) == Sum(slept) + pause.value
      ensures pause.None? ==> whole.sent == sent && whole.pauses == slept && clock.now == old(clock.now)
      ensures db.telegramAccounts == old(db.telegramAccounts)
    {
      var answer := replies(retryCount);
      pause, sent := HandleAnswer(chatId, answer, retryCount);
      if pause.Some? {
        PausedStep(replies, retryCount, slept, pause.value);
      } else {
        FinalStep(replies, retryCount, slept);
      }
    }

    /**
     * One answer of the retry loop: a 429 with a readable delay, or a timeout
     * before the last attempt, sleeps and asks for a retry; a 403 or 400 calls
     * `_deactivate_chat` as written, which changes nothing; an answer reports `ok`;
     * anything else fails.
     */
    method HandleAnswer(chatId: string, answer: Attempt, retryCount: nat) returns (pause: Option<real>, sent: bool)
      modifies clock
      ensures pause == Pause(answer, retryCount) && sent == (answer == Answered(true))
      ensures clock.now == old(clock.now) + (if pause.Some? then pause.value else 0.0)
      ensures db.telegramAccounts == old(db.telegramAccounts)
    {
      pause, sent := None, false;
      if answer.RateLimited? {
        if answer.retry.RetryUnreadable? || (answer.retry.RetrySeconds? && answer.retry.seconds < 0.0) {
          return;
        }
        var retryAfter := if answer.retry.RetrySeconds? then answer.retry.seconds else 1.0;
        clock.Sleep(retryAfter);
        pause := Some(retryAfter);
        return;
      }
      if answer == Forbidden || answer == BadRequest {
        DeactivateChatAsWritten(chatId);
        return;
      }
      if answer.Answered? {
        sent := answer.ok;
        return;
      }
      if answer == AttemptTimedOut && retryCount + 1 < MaxRetries {
        clock.Sleep(1.0);
        pause := Some(1.0);
      }
    }

    /**
     * One pass of `_worker_loop` while it runs: with an empty queue the one-second
     * `get` timeout passes; otherwise the oldest item is throttled, sent and marked
     * done. A stopped queue does nothing.
     */
    method WorkerStep(token: string, replies: nat -> Attempt) returns (taken: Option<(string, M)>, success: bool)
      requires Valid()
      modifies this`items, this`unfinished, this`lastGlobalSend, this`lastChatSend, clock
      ensures Valid() && db.telegramAccounts == old(db.telegramAccounts)
      ensures !old(running) ==>
        taken.None? && !success && items == old(items) && clock.now == old(clock.now) &&
        lastGlobalSend == old(lastGlobalSend) && lastChatSend == old(lastChatSend)
      ensures old(running) && old(items) == [] ==>
        taken.None? && !success && items == [] && clock.now == old(clock.now) + 1.0 &&
        lastGlobalSend == old(lastGlobalSend) && lastChatSend == old(lastChatSend)
      ensures old(running) && old(items) != [] ==>
        var chatId := old(items)[0].0;
        taken == Some(old(items)[0]) && items == old(items)[1..] &&
        lastGlobalSend == ThrottledTime(old(clock.now), old(lastGlobalSend), old(lastChatSend), chatId) &&
        lastChatSend == old(lastChatSend)[chatId := lastGlobalSend] &&
        clock.now == lastGlobalSend + (if token != "" then Sum(Send(replies, 0).pauses) else 0.0) &&
        (token != "" ==> success == Send(replies, 0).sent) && (token == "" ==> !success)
    {
      taken, success := None, false;
      if !running {
        return;
      }
      if items == [] {
        clock.Sleep(1.0);
        return;
      }
      var item := items[0];
      items := items[1..];
      var (chatId, message) := item;
      ApplyRateLimits(chatId);
      success := SendMessage(chatId, token, replies);
      unfinished := unfinished - 1;
      taken := Some(item);
    }
  }

  /**
   * Whether a 403 or 400 stops the alerts: as written the accounts stay as they
   * were, so a user whose active account is the only one with that chat keeps a
   * loaded filter carrying the chat; after the intended write no loaded filter
   * carries it.
   */
  lemma AsWrittenDeactivationKeepsAlerting(configs: seq<Db.ConfigDoc>, accounts: seq<Db.TelegramAccount>,
                                           chatId: string, c: nat, k: nat)
    requires c < |configs| && configs[c].enabled && configs[c].userId != ""
    requires k < |accounts| && accounts[k].chatId == chatId
    requires Db.FindActiveAccount(accounts, configs[c].userId) == Some(accounts[k])
    requires forall i :: 0 <= i < |accounts| && i != k ==> accounts[i].chatId != chatId
    ensures exists f :: f in Db.FiltersFromStore(configs, accounts) && f.telegramChatId == Some(chatId)
    ensures forall f :: f in Db.FiltersFromStore(configs, Db.Deactivated(accounts, chatId)) ==>
      f.telegramChatId != Some(chatId)
  {
    Db.FiltersFromStoreHas(configs, accounts, c);
    var f := Db.BuildUserFilter(configs[c], chatId);
    assert f in Db.FilterOf(configs[c], accounts);
    Db.DeactivatedChatGetsNoFilter(configs, accounts, chatId, k);
  }

  /**
   * A send to a chat that blocked the bot, as written: it fails, and the filters
   * loaded from the store afterwards are the ones loaded before, so the chat
   * stays a target.
   */
  method SendToBlockedChatAsWritten<M>(q: NotificationQueue<M>, chatId: string, token: string, replies: nat -> Attempt)
    returns (success: bool)
    requires token != "" && Send(replies, 0).deactivates
    modifies q.clock
    ensures !success
    ensures Db.FiltersFromStore(q.db.configs, q.db.telegramAccounts) ==
      old(Db.FiltersFromStore(q.db.configs, q.db.telegramAccounts))
  {
    SendDeactivatesIff(replies, 0);
    success := q.SendMessage(chatId, token, replies);
  }

  // ---------- the singleton ----------

  /** The module-level `_notification_queue` and the clock and store it is built with. */
  class Registry<M> {
    var instance: NotificationQueue?<M>
    const clock: Time.Clock
    const db: Db.Database

    constructor(clock: Time.Clock, db: Db.Database)
      ensures instance == null && this.clock == clock && this.db == db
    {
      instance := null;
      this.clock := clock;
      this.db := db;
    }

    predicate Valid()
      reads this, instance
    {
      instance != null ==> instance.Valid() && instance.clock == clock && instance.db == db
    }

    /** Everything queued so far, oldest first. */
    function Pending(): seq<(string, M)>
      reads this, instance
    {
      if instance == null then [] else instance.items
    }

    /** `get_notification_queue`: the first call creates and starts the queue; later calls return the same one. */
    method GetNotificationQueue() returns (q: NotificationQueue<M>)
      requires Valid()
      modifies this`instance
      ensures Valid() && instance == q && q.running == (old(instance) == null || old(instance.running))
      ensures old(instance) != null ==> q == old(instance)
      ensures old(instance) == null ==> fresh(q) && q.items == []
      ensures Pending() == old(Pending())
    {
      if instance == null {
        var created := new NotificationQueue(clock, db);
        created.Start();
        instance := created;
      }
      q := instance;
    }

    /** `enqueue_notification`: the pair goes to the back of the single queue. */
    method EnqueueNotification(chatId: string, message: M)
      requires Valid()
      modifies this`instance, instance
      ensures Valid() && instance != null
      ensures old(instance) != null ==> instance == old(instance)
      ensures old(instance) == null ==> fresh(instance)
      ensures Pending() == old(Pending()) + [(chatId, message)]
    {
      var q := GetNotificationQueue();
      q.Enqueue(chatId, message);
    }
  }
}
