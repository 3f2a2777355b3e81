/** Request and reply over Redis: a caller publishes on an executor's channel and polls a reply
    key, while the executor keeps a heartbeat key alive. Times are in milliseconds; a Redis call
    takes none. */
module RequestReply {
  import opened JsMaps

  // ----- The caller's wait -----

  datatype Outcome = Reply(body: string) | NoResponder | TimedOut

  const FIRST_WAIT := 200

  function FirstPoll(published: int, timeout: nat): int {
    published + if timeout < FIRST_WAIT then timeout else FIRST_WAIT
  }

  function PollTime(published: int, timeout: nat, interval: nat, k: nat): int {
    FirstPoll(published, timeout) + k * interval
  }

  /** What a poll at time `t` concludes, if anything. `replies` says what taking the reply key would
      give at which times, and `dead` when the heartbeat key is missing. */
  function Concludes(deadline: int, replies: map<int, string>, dead: set<int>, t: int): Option<Outcome> {
    if t in replies then Some(Reply(replies[t]))
    else if t in dead then Some(NoResponder)
    else if t >= deadline then Some(TimedOut)
    else None
  }

  /** The wait ends at the first poll that concludes. */
  ghost predicate EndsAt(published: int, timeout: nat, interval: nat, replies: map<int, string>, dead: set<int>,
                         k: nat, outcome: Outcome) {
    && Concludes(published + timeout, replies, dead, PollTime(published, timeout, interval, k)) == Some(outcome)
    && forall j: nat :: j < k ==> Concludes(published + timeout, replies, dead, PollTime(published, timeout, interval, j)).None?
  }

  lemma PollStep(published: int, timeout: nat, interval: nat, k: nat)
    ensures PollTime(published, timeout, interval, k + 1) == PollTime(published, timeout, interval, k) + interval
  {
  }

  /** Polls until there is a reply, no executor, or no time left. The wait never lasts longer than
      the timeout and one poll interval. */
  method AwaitReply(published: int, timeout: nat, interval: nat, replies: map<int, string>, dead: set<int>)
    returns (outcome: Outcome, at: int, ghost k: nat)
    requires interval > 0
    ensures EndsAt(published, timeout, interval, replies, dead, k, outcome)
    ensures at == PollTime(published, timeout, interval, k)
    ensures published <= at < published + timeout + interval
  {
    var deadline := published + timeout;
    var now := published + if timeout < FIRST_WAIT then timeout else FIRST_WAIT;
    k := 0;
    while true
      invariant now == PollTime(published, timeout, interval, k)
      invariant published <= now < deadline + interval
      invariant forall j: nat :: j < k ==> Concludes(deadline, replies, dead, PollTime(published, timeout, interval, j)).None?
      decreases deadline + interval - now
    {
      if now in replies {
        return Reply(replies[now]), now, k;
      }
      if now in dead {
        return NoResponder, now, k;
      }
      if now >= deadline {
        return TimedOut, now, k;
      }
      PollStep(published, timeout, interval, k);
      k := k + 1;
      now := now + interval;
    }
  }

  lemma {:induction false} PollsIncrease(published: int, timeout: nat, interval: nat, j: nat, k: nat)
    requires interval > 0 && j <= k
    ensures PollTime(published, timeout, interval, j) + (k - j) <= PollTime(published, timeout, interval, k)
    decreases k
  {
    if j < k {
      PollsIncrease(published, timeout, interval, j, k - 1);
      PollStep(published, timeout, interval, k - 1);
    }
  }

  /** The first poll at or after `t`. */
  lemma NextPoll(published: int, timeout: nat, interval: nat, t: int) returns (k: nat)
    requires interval > 0 && published <= t
    ensures t <= PollTime(published, timeout, interval, k)
    ensures k > 0 ==> PollTime(published, timeout, interval, k - 1) < t
    ensures k == 0 || PollTime(published, timeout, interval, k) < t + interval
  {
    k := PollFrom(published, timeout, interval, t, 0);
  }

  lemma {:induction false} PollFrom(published: int, timeout: nat, interval: nat, t: int, from: nat) returns (k: nat)
    requires interval > 0 && published <= t && (from > 0 ==> PollTime(published, timeout, interval, from - 1) < t)
    ensures t <= PollTime(published, timeout, interval, k)
    ensures k > 0 ==> PollTime(published, timeout, interval, k - 1) < t
    ensures k == 0 || PollTime(published, timeout, interval, k) < t + interval
    decreases t - PollTime(published, timeout, interval, from)
  {
    k := from;
    if PollTime(published, timeout, interval, from) < t {
      PollStep(published, timeout, interval, from);
      k := PollFrom(published, timeout, interval, t, from + 1);
    } else if from > 0 {
      PollStep(published, timeout, interval, from - 1);
    }
  }

  /** However it ends, the wait is over before the timeout and one poll interval: the poll before
      the last one did not find the time gone. */
  lemma EndsInTime(published: int, timeout: nat, interval: nat, replies: map<int, string>, dead: set<int>,
                   k: nat, outcome: Outcome)
    requires interval > 0 && EndsAt(published, timeout, interval, replies, dead, k, outcome)
    ensures PollTime(published, timeout, interval, k) < published + timeout + interval
  {
    if k > 0 {
      PollStep(published, timeout, interval, k - 1);
      assert Concludes(published + timeout, replies, dead, PollTime(published, timeout, interval, k - 1)).None?;
    }
  }

  lemma EndsBy(published: int, timeout: nat, interval: nat, replies: map<int, string>, dead: set<int>,
               k: nat, outcome: Outcome, n: nat)
    requires EndsAt(published, timeout, interval, replies, dead, k, outcome)
    requires Concludes(published + timeout, replies, dead, PollTime(published, timeout, interval, n)).Some?
    ensures k <= n
  {
  }

  /** No reply is lost: one written before the deadline, by an executor alive until then, and kept
      for at least the first wait and one poll interval, is what the caller gets. */
  lemma ReplyIsReceived(published: int, timeout: nat, interval: nat, replies: map<int, string>, dead: set<int>,
                        k: nat, outcome: Outcome, written: int, ttl: nat, body: string)
    requires interval > 0 && EndsAt(published, timeout, interval, replies, dead, k, outcome)
    requires published <= written < published + timeout
    requires ttl >= interval && ttl > FIRST_WAIT
    requires forall t :: t in replies <==> written <= t < written + ttl
    requires forall t | t in replies :: replies[t] == body
    requires forall t | t in dead :: t >= written
    ensures outcome == Reply(body)
    ensures written <= PollTime(published, timeout, interval, k)
  {
    var n := NextPoll(published, timeout, interval, written);
    var at := PollTime(published, timeout, interval, n);
    assert at in replies;
    forall j: nat | j < n ensures Concludes(published + timeout, replies, dead, PollTime(published, timeout, interval, j)).None? {
      PollsIncrease(published, timeout, interval, j, n - 1);
      var t := PollTime(published, timeout, interval, j);
      assert t < written;
    }
    EndsBy(published, timeout, interval, replies, dead, k, outcome, n);
  }

  /** When the executor is gone and has not replied, the caller learns it within a poll interval
      of the heartbeat's expiry. */
  lemma DeathIsNoticed(published: int, timeout: nat, interval: nat, replies: map<int, string>, dead: set<int>,
                       k: nat, outcome: Outcome, expiry: int)
    requires interval > 0 && EndsAt(published, timeout, interval, replies, dead, k, outcome)
    requires replies == map[] && published <= expiry
    requires forall t :: expiry <= t < published + timeout + interval ==> t in dead
    ensures outcome.NoResponder? || outcome.TimedOut?
    ensures k > 0 ==> PollTime(published, timeout, interval, k) < expiry + interval
  {
    var n := NextPoll(published, timeout, interval, expiry);
    EndsBy(published, timeout, interval, replies, dead, k, outcome, n);
    PollsIncrease(published, timeout, interval, k, n);
    if k < n {
      PollsIncrease(published, timeout, interval, k, n - 1);
    }
  }

  // ----- The heartbeat key -----

  /** `Math.ceil(interval * 1.5)` */
  function HeartbeatTtl(interval: nat): (ttl: nat)
    ensures 2 * ttl >= 3 * interval && 2 * ttl <= 3 * interval + 1
  {
    (3 * interval + 1) / 2
  }

  /** Some beat set the key and it has not expired at `t`. */
  predicate Alive(beats: seq<int>, ttl: nat, t: int) {
    exists i :: 0 <= i < |beats| && beats[i] <= t < beats[i] + ttl
  }

  ghost predicate Increasing(beats: seq<int>) {
    forall i, j :: 0 <= i <= j < |beats| ==> beats[i] <= beats[j]
  }

  lemma {:induction false} LastBeatBefore(beats: seq<int>, t: int) returns (i: nat)
    requires beats != [] && Increasing(beats) && beats[0] <= t
    ensures i < |beats| && beats[i] <= t && (i + 1 < |beats| ==> t < beats[i + 1])
    decreases beats
  {
    i := |beats| - 1;
    if t < beats[i] {
      i := LastBeatBefore(beats[..|beats| - 1], t);
    }
  }

  /** The key exists from the first beat to the last exactly when no beat comes later than the
      lifetime of the one before. */
  lemma HeartbeatUnbroken(beats: seq<int>, ttl: nat)
    requires beats != [] && Increasing(beats) && ttl > 0
    ensures (forall t :: beats[0] <= t <= beats[|beats| - 1] ==> Alive(beats, ttl, t))
      <==> (forall i :: 0 <= i < |beats| - 1 ==> beats[i + 1] <= beats[i] + ttl)
  {
    if forall i :: 0 <= i < |beats| - 1 ==> beats[i + 1] <= beats[i] + ttl {
      forall t | beats[0] <= t <= beats[|beats| - 1] ensures Alive(beats, ttl, t) {
        var i := LastBeatBefore(beats, t);
      }
    } else {
      var i :| 0 <= i < |beats| - 1 && beats[i] + ttl < beats[i + 1];
      var t := beats[i] + ttl;
      assert beats[0] <= t <= beats[|beats| - 1];
      forall j | 0 <= j < |beats| ensures !(beats[j] <= t < beats[j] + ttl) {
        if j <= i {
          assert beats[j] <= beats[i];
        } else {
          assert beats[i + 1] <= beats[j];
        }
      }
      assert !Alive(beats, ttl, t);
    }
  }

  /** Beats that fire on time, or late by no more than half an interval, never let the key expire. */
  lemma OnTimeIsAlive(beats: seq<int>, interval: nat)
    requires beats != [] && Increasing(beats) && interval > 0
    requires forall i :: 0 <= i < |beats| - 1 ==> 2 * (beats[i + 1] - beats[i]) <= 3 * interval
    ensures forall t :: beats[0] <= t <= beats[|beats| - 1] ==> Alive(beats, HeartbeatTtl(interval), t)
  {
    HeartbeatUnbroken(beats, HeartbeatTtl(interval));
  }

  // ----- The serving side's intake -----

  /** Whether an executor takes requests, and what it is working on. */
  datatype Intake = Intake(closed: bool, subscribed: bool, running: set<Id>)

  /** One payload from the channel. An empty one, or one after `close`, is dropped. */
  function Receive(s: Intake, id: Id, message: string): Intake {
    if message == "" || s.closed then s else s.(running := s.running + {id})
  }
}
