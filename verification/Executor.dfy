/** The serving side: one subscription, one heartbeat timer, and the requests in progress. Each
    method is one stretch between two awaits, so any order of calls is an interleaving. */
module Executor {
  import opened JsMaps
  import RequestReply

  class RequestReplyExecutor {
    const heartbeatInterval: nat
    var closed: bool
    var initialized: bool
    var runningRequests: set<Id>
    var heartbeatTimer: Option<nat>

    // What the runtime and Redis hold.
    var intervals: set<nat>
    var nextTimer: nat
    var beats: seq<int>
    var subscribed: bool

    // How far `close` and `drain` have come.
    var closeReturned: bool
    var awaited: Option<set<Id>>
    ghost var started: set<Id>
    ghost var finished: set<Id>

    function State(): RequestReply.Intake
      reads this
    {
      RequestReply.Intake(closed, subscribed, runningRequests)
    }

    /** At most one timer is live and it is the one remembered, only while subscribed; none after
        `close` returned; and what `drain` awaits is all that is still running. */
    ghost predicate Valid()
      reads this
    {
      && intervals == (if heartbeatTimer.Some? then {heartbeatTimer.value} else {})
      && (forall t | t in intervals :: t < nextTimer)
      && (heartbeatTimer.Some? ==> subscribed)
      && (closeReturned ==> closed && heartbeatTimer.None?)
      && (awaited.Some? ==> closed && runningRequests <= awaited.value)
      && runningRequests == started - finished && finished <= started
    }

    constructor (heartbeatInterval: nat)
      ensures Valid() && !closed && !initialized && heartbeatTimer.None? && runningRequests == {} && beats == []
      ensures this.heartbeatInterval == heartbeatInterval && started == {} && finished == {}
      ensures !subscribed && !closeReturned && awaited.None?
    {
      this.heartbeatInterval := heartbeatInterval;
      closed, initialized, runningRequests, heartbeatTimer := false, false, {}, None;
      intervals, nextTimer, beats, subscribed := {}, 0, [], false;
      closeReturned, awaited, started, finished := false, None, {}, {};
    }

    /** Returns whether to subscribe right away. */
    method Init(isReady: bool) returns (subscribe: bool)
      requires Valid()
      modifies this`initialized
      ensures Valid() && (initialized <==> old(initialized) || !closed)
      ensures subscribe <==> isReady && !closed && !old(initialized)
    {
      if closed || initialized {
        return false;
      }
      initialized := true;
      subscribe := isReady;
    }

    method StopHeartbeat()
      requires Valid()
      modifies this`intervals, this`heartbeatTimer
      ensures Valid() && heartbeatTimer.None? && intervals == {}
    {
      if heartbeatTimer.Some? {
        intervals := intervals - {heartbeatTimer.value};
        heartbeatTimer := None;
      }
    }

    method Beat(now: int)
      modifies this`beats
      ensures beats == old(beats) + [now]
    {
      beats := beats + [now];
    }

    /** Beats at once and then on every interval, unless the executor is closed. */
    method StartHeartbeat(now: int)
      requires Valid() && subscribed
      modifies this`intervals, this`heartbeatTimer, this`nextTimer, this`beats
      ensures Valid()
      ensures closed ==> heartbeatTimer == old(heartbeatTimer) && beats == old(beats)
      ensures !closed ==> heartbeatTimer.Some? && beats == old(beats) + [now]
    {
      if closed {
        return;
      }
      StopHeartbeat();
      Beat(now);
      heartbeatTimer := Some(nextTimer);
      intervals := intervals + {nextTimer};
      nextTimer := nextTimer + 1;
    }

    /** A live timer fires. A timer that was cleared never does. */
    method Tick(timer: nat, now: int)
      requires Valid() && timer in intervals
      modifies this`beats
      ensures Valid() && !closeReturned && beats == old(beats) + [now]
    {
      Beat(now);
    }

    /** The subscription attempt was answered. The executor may have been closed meanwhile. */
    method Subscribed(ok: bool, now: int)
      requires Valid()
      modifies this`intervals, this`heartbeatTimer, this`nextTimer, this`beats, this`subscribed
      ensures Valid() && subscribed == (old(subscribed) || ok)
      ensures heartbeatTimer.Some? <==> ok && !closed
      ensures beats == if ok && !closed then old(beats) + [now] else old(beats)
    {
      if ok {
        subscribed := true;
        StopHeartbeat();
        StartHeartbeat(now);
      } else {
        StopHeartbeat();
      }
    }

    method ConnectionEnded()
      requires Valid()
      modifies this`intervals, this`heartbeatTimer, this`subscribed
      ensures Valid() && heartbeatTimer.None? && !subscribed
    {
      StopHeartbeat();
      subscribed := false;
    }

    /** Starts a request, unless the executor no longer takes any. */
    method OnMessage(id: Id, message: string) returns (taken: bool)
      requires Valid() && id !in started
      modifies this`runningRequests, this`started
      ensures Valid() && (taken <==> message != "" && !closed)
      ensures started == if taken then old(started) + {id} else old(started)
      ensures State() == RequestReply.Receive(old(State()), id, message)
    {
      if message == "" || closed {
        return false;
      }
      runningRequests := runningRequests + {id};
      started := started + {id};
      taken := true;
    }

    method RequestFinished(id: Id)
      requires Valid() && id in runningRequests
      modifies this`runningRequests, this`finished
      ensures Valid() && finished == old(finished) + {id} && State() == old(State()).(running := old(runningRequests) - {id})
    {
      runningRequests := runningRequests - {id};
      finished := finished + {id};
    }

    /** The part of `close` before it awaits the unsubscription. */
    method Close() returns (proceed: bool)
      requires Valid()
      modifies this`closed
      ensures Valid() && (proceed <==> !old(closed)) && State() == old(State()).(closed := true)
    {
      if closed {
        return false;
      }
      closed := true;
      proceed := true;
    }

    /** The rest of `close`, whether or not the unsubscription succeeded. */
    method Unsubscribed()
      requires Valid() && closed
      modifies this`intervals, this`heartbeatTimer, this`subscribed, this`closeReturned
      ensures Valid() && closeReturned && heartbeatTimer.None? && !subscribed
    {
      StopHeartbeat();
      subscribed := false;
      closeReturned := true;
    }

    /** The part of `drain` after `close`: what is running now is awaited. */
    method AwaitRunning()
      requires Valid() && closed
      modifies this`awaited
      ensures Valid() && awaited == Some(runningRequests)
    {
      awaited := Some(runningRequests);
    }

    /** `drain` returns when everything it awaits has settled, and then every request ever started
        has finished. */
    method DrainReturns() returns (done: bool)
      requires Valid() && awaited.Some?
      ensures done <==> awaited.value !! runningRequests
      ensures done ==> started == finished
    {
      done := awaited.value !! runningRequests;
      assert forall id | id in started :: id in finished || id in runningRequests;
    }
  }
}
