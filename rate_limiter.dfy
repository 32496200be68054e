/**
 * The admission controller of utils/rateLimiter.js. Two maps of per-user
 * timestamp windows form sliding-window limits (`userRequests`, shared by
 * commands and free text, and `userCallbacks`, used by button taps); the
 * duplicate suppressor stores `<id>_<type>_last` timestamps in
 * `userRequests` beside the windows; an explicit sweep prunes both maps.
 * The clock is the `now` parameter.
 */
module RateLimiting {
  import opened Js
  import opened Text

  /** What the sweep keeps: entries younger than 5 minutes. */
  const MAX_AGE: int := 5 * 60 * 1000

  /** The window `getUserStatus` counts over. */
  const STATUS_WINDOW: int := 60000

  const LAST_SUFFIX: string := "_last"

  // ---------------------------------------------------------------------
  // Windows
  // ---------------------------------------------------------------------

  /** The last entry of a sequence, or 0 when it is empty. */
  function LastOr0(s: seq<int>): int {
    if s == [] then 0 else s[|s| - 1]
  }

  /** `times.filter(t => now - t < age)`, keeping order. */
  function KeepRecent(times: seq<int>, now: int, age: int): (kept: seq<int>)
    ensures |kept| <= |times|
    ensures forall t :: t in kept <==> t in times && now - t < age
    ensures forall t :: multiset(kept)[t] == if now - t < age then multiset(times)[t] else 0
  {
    if times == [] then []
    else
      var rest := KeepRecent(times[..|times| - 1], now, age);
      var t := times[|times| - 1];
      assert times == times[..|times| - 1] + [t];
      if now - t < age then rest + [t] else rest
  }

  /** The filter works stamp by stamp: filtering a concatenation is
      concatenating the filtered parts, so order and repetitions are kept. */
  lemma {:induction false} KeepRecentConcat(a: seq<int>, b: seq<int>, now: int, age: int)
    ensures KeepRecent(a + b, now, age) == KeepRecent(a, now, age) + KeepRecent(b, now, age)
  {
    if b == [] {
      assert a + b == a;
    } else {
      var init, t := b[..|b| - 1], b[|b| - 1];
      KeepRecentConcat(a, init, now, age);
      assert (a + b)[..|a + b| - 1] == a + init;
      assert (a + b)[|a + b| - 1] == t;
    }
  }

  /** A single stamp is kept iff it is younger than the age. */
  lemma KeepRecentSingle(t: int, now: int, age: int)
    ensures KeepRecent([t], now, age) == if now - t < age then [t] else []
  {
    assert [t][..0] == [];
  }

  /** The number of stamps younger than `age`, counted from the front. */
  function CountRecent(times: seq<int>, now: int, age: int): nat {
    if times == [] then 0
    else (if now - times[0] < age then 1 else 0) + CountRecent(times[1..], now, age)
  }

  /** The filtered window holds exactly the young stamps, one per occurrence. */
  lemma {:induction false} KeepRecentCount(times: seq<int>, now: int, age: int)
    ensures |KeepRecent(times, now, age)| == CountRecent(times, now, age)
  {
    if times != [] {
      assert times == [times[0]] + times[1..];
      KeepRecentConcat([times[0]], times[1..], now, age);
      KeepRecentSingle(times[0], now, age);
      KeepRecentCount(times[1..], now, age);
    }
  }

  /** The young stamp at the highest position, or 0 when every stamp is old. */
  function LatestRecent(times: seq<int>, now: int, age: int): (l: int)
    ensures (forall i :: 0 <= i < |times| ==> now - times[i] >= age) ==> l == 0
    ensures (exists i :: 0 <= i < |times| && now - times[i] < age) ==>
              exists i :: 0 <= i < |times| && now - times[i] < age && l == times[i]
                          && forall j :: i < j < |times| ==> now - times[j] >= age
  {
    if times == [] then 0
    else
      var init, t := times[..|times| - 1], times[|times| - 1];
      if now - t < age then t
      else
        var l := LatestRecent(init, now, age);
        assert forall i :: 0 <= i < |init| ==> init[i] == times[i];
        l
  }

  /** The last entry of the filtered window is the latest young stamp. */
  lemma {:induction false} KeepRecentLast(times: seq<int>, now: int, age: int)
    ensures LastOr0(KeepRecent(times, now, age)) == LatestRecent(times, now, age)
  {
    if times != [] {
      KeepRecentLast(times[..|times| - 1], now, age);
    }
  }

  /** Filtering at a later moment after filtering at an earlier one is the
      later filter alone: the sliding window only ever loses entries. */
  lemma {:induction false} KeepRecentLater(times: seq<int>, earlier: int, later: int, age: int)
    requires earlier <= later
    ensures KeepRecent(KeepRecent(times, earlier, age), later, age) == KeepRecent(times, later, age)
  {
    if times != [] {
      var init, t := times[..|times| - 1], times[|times| - 1];
      KeepRecentLater(init, earlier, later, age);
      var k := KeepRecent(init, earlier, age);
      if earlier - t < age {
        assert KeepRecent(times, earlier, age) == k + [t];
        assert (k + [t])[..|k + [t]| - 1] == k;
      }
    }
  }

  /** Appending the current moment to a window keeps it when the age is positive. */
  lemma KeepRecentAppendNow(times: seq<int>, now: int, age: int)
    requires age > 0
    ensures KeepRecent(times + [now], now, age) == KeepRecent(times, now, age) + [now]
  {
    assert (times + [now])[..|times + [now]| - 1] == times;
  }

  /** When every entry is young enough the filter keeps them all. */
  lemma {:induction false} KeepRecentAll(times: seq<int>, now: int, age: int)
    requires forall i :: 0 <= i < |times| ==> now - times[i] < age
    ensures KeepRecent(times, now, age) == times
  {
    if times != [] {
      KeepRecentAll(times[..|times| - 1], now, age);
      assert times == times[..|times| - 1] + [times[|times| - 1]];
    }
  }

  /** The outcome of one limit check: whether the call was refused, and the
      window stored afterwards. */
  datatype Admission = Admission(limited: bool, window: seq<int>)

  /** `isRateLimited`/`isCallbackRateLimited` on one stored window. */
  function Admit(stored: seq<int>, now: int, max: int, windowMs: int): (a: Admission)
    ensures a.limited <==> |KeepRecent(stored, now, windowMs)| >= max
  {
    var valid := KeepRecent(stored, now, windowMs);
    if |valid| >= max then Admission(true, valid) else Admission(false, valid + [now])
  }

  /** A refused call consumes no quota: the window is only pruned. */
  lemma RejectedConsumesNothing(stored: seq<int>, now: int, max: int, windowMs: int)
    requires Admit(stored, now, max, windowMs).limited
    ensures Admit(stored, now, max, windowMs).window == KeepRecent(stored, now, windowMs)
    ensures |Admit(stored, now, max, windowMs).window| >= max
  {
  }

  /** An admitted call appends exactly `now` to the pruned window. */
  lemma AdmittedAppendsNow(stored: seq<int>, now: int, max: int, windowMs: int)
    requires !Admit(stored, now, max, windowMs).limited
    ensures Admit(stored, now, max, windowMs).window == KeepRecent(stored, now, windowMs) + [now]
    ensures |Admit(stored, now, max, windowMs).window| <= max
  {
  }

  /** With a fixed max, a window that fits stays within it. */
  lemma WindowBounded(stored: seq<int>, now: int, max: int, windowMs: int)
    requires |stored| <= max
    ensures |Admit(stored, now, max, windowMs).window| <= max
  {
  }

  /** An entry exactly `windowMs` old is pruned: the keep test is strict. */
  lemma ExactWindowAgePruned(t: int, windowMs: int)
    ensures KeepRecent([t], t + windowMs, windowMs) == []
    ensures Admit([t], t + windowMs, 1, windowMs) == Admission(false, [t + windowMs])
  {
    assert [t][..0] == [];
  }

  /** A sequence of checks against one window. */
  datatype Trace = Trace(window: seq<int>, admitted: seq<int>)

  /** Replays the checks made at the moments `calls`, from an empty window,
      recording the stored window and the moments of the admitted calls. */
  function Replay(calls: seq<int>, max: int, windowMs: int): Trace {
    if calls == [] then Trace([], [])
    else
      var prev := Replay(calls[..|calls| - 1], max, windowMs);
      var now := calls[|calls| - 1];
      var a := Admit(prev.window, now, max, windowMs);
      Trace(a.window, if a.limited then prev.admitted else prev.admitted + [now])
  }

  predicate Nondecreasing(calls: seq<int>) {
    forall i, j :: 0 <= i < j < |calls| ==> calls[i] <= calls[j]
  }

  /** The sliding-window guarantee. For a clock that never runs backwards,
      the stored window is exactly the admitted calls younger than `windowMs`
      at the latest check, and there are never more than `max` of them. */
  lemma {:induction false} SlidingWindowBound(calls: seq<int>, max: nat, windowMs: int)
    requires windowMs > 0 && Nondecreasing(calls) && calls != []
    ensures Replay(calls, max, windowMs).window == KeepRecent(Replay(calls, max, windowMs).admitted, calls[|calls| - 1], windowMs)
    ensures |KeepRecent(Replay(calls, max, windowMs).admitted, calls[|calls| - 1], windowMs)| <= max
  {
    var init, now := calls[..|calls| - 1], calls[|calls| - 1];
    var prev := Replay(init, max, windowMs);
    if init == [] {
      assert prev == Trace([], []);
      assert [now][..0] == [];
    } else {
      SlidingWindowBound(init, max, windowMs);
      var before := init[|init| - 1];
      assert before <= now;
      KeepRecentLater(prev.admitted, before, now, windowMs);
      if !Admit(prev.window, now, max, windowMs).limited {
        KeepRecentAppendNow(prev.admitted, now, windowMs);
      }
    }
  }

  /** The last check of a replay runs on the window the earlier ones left. */
  lemma ReplayLast(calls: seq<int>, max: int, windowMs: int)
    requires calls != []
    ensures Replay(calls, max, windowMs).window
            == Admit(Replay(calls[..|calls| - 1], max, windowMs).window, calls[|calls| - 1], max, windowMs).window
  {
  }

  /** The last call of a burst inside one window: admitted while the
      earlier calls are below `max`, refused afterwards. */
  lemma BurstStep(calls: seq<int>, window: seq<int>, max: nat, windowMs: int)
    requires calls != [] && window == calls[..Min(|calls| - 1, max)]
    requires forall i :: 0 <= i < |calls| - 1 ==> calls[|calls| - 1] - calls[i] < windowMs
    ensures Admit(window, calls[|calls| - 1], max, windowMs).window == calls[..Min(|calls|, max)]
  {
    var now := calls[|calls| - 1];
    forall i | 0 <= i < |window| ensures now - window[i] < windowMs {
      assert window[i] == calls[i];
    }
    KeepRecentAll(window, now, windowMs);
    if |calls| - 1 < max {
      assert window + [now] == calls;
    }
  }

  /** A burst: when all calls fall inside one window, the first `max` are
      admitted and every later one is refused. */
  lemma {:induction false} BurstFillsWindow(calls: seq<int>, max: nat, windowMs: int)
    requires Nondecreasing(calls) && calls != [] && calls[|calls| - 1] - calls[0] < windowMs
    ensures Replay(calls, max, windowMs).window == calls[..Min(|calls|, max)]
  {
    var init, now := calls[..|calls| - 1], calls[|calls| - 1];
    ReplayLast(calls, max, windowMs);
    if init == [] {
      assert Replay(init, max, windowMs) == Trace([], []);
      assert [now][..0] == [];
    } else {
      assert init[|init| - 1] - init[0] < windowMs by { assert calls[|calls| - 2] <= now; }
      BurstFillsWindow(init, max, windowMs);
      assert Replay(init, max, windowMs).window == calls[..Min(|calls| - 1, max)];
      forall i | 0 <= i < |calls| - 1 ensures now - calls[i] < windowMs {
        assert calls[0] <= calls[i];
      }
      BurstStep(calls, Replay(init, max, windowMs).window, max, windowMs);
    }
  }

  /** With 20 taps a minute, the 21st tap inside one minute is refused. */
  lemma TwentyFirstTapRefused(calls: seq<int>)
    requires |calls| == 21 && Nondecreasing(calls) && calls[20] - calls[0] < 60000
    ensures Admit(Replay(calls[..20], 20, 60000).window, calls[20], 20, 60000).limited
  {
    var init := calls[..20];
    assert init[19] == calls[19];
    BurstFillsWindow(init, 20, 60000);
    var w := Replay(init, 20, 60000).window;
    assert w == init;
    KeepRecentAll(w, calls[20], 60000);
  }

  // ---------------------------------------------------------------------
  // Keys and slots
  // ---------------------------------------------------------------------

  /** A value of `userRequests`: a request window, or a `_last` timestamp. */
  datatype Slot = Window(times: seq<int>) | Last(at: int)

  /** `userId.toString()`. */
  function UserKey(userId: int): (key: string)
    ensures !EndsWith(key, LAST_SUFFIX)
  {
    var key := IntToString(userId);
    IntToStringOmits(userId, '_');
    assert |key| >= |LAST_SUFFIX| ==> key[|key| - |LAST_SUFFIX|] == '_' ==> !EndsWith(key, LAST_SUFFIX);
    key
  }

  /** `${userId}_${requestType}_last`. */
  function DupKey(userId: int, requestType: string): (key: string)
    ensures EndsWith(key, LAST_SUFFIX)
  {
    var key := IntToString(userId) + "_" + requestType + LAST_SUFFIX;
    assert key[|key| - |LAST_SUFFIX|..] == LAST_SUFFIX;
    key
  }

  /** A user's window in `userRequests`, or `[]` when there is none. */
  function StoredWindow(m: map<string, Slot>, key: string): seq<int> {
    if key in m && m[key].Window? then m[key].times else []
  }

  /** A user's window in `userCallbacks`, or `[]` when there is none. */
  function CallbackWindow(m: map<string, seq<int>>, key: string): seq<int> {
    if key in m then m[key] else []
  }

  /** The stored `_last` stamp, or 0 when there is none. */
  function LastStamp(m: map<string, Slot>, key: string): int {
    if key in m && m[key].Last? then m[key].at else 0
  }

  /** `getUserStatus`. */
  datatype Status = Status(requests: nat, callbacks: nat, lastActivity: int)

  /** The counts of the last minute and the latest recent moment of either
      kind (0 when there is none). */
  function StatusOf(requests: seq<int>, callbacks: seq<int>, now: int): (s: Status)
    ensures s.requests == CountRecent(requests, now, STATUS_WINDOW)
    ensures s.callbacks == CountRecent(callbacks, now, STATUS_WINDOW)
    ensures s.lastActivity == Max(LatestRecent(requests, now, STATUS_WINDOW), LatestRecent(callbacks, now, STATUS_WINDOW))
    ensures s.requests <= |requests| && s.callbacks <= |callbacks|
    ensures s.lastActivity == 0 || s.lastActivity in requests || s.lastActivity in callbacks
    ensures s.requests == 0 && s.callbacks == 0 ==> s.lastActivity == 0
  {
    KeepRecentCount(requests, now, STATUS_WINDOW);
    KeepRecentCount(callbacks, now, STATUS_WINDOW);
    KeepRecentLast(requests, now, STATUS_WINDOW);
    KeepRecentLast(callbacks, now, STATUS_WINDOW);
    var recentRequests := KeepRecent(requests, now, STATUS_WINDOW);
    var recentCallbacks := KeepRecent(callbacks, now, STATUS_WINDOW);
    Status(|recentRequests|, |recentCallbacks|, Max(LastOr0(recentRequests), LastOr0(recentCallbacks)))
  }

  /** Right after an admitted request the status counts it and reports
      `now` as the latest activity (for any positive timestamp). */
  lemma StatusAfterAdmission(stored: seq<int>, callbacks: seq<int>, now: int, max: int, windowMs: int)
    requires !Admit(stored, now, max, windowMs).limited && now > 0
    ensures StatusOf(Admit(stored, now, max, windowMs).window, callbacks, now).requests >= 1
    ensures StatusOf(Admit(stored, now, max, windowMs).window, callbacks, now).lastActivity >= now
  {
    var w := KeepRecent(stored, now, windowMs) + [now];
    assert w[..|w| - 1] == KeepRecent(stored, now, windowMs);
  }

  /** The sweep's verdict on one `userRequests` entry: `_last` stamps older
      than five minutes go, windows are pruned to five minutes and go when
      nothing is left. */
  predicate SlotSurvives(slot: Slot, now: int) {
    match slot
    case Last(at) => !(now - at > MAX_AGE)
    case Window(times) => KeepRecent(times, now, MAX_AGE) != []
  }

  function SweptSlot(slot: Slot, now: int): Slot {
    match slot
    case Last(at) => slot
    case Window(times) => Window(KeepRecent(times, now, MAX_AGE))
  }

  /** The requests map after a sweep. */
  function SweptRequests(m: map<string, Slot>, now: int): (r: map<string, Slot>)
    ensures r.Keys <= m.Keys
    ensures forall k :: k in m && m[k].Last? ==> (k in r <==> now - m[k].at <= MAX_AGE)
    ensures forall k :: k in r ==> !r[k].Window? || r[k].times != []
    ensures forall k :: k in m && m[k].Window? ==> (k in r <==> KeepRecent(m[k].times, now, MAX_AGE) != [])
    ensures forall k :: k in r && m[k].Window? ==> r[k] == Window(KeepRecent(m[k].times, now, MAX_AGE))
    ensures forall k :: k in r && m[k].Last? ==> r[k] == m[k]
  {
    map k | k in m && SlotSurvives(m[k], now) :: SweptSlot(m[k], now)
  }

  /** The callbacks map after a sweep. */
  function SweptCallbacks(m: map<string, seq<int>>, now: int): (r: map<string, seq<int>>)
    ensures r.Keys <= m.Keys
    ensures forall k :: k in r ==> r[k] != [] && forall t :: t in r[k] ==> now - t < MAX_AGE
    ensures forall k :: k in r <==> k in m && KeepRecent(m[k], now, MAX_AGE) != []
    ensures forall k :: k in r ==> r[k] == KeepRecent(m[k], now, MAX_AGE)
  {
    map k | k in m && KeepRecent(m[k], now, MAX_AGE) != [] :: KeepRecent(m[k], now, MAX_AGE)
  }

  /** `getStats`. */
  datatype Stats = Stats(activeUsers: nat, totalRequestEntries: nat, totalCallbackEntries: nat)

  // ---------------------------------------------------------------------
  // The limiter
  // ---------------------------------------------------------------------

  class RateLimiter {
    var userRequests: map<string, Slot>
    var userCallbacks: map<string, seq<int>>

    /** A `userRequests` entry holds a `_last` stamp exactly when its key
        ends in `_last`; tap windows are only ever stored under user keys. */
    ghost predicate Valid()
      reads this
    {
      && (forall k :: k in userRequests ==> (userRequests[k].Last? <==> EndsWith(k, LAST_SUFFIX)))
      && (forall k :: k in userCallbacks ==> !EndsWith(k, LAST_SUFFIX))
    }

    constructor ()
      ensures Valid() && userRequests == map[] && userCallbacks == map[]
    {
      userRequests := map[];
      userCallbacks := map[];
    }

    /** `isRateLimited`: checks and records one call on the user's shared window. */
    method IsRateLimited(now: int, userId: int, maxRequests: int := 10, windowMs: int := 60000) returns (limited: bool)
      requires Valid()
      modifies this
      ensures Valid()
      ensures var key := UserKey(userId);
              var a := Admit(StoredWindow(old(userRequests), key), now, maxRequests, windowMs);
              limited == a.limited && userRequests == old(userRequests)[key := Window(a.window)]
      ensures userCallbacks == old(userCallbacks)
    {
      var userKey := UserKey(userId);
      if userKey !in userRequests {
        userRequests := userRequests[userKey := Window([])];
      }
      var requests := userRequests[userKey].times;
      var validRequests := KeepRecent(requests, now, windowMs);
      userRequests := userRequests[userKey := Window(validRequests)];
      if |validRequests| >= maxRequests {
        return true;
      }
      userRequests := userRequests[userKey := Window(validRequests + [now])];
      return false;
    }

    /** `isCallbackRateLimited`: the same check on the tap window only. */
    method IsCallbackRateLimited(now: int, userId: int, maxCallbacks: int := 20, windowMs: int := 60000) returns (limited: bool)
      requires Valid()
      modifies this
      ensures Valid()
      ensures var key := UserKey(userId);
              var a := Admit(CallbackWindow(old(userCallbacks), key), now, maxCallbacks, windowMs);
              limited == a.limited && userCallbacks == old(userCallbacks)[key := a.window]
      ensures userRequests == old(userRequests)
    {
      var userKey := UserKey(userId);
      if userKey !in userCallbacks {
        userCallbacks := userCallbacks[userKey := []];
      }
      var callbacks := userCallbacks[userKey];
      var validCallbacks := KeepRecent(callbacks, now, windowMs);
      userCallbacks := userCallbacks[userKey := validCallbacks];
      if |validCallbacks| >= maxCallbacks {
        return true;
      }
      userCallbacks := userCallbacks[userKey := validCallbacks + [now]];
      return false;
    }

    /** `isDuplicateRequest`: a duplicate iff a truthy stamp exists and is
        younger than `minInterval`; only a non-duplicate refreshes the stamp. */
    method IsDuplicateRequest(now: int, userId: int, requestType: string, minInterval: int := 1000) returns (duplicate: bool)
      requires Valid()
      modifies this
      ensures Valid()
      ensures var key := DupKey(userId, requestType);
              var last := LastStamp(old(userRequests), key);
              && (duplicate <==> last != 0 && now - last < minInterval)
              && userRequests == (if duplicate then old(userRequests) else old(userRequests)[key := Last(now)])
      ensures userCallbacks == old(userCallbacks)
    {
      var key := DupKey(userId, requestType);
      var lastRequest := LastStamp(userRequests, key);
      if lastRequest != 0 && now - lastRequest < minInterval {
        return true;
      }
      userRequests := userRequests[key := Last(now)];
      return false;
    }

    /** `getUserStatus`, which reads both maps and changes neither. */
    function UserStatus(userId: int, now: int): (s: Status)
      reads this
      ensures var requests := StoredWindow(userRequests, UserKey(userId));
              var callbacks := CallbackWindow(userCallbacks, UserKey(userId));
              && s.requests == CountRecent(requests, now, STATUS_WINDOW)
              && s.callbacks == CountRecent(callbacks, now, STATUS_WINDOW)
              && s.lastActivity == Max(LatestRecent(requests, now, STATUS_WINDOW), LatestRecent(callbacks, now, STATUS_WINDOW))
    {
      var userKey := UserKey(userId);
      StatusOf(StoredWindow(userRequests, userKey), CallbackWindow(userCallbacks, userKey), now)
    }

    /** `resetUserLimits`: deletes both windows of the user; `_last` stamps stay. */
    method ResetUserLimits(userId: int)
      requires Valid()
      modifies this
      ensures Valid()
      ensures userRequests == old(userRequests) - {UserKey(userId)}
      ensures userCallbacks == old(userCallbacks) - {UserKey(userId)}
      ensures forall k :: k in old(userRequests) && EndsWith(k, LAST_SUFFIX) ==>
                k in userRequests && userRequests[k] == old(userRequests)[k]
    {
      var userKey := UserKey(userId);
      userRequests := userRequests - {userKey};
      userCallbacks := userCallbacks - {userKey};
    }

    /** The body of the periodic sweep in `cleanup`, run once at `now`. */
    method Cleanup(now: int)
      requires Valid()
      modifies this
      ensures Valid()
      ensures userRequests == SweptRequests(old(userRequests), now)
      ensures userCallbacks == SweptCallbacks(old(userCallbacks), now)
    {
      SweepRequests(now);
      SweepCallbacks(now);
    }

    /** The first loop of the sweep, over `userRequests`. */
    method SweepRequests(now: int)
      requires Valid()
      modifies this
      ensures Valid()
      ensures userRequests == SweptRequests(old(userRequests), now)
      ensures userCallbacks == old(userCallbacks)
    {
      var requests0 := userRequests;
      var pending := requests0.Keys;
      while pending != {}
        invariant pending <= requests0.Keys
        invariant userCallbacks == old(userCallbacks)
        invariant forall k :: k in userRequests <==> k in requests0 && (k in pending || SlotSurvives(requests0[k], now))
        invariant forall k :: k in userRequests ==>
                    userRequests[k] == if k in pending then requests0[k] else SweptSlot(requests0[k], now)
        decreases pending
      {
        // The Map is walked in insertion order; any order gives the same
        // result, since each step decides only the picked entry.
        if forall u :: u !in pending {
          assert false;
        }
        var userId :| userId in pending;
        var slot := requests0[userId];
        if EndsWith(userId, LAST_SUFFIX) {
          if now - slot.at > MAX_AGE {
            userRequests := userRequests - {userId};
          }
        } else {
          var validRequests := KeepRecent(slot.times, now, MAX_AGE);
          if |validRequests| == 0 {
            userRequests := userRequests - {userId};
          } else {
            userRequests := userRequests[userId := Window(validRequests)];
          }
        }
        pending := pending - {userId};
      }
      assert userRequests.Keys == SweptRequests(requests0, now).Keys;
    }

    /** The second loop of the sweep, over `userCallbacks`. */
    method SweepCallbacks(now: int)
      requires Valid()
      modifies this
      ensures Valid()
      ensures userCallbacks == SweptCallbacks(old(userCallbacks), now)
      ensures userRequests == old(userRequests)
    {
      var callbacks0 := userCallbacks;
      var pending := callbacks0.Keys;
      while pending != {}
        invariant pending <= callbacks0.Keys
        invariant userRequests == old(userRequests)
        invariant forall k :: k in userCallbacks <==> k in callbacks0 && (k in pending || KeepRecent(callbacks0[k], now, MAX_AGE) != [])
        invariant forall k :: k in userCallbacks ==>
                    userCallbacks[k] == if k in pending then callbacks0[k] else KeepRecent(callbacks0[k], now, MAX_AGE)
        decreases pending
      {
        // The Map is walked in insertion order; any order gives the same
        // result, since each step decides only the picked entry.
        if forall u :: u !in pending {
          assert false;
        }
        var userId :| userId in pending;
        var validCallbacks := KeepRecent(callbacks0[userId], now, MAX_AGE);
        if |validCallbacks| == 0 {
          userCallbacks := userCallbacks - {userId};
        } else {
          userCallbacks := userCallbacks[userId := validCallbacks];
        }
        pending := pending - {userId};
      }
      assert userCallbacks.Keys == SweptCallbacks(callbacks0, now).Keys;
    }

    /** `getStats` without the memory figure: distinct user keys of either
        map other than `_last` stamps, and the size of each map. */
    function GetStats(): (s: Stats)
      reads this
      requires Valid()
      ensures s.activeUsers == |(set k | k in userRequests && userRequests[k].Window?) + userCallbacks.Keys|
      ensures s.activeUsers <= |userRequests| + |userCallbacks|
      ensures s.totalRequestEntries == |userRequests| && s.totalCallbackEntries == |userCallbacks|
    {
      var active := set k | k in userRequests.Keys + userCallbacks.Keys && !EndsWith(k, LAST_SUFFIX);
      assert active == (set k | k in userRequests && userRequests[k].Window?) + userCallbacks.Keys;
      assert active <= userRequests.Keys + userCallbacks.Keys;
      SubsetCard(active, userRequests.Keys + userCallbacks.Keys);
      Stats(|active|, |userRequests|, |userCallbacks|)
    }
  }

  lemma SubsetCard<T>(a: set<T>, b: set<T>)
    requires a <= b
    ensures |a| <= |b|
  {
    if a != b {
      assert |b| == |a| + |b - a|;
    }
  }
}
