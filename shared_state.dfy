/**
 * The session store of utils/sharedState.js: two maps keyed by user id, one
 * holding the session object and one the time it was last written, with a
 * 30-minute lifetime. Expiry is applied lazily on read and in bulk by an
 * explicit sweep. The clock is a parameter; user id 0 stands for every
 * falsy id.
 */
module SharedState {
  import opened Js
  import opened Sessions

  /** 30 minutes in milliseconds. */
  const STATE_TIMEOUT: int := 30 * 60 * 1000

  /** Strictly older than the lifetime: a session exactly 30 minutes old is still live. */
  predicate IsExpired(stamp: int, now: int) {
    now - stamp > STATE_TIMEOUT
  }

  /** The lazy-expiry test of the read path, which also requires a truthy stamp. */
  predicate ExpiresOnRead(stamps: map<int, int>, userId: int, now: int) {
    userId in stamps && stamps[userId] != 0 && IsExpired(stamps[userId], now)
  }

  /** What a read returns, given the maps before the read. */
  function ReadResult(states: map<int, Session>, stamps: map<int, int>, userId: int, now: int): (r: Option<Session>)
    ensures r.Some? <==> userId != 0 && userId in states && !ExpiresOnRead(stamps, userId, now)
    ensures r.Some? ==> r.value == states[userId]
  {
    if userId == 0 || ExpiresOnRead(stamps, userId, now) then None
    else if userId in states then Some(states[userId])
    else None
  }

  /** The entries a sweep at `now` removes. */
  function ExpiredIds(stamps: map<int, int>, now: int): (ids: set<int>)
    ensures ids <= stamps.Keys
    ensures forall k :: k in stamps ==> (k in ids <==> IsExpired(stamps[k], now))
  {
    set k | k in stamps && IsExpired(stamps[k], now)
  }

  /** The entries of `m` a sweep keeps so far: those not yet visited
      (`pending`) and those whose stamp is still live. */
  function Surviving<V>(m: map<int, V>, stamps: map<int, int>, pending: set<int>, now: int): map<int, V> {
    map k | k in m && k in stamps && (k in pending || !IsExpired(stamps[k], now)) :: m[k]
  }

  /** Visiting one pending entry removes it exactly when it has expired. */
  lemma SurvivingStep<V>(m: map<int, V>, stamps: map<int, int>, pending: set<int>, userId: int, now: int)
    requires userId in pending && userId in stamps
    ensures IsExpired(stamps[userId], now) ==>
              Surviving(m, stamps, pending, now) - {userId} == Surviving(m, stamps, pending - {userId}, now)
    ensures !IsExpired(stamps[userId], now) ==>
              Surviving(m, stamps, pending, now) == Surviving(m, stamps, pending - {userId}, now)
  {
  }

  /** A sweep over stores whose two maps share their keys keeps every entry
      but the expired ones, so the count of stored sessions drops by exactly
      the number swept. */
  lemma SweepCount<V>(m: map<int, V>, stamps: map<int, int>, now: int)
    requires m.Keys == stamps.Keys
    ensures Surviving(m, stamps, {}, now).Keys == m.Keys - ExpiredIds(stamps, now)
    ensures |Surviving(m, stamps, {}, now)| == |m| - |ExpiredIds(stamps, now)|
  {
    var kept := Surviving(m, stamps, {}, now).Keys;
    var gone := ExpiredIds(stamps, now);
    assert kept == m.Keys - gone;
    assert m.Keys == kept + gone && kept * gone == {};
  }

  /** An expired session that no read has touched reads as absent, yet it
      is still stored, so it is still counted until a sweep removes it. */
  lemma ExpiredStillCounted(states: map<int, Session>, stamps: map<int, int>, userId: int, now: int)
    requires states.Keys == stamps.Keys && userId in states
    requires stamps[userId] != 0 && IsExpired(stamps[userId], now)
    ensures ReadResult(states, stamps, userId, now) == None
    ensures userId in ExpiredIds(stamps, now)
    ensures |Surviving(states, stamps, {}, now)| < |states|
  {
    SweepCount(states, stamps, now);
    assert userId in ExpiredIds(stamps, now);
  }

  class SessionStore {
    var userStates: map<int, Session>
    var stateTimestamps: map<int, int>

    /** Both maps are written and deleted together, and never under a falsy id. */
    ghost predicate Valid()
      reads this
    {
      userStates.Keys == stateTimestamps.Keys && 0 !in userStates
    }

    constructor ()
      ensures Valid() && userStates == map[] && stateTimestamps == map[]
    {
      userStates := map[];
      stateTimestamps := map[];
    }

    /** `setUserState`: stores the session and stamps it with `now`. */
    method SetUserState(userId: int, state: Session, now: int) returns (ok: bool)
      requires Valid()
      modifies this
      ensures Valid()
      ensures ok <==> userId != 0
      ensures ok ==> (userStates == old(userStates)[userId := state]
                      && stateTimestamps == old(stateTimestamps)[userId := now])
      ensures !ok ==> userStates == old(userStates) && stateTimestamps == old(stateTimestamps)
      ensures ActiveUserCount() == old(ActiveUserCount()) + (if ok && userId !in old(userStates) then 1 else 0)
    {
      if userId == 0 {
        return false;
      }
      userStates := userStates[userId := state];
      stateTimestamps := stateTimestamps[userId := now];
      return true;
    }

    /** `clearUserState`: removes only this user's two entries. A falsy id
        is refused, and since no entry is stored under it nothing changes. */
    method ClearUserState(userId: int) returns (ok: bool)
      requires Valid()
      modifies this
      ensures Valid()
      ensures ok <==> userId != 0
      ensures userStates == old(userStates) - {userId}
      ensures stateTimestamps == old(stateTimestamps) - {userId}
      ensures ActiveUserCount() == old(ActiveUserCount()) - (if userId in old(userStates) then 1 else 0)
    {
      if userId == 0 {
        return false;
      }
      userStates := userStates - {userId};
      stateTimestamps := stateTimestamps - {userId};
      return true;
    }

    /** `getUserState`: a stamped session older than the lifetime is deleted
        and reads as absent; otherwise the stored session, if any. */
    method GetUserState(userId: int, now: int) returns (state: Option<Session>)
      requires Valid()
      modifies this
      ensures Valid()
      ensures state == ReadResult(old(userStates), old(stateTimestamps), userId, now)
      ensures ExpiresOnRead(old(stateTimestamps), userId, now) ==>
                userStates == old(userStates) - {userId} && stateTimestamps == old(stateTimestamps) - {userId}
      ensures !ExpiresOnRead(old(stateTimestamps), userId, now) ==>
                userStates == old(userStates) && stateTimestamps == old(stateTimestamps)
    {
      if userId == 0 {
        return None;
      }
      if userId in stateTimestamps && stateTimestamps[userId] != 0 && IsExpired(stateTimestamps[userId], now) {
        var _ := ClearUserState(userId);
        return None;
      }
      if userId in userStates {
        return Some(userStates[userId]);
      }
      return None;
    }

    /** `updateUserState`: the live session (or `{}` when there is none)
        shallow-merged with the update, stored and re-stamped. */
    method UpdateUserState(userId: int, updates: Session, now: int) returns (ok: bool)
      requires Valid()
      modifies this
      ensures Valid()
      ensures ok <==> userId != 0
      ensures ok ==>
        var current := ReadResult(old(userStates), old(stateTimestamps), userId, now).GetOr(Empty);
        userStates == old(userStates)[userId := Merge(current, updates)]
        && stateTimestamps == old(stateTimestamps)[userId := now]
      ensures !ok ==> userStates == old(userStates) && stateTimestamps == old(stateTimestamps)
    {
      if userId == 0 {
        return false;
      }
      var current := GetUserState(userId, now);
      ok := SetUserState(userId, Merge(current.GetOr(Empty), updates), now);
    }

    /** `hasUserState`: a read (with its lazy expiry) that reports presence. */
    method HasUserState(userId: int, now: int) returns (has: bool)
      requires Valid()
      modifies this
      ensures Valid()
      ensures has <==> userId != 0 && userId in old(userStates) && !ExpiresOnRead(old(stateTimestamps), userId, now)
      ensures ExpiresOnRead(old(stateTimestamps), userId, now) ==>
                userStates == old(userStates) - {userId} && stateTimestamps == old(stateTimestamps) - {userId}
      ensures !ExpiresOnRead(old(stateTimestamps), userId, now) ==>
                userStates == old(userStates) && stateTimestamps == old(stateTimestamps)
    {
      if userId == 0 {
        return false;
      }
      var state := GetUserState(userId, now);
      has := state.Some?;
    }

    /** `getActiveUserCount`: every stored entry, expired or not, as long as
        no read or sweep has removed it. */
    function ActiveUserCount(): (n: nat)
      reads this
      ensures n == |userStates.Keys|
      ensures Valid() ==> n == |stateTimestamps.Keys|
    {
      |userStates|
    }

    /** `cleanupExpiredStates`: walks a snapshot of the timestamp entries and
        clears each one older than the lifetime. */
    method CleanupExpiredStates(now: int) returns (cleaned: nat)
      requires Valid()
      modifies this
      ensures Valid()
      ensures cleaned == |ExpiredIds(old(stateTimestamps), now)|
      ensures ActiveUserCount() == old(ActiveUserCount()) - cleaned
      ensures stateTimestamps == map k | k in old(stateTimestamps) && !IsExpired(old(stateTimestamps)[k], now) :: old(stateTimestamps)[k]
      ensures userStates == map k | k in old(userStates) && k in old(stateTimestamps) && !IsExpired(old(stateTimestamps)[k], now) :: old(userStates)[k]
    {
      var entries := stateTimestamps;
      var states0 := userStates;
      var pending := entries.Keys;
      ghost var removed: set<int> := {};
      cleaned := 0;
      assert stateTimestamps == Surviving(entries, entries, pending, now);
      assert userStates == Surviving(states0, entries, pending, now);
      while pending != {}
        invariant Valid()
        invariant pending <= entries.Keys
        invariant removed == set k | k in entries && k !in pending && IsExpired(entries[k], now)
        invariant cleaned == |removed|
        invariant stateTimestamps == Surviving(entries, entries, pending, now)
        invariant userStates == Surviving(states0, entries, pending, now)
        decreases pending
      {
        // The Map is walked in insertion order; any order gives the same
        // result, since each step decides only the picked entry.
        if forall u :: u !in pending {
          assert false;
        }
        var userId :| userId in pending;
        SurvivingStep(entries, entries, pending, userId, now);
        SurvivingStep(states0, entries, pending, userId, now);
        if IsExpired(entries[userId], now) {
          var _ := ClearUserState(userId);
          removed := removed + {userId};
          cleaned := cleaned + 1;
        }
        pending := pending - {userId};
      }
      assert removed == ExpiredIds(entries, now);
      SweepCount(states0, entries, now);
    }

    /** `clearAllStates`: clears every stored user and returns how many there were. */
    method ClearAllStates() returns (count: nat)
      requires Valid()
      modifies this
      ensures Valid()
      ensures count == |old(userStates).Keys|
      ensures userStates == map[] && stateTimestamps == map[]
    {
      count := |userStates|;
      var pending := userStates.Keys;
      while pending != {}
        invariant Valid()
        invariant userStates.Keys == pending
        decreases pending
      {
        // Any order of removal empties the store.
        if forall u :: u !in pending {
          assert false;
        }
        var userId :| userId in pending;
        var _ := ClearUserState(userId);
        pending := pending - {userId};
      }
    }
  }

  /** The module's load-time self-test, on any store: a session written and
      read back within its lifetime is returned unchanged. */
  method SetThenGet(store: SessionStore, userId: int, state: Session, at: int, now: int) returns (got: Option<Session>)
    requires store.Valid() && userId != 0
    requires at <= now <= at + STATE_TIMEOUT
    modifies store
    ensures store.Valid()
    ensures got == Some(state)
    ensures store.userStates == old(store.userStates)[userId := state]
  {
    var ok := store.SetUserState(userId, state, at);
    got := store.GetUserState(userId, now);
  }

  /** At exactly the lifetime a session is still live; one millisecond later it is gone. */
  lemma ExpiryBoundary(states: map<int, Session>, userId: int, s: Session, at: int)
    requires userId != 0 && at != 0
    ensures ReadResult(states[userId := s], map[userId := at], userId, at + STATE_TIMEOUT) == Some(s)
    ensures ReadResult(states[userId := s], map[userId := at], userId, at + STATE_TIMEOUT + 1) == None
  {
  }
}
