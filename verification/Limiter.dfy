/** The login limiter: failed attempts counted per user name, client address and password change,
    in a table of bounded size. */
module Limiter {
  import opened Wrappers

  // What a bucket is for.  The program keys buckets by a keyed digest of exactly this.
  datatype Key = UserName(name: string) | ClientIP(ip: string) | PasswordChange(user: string)

  datatype Bucket = Bucket(attempts: nat, windowStart: int, lastSeen: int)

  type Table = map<Key, Bucket>

  function Cleaned(b: Table, now: int, window: int): Table {
    map key | key in b && now < b[key].windowStart + window :: b[key]
  }

  predicate OldestUnprotected(b: Table, protected: set<Key>, victim: Key) {
    victim in b && victim !in protected && forall key :: key in b && key !in protected ==> b[victim].lastSeen <= b[key].lastSeen
  }

  /** One failure recorded under one key.  Only a new key in a full table evicts, and then the
      victim is a bucket seen least recently among the unprotected ones. */
  ghost predicate Recorded(b: Table, key: Key, protected: set<Key>, capacity: nat, now: int, after: Table) {
    if key in b then after == b[key := b[key].(attempts := b[key].attempts + 1, lastSeen := now)]
    else if |b| < capacity then after == b[key := Bucket(1, now, now)]
    else exists victim :: OldestUnprotected(b, protected, victim) && after == (b - {victim})[key := Bucket(1, now, now)]
  }

  lemma SizeAfterPut(b: Table, key: Key, bucket: Bucket)
    ensures |b[key := bucket]| == if key in b then |b| else |b| + 1
  {
    assert b[key := bucket].Keys == b.Keys + {key};
    assert |b[key := bucket]| == |b[key := bucket].Keys| && |b| == |b.Keys|;
  }

  lemma SizeAfterRemoval(b: Table, key: Key)
    requires key in b
    ensures |b - {key}| == |b| - 1
  {
    assert (b - {key}).Keys == b.Keys - {key};
    assert |b - {key}| == |(b - {key}).Keys| && |b| == |b.Keys|;
  }

  // The bucket was unprotected and is gone.
  predicate Lost(b: Table, protected: set<Key>, after: Table, victim: Key) {
    victim in b && victim !in protected && victim !in after
  }

  /** The table stays within its capacity, the recorded key is in it, protected keys stay, and no
      other bucket changes. */
  lemma RecordedFacts(b: Table, key: Key, protected: set<Key>, capacity: nat, now: int, after: Table)
    requires Recorded(b, key, protected, capacity, now, after) && |b| <= capacity && key in protected
    ensures |after| <= capacity && key in after
    ensures forall other :: other in after && other != key ==> other in b && after[other] == b[other]
    ensures forall other :: other in b && other in protected ==> other in after
    ensures key !in b && |b| >= capacity <==> exists victim :: Lost(b, protected, after, victim)
  {
    if key in b {
      SizeAfterPut(b, key, b[key].(attempts := b[key].attempts + 1, lastSeen := now));
    } else if |b| < capacity {
      SizeAfterPut(b, key, Bucket(1, now, now));
    } else {
      var victim :| OldestUnprotected(b, protected, victim) && after == (b - {victim})[key := Bucket(1, now, now)];
      assert Lost(b, protected, after, victim);
      SizeAfterRemoval(b, victim);
      SizeAfterPut(b - {victim}, key, Bucket(1, now, now));
    }
  }

  /** In a full table of at least two buckets a new key always finds a victim. */
  lemma VictimExists(b: Table, key: Key, protected: set<Key>)
    requires |b| >= 2 && key !in b && |protected| <= 2 && key in protected
    ensures exists victim :: OldestUnprotected(b, protected, victim)
  {
    var open := b.Keys - protected;
    SubsetSize(b.Keys, open + (protected - {key}));
    assert |b| == |b.Keys| && |open + (protected - {key})| <= |open| + |protected - {key}|;
    OldestExists(b, open);
    var victim :| victim in open && forall other :: other in open ==> b[victim].lastSeen <= b[other].lastSeen;
    assert OldestUnprotected(b, protected, victim);
  }

  lemma {:induction false} SubsetSize(small: set<Key>, large: set<Key>)
    requires small <= large
    ensures |small| <= |large|
  {
    if small != {} {
      var key :| key in small;
      SubsetSize(small - {key}, large - {key});
    }
  }

  lemma {:induction false} OldestExists(b: Table, keys: set<Key>)
    requires keys != {} && keys <= b.Keys
    ensures exists oldest :: oldest in keys && forall other :: other in keys ==> b[oldest].lastSeen <= b[other].lastSeen
    decreases |keys|
  {
    var key :| key in keys;
    var rest := keys - {key};
    if rest == {} {
      assert keys == {key};
      assert key in keys && forall other :: other in keys ==> b[key].lastSeen <= b[other].lastSeen;
    } else {
      OldestExists(b, rest);
      var oldest :| oldest in rest && forall other :: other in rest ==> b[oldest].lastSeen <= b[other].lastSeen;
      var winner := if b[key].lastSeen < b[oldest].lastSeen then key else oldest;
      forall other | other in keys
        ensures b[winner].lastSeen <= b[other].lastSeen
      {
        assert other == key || other in rest;
      }
    }
  }

  // ---------------------------------------------------------------------------------------
  // The naive log

  datatype Event = Failed(keys: set<Key>, at: int) | Cleared(key: Key, at: int) | Checked(at: int)

  /** The times of a key's failures since it was last cleared. */
  function Failures(log: seq<Event>, key: Key): seq<int> {
    if log == [] then []
    else
      var earlier, e := Failures(log[..|log| - 1], key), log[|log| - 1];
      match e
      case Failed(keys, at) => if key in keys then earlier + [at] else earlier
      case Cleared(cleared, _) => if cleared == key then [] else earlier
      case Checked(_) => earlier
  }

  /** The failure that opened the current window: a window opens with the first failure that
      is not within the one before. */
  function Opening(times: seq<int>, window: int): (o: nat)
    requires times != []
    ensures o < |times|
  {
    var n := |times| - 1;
    if n == 0 then 0
    else
      var o := Opening(times[..n], window);
      if times[n] < times[o] + window then o else n
  }

  /** The failures that count against a key at a moment: those of the current window, while it lasts. */
  function Count(log: seq<Event>, key: Key, window: int, now: int): nat {
    var times := Failures(log, key);
    if times == [] || now >= times[Opening(times, window)] + window then 0 else |times| - Opening(times, window)
  }

  predicate Nondecreasing(log: seq<Event>) {
    forall j, k :: 0 <= j < k < |log| ==> log[j].at <= log[k].at
  }

  /** The bucket that the log gives a key. */
  function LoggedBucket(times: seq<int>, window: int): Bucket
    requires times != []
  {
    Bucket(|times| - Opening(times, window), times[Opening(times, window)], times[|times| - 1])
  }

  /** The table agrees with the log on every key, as of the time of the last event: it has the
      log's bucket for each key whose window lasts beyond that time, and no other bucket. */
  ghost predicate Tracks(b: Table, log: seq<Event>, window: int) {
    forall key :: TracksKey(b, log, window, key)
  }

  ghost predicate TracksKey(b: Table, log: seq<Event>, window: int, key: Key) {
    var times := Failures(log, key);
    (key in b ==> times != [] && b[key] == LoggedBucket(times, window)) &&
    (times != [] && (log == [] || log[|log| - 1].at < LoggedBucket(times, window).windowStart + window) ==> key in b)
  }

  lemma CleanedTracks(b: Table, log: seq<Event>, window: int, now: int, key: Key)
    requires TracksKey(b, log, window, key) && (log == [] || log[|log| - 1].at <= now)
    ensures var times := Failures(log, key);
            key in Cleaned(b, now, window) <==> times != [] && now < LoggedBucket(times, window).windowStart + window
    ensures key in Cleaned(b, now, window) ==> Cleaned(b, now, window)[key] == LoggedBucket(Failures(log, key), window)
  {
  }

  lemma CheckTracks(b: Table, log: seq<Event>, window: int, now: int)
    requires Tracks(b, log, window) && (log == [] || log[|log| - 1].at <= now)
    ensures Tracks(Cleaned(b, now, window), log + [Checked(now)], window)
  {
    forall key
      ensures TracksKey(Cleaned(b, now, window), log + [Checked(now)], window, key)
    {
      assert TracksKey(b, log, window, key);
      CleanedTracks(b, log, window, now, key);
      assert (log + [Checked(now)])[..|log|] == log;
    }
  }

  lemma ClearTracks(b: Table, log: seq<Event>, window: int, now: int, cleared: Key)
    requires Tracks(b, log, window) && (log == [] || log[|log| - 1].at <= now)
    ensures Tracks(Cleaned(b, now, window) - {cleared}, log + [Cleared(cleared, now)], window)
  {
    forall key
      ensures TracksKey(Cleaned(b, now, window) - {cleared}, log + [Cleared(cleared, now)], window, key)
    {
      assert TracksKey(b, log, window, key);
      CleanedTracks(b, log, window, now, key);
      assert (log + [Cleared(cleared, now)])[..|log|] == log;
    }
  }

  /** The bucket of a key after one more failure, from the cleaned table's bucket. */
  function Bumped(b: Table, key: Key, now: int): Bucket {
    if key in b then b[key].(attempts := b[key].attempts + 1, lastSeen := now) else Bucket(1, now, now)
  }

  lemma FailureOfKey(b: Table, log: seq<Event>, window: int, now: int, key: Key)
    requires TracksKey(b, log, window, key) && (log == [] || log[|log| - 1].at <= now) && window > 0
    ensures var times := Failures(log, key) + [now];
            LoggedBucket(times, window) == Bumped(Cleaned(b, now, window), key, now) &&
            now < LoggedBucket(times, window).windowStart + window
  {
    CleanedTracks(b, log, window, now, key);
    var earlier := Failures(log, key);
    var times := earlier + [now];
    assert times[..|times| - 1] == earlier;
  }

  /** Recording a failure under some keys, without eviction. */
  lemma FailureTracks(b: Table, log: seq<Event>, window: int, now: int, keys: set<Key>, after: Table)
    requires Tracks(b, log, window) && (log == [] || log[|log| - 1].at <= now) && window > 0
    requires var cleaned := Cleaned(b, now, window);
             after.Keys == cleaned.Keys + keys &&
             forall key :: key in after ==> after[key] == if key in keys then Bumped(cleaned, key, now) else cleaned[key]
    ensures Tracks(after, log + [Failed(keys, now)], window)
  {
    forall key
      ensures TracksKey(after, log + [Failed(keys, now)], window, key)
    {
      assert TracksKey(b, log, window, key);
      CleanedTracks(b, log, window, now, key);
      assert (log + [Failed(keys, now)])[..|log|] == log;
      FailureOfKey(b, log, window, now, key);
    }
  }

  /** The attempts in a cleaned table are the failures that count. */
  lemma AttemptsAreCounted(b: Table, log: seq<Event>, window: int, now: int, key: Key)
    requires Tracks(b, log, window) && (log == [] || log[|log| - 1].at <= now)
    ensures var cleaned := Cleaned(b, now, window);
            Count(log, key, window, now) == if key in cleaned then cleaned[key].attempts else 0
  {
    assert TracksKey(b, log, window, key);
    CleanedTracks(b, log, window, now, key);
  }

  /** In a log of nondecreasing times the current window holds exactly the failures from its
      opening on, and all of them happened within it. */
  lemma {:induction false} WindowHolds(times: seq<int>, window: int)
    requires times != [] && window > 0 && forall j, k :: 0 <= j < k < |times| ==> times[j] <= times[k]
    ensures var o := Opening(times, window);
            forall k :: o <= k < |times| ==> times[o] <= times[k] < times[o] + window
    decreases |times|
  {
    var n := |times| - 1;
    if n > 0 {
      var front := times[..n];
      WindowHolds(front, window);
      var o := Opening(front, window);
      forall k | Opening(times, window) <= k < |times|
        ensures times[Opening(times, window)] <= times[k] < times[Opening(times, window)] + window
      {
        if k < n && Opening(times, window) == o {
          assert front[k] == times[k] && front[o] == times[o];
        }
      }
    }
  }

  /** A success forgives the failures of every spelling of the user name with the same normal form,
      and of nobody else; a failure counts for all those spellings and for the address. */
  lemma NormalFormsShare(log: seq<Event>, normalize: string -> string, user: string, other: string, ip: string, at: int)
    ensures var key := UserName(normalize(other));
            Failures(log + [Cleared(UserName(normalize(user)), at)], key) ==
              (if normalize(user) == normalize(other) then [] else Failures(log, key)) &&
            Failures(log + [Failed({UserName(normalize(user)), ClientIP(ip)}, at)], key) ==
              Failures(log, key) + (if normalize(user) == normalize(other) then [at] else [])
    ensures Failures(log + [Cleared(UserName(normalize(user)), at)], ClientIP(ip)) == Failures(log, ClientIP(ip))
  {
    var cleared, failed := Cleared(UserName(normalize(user)), at), Failed({UserName(normalize(user)), ClientIP(ip)}, at);
    assert (log + [cleared])[..|log|] == log && (log + [failed])[..|log|] == log;
  }

  class LoginLimiter {
    const window: int
    const maxAttempts: nat
    const capacity: nat
    const normalize: string -> string
    var buckets: Table
    // Everything recorded so far, and whether a bucket was ever evicted.
    ghost var log: seq<Event>
    ghost var evicted: bool

    constructor (window: int, maxAttempts: nat, capacity: nat, normalize: string -> string)
      requires window > 0 && maxAttempts > 0 && capacity >= 2
      ensures Valid() && log == [] && buckets == map[] && !evicted
      ensures this.window == window && this.maxAttempts == maxAttempts && this.capacity == capacity
      ensures this.normalize == normalize
    {
      this.window, this.maxAttempts, this.capacity, this.normalize := window, maxAttempts, capacity, normalize;
      buckets, log, evicted := map[], [], false;
    }

    /** The table is never over capacity, and while nothing was evicted and the clock did not go
        back it agrees with the log. */
    ghost predicate Valid()
      reads this
    {
      window > 0 && maxAttempts > 0 && capacity >= 2 && |buckets| <= capacity &&
      (!evicted && Nondecreasing(log) ==> Tracks(buckets, log, window))
    }

    // Whether the log can tell the table's contents, if the next event happens at `now`.
    ghost predicate Known(now: int)
      reads this
    {
      !evicted && Nondecreasing(log) && (log == [] || log[|log| - 1].at <= now)
    }

    function LoginKeys(username: string, ip: string): (Key, Key) {
      (UserName(normalize(username)), ClientIP(ip))
    }

    method CleanupExpired(now: int)
      modifies this`buckets
      ensures buckets == Cleaned(old(buckets), now, window)
    {
      var left := buckets.Keys;
      while left != {}
        invariant left <= old(buckets).Keys
        invariant forall key :: key in buckets ==> key in old(buckets) && buckets[key] == old(buckets)[key]
        invariant forall key :: key in left ==> key in buckets
        invariant forall key :: key in old(buckets) && key !in left ==>
          (key in buckets <==> now < old(buckets)[key].windowStart + window)
        decreases |left|
      {
        var key :| key in left;
        left := left - {key};
        if now >= buckets[key].windowStart + window {
          buckets := buckets - {key};
        }
      }
    }

    method EvictOldest(protected: set<Key>) returns (victim: Option<Key>)
      modifies this`buckets
      ensures victim.Some? ==> OldestUnprotected(old(buckets), protected, victim.value) && buckets == old(buckets) - {victim.value}
      ensures victim.None? ==> buckets == old(buckets) && buckets.Keys <= protected
    {
      var left := buckets.Keys;
      victim := None;
      while left != {}
        invariant left <= buckets.Keys && buckets == old(buckets)
        invariant victim.Some? ==> victim.value in buckets && victim.value !in protected
        invariant forall key :: key in buckets && key !in left && key !in protected ==>
          victim.Some? && buckets[victim.value].lastSeen <= buckets[key].lastSeen
        decreases |left|
      {
        var key :| key in left;
        left := left - {key};
        if key in protected {
          continue;
        }
        if victim.None? || buckets[key].lastSeen < buckets[victim.value].lastSeen {
          victim := Some(key);
        }
      }
      if victim.Some? {
        buckets := buckets - {victim.value};
      }
    }

    /** Records one failure under one key; the table makes room for a new key if it is full. */
    method RecordKey(key: Key, protected: set<Key>, now: int) returns (evicts: bool)
      requires capacity >= 2 && |buckets| <= capacity && key in protected && |protected| <= 2
      modifies this`buckets
      ensures Recorded(old(buckets), key, protected, capacity, now, buckets)
      ensures evicts <==> key !in old(buckets) && |old(buckets)| >= capacity
      ensures evicts <==> exists victim :: Lost(old(buckets), protected, buckets, victim)
      ensures |buckets| <= capacity && key in buckets && forall other :: other in protected && other in old(buckets) ==> other in buckets
    {
      evicts := false;
      if key !in buckets {
        if |buckets| >= capacity {
          VictimExists(buckets, key, protected);
          var victim := EvictOldest(protected);
          evicts := true;
        }
        buckets := buckets[key := Bucket(1, now, now)];
      } else {
        buckets := buckets[key := buckets[key].(attempts := buckets[key].attempts + 1, lastSeen := now)];
      }
      RecordedFacts(old(buckets), key, protected, capacity, now, buckets);
    }

    predicate Exhausted(key: Key)
      reads this
    {
      key in buckets && buckets[key].attempts >= maxAttempts
    }

    /** True when the attempt must be refused: as far as the log can tell, exactly when enough
        failures count against the user name or the address. */
    method Check(username: string, ip: string, now: int) returns (limited: bool)
      requires Valid()
      modifies this
      ensures Valid() && log == old(log) + [Checked(now)] && evicted == old(evicted)
      ensures buckets == Cleaned(old(buckets), now, window)
      ensures var user, client := UserName(normalize(username)), ClientIP(ip);
              (limited <==> (user in buckets && buckets[user].attempts >= maxAttempts) ||
                            (client in buckets && buckets[client].attempts >= maxAttempts)) &&
              (old(Known(now)) ==>
                (limited <==> Count(old(log), user, window, now) >= maxAttempts || Count(old(log), client, window, now) >= maxAttempts))
    {
      var (user, client) := LoginKeys(username, ip);
      CheckedTable(user, now);
      CheckedTable(client, now);
      CleanupExpired(now);
      log := log + [Checked(now)];
      limited := Exhausted(user) || Exhausted(client);
    }

    method CheckPasswordChange(userID: string, now: int) returns (limited: bool)
      requires Valid()
      modifies this
      ensures Valid() && log == old(log) + [Checked(now)] && evicted == old(evicted)
      ensures buckets == Cleaned(old(buckets), now, window)
      ensures var key := PasswordChange(userID); limited <==> key in buckets && buckets[key].attempts >= maxAttempts
      ensures old(Known(now)) ==> (limited <==> Count(old(log), PasswordChange(userID), window, now) >= maxAttempts)
    {
      CheckedTable(PasswordChange(userID), now);
      CleanupExpired(now);
      log := log + [Checked(now)];
      limited := Exhausted(PasswordChange(userID));
    }

    /** What a check sees of a key. */
    lemma CheckedTable(key: Key, now: int)
      requires Valid()
      ensures |Cleaned(buckets, now, window)| <= capacity
      ensures Nondecreasing(log + [Checked(now)]) ==> Nondecreasing(log) && (log == [] || log[|log| - 1].at <= now)
      ensures !evicted && Nondecreasing(log + [Checked(now)]) ==> Tracks(Cleaned(buckets, now, window), log + [Checked(now)], window)
      ensures Known(now) ==>
                Count(log, key, window, now) ==
                if key in Cleaned(buckets, now, window) then Cleaned(buckets, now, window)[key].attempts else 0
    {
      CleanedIsSmaller(buckets, now, window);
      NondecreasingFront(log, Checked(now));
      if Known(now) {
        CheckTracks(buckets, log, window, now);
        AttemptsAreCounted(buckets, log, window, now, key);
      }
    }

    method RecordSuccess(username: string, now: int)
      requires Valid()
      modifies this
      ensures Valid() && log == old(log) + [Cleared(UserName(normalize(username)), now)] && evicted == old(evicted)
      ensures buckets == Cleaned(old(buckets), now, window) - {UserName(normalize(username))}
    {
      Clear(UserName(normalize(username)), now);
    }

    method RecordPasswordChangeSuccess(userID: string, now: int)
      requires Valid()
      modifies this
      ensures Valid() && log == old(log) + [Cleared(PasswordChange(userID), now)] && evicted == old(evicted)
      ensures buckets == Cleaned(old(buckets), now, window) - {PasswordChange(userID)}
    {
      Clear(PasswordChange(userID), now);
    }

    method Clear(key: Key, now: int)
      requires Valid()
      modifies this
      ensures Valid() && log == old(log) + [Cleared(key, now)] && evicted == old(evicted)
      ensures buckets == Cleaned(old(buckets), now, window) - {key}
    {
      CleanedIsSmaller(buckets, now, window);
      NondecreasingFront(log, Cleared(key, now));
      if Known(now) {
        ClearTracks(buckets, log, window, now, key);
      }
      CleanupExpired(now);
      buckets := buckets - {key};
      RemovedIsSmaller(Cleaned(old(buckets), now, window), key);
      log := log + [Cleared(key, now)];
    }

    /** A failed login counts against both its keys; neither is evicted for the other. */
    method RecordFailure(username: string, ip: string, now: int)
      requires Valid()
      modifies this
      ensures Valid()
      ensures var user, client := UserName(normalize(username)), ClientIP(ip);
              log == old(log) + [Failed({user, client}, now)] && user in buckets && client in buckets &&
              exists between ::
                Recorded(Cleaned(old(buckets), now, window), user, {user, client}, capacity, now, between) &&
                Recorded(between, client, {user, client}, capacity, now, buckets)
      ensures var user, client := UserName(normalize(username)), ClientIP(ip);
              evicted <==> old(evicted) || exists victim :: Lost(Cleaned(old(buckets), now, window), {user, client}, buckets, victim)
    {
      hide Tracks, Cleaned, Nondecreasing, Recorded;
      var (user, client) := LoginKeys(username, ip);
      ghost var was, earlier := buckets, log;
      CleanedIsSmaller(was, now, window);
      CleanupExpired(now);
      var first := RecordKey(user, {user, client}, now);
      ghost var between := buckets;
      var second := RecordKey(client, {user, client}, now);
      LoginFailureTracks(was, earlier, window, now, user, client, capacity, between, buckets);
      LostInEither(Cleaned(was, now, window), user, client, capacity, now, between, buckets);
      log := log + [Failed({user, client}, now)];
      evicted := evicted || first || second;
    }

    method RecordPasswordChangeFailure(userID: string, now: int)
      requires Valid()
      modifies this
      ensures Valid() && log == old(log) + [Failed({PasswordChange(userID)}, now)]
      ensures var key := PasswordChange(userID);
              key in buckets && Recorded(Cleaned(old(buckets), now, window), key, {key}, capacity, now, buckets) &&
              (evicted <==> old(evicted) || exists victim :: Lost(Cleaned(old(buckets), now, window), {key}, buckets, victim))
    {
      hide Tracks, Cleaned, Nondecreasing, Recorded;
      var key := PasswordChange(userID);
      ghost var was, earlier := buckets, log;
      CleanedIsSmaller(was, now, window);
      CleanupExpired(now);
      var evicts := RecordKey(key, {key}, now);
      SingleFailureTracks(was, earlier, window, now, key, capacity, buckets);
      log := log + [Failed({key}, now)];
      evicted := evicted || evicts;
    }
  }

  lemma CleanedIsSmaller(b: Table, now: int, window: int)
    ensures |Cleaned(b, now, window)| <= |b|
  {
    SubsetSize(Cleaned(b, now, window).Keys, b.Keys);
    assert |Cleaned(b, now, window)| == |Cleaned(b, now, window).Keys| && |b| == |b.Keys|;
  }

  lemma RemovedIsSmaller(b: Table, key: Key)
    ensures |b - {key}| <= |b|
  {
    SubsetSize((b - {key}).Keys, b.Keys);
    assert |b - {key}| == |(b - {key}).Keys| && |b| == |b.Keys|;
  }

  lemma NondecreasingFront(log: seq<Event>, e: Event)
    ensures Nondecreasing(log + [e]) ==> Nondecreasing(log) && (log == [] || log[|log| - 1].at <= e.at)
  {
    var more := log + [e];
    if Nondecreasing(more) {
      forall j, k | 0 <= j < k < |log|
        ensures log[j].at <= log[k].at
      {
        assert more[j].at <= more[k].at;
      }
      if log != [] {
        assert more[|log| - 1].at <= more[|log|].at;
      }
    }
  }

  lemma RecordedIs(b: Table, key: Key, protected: set<Key>, capacity: nat, now: int, after: Table)
    requires Recorded(b, key, protected, capacity, now, after) && (key in b || |b| < capacity)
    ensures after == b[key := Bumped(b, key, now)]
  {
  }

  /** Two records without eviction. */
  lemma RecordedBoth(cleaned: Table, user: Key, client: Key, capacity: nat, now: int, between: Table, after: Table)
    requires user != client && (user in cleaned || |cleaned| < capacity) && (client in between || |between| < capacity)
    requires Recorded(cleaned, user, {user, client}, capacity, now, between)
    requires Recorded(between, client, {user, client}, capacity, now, after)
    ensures after.Keys == cleaned.Keys + {user, client}
    ensures forall key :: key in after ==> after[key] == if key in {user, client} then Bumped(cleaned, key, now) else cleaned[key]
  {
    hide Recorded;
    RecordedIs(cleaned, user, {user, client}, capacity, now, between);
    RecordedIs(between, client, {user, client}, capacity, now, after);
  }

  /** What a failed login leaves in the log's terms, if it evicted nothing. */
  lemma LoginFailureTracks(b: Table, log: seq<Event>, window: int, now: int, user: Key, client: Key, capacity: nat,
                           between: Table, after: Table)
    requires window > 0 && user != client
    requires Recorded(Cleaned(b, now, window), user, {user, client}, capacity, now, between)
    requires Recorded(between, client, {user, client}, capacity, now, after)
    ensures Nondecreasing(log + [Failed({user, client}, now)]) ==> Nondecreasing(log)
    ensures Tracks(b, log, window) && Nondecreasing(log + [Failed({user, client}, now)]) &&
            (user in Cleaned(b, now, window) || |Cleaned(b, now, window)| < capacity) &&
            (client in between || |between| < capacity) ==>
              Tracks(after, log + [Failed({user, client}, now)], window)
  {
    hide Tracks, Cleaned, Recorded, Nondecreasing;
    var cleaned, e := Cleaned(b, now, window), Failed({user, client}, now);
    NondecreasingFront(log, e);
    if Tracks(b, log, window) && Nondecreasing(log + [e]) &&
       (user in cleaned || |cleaned| < capacity) && (client in between || |between| < capacity)
    {
      RecordedBoth(cleaned, user, client, capacity, now, between, after);
      FailureTracks(b, log, window, now, {user, client}, after);
    }
  }

  lemma SingleFailureTracks(b: Table, log: seq<Event>, window: int, now: int, key: Key, capacity: nat, after: Table)
    requires window > 0 && Recorded(Cleaned(b, now, window), key, {key}, capacity, now, after)
    ensures Nondecreasing(log + [Failed({key}, now)]) ==> Nondecreasing(log)
    ensures Tracks(b, log, window) && Nondecreasing(log + [Failed({key}, now)]) &&
            (key in Cleaned(b, now, window) || |Cleaned(b, now, window)| < capacity) ==>
              Tracks(after, log + [Failed({key}, now)], window)
  {
    hide Tracks, Cleaned, Recorded, Nondecreasing;
    var cleaned, e := Cleaned(b, now, window), Failed({key}, now);
    NondecreasingFront(log, e);
    if Tracks(b, log, window) && Nondecreasing(log + [e]) && (key in cleaned || |cleaned| < capacity) {
      RecordedIs(cleaned, key, {key}, capacity, now, after);
      assert after.Keys == cleaned.Keys + {key};
      FailureTracks(b, log, window, now, {key}, after);
    }
  }

  /** A bucket is lost over both records exactly when one of them evicts. */
  lemma LostInEither(cleaned: Table, user: Key, client: Key, capacity: nat, now: int, between: Table, after: Table)
    requires Recorded(cleaned, user, {user, client}, capacity, now, between)
    requires Recorded(between, client, {user, client}, capacity, now, after)
    ensures (exists victim :: Lost(cleaned, {user, client}, after, victim)) <==>
            (exists victim :: Lost(cleaned, {user, client}, between, victim)) ||
            exists victim :: Lost(between, {user, client}, after, victim)
  {
    var keys := {user, client};
    if victim :| Lost(cleaned, keys, between, victim) {
      assert Lost(cleaned, keys, after, victim);
    }
    if victim :| Lost(between, keys, after, victim) {
      assert Lost(cleaned, keys, after, victim);
    }
    if victim :| Lost(cleaned, keys, after, victim) {
      assert Lost(cleaned, keys, between, victim) || Lost(between, keys, after, victim);
    }
  }
}
