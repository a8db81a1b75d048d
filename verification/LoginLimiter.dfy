/** The login rate limiter: per-key slices of attempt times, compacted in place, against
    the full history of calls. Times are nanoseconds of a clock that never goes back. */
module LoginLimiter {

  const WINDOW := 60_000_000_000
  const IP_LIMIT: nat := 5
  const USERNAME_LIMIT: nat := 10

  // ----- Histories -----

  datatype Call = Call(ip: string, username: string, now: int)

  /** A key of the attempts map. */
  datatype Key = Key(text: string)

  function IpKey(ip: string): Key { Key("ip:" + ip) }
  function UserKey(username: string): Key { Key("user:" + username) }

  predicate OfKey(c: Call, key: Key) {
    key == IpKey(c.ip) || key == UserKey(c.username)
  }

  /** The times of the calls counted under a key. */
  function Times(calls: seq<Call>, key: Key): seq<int> {
    if calls == [] then []
    else
      var last := calls[|calls| - 1];
      Times(calls[..|calls| - 1], key) + if OfKey(last, key) then [last.now] else []
  }

  /** Those less than a minute before now. */
  function Within(times: seq<int>, now: int): seq<int> {
    if times == [] then []
    else
      var last := times[|times| - 1];
      Within(times[..|times| - 1], now) + if now - last < WINDOW then [last] else []
  }

  /** How many calls under the key are less than a minute before now. */
  function Recent(calls: seq<Call>, key: Key, now: int): nat {
    if calls == [] then 0
    else
      var last := calls[|calls| - 1];
      Recent(calls[..|calls| - 1], key, now) + if OfKey(last, key) && now - last.now < WINDOW then 1 else 0
  }

  lemma {:induction false} WithinCountsRecent(calls: seq<Call>, key: Key, now: int)
    ensures |Within(Times(calls, key), now)| == Recent(calls, key, now)
  {
    if calls != [] {
      var front, last := calls[..|calls| - 1], calls[|calls| - 1];
      WithinCountsRecent(front, key, now);
      WithinAppend(Times(front, key), last.now, now);
      assert calls == front + [last];
      TimesAppend(front, last, key);
    }
  }

  lemma TimesAppend(calls: seq<Call>, c: Call, key: Key)
    ensures Times(calls + [c], key) == if OfKey(c, key) then Times(calls, key) + [c.now] else Times(calls, key)
  {}

  predicate NotAfter(times: seq<int>, now: int) {
    forall i :: 0 <= i < |times| ==> times[i] <= now
  }

  /** Filtering again later is filtering once: what has left the window stays out. */
  lemma {:induction false} WithinLater(times: seq<int>, earlier: int, now: int)
    requires earlier <= now
    ensures Within(Within(times, earlier), now) == Within(times, now)
  {
    if times != [] {
      var front, last := times[..|times| - 1], times[|times| - 1];
      WithinLater(front, earlier, now);
      assert times == front + [last];
      WithinAppend(front, last, earlier);
      WithinAppend(front, last, now);
      WithinAppend(Within(front, earlier), last, now);
    }
  }

  lemma WithinAppend(times: seq<int>, t: int, now: int)
    ensures Within(times + [t], now) == if now - t < WINDOW then Within(times, now) + [t] else Within(times, now)
  {}

  lemma NothingWithin(now: int)
    ensures Within([], now) == []
  {}

  // ----- The limiter -----

  /** The slice is its history filtered to the minute before the last time in it. */
  ghost predicate Fits(s: Slice, h: seq<int>)
    reads s.data
  {
    s.len <= s.data.Length && h != [] && s.data[..s.len] == Within(h, h[|h| - 1])
  }

  function TimesAt(history: map<Key, seq<int>>, key: Key): seq<int> {
    if key in history then history[key] else []
  }

  /** No recorded time is later than now. */
  predicate Until(history: map<Key, seq<int>>, now: int) {
    forall key :: key in history ==> NotAfter(history[key], now)
  }

  lemma RecordedUntil(history: map<Key, seq<int>>, key: Key, now: int)
    requires Until(history, now)
    ensures Until(history[key := TimesAt(history, key) + [now]], now)
  {}

  /** A slice: the first len elements of its backing array. */
  datatype Slice = Slice(data: array<int>, len: nat)

  class Limiter {
    var attempts: map<Key, Slice>
    ghost var history: map<Key, seq<int>>   // every time ever recorded under a key
    ghost var calls: seq<Call>
    ghost var owner: map<array<int>, Key>      // the key each array was made for

    ghost predicate Owns(key: Key, data: array<int>)
      reads `owner
    {
      data in owner && owner[data] == key
    }

    /** Every slice holds its history since a minute before its end, in an array of its own. */
    ghost predicate Valid()
      reads `attempts, `history, `owner, owner.Keys
    {
      attempts.Keys == history.Keys
      && (forall key :: key in attempts ==> Owns(key, attempts[key].data) && Fits(attempts[key], history[key]))
    }

    ghost function HistoryOf(key: Key): seq<int>
      reads `history
    {
      TimesAt(history, key)
    }

    constructor ()
      ensures Valid() && Linked(history, calls) && InTimeOrder(calls) && history == map[] && calls == [] && owner == map[]
    {
      attempts, history, calls, owner := map[], map[], [], map[];
    }

    /** The elements of data[..n] in the window, moved to its front. */
    static method Compact(data: array<int>, n: nat, now: int) returns (w: nat)
      requires n <= data.Length
      modifies data
      ensures w <= n && data[..w] == Within(old(data[..n]), now)
    {
      hide Within;
      w := 0;
      ghost var was := data[..n];
      assert Within(was[..0], now) == [] by { NothingWithin(now); }
      for r := 0 to n
        invariant w <= r
        invariant forall q :: r <= q < n ==> data[q] == was[q]
        invariant data[..w] == Within(was[..r], now)
      {
        var t := data[r];
        WithinAppend(was[..r], t, now);
        assert was[..r + 1] == was[..r] + [t];
        if now - t < WINDOW {
          data[w] := t;
          w := w + 1;
        }
      }
      assert was[..n] == was;
    }

    /** append: in place while there is room, and into a larger copy otherwise. */
    static method Append(data: array<int>, n: nat, t: int) returns (grown: array<int>)
      requires n <= data.Length
      modifies data
      ensures n < grown.Length && grown[..n + 1] == old(data[..n]) + [t]
      ensures grown == data || fresh(grown)
    {
      if n < data.Length {
        grown := data;
      } else {
        grown := new int[2 * n + 1];
        forall i | 0 <= i < n { grown[i] := data[i]; }
      }
      grown[n] := t;
    }

    /** The key's slice, with what has expired dropped and now added. */
    method Slide(key: Key, now: int) returns (s: Slice)
      requires Valid() && Until(history, now)
      modifies if key in attempts then {attempts[key].data} else {}
      ensures s.len <= s.data.Length && s.data[..s.len] == Within(HistoryOf(key) + [now], now)
      ensures (key in attempts && s.data == attempts[key].data) || fresh(s.data)
    {
      hide Within;
      ghost var h := HistoryOf(key);
      WithinAppend(h, now, now);
      var data, n;
      if key in attempts {
        data, n := attempts[key].data, attempts[key].len;
        assert Fits(attempts[key], h);
        WithinLater(h, h[|h| - 1], now);
      } else {
        data, n := new int[0], 0;
        assert data[..0] == [];
        NothingWithin(now);
      }
      var w := Compact(data, n, now);
      var grown := Append(data, w, now);
      s := Slice(grown, w + 1);
    }

    /** Valid, but for the one key whose array has been written to. */
    ghost predicate ValidExcept(key: Key)
      reads `attempts, `history, `owner, owner.Keys
    {
      attempts.Keys == history.Keys
      && (forall k :: k in attempts ==> Owns(k, attempts[k].data) && (k != key ==> Fits(attempts[k], history[k])))
    }

    /** The slice goes back into the map. */
    method PutBack(key: Key, s: Slice, now: int)
      requires ValidExcept(key) && Fits(s, HistoryOf(key) + [now])
      requires s.data in owner ==> owner[s.data] == key
      modifies `attempts, `history, `owner
      ensures Valid() && owner == old(owner)[s.data := key]
      ensures history == old(history)[key := old(HistoryOf(key)) + [now]]
    {
      hide Fits;
      attempts, owner := attempts[key := s], owner[s.data := key];
      history := history[key := HistoryOf(key) + [now]];
    }

    /** bump: drop what has expired, add the attempt, and compare with the limit. */
    method Bump(key: Key, now: int, limit: nat) returns (ok: bool)
      requires Valid() && Until(history, now)
      modifies `attempts, `history, `owner, owner.Keys
      ensures Valid() && Until(history, now)
      ensures fresh(owner.Keys - old(owner.Keys))
      ensures history == old(history)[key := old(HistoryOf(key)) + [now]]
      ensures ok <==> |Within(HistoryOf(key), now)| <= limit
    {
      hide Within, Until;
      RecordedUntil(history, key, now);
      var s := Slide(key, now);
      PutBack(key, s, now);
      ok := s.len <= limit;
    }

    /** allow: true exactly when the call is within both budgets, counting every attempt of
        the last minute under the same IP and under the same username, refused ones too. */
    method Allow(ip: string, username: string, now: int) returns (allowed: bool)
      requires Valid() && Until(history, now) && Linked(history, calls) && InTimeOrder(calls)
      modifies this, owner.Keys
      ensures Valid() && Until(history, now) && Linked(history, calls) && InTimeOrder(calls)
      ensures fresh(owner.Keys - old(owner.Keys))
      ensures calls == old(calls) + [Call(ip, username, now)]
      ensures allowed <==> Allowed(calls, |calls| - 1)
      ensures WithinBudgets(calls)
    {
      hide Within, Until, Linked, Allowed, IpKey, UserKey, TimesAt, InTimeOrder, WithinBudgets, Times, Recent, Valid, SpanHolds;
      RecordedInOrder(history, calls, Call(ip, username, now));
      BudgetsHold(calls + [Call(ip, username, now)]);
      KeysDiffer(ip, username);
      ghost var before := history;
      var ipOk := Bump(IpKey(ip), now, IP_LIMIT);
      var userOk := Bump(UserKey(username), now, USERNAME_LIMIT);
      allowed := ipOk && userOk;
      BothRecorded(before, calls, Call(ip, username, now));
      calls := calls + [Call(ip, username, now)];
    }
  }

  /** The history under each key is what the calls say it is. */
  ghost predicate Linked(history: map<Key, seq<int>>, calls: seq<Call>) {
    forall key :: TimesAt(history, key) == Times(calls, key)
  }

  predicate InTimeOrder(calls: seq<Call>) {
    forall i, j :: 0 <= i < j < |calls| ==> calls[i].now <= calls[j].now
  }

  lemma {:induction false} CallIsInTimes(calls: seq<Call>, i: nat)
    requires i < |calls|
    ensures calls[i].now in Times(calls, IpKey(calls[i].ip))
  {
    var front := calls[..|calls| - 1];
    if i < |front| { CallIsInTimes(front, i); }
  }

  /** A call at or after every recorded time keeps the calls in time order. */
  lemma RecordedInOrder(history: map<Key, seq<int>>, calls: seq<Call>, c: Call)
    requires Until(history, c.now) && Linked(history, calls) && InTimeOrder(calls)
    ensures InTimeOrder(calls + [c])
  {
    hide IpKey, Times;
    forall i | 0 <= i < |calls| ensures calls[i].now <= c.now {
      var key := IpKey(calls[i].ip);
      CallIsInTimes(calls, i);
      assert TimesAt(history, key) == Times(calls, key);
      var at :| 0 <= at < |TimesAt(history, key)| && TimesAt(history, key)[at] == calls[i].now;
    }
  }

  /** Recording a call under its two keys keeps the link, and the two counts decide it. */
  lemma BothRecorded(history: map<Key, seq<int>>, calls: seq<Call>, c: Call)
    requires Linked(history, calls)
    ensures
      var ipKey, userKey, after := IpKey(c.ip), UserKey(c.username), calls + [c];
      var one := history[ipKey := TimesAt(history, ipKey) + [c.now]];
      var both := one[userKey := TimesAt(one, userKey) + [c.now]];
      Linked(both, after)
      && (Allowed(after, |calls|) <==> |Within(TimesAt(one, ipKey), c.now)| <= IP_LIMIT
                                       && |Within(TimesAt(both, userKey), c.now)| <= USERNAME_LIMIT)
  {
    hide Within, Times, Recent, IpKey, UserKey;
    KeysDiffer(c.ip, c.username);
    var ipKey, userKey, after := IpKey(c.ip), UserKey(c.username), calls + [c];
    var one := history[ipKey := TimesAt(history, ipKey) + [c.now]];
    var both := one[userKey := TimesAt(one, userKey) + [c.now]];
    forall key ensures TimesAt(both, key) == Times(after, key) {
      TimesAppend(calls, c, key);
    }
    WithinCountsRecent(after, ipKey, c.now);
    WithinCountsRecent(after, userKey, c.now);
    assert after[..|calls| + 1] == after;
  }

  lemma KeysDiffer(ip: string, username: string)
    ensures IpKey(ip) != UserKey(username)
  {
    assert IpKey(ip).text[0] == 'i' && UserKey(username).text[0] == 'u';
  }

  // ----- What the limiter guarantees -----

  /** The verdict on call i, from the history alone. */
  predicate Allowed(calls: seq<Call>, i: nat)
    requires i < |calls|
  {
    Recent(calls[..i + 1], IpKey(calls[i].ip), calls[i].now) <= IP_LIMIT
    && Recent(calls[..i + 1], UserKey(calls[i].username), calls[i].now) <= USERNAME_LIMIT
  }

  /** Calls lo to hi - 1 under the key that were allowed. */
  function AllowedIn(calls: seq<Call>, lo: nat, hi: nat, key: Key): nat
    requires lo <= hi <= |calls|
    decreases hi - lo
  {
    if lo == hi then 0
    else AllowedIn(calls, lo, hi - 1, key) + if OfKey(calls[hi - 1], key) && Allowed(calls, hi - 1) then 1 else 0
  }

  /** Allowed calls of a span are among the recent calls of its last moment. */
  lemma {:induction false} AllowedAreRecent(calls: seq<Call>, lo: nat, hi: nat, key: Key, now: int)
    requires lo <= hi <= |calls|
    requires forall i :: lo <= i < hi ==> now - calls[i].now < WINDOW
    ensures AllowedIn(calls, lo, hi, key) <= Recent(calls[..hi], key, now)
    decreases hi
  {
    if lo < hi {
      AllowedAreRecent(calls, lo, hi - 1, key, now);
      assert calls[..hi][..hi - 1] == calls[..hi - 1];
    }
  }

  function LimitOf(calls: seq<Call>, i: nat, key: Key): nat
    requires i < |calls|
  {
    if key == IpKey(calls[i].ip) then IP_LIMIT else USERNAME_LIMIT
  }

  lemma {:induction false} AtMostLimit(calls: seq<Call>, lo: nat, hi: nat, key: Key, limit: nat)
    requires InTimeOrder(calls) && lo < hi <= |calls|
    requires calls[hi - 1].now - calls[lo].now < WINDOW
    requires forall i :: lo <= i < hi && OfKey(calls[i], key) ==> LimitOf(calls, i, key) == limit
    ensures AllowedIn(calls, lo, hi, key) <= limit
    decreases hi
  {
    var last := calls[hi - 1];
    if OfKey(last, key) && Allowed(calls, hi - 1) {
      AllowedAreRecent(calls, lo, hi, key, last.now);
      assert LimitOf(calls, hi - 1, key) == limit;
    } else if lo < hi - 1 {
      AtMostLimit(calls, lo, hi - 1, key, limit);
    }
  }

  /** In any span shorter than a minute at most five logins per IP are let through, and at
      most ten per username. */
  lemma SlidingWindow(calls: seq<Call>, lo: nat, hi: nat, ip: string, username: string)
    requires InTimeOrder(calls) && lo < hi <= |calls|
    requires calls[hi - 1].now - calls[lo].now < WINDOW
    ensures AllowedIn(calls, lo, hi, IpKey(ip)) <= IP_LIMIT
    ensures AllowedIn(calls, lo, hi, UserKey(username)) <= USERNAME_LIMIT
  {
    forall i | lo <= i < hi
      ensures OfKey(calls[i], IpKey(ip)) ==> LimitOf(calls, i, IpKey(ip)) == IP_LIMIT
      ensures OfKey(calls[i], UserKey(username)) ==> LimitOf(calls, i, UserKey(username)) == USERNAME_LIMIT
    {
      KeysDiffer(ip, calls[i].username);
      KeysDiffer(calls[i].ip, username);
    }
    AtMostLimit(calls, lo, hi, IpKey(ip), IP_LIMIT);
    AtMostLimit(calls, lo, hi, UserKey(username), USERNAME_LIMIT);
  }

  predicate ShorterThanWindow(calls: seq<Call>, lo: int, hi: int) {
    0 <= lo < hi <= |calls| && calls[hi - 1].now - calls[lo].now < WINDOW
  }

  predicate SpanHolds(calls: seq<Call>, lo: int, hi: int, ip: string, username: string) {
    ShorterThanWindow(calls, lo, hi) ==>
      AllowedIn(calls, lo, hi, IpKey(ip)) <= IP_LIMIT && AllowedIn(calls, lo, hi, UserKey(username)) <= USERNAME_LIMIT
  }

  /** Every span of these calls that is shorter than a minute is within both budgets. */
  ghost predicate WithinBudgets(calls: seq<Call>) {
    forall lo, hi, ip, username :: SpanHolds(calls, lo, hi, ip, username)
  }

  lemma BudgetsHold(calls: seq<Call>)
    requires InTimeOrder(calls)
    ensures WithinBudgets(calls)
  {
    forall lo, hi, ip, username ensures SpanHolds(calls, lo, hi, ip, username) {
      if ShorterThanWindow(calls, lo, hi) { SlidingWindow(calls, lo, hi, ip, username); }
    }
  }

  lemma {:induction false} NoneRecent(calls: seq<Call>, key: Key, now: int)
    requires forall i :: 0 <= i < |calls| && OfKey(calls[i], key) ==> now - calls[i].now >= WINDOW
    ensures Recent(calls, key, now) == 0
  {
    if calls != [] { NoneRecent(calls[..|calls| - 1], key, now); }
  }

  /** After a minute without attempts for either, the next one is let through. */
  lemma QuietMinuteResets(calls: seq<Call>, i: nat)
    requires i < |calls|
    requires forall j :: 0 <= j < i && (OfKey(calls[j], IpKey(calls[i].ip)) || OfKey(calls[j], UserKey(calls[i].username))) ==>
               calls[i].now - calls[j].now >= WINDOW
    ensures Allowed(calls, i)
  {
    assert calls[..i + 1][..i] == calls[..i];
    NoneRecent(calls[..i], IpKey(calls[i].ip), calls[i].now);
    NoneRecent(calls[..i], UserKey(calls[i].username), calls[i].now);
  }

  // ----- The same, as counts of calls -----

  lemma KeysAreExact(c: Call, ip: string, username: string)
    ensures OfKey(c, IpKey(ip)) <==> c.ip == ip
    ensures OfKey(c, UserKey(username)) <==> c.username == username
  {
    KeysDiffer(ip, c.username);
    KeysDiffer(c.ip, username);
    assert IpKey(ip).text[3..] == ip && IpKey(c.ip).text[3..] == c.ip;
    assert UserKey(username).text[5..] == username && UserKey(c.username).text[5..] == c.username;
  }

  lemma {:induction false} RecentIsCount(calls: seq<Call>, key: Key, now: int)
    ensures Recent(calls, key, now) == |set i | 0 <= i < |calls| && OfKey(calls[i], key) && now - calls[i].now < WINDOW|
  {
    var all := set i | 0 <= i < |calls| && OfKey(calls[i], key) && now - calls[i].now < WINDOW;
    if calls == [] {
      assert all == {};
    } else {
      var n := |calls| - 1;
      var front := calls[..n];
      RecentIsCount(front, key, now);
      var rest := set i | 0 <= i < |front| && OfKey(front[i], key) && now - front[i].now < WINDOW;
      assert all == if OfKey(calls[n], key) && now - calls[n].now < WINDOW then rest + {n} else rest;
    }
  }

  /** Call i is let through exactly when at most five calls of the last minute, itself and
      refused ones included, came from its IP, and at most ten named its user. */
  lemma AllowedExactly(calls: seq<Call>, i: nat)
    requires i < |calls|
    ensures Allowed(calls, i) <==>
            |set j | 0 <= j <= i && calls[j].ip == calls[i].ip && calls[i].now - calls[j].now < 60_000_000_000| <= 5
            && |set j | 0 <= j <= i && calls[j].username == calls[i].username && calls[i].now - calls[j].now < 60_000_000_000| <= 10
  {
    hide OfKey, IpKey, UserKey, Recent;
    var c, upTo := calls[i], calls[..i + 1];
    RecentIsCount(upTo, IpKey(c.ip), c.now);
    RecentIsCount(upTo, UserKey(c.username), c.now);
    forall j | 0 <= j <= i
      ensures OfKey(upTo[j], IpKey(c.ip)) <==> calls[j].ip == c.ip
      ensures OfKey(upTo[j], UserKey(c.username)) <==> calls[j].username == c.username
    {
      KeysAreExact(calls[j], c.ip, c.username);
    }
    assert (set j | 0 <= j < |upTo| && OfKey(upTo[j], IpKey(c.ip)) && c.now - upTo[j].now < WINDOW)
        == (set j | 0 <= j <= i && calls[j].ip == c.ip && c.now - calls[j].now < 60_000_000_000);
    assert (set j | 0 <= j < |upTo| && OfKey(upTo[j], UserKey(c.username)) && c.now - upTo[j].now < WINDOW)
        == (set j | 0 <= j <= i && calls[j].username == c.username && c.now - calls[j].now < 60_000_000_000);
  }

  lemma {:induction false} AllowedInIsCount(calls: seq<Call>, lo: nat, hi: nat, key: Key)
    requires lo <= hi <= |calls|
    ensures AllowedIn(calls, lo, hi, key) == |set i: nat | lo <= i < hi && OfKey(calls[i], key) && Allowed(calls, i)|
    decreases hi
  {
    hide Allowed, OfKey;
    var all := set i: nat | lo <= i < hi && OfKey(calls[i], key) && Allowed(calls, i);
    if lo == hi {
      assert all == {};
    } else {
      AllowedInIsCount(calls, lo, hi - 1, key);
      var rest := set i: nat | lo <= i < hi - 1 && OfKey(calls[i], key) && Allowed(calls, i);
      assert all == if OfKey(calls[hi - 1], key) && Allowed(calls, hi - 1) then rest + {hi - 1} else rest;
    }
  }

  /** Of the calls in any span shorter than a minute, at most five from one IP and at most
      ten for one username are let through. */
  lemma FiveAndTen(calls: seq<Call>, lo: nat, hi: nat, ip: string, username: string)
    requires InTimeOrder(calls) && lo < hi <= |calls|
    requires calls[hi - 1].now - calls[lo].now < 60_000_000_000
    ensures |set i: nat | lo <= i < hi && calls[i].ip == ip && Allowed(calls, i)| <= 5
    ensures |set i: nat | lo <= i < hi && calls[i].username == username && Allowed(calls, i)| <= 10
  {
    hide Allowed, OfKey, IpKey, UserKey;
    SlidingWindow(calls, lo, hi, ip, username);
    AllowedInIsCount(calls, lo, hi, IpKey(ip));
    AllowedInIsCount(calls, lo, hi, UserKey(username));
    forall i | lo <= i < hi
      ensures OfKey(calls[i], IpKey(ip)) <==> calls[i].ip == ip
      ensures OfKey(calls[i], UserKey(username)) <==> calls[i].username == username
    {
      KeysAreExact(calls[i], ip, username);
    }
    assert (set i: nat | lo <= i < hi && OfKey(calls[i], IpKey(ip)) && Allowed(calls, i))
        == (set i: nat | lo <= i < hi && calls[i].ip == ip && Allowed(calls, i));
    assert (set i: nat | lo <= i < hi && OfKey(calls[i], UserKey(username)) && Allowed(calls, i))
        == (set i: nat | lo <= i < hi && calls[i].username == username && Allowed(calls, i));
  }
}
