/** The login limiter: fixed-window counters per address and per address and user name, whose
    stale entries are collected from time to time. */
module LoginLimiter {
  datatype Config = Config(ipLimit: int, ipWindow: int, pairLimit: int, pairWindow: int)

  /** Times are nanoseconds; 0 is the zero time, which no clock reads. */
  datatype Entry = Entry(start: int, count: nat)

  datatype Answer = Allowed | IPLimited | PairLimited

  datatype Call = Call(ip: string, username: string, now: int)

  datatype Limiter = Limiter(ips: map<string, Entry>, pairs: map<string, Entry>, nextGC: int)

  predicate ConfigOk(c: Config) { c.ipLimit > 0 && c.ipWindow > 0 && c.pairLimit > 0 && c.pairWindow > 0 }

  // ---- user names ----

  predicate IsSpace(c: char) { c == ' ' || '\t' <= c <= '\r' }

  function LowerChar(c: char): char { if 'A' <= c <= 'Z' then c - 'A' + 'a' else c }

  function ToLower(s: string): string { seq(|s|, i requires 0 <= i < |s| => LowerChar(s[i])) }

  function TrimSpace(s: string): string {
    if s != [] && IsSpace(s[0]) then TrimSpace(s[1..])
    else if s != [] && IsSpace(s[|s| - 1]) then TrimSpace(s[..|s| - 1])
    else s
  }

  function Normalize(username: string): string { ToLower(TrimSpace(username)) }

  function PairKey(ip: string, username: string): string { ip + "\0" + Normalize(username) }

  // ---- one call, as a function ----

  function EntryAt(m: map<string, Entry>, k: string): Entry { if k in m then m[k] else Entry(0, 0) }

  /** incrementWindow */
  function Increment(e: Entry, now: int, window: int): Entry {
    if e.start == 0 || now - e.start >= window then Entry(now, 1) else Entry(e.start, e.count + 1)
  }

  function Collect(m: map<string, Entry>, now: int, window: int): map<string, Entry> {
    map k | k in m && now - m[k].start < window :: m[k]
  }

  function Min(a: int, b: int): int { if a < b then a else b }

  /** The collection that a call may start with. */
  function Collected(s: Limiter, now: int, c: Config): Limiter {
    if s.nextGC == 0 || now >= s.nextGC then
      Limiter(Collect(s.ips, now, c.ipWindow), Collect(s.pairs, now, c.pairWindow), now + Min(c.ipWindow, c.pairWindow))
    else s
  }

  /** The counting part of a call. */
  function Counted(s: Limiter, x: Call, c: Config): (Limiter, Answer) {
    var ip := Increment(EntryAt(s.ips, x.ip), x.now, c.ipWindow);
    var s1 := s.(ips := s.ips[x.ip := ip]);
    if ip.count > c.ipLimit then (s1, IPLimited)
    else
      var key := PairKey(x.ip, x.username);
      var pair := Increment(EntryAt(s.pairs, key), x.now, c.pairWindow);
      (s1.(pairs := s1.pairs[key := pair]), if pair.count > c.pairLimit then PairLimited else Allowed)
  }

  /** Allow, with the collection or without. */
  function Step(s: Limiter, x: Call, c: Config, gc: bool): (Limiter, Answer) {
    Counted(if gc then Collected(s, x.now, c) else s, x, c)
  }

  function Answers(s: Limiter, calls: seq<Call>, c: Config, gc: bool): (out: seq<Answer>)
    ensures |out| == |calls|
    decreases |calls|
  {
    if calls == [] then []
    else
      var step := Step(s, calls[0], c, gc);
      [step.1] + Answers(step.0, calls[1..], c, gc)
  }

  function NewLimiter(): Limiter { Limiter(map[], map[], 0) }

  /** The calls in the order the lock admits them. Each reads its clock before it takes the lock, so
      times may go back, here by at most `slack`; top is the latest time so far. */
  ghost predicate Near(calls: seq<Call>, top: int, slack: nat)
    decreases |calls|
  {
    calls == []
    || (calls[0].now > 0 && calls[0].now >= top - slack && Near(calls[1..], Max(top, calls[0].now), slack))
  }

  function Max(a: int, b: int): int { if a < b then b else a }

  // ---- the object ----

  class LoginProtector {
    const config: Config
    var ips: map<string, Entry>
    var pairs: map<string, Entry>
    var nextGC: int

    function Value(): Limiter
      reads this
    {
      Limiter(ips, pairs, nextGC)
    }

    constructor (config: Config)
      requires ConfigOk(config)
      ensures Value() == NewLimiter() && this.config == config
    {
      this.config := config;
      ips, pairs, nextGC := map[], map[], 0;
    }

    /** cleanupLocked */
    method Cleanup(now: int)
      modifies this`ips, this`pairs
      ensures ips == Collect(old(ips), now, config.ipWindow)
      ensures pairs == Collect(old(pairs), now, config.pairWindow)
    {
      ips := CleanOne(ips, now, config.ipWindow);
      pairs := CleanOne(pairs, now, config.pairWindow);
    }

    /** One of its two loops, over the keys in any order. */
    static method CleanOne(m: map<string, Entry>, now: int, window: int) returns (out: map<string, Entry>)
      ensures out == Collect(m, now, window)
    {
      out := m;
      var rest := m.Keys;
      while rest != {}
        invariant rest <= m.Keys
        invariant forall k :: k in out <==> k in m && (k in rest || now - m[k].start < window)
        invariant forall k :: k in out ==> out[k] == m[k]
      {
        var k :| k in rest;
        if now - m[k].start >= window {
          out := out - {k};
        }
        rest := rest - {k};
      }
    }

    method Allow(ip: string, username: string, now: int) returns (answer: Answer)
      modifies this
      ensures (Value(), answer) == Step(old(Value()), Call(ip, username, now), config, true)
    {
      if nextGC == 0 || now >= nextGC {
        Cleanup(now);
        nextGC := now + Min(config.ipWindow, config.pairWindow);
      }
      var ipState := Increment(EntryAt(ips, ip), now, config.ipWindow);
      ips := ips[ip := ipState];
      if ipState.count > config.ipLimit {
        return IPLimited;
      }
      var pairKey := PairKey(ip, username);
      var pairState := Increment(EntryAt(pairs, pairKey), now, config.pairWindow);
      pairs := pairs[pairKey := pairState];
      if pairState.count > config.pairLimit {
        return PairLimited;
      }
      answer := Allowed;
    }
  }

  // ---- when collection can be observed ----

  /** m lacks some entries of full, and otherwise has the same. */
  ghost predicate Part(m: map<string, Entry>, full: map<string, Entry>) {
    forall k :: EntryAt(m, k) == EntryAt(full, k) || k !in m
  }

  /** And what it lacks is stale at time `now`. */
  ghost predicate Alike(m: map<string, Entry>, full: map<string, Entry>, now: int, window: int) {
    forall k :: KeyAlike(m, full, now, window, k)
  }

  predicate KeyAlike(m: map<string, Entry>, full: map<string, Entry>, now: int, window: int, k: string) {
    EntryAt(m, k) == EntryAt(full, k) || (k !in m && now - EntryAt(full, k).start >= window)
  }

  /** Entries a limiter makes: begun at a real time, by a call that was counted. */
  ghost predicate Genuine(m: map<string, Entry>) { forall k :: k in m ==> m[k].start > 0 && m[k].count > 0 }

  ghost predicate SameCounts(m: map<string, Entry>, full: map<string, Entry>, now: int, window: int) {
    forall k :: Increment(EntryAt(m, k), now, window) == Increment(EntryAt(full, k), now, window)
  }

  /** The two maps give every key the same count at a time exactly when whatever m lacks is stale then. */
  lemma {:induction false} AlikeExact(m: map<string, Entry>, full: map<string, Entry>, now: int, window: int)
    requires Part(m, full) && Genuine(full)
    ensures SameCounts(m, full, now, window) <==> Alike(m, full, now, window)
  {
    forall k
      ensures KeyAlike(m, full, now, window, k)
              <==> Increment(EntryAt(m, k), now, window) == Increment(EntryAt(full, k), now, window)
    {
    }
  }

  /** A collection at time t cannot be seen at time t', by any key, exactly when each entry stale
      at t is still stale at t'. */
  lemma {:induction false} CollectExact(m: map<string, Entry>, t: int, t': int, window: int)
    requires Genuine(m)
    ensures SameCounts(Collect(m, t, window), m, t', window)
            <==> forall k :: k in m && t - m[k].start >= window ==> t' - m[k].start >= window
  {
    AlikeExact(Collect(m, t, window), m, t', window);
    assert forall k :: k in m ==>
      (KeyAlike(Collect(m, t, window), m, t', window, k) <==> (t - m[k].start >= window ==> t' - m[k].start >= window));
  }

  // ---- both limiters side by side ----

  ghost predicate StatesAlike(s: Limiter, full: Limiter, now: int, c: Config) {
    Alike(s.ips, full.ips, now, c.ipWindow) && Alike(s.pairs, full.pairs, now, c.pairWindow)
  }

  /** At every call all that was collected before is stale. */
  ghost predicate StaleGone(s: Limiter, full: Limiter, calls: seq<Call>, c: Config)
    decreases |calls|
  {
    calls == []
    || (StatesAlike(s, full, calls[0].now, c)
        && StaleGone(Step(s, calls[0], c, true).0, Step(full, calls[0], c, false).0, calls[1..], c))
  }

  /** At every call the two limiters would give every key the same count. */
  ghost predicate CountAlike(s: Limiter, full: Limiter, calls: seq<Call>, c: Config)
    decreases |calls|
  {
    calls == []
    || (SameCounts(s.ips, full.ips, calls[0].now, c.ipWindow)
        && SameCounts(s.pairs, full.pairs, calls[0].now, c.pairWindow)
        && CountAlike(Step(s, calls[0], c, true).0, Step(full, calls[0], c, false).0, calls[1..], c))
  }

  ghost predicate Sound(s: Limiter, full: Limiter) {
    Part(s.ips, full.ips) && Part(s.pairs, full.pairs) && Genuine(full.ips) && Genuine(full.pairs)
  }

  /** Collecting at `now` what is alike at `last` leaves it alike at `now`. */
  lemma {:induction false} CollectAlike(m: map<string, Entry>, full: map<string, Entry>, last: int, now: int,
                                        window: int)
    requires Alike(m, full, last, window) && last <= now
    ensures Alike(Collect(m, now, window), full, now, window)
  {
    forall k
      ensures KeyAlike(Collect(m, now, window), full, now, window, k)
    {
      assert KeyAlike(m, full, last, window, k);
    }
  }

  lemma {:induction false} LaterAlike(m: map<string, Entry>, full: map<string, Entry>, now: int, later: int,
                                      window: int)
    requires Alike(m, full, now, window) && now <= later
    ensures Alike(m, full, later, window)
  {
    forall k
      ensures KeyAlike(m, full, later, window, k)
    {
      assert KeyAlike(m, full, now, window, k);
    }
  }

  /** Counting a key whose missing entry is stale gives the same count, and keeps the rest alike. */
  lemma {:induction false} IncrementAlike(m: map<string, Entry>, full: map<string, Entry>, last: int, now: int,
                                          window: int,
                                          key: string)
    requires Alike(m, full, last, window) && KeyAlike(m, full, now, window, key)
    ensures var e, f := Increment(EntryAt(m, key), now, window), Increment(EntryAt(full, key), now, window);
            e == f && Alike(m[key := e], full[key := f], last, window)
  {
    var e, f := Increment(EntryAt(m, key), now, window), Increment(EntryAt(full, key), now, window);
    var m', full' := m[key := e], full[key := f];
    forall k
      ensures KeyAlike(m', full', last, window, k)
    {
      assert KeyAlike(m, full, last, window, k);
    }
  }

  /** last is the time of the last collection. */
  function LastCollection(s: Limiter, last: int, now: int): int {
    if s.nextGC == 0 || now >= s.nextGC then now else last
  }

  lemma {:induction false} StepAlike(s: Limiter, full: Limiter, x: Call, c: Config, last: int)
    requires StatesAlike(s, full, last, c) && last <= x.now
    ensures Step(s, x, c, true).1 == Step(full, x, c, false).1
    ensures StatesAlike(Step(s, x, c, true).0, Step(full, x, c, false).0, LastCollection(s, last, x.now), c)
  {
    hide Alike, KeyAlike, Increment, Collect, PairKey;
    var s1, since := Collected(s, x.now, c), LastCollection(s, last, x.now);
    CollectAlike(s.ips, full.ips, last, x.now, c.ipWindow);
    CollectAlike(s.pairs, full.pairs, last, x.now, c.pairWindow);
    AlikeAt(s1.ips, full.ips, since, x.now, c.ipWindow, x.ip);
    AlikeAt(s1.pairs, full.pairs, since, x.now, c.pairWindow, PairKey(x.ip, x.username));
    IncrementAlike(s1.ips, full.ips, since, x.now, c.ipWindow, x.ip);
    IncrementAlike(s1.pairs, full.pairs, since, x.now, c.pairWindow, PairKey(x.ip, x.username));
  }

  lemma {:induction false} AlikeAt(m: map<string, Entry>, full: map<string, Entry>, last: int, now: int,
                                   window: int, k: string)
    requires Alike(m, full, last, window) && last <= now
    ensures KeyAlike(m, full, now, window, k)
  {
    assert KeyAlike(m, full, last, window, k);
  }

  /** No call reads a time before a collection that an earlier call made. */
  ghost predicate AfterCollections(s: Limiter, calls: seq<Call>, c: Config, last: int)
    decreases |calls|
  {
    calls == []
    || (calls[0].now > 0 && calls[0].now >= last
        && AfterCollections(Step(s, calls[0], c, true).0, calls[1..], c, LastCollection(s, last, calls[0].now)))
  }

  /** In such a series nothing collected is missed, and every answer is that of a limiter that
      never collects. */
  lemma {:induction false} AnswersAlike(s: Limiter, full: Limiter, calls: seq<Call>, c: Config, last: int)
    requires StatesAlike(s, full, last, c) && AfterCollections(s, calls, c, last)
    ensures Answers(s, calls, c, true) == Answers(full, calls, c, false) && StaleGone(s, full, calls, c)
    decreases |calls|
  {
    hide Step, Alike;
    if calls != [] {
      var x := calls[0];
      LaterAlike(s.ips, full.ips, last, x.now, c.ipWindow);
      LaterAlike(s.pairs, full.pairs, last, x.now, c.pairWindow);
      StepAlike(s, full, x, c, last);
      AnswersAlike(Step(s, x, c, true).0, Step(full, x, c, false).0, calls[1..], c, LastCollection(s, last, x.now));
    }
  }

  lemma {:induction false} CollectionInvisible(calls: seq<Call>, c: Config)
    requires AfterCollections(NewLimiter(), calls, c, 0)
    ensures Answers(NewLimiter(), calls, c, true) == Answers(NewLimiter(), calls, c, false)
  {
    AnswersAlike(NewLimiter(), NewLimiter(), calls, c, 0);
  }

  /** A clock that never goes back gives such a series. */
  lemma {:induction false} SteadyClock(s: Limiter, calls: seq<Call>, c: Config, last: int, top: int)
    requires Near(calls, top, 0) && last <= top
    ensures AfterCollections(s, calls, c, last)
    decreases |calls|
  {
    hide Step;
    if calls != [] {
      var x := calls[0];
      SteadyClock(Step(s, x, c, true).0, calls[1..], c, LastCollection(s, last, x.now), Max(top, x.now));
    }
  }

  /** Over any series of calls at real times: the two limiters count alike at every call, for every
      key there is, if and only if all that was collected is stale at every call; and then they
      answer alike. */
  lemma {:induction false} CollectionExact(calls: seq<Call>, c: Config)
    requires forall i :: 0 <= i < |calls| ==> calls[i].now > 0
    ensures CountAlike(NewLimiter(), NewLimiter(), calls, c) <==> StaleGone(NewLimiter(), NewLimiter(), calls, c)
    ensures StaleGone(NewLimiter(), NewLimiter(), calls, c) ==>
              Answers(NewLimiter(), calls, c, true) == Answers(NewLimiter(), calls, c, false)
  {
    CountsExact(NewLimiter(), NewLimiter(), calls, c);
  }

  lemma {:induction false} CountsExact(s: Limiter, full: Limiter, calls: seq<Call>, c: Config)
    requires Sound(s, full) && forall i :: 0 <= i < |calls| ==> calls[i].now > 0
    ensures CountAlike(s, full, calls, c) <==> StaleGone(s, full, calls, c)
    ensures StaleGone(s, full, calls, c) ==> Answers(s, calls, c, true) == Answers(full, calls, c, false)
    decreases |calls|
  {
    hide Step, SameCounts, Alike, Part, Genuine;
    if calls != [] {
      var x := calls[0];
      AlikeExact(s.ips, full.ips, x.now, c.ipWindow);
      AlikeExact(s.pairs, full.pairs, x.now, c.pairWindow);
      if StatesAlike(s, full, x.now, c) {
        StepSound(s, full, x, c);
        CountsExact(Step(s, x, c, true).0, Step(full, x, c, false).0, calls[1..], c);
      }
    }
  }

  lemma {:induction false} StepSound(s: Limiter, full: Limiter, x: Call, c: Config)
    requires Sound(s, full) && x.now > 0 && StatesAlike(s, full, x.now, c)
    ensures Sound(Step(s, x, c, true).0, Step(full, x, c, false).0)
    ensures Step(s, x, c, true).1 == Step(full, x, c, false).1
  {
    hide PairKey, Increment, KeyAlike;
    var s1 := Collected(s, x.now, c);
    PartOne(s1.ips, s.ips, full.ips, x.now, c.ipWindow, x.ip);
    PartOne(s1.pairs, s.pairs, full.pairs, x.now, c.pairWindow, PairKey(x.ip, x.username));
  }

  lemma {:induction false} PartOne(m1: map<string, Entry>, m: map<string, Entry>, full: map<string, Entry>,
                                   now: int, window: int,
                                   key: string)
    requires (m1 == m || m1 == Collect(m, now, window)) && Part(m, full) && Genuine(full) && now > 0
    requires Alike(m, full, now, window)
    ensures Part(m1, full) && Increment(EntryAt(m1, key), now, window) == Increment(EntryAt(full, key), now, window)
    ensures var e := Increment(EntryAt(full, key), now, window);
            Part(m1[key := e], full[key := e]) && Genuine(full[key := e])
  {
    assert KeyAlike(m, full, now, window, key);
    var e := Increment(EntryAt(full, key), now, window);
    var m', full' := m1[key := e], full[key := e];
    forall k
      ensures EntryAt(m', k) == EntryAt(full', k) || k !in m'
    {
      assert EntryAt(m, k) == EntryAt(full, k) || k !in m;
    }
  }

  /** One nanosecond back is enough, under any limits: the address's full entry has been collected,
      at a time at which it is stale, and a call from just before that time is let through. */
  lemma {:induction false} BackwardClockShows(c: Config) returns (calls: seq<Call>)
    requires ConfigOk(c)
    ensures Near(calls, 0, 1) && Answers(NewLimiter(), calls, c, true) != Answers(NewLimiter(), calls, c, false)
  {
    var a, b, late := Call("a", "u", 1), Call("b", "u", 1 + c.ipWindow), Call("a", "u", c.ipWindow);
    var burst := Repeat(a, c.ipLimit);
    calls := burst + [b, late];
    NearBurst(a, c.ipLimit, [b, late], 1);
    LastAnswer(burst, b, late, c, true);
    LastAnswer(burst, b, late, c, false);
    AfterBurst(NewLimiter(), a, c, true, c.ipLimit);
    AfterBurst(NewLimiter(), a, c, false, c.ipLimit);
    LateCall(After(NewLimiter(), burst, c, true), After(NewLimiter(), burst, c, false), b, late, c);
  }

  function Repeat(x: Call, n: nat): (calls: seq<Call>)
    ensures |calls| == n
  {
    if n == 0 then [] else [x] + Repeat(x, n - 1)
  }

  function After(s: Limiter, calls: seq<Call>, c: Config, gc: bool): Limiter
    decreases |calls|
  {
    if calls == [] then s else After(Step(s, calls[0], c, gc).0, calls[1..], c, gc)
  }

  lemma {:induction false} NearBurst(x: Call, n: nat, rest: seq<Call>, slack: nat)
    requires 0 < x.now && Near(rest, x.now, slack) && n > 0
    ensures Near(Repeat(x, n) + rest, 0, slack) && Near(Repeat(x, n) + rest, x.now, slack)
  {
    assert (Repeat(x, n) + rest)[1..] == Repeat(x, n - 1) + rest;
    if n > 1 {
      NearBurst(x, n - 1, rest, slack);
    } else {
      assert Repeat(x, 0) + rest == rest;
    }
  }

  lemma {:induction false} AnswersSplit(s: Limiter, first: seq<Call>, rest: seq<Call>, c: Config, gc: bool)
    ensures Answers(s, first + rest, c, gc) == Answers(s, first, c, gc) + Answers(After(s, first, c, gc), rest, c, gc)
    decreases |first|
  {
    hide Step;
    if first == [] {
      assert first + rest == rest;
    } else {
      assert (first + rest)[1..] == first[1..] + rest;
      AnswersSplit(Step(s, first[0], c, gc).0, first[1..], rest, c, gc);
    }
  }

  lemma {:induction false} LastAnswer(burst: seq<Call>, b: Call, late: Call, c: Config, gc: bool)
    ensures var s := After(NewLimiter(), burst, c, gc);
            Answers(NewLimiter(), burst + [b, late], c, gc)[|burst| + 1] == Step(Step(s, b, c, gc).0, late, c, gc).1
  {
    hide Step;
    var s := After(NewLimiter(), burst, c, gc);
    AnswersSplit(NewLimiter(), burst, [b, late], c, gc);
    assert Answers(s, [b, late], c, gc)[1..] == Answers(Step(s, b, c, gc).0, [late], c, gc);
  }

  /** n more calls at one time, no more than the limit in all, add n to the address's count. */
  lemma {:induction false} AfterBurst(s: Limiter, x: Call, c: Config, gc: bool, n: nat)
    requires ConfigOk(c) && x.now > 0 && n > 0
    requires s == NewLimiter() || (x.ip in s.ips && s.ips[x.ip].start == x.now
                                   && s.nextGC == if gc then x.now + Min(c.ipWindow, c.pairWindow) else 0)
    ensures var s', base := After(s, Repeat(x, n), c, gc), if x.ip in s.ips then s.ips[x.ip].count else 0;
            x.ip in s'.ips && s'.ips[x.ip] == Entry(x.now, base + n)
            && s'.nextGC == if gc then x.now + Min(c.ipWindow, c.pairWindow) else 0
    decreases n
  {
    hide PairKey;
    if n > 1 {
      AfterBurst(Step(s, x, c, gc).0, x, c, gc, n - 1);
    }
  }

  lemma {:induction false} LateCall(s: Limiter, full: Limiter, b: Call, late: Call, c: Config)
    requires ConfigOk(c) && b.ip != late.ip && b.now == 1 + c.ipWindow && late.now == c.ipWindow
    requires late.ip in s.ips && late.ip in full.ips && s.ips[late.ip] == full.ips[late.ip] == Entry(1, c.ipLimit)
    requires s.nextGC == 1 + Min(c.ipWindow, c.pairWindow)
    ensures Step(Step(s, b, c, true).0, late, c, true).1 != Step(Step(full, b, c, false).0, late, c, false).1
  {
    hide PairKey;
    var s', full' := Step(s, b, c, true).0, Step(full, b, c, false).0;
    assert late.ip !in s'.ips && full'.ips[late.ip] == Entry(1, c.ipLimit);
  }

  // ---- a sliding bound from fixed windows ----

  /** What a limiter counts calls by: the address, or the address and the normalised name. */
  datatype Key = Ip(ip: string) | Pair(pairKey: string)

  predicate Touches(x: Call, k: Key) {
    match k case Ip(ip) => x.ip == ip case Pair(key) => PairKey(x.ip, x.username) == key
  }

  /** The call got past this key's check. */
  predicate Passed(a: Answer, k: Key) { if k.Ip? then a != IPLimited else a == Allowed }

  /** How many calls for the key got past its check in a <= time < a + width. */
  function Passes(calls: seq<Call>, answers: seq<Answer>, k: Key, a: int, width: int): nat
    requires |calls| == |answers|
    decreases |calls|
  {
    if calls == [] then 0
    else
      (if Touches(calls[0], k) && Passed(answers[0], k) && a <= calls[0].now < a + width then 1 else 0)
      + Passes(calls[1..], answers[1..], k, a, width)
  }

  function EntryOf(s: Limiter, k: Key): Entry {
    match k case Ip(ip) => EntryAt(s.ips, ip) case Pair(key) => EntryAt(s.pairs, key)
  }

  function LimitOf(c: Config, k: Key): int { if k.Ip? then c.ipLimit else c.pairLimit }
  function WindowOf(c: Config, k: Key): int { if k.Ip? then c.ipWindow else c.pairWindow }

  lemma {:induction false} CollectedEntry(s: Limiter, now: int, c: Config, k: Key)
    ensures var e, e' := EntryOf(s, k), EntryOf(Collected(s, now, c), k);
            e' == e || (e' == Entry(0, 0) && now - e.start >= WindowOf(c, k))
  {
  }

  /** A call leaves the key's entry alone or collects it, or counts it and passes only within the limit. */
  lemma {:induction false} StepEntry(s: Limiter, x: Call, c: Config, k: Key)
    requires ConfigOk(c)
    ensures var step := Step(s, x, c, true);
            var s', answer := step.0, step.1;
            var e, e' := EntryOf(s, k), EntryOf(s', k);
            || ((e' == e || (e' == Entry(0, 0) && x.now - e.start >= WindowOf(c, k)))
                && !(Touches(x, k) && Passed(answer, k)))
            || (e' == Increment(e, x.now, WindowOf(c, k))
                && (Touches(x, k) && Passed(answer, k) <==> e'.count <= LimitOf(c, k)))
  {
    hide PairKey, Collected;
    CollectedEntry(s, x.now, c, k);
  }

  /** How many windows of a key can hold calls of one interval, when times go back by at most `slack`. */
  function Windows(window: int, slack: nat): nat
    requires slack < window
  {
    1 + (2 * window + slack - 2) / (window - slack)
  }

  /** How many more windows can begin in time, after one that began at x. */
  function More(x: int, a: int, window: int, slack: nat): nat
    requires slack < window
  {
    if x >= a + window + slack then 0 else (a + window + slack - 1 - x) / (window - slack)
  }

  lemma {:induction false} NextWindow(x: int, y: int, a: int, window: int, slack: nat)
    requires slack < window && x + (window - slack) <= y < a + window + slack
    ensures More(x, a, window, slack) >= 1 + More(y, a, window, slack)
  {
    var w, n := window - slack, a + window + slack - 1 - y;
    DivNext(n, n + (y - x), w);
  }

  lemma {:induction false} FirstWindow(x: int, a: int, window: int, slack: nat)
    requires slack < window && a - window + 1 <= x
    ensures 1 + More(x, a, window, slack) <= Windows(window, slack)
  {
    if x < a + window + slack {
      DivMonotone(a + window + slack - 1 - x, 2 * window + slack - 2, window - slack);
    }
  }

  lemma {:induction false} DivMonotone(x: nat, y: nat, w: nat)
    requires x <= y && 0 < w
    ensures x / w <= y / w
  {
    if x / w > y / w {
      Times(w, y / w + 1, x / w);
      assert false;
    }
  }

  lemma {:induction false} DivNext(x: nat, y: nat, w: nat)
    requires x + w <= y && 0 < w
    ensures x / w + 1 <= y / w
  {
    if x / w + 1 > y / w {
      Times(w, y / w, x / w);
      assert false;
    }
  }

  lemma {:induction false} Times(limit: nat, x: nat, y: nat)
    requires x <= y
    ensures limit * x <= limit * y
  {
  }

  /** began is where the key's last window began, 0 if there was none; its entry holds that window's
      count, or has been collected at some time since. */
  ghost predicate LastWindow(e: Entry, began: int, top: int, window: int) {
    if began == 0 then e == Entry(0, 0)
    else 0 < began <= top && ((e == Entry(0, 0) && began + window <= top) || (e.start == began && e.count > 0))
  }

  /** How many calls in a <= time < a + window can still get past the key's check. */
  function Budget(e: Entry, began: int, top: int, a: int, limit: nat, window: int, slack: nat): nat
    requires slack < window
  {
    if top >= a + window + slack then 0
    else if began == 0 || began < a - window + 1 then limit * Windows(window, slack)
    else (if e.start == 0 then 0 else limit - Min(e.count, limit)) + limit * More(began, a, window, slack)
  }

  /** A counted call pays for itself. */
  lemma {:induction false} CountPays(e: Entry, began: int, top: int, a: int, limit: nat, window: int, slack: nat,
                                     now: int)
    requires slack < window && limit > 0 && now > 0 && now >= top - slack && LastWindow(e, began, top, window)
    ensures var e', top' := Increment(e, now, window), Max(top, now);
            var here := if e'.count <= limit && a <= now < a + window then 1 else 0;
            LastWindow(e', e'.start, top', window)
            && here + Budget(e', e'.start, top', a, limit, window, slack)
               <= Budget(e, began, top, a, limit, window, slack)
  {
    hide More, Windows;
    var e', top' := Increment(e, now, window), Max(top, now);
    if top' < a + window + slack && e'.start != e.start && began != 0 && began >= a - window + 1 {
      NextWindow(began, now, a, window, slack);
      Times(limit, 1 + More(now, a, window, slack), More(began, a, window, slack));
    } else if top' < a + window + slack && e'.start >= a - window + 1 && (began == 0 || began < a - window + 1) {
      FirstWindow(e'.start, a, window, slack);
      Times(limit, 1 + More(e'.start, a, window, slack), Windows(window, slack));
    }
  }

  lemma {:induction false} CallPays(e: Entry, e': Entry, began: int, top: int, a: int, limit: nat, window: int,
                                    slack: nat,
                                    now: int, here: nat) returns (began': int)
    requires slack < window && limit > 0 && now > 0 && now >= top - slack && LastWindow(e, began, top, window)
    requires || ((e' == e || (e' == Entry(0, 0) && now - e.start >= window)) && here == 0)
             || (e' == Increment(e, now, window) && here <= if e'.count <= limit && a <= now < a + window then 1 else 0)
    ensures LastWindow(e', began', Max(top, now), window)
    ensures here + Budget(e', began', Max(top, now), a, limit, window, slack)
            <= Budget(e, began, top, a, limit, window, slack)
  {
    if e' == Increment(e, now, window) {
      CountPays(e, began, top, a, limit, window, slack, now);
      began' := e'.start;
    } else {
      hide More, Windows;
      began' := began;
    }
  }

  lemma {:induction false} PassesWithin(s: Limiter, calls: seq<Call>, c: Config, k: Key, a: int, began: int,
                                        top: int, slack: nat)
    requires ConfigOk(c) && slack < WindowOf(c, k) && Near(calls, top, slack)
    requires LastWindow(EntryOf(s, k), began, top, WindowOf(c, k))
    ensures Passes(calls, Answers(s, calls, c, true), k, a, WindowOf(c, k))
            <= Budget(EntryOf(s, k), began, top, a, LimitOf(c, k), WindowOf(c, k), slack)
    decreases |calls|
  {
    hide Step, Touches, Passed, EntryOf, Increment;
    if calls != [] {
      var x := calls[0];
      var s', top' := Step(s, x, c, true).0, Max(top, x.now);
      var e, e' := EntryOf(s, k), EntryOf(s', k);
      StepEntry(s, x, c, k);
      var here := if Touches(x, k) && Passed(Step(s, x, c, true).1, k) && a <= x.now < a + WindowOf(c, k) then 1 else 0;
      var began' := CallPays(e, e', began, top, a, LimitOf(c, k), WindowOf(c, k), slack, x.now, here);
      hide Budget, LastWindow;
      PassesWithin(s', calls[1..], c, k, a, began', top', slack);
      assert Answers(s, calls, c, true)[1..] == Answers(s', calls[1..], c, true);
    }
  }

  /** In any interval one window long, for every address and for every pair, the limiter as it is
      lets at most this many whole limits pass when times go back by less than a window. */
  lemma {:induction false} SlidingBound(calls: seq<Call>, c: Config, k: Key, a: int, slack: nat)
    requires ConfigOk(c) && slack < WindowOf(c, k) && Near(calls, 0, slack)
    ensures Passes(calls, Answers(NewLimiter(), calls, c, true), k, a, WindowOf(c, k))
            <= LimitOf(c, k) * Windows(WindowOf(c, k), slack)
  {
    PassesWithin(NewLimiter(), calls, c, k, a, 0, 0, slack);
  }

  /** With a clock that never goes back, at most twice the limit. */
  lemma {:induction false} SteadyBound(calls: seq<Call>, c: Config, k: Key, a: int)
    requires ConfigOk(c) && Near(calls, 0, 0)
    ensures Passes(calls, Answers(NewLimiter(), calls, c, true), k, a, WindowOf(c, k)) <= 2 * LimitOf(c, k)
  {
    SlidingBound(calls, c, k, a, 0);
    assert Windows(WindowOf(c, k), 0) <= 2;
    Times(LimitOf(c, k), Windows(WindowOf(c, k), 0), 2);
  }

  // ---- refusals ----

  /** The call was turned away by this key's own check. */
  predicate Refused(x: Call, a: Answer, k: Key) { Touches(x, k) && a == if k.Ip? then IPLimited else PairLimited }

  lemma {:induction false} StepRefuses(s: Limiter, x: Call, c: Config, k: Key)
    requires ConfigOk(c) && Refused(x, Step(s, x, c, true).1, k)
    ensures Increment(EntryOf(s, k), x.now, WindowOf(c, k)).count > LimitOf(c, k)
  {
    hide PairKey, Collected;
    CollectedEntry(s, x.now, c, k);
  }

  lemma {:induction false} NearLater(calls: seq<Call>, top: int, slack: nat, i: nat)
    requires Near(calls, top, slack) && i < |calls|
    ensures calls[i].now >= top - slack && calls[i].now >= calls[0].now - slack
    decreases i
  {
    if i > 0 {
      NearLater(calls[1..], Max(top, calls[0].now), slack, i - 1);
    }
  }

  /** The times at which a call refused at time t can have been counted against. */
  function Since(t: int, window: int, slack: nat): int { t - window - slack + 1 }

  /** credit is how many passed before these calls, in the key's current window if that reaches the
      i-th call. A refusal then means that a whole limit has passed. */
  lemma {:induction false} RefusedFull(s: Limiter, calls: seq<Call>, c: Config, k: Key, i: nat, credit: nat,
                                       top: int, slack: nat)
    requires ConfigOk(c) && i < |calls| && Near(calls, top, slack)
    requires var e := EntryOf(s, k);
             e.start != 0 && e.start > calls[i].now - WindowOf(c, k) ==>
               e.start <= top && credit >= Min(e.count, LimitOf(c, k))
    requires Refused(calls[i], Answers(s, calls, c, true)[i], k)
    ensures var window := WindowOf(c, k);
            credit + Passes(calls[..i], Answers(s, calls, c, true)[..i], k,
                            Since(calls[i].now, window, slack), window + 2 * slack) >= LimitOf(c, k)
    decreases i
  {
    hide Step, Touches, Passed, Refused, EntryOf;
    var x, answers := calls[0], Answers(s, calls, c, true);
    var s' := Step(s, x, c, true).0;
    StepEntry(s, x, c, k);
    if i == 0 {
      StepRefuses(s, x, c, k);
    } else {
      var window := WindowOf(c, k);
      var a := Since(calls[i].now, window, slack);
      var here := if Touches(x, k) && Passed(answers[0], k) && a <= x.now < a + (window + 2 * slack) then 1 else 0;
      assert answers[1..] == Answers(s', calls[1..], c, true);
      NearLater(calls, top, slack, i);
      RefusedFull(s', calls[1..], c, k, i - 1, credit + here, Max(top, x.now), slack);
      assert calls[..i][1..] == calls[1..][..i - 1] && answers[..i][1..] == answers[1..][..i - 1];
    }
  }

  /** A call is turned away only when a whole limit has passed for its key within the last window,
      taken wider by what times may go back. */
  lemma {:induction false} RefusedOnlyWhenFull(calls: seq<Call>, c: Config, k: Key, i: nat, slack: nat)
    requires ConfigOk(c) && Near(calls, 0, slack) && i < |calls|
    requires Refused(calls[i], Answers(NewLimiter(), calls, c, true)[i], k)
    ensures var window := WindowOf(c, k);
            Passes(calls[..i], Answers(NewLimiter(), calls, c, true)[..i], k,
                   Since(calls[i].now, window, slack), window + 2 * slack) >= LimitOf(c, k)
  {
    RefusedFull(NewLimiter(), calls, c, k, i, 0, 0, slack);
  }
}
