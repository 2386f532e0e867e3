/**
 The window limiter: several buckets checked and counted together. A bucket opens with its
 first grant and lasts one window. Times are nanoseconds.
 */
module WindowLimiter {
  import opened Basics

  const SECOND := 1_000_000_000

  datatype Entry = Entry(count: int, expiresAt: int, window: int)

  datatype Spec = Spec(key: string, limit: int, window: int)

  datatype Rule = Rule(limit: int, window: int)

  type Entries = map<string, Entry>
  type Rules = map<string, Rule>

  // ----- what a call is about -----

  predicate Enabled(spec: Spec) {
    spec.key != "" && spec.limit > 0 && spec.window > 0
  }

  /** Several specs for one key count as one, with the smallest limit and the longest window. */
  function RulesOf(specs: seq<Spec>): Rules {
    if specs == [] then map[] else
    var rules, spec := RulesOf(specs[..|specs| - 1]), specs[|specs| - 1];
    if !Enabled(spec) then rules
    else if spec.key in rules
    then rules[spec.key := Rule(Min(rules[spec.key].limit, spec.limit), Max(rules[spec.key].window, spec.window))]
    else rules[spec.key := Rule(spec.limit, spec.window)]
  }

  function DisabledKeys(specs: seq<Spec>): set<string> {
    set k | 0 <= k < |specs| && specs[k].key != "" && !Enabled(specs[k]) :: specs[k].key
  }

  // ----- a call as a function -----

  function Cleaned(entries: Entries, now: int): Entries {
    map k | k in entries && now < entries[k].expiresAt :: entries[k]
  }

  /**
   Buckets whose key is only disabled, or whose window is not the asked one, are dropped even if the
   call is denied.
   */
  function Kept(entries: Entries, rules: Rules, disabled: set<string>): Entries {
    map k | k in entries && (k in rules || k !in disabled) && (k in rules ==> entries[k].window == rules[k].window) ::
        entries[k]
  }

  function Buckets(entries: Entries, specs: seq<Spec>, now: int): Entries {
    Kept(Cleaned(entries, now), RulesOf(specs), DisabledKeys(specs))
  }

  function Full(entries: Entries, rules: Rules): set<string> {
    set k | k in rules && k in entries && entries[k].count >= rules[k].limit
  }

  function Fresh(entries: Entries, rules: Rules): set<string> {
    rules.Keys - entries.Keys
  }

  predicate Granted(entries: Entries, specs: seq<Spec>, now: int, maxEntries: int) {
    var buckets, rules := Buckets(entries, specs, now), RulesOf(specs);
    Full(buckets, rules) == {} && |buckets| + |Fresh(buckets, rules)| <= maxEntries
  }

  function Counted(buckets: Entries, rules: Rules, now: int): (r: Entries)
    ensures r.Keys == buckets.Keys + rules.Keys
  {
    map k | k in buckets.Keys + rules.Keys ::
      if k !in rules then buckets[k]
      else if k in buckets then buckets[k].(count := buckets[k].count + 1)
      else Entry(1, now + rules[k].window, rules[k].window)
  }

  /** The entries after a call. */
  function After(entries: Entries, specs: seq<Spec>, now: int, maxEntries: int): Entries {
    var buckets := Buckets(entries, specs, now);
    if Granted(entries, specs, now, maxEntries) then Counted(buckets, RulesOf(specs), now) else buckets
  }

  function Wait(e: Entry, now: int): int {
    Max(e.expiresAt - now, SECOND)
  }

  /** The time to wait: the longest of the full buckets, or, when there is no room, until the first bucket expires. */
  ghost predicate IsRetry(entries: Entries, specs: seq<Spec>, now: int, maxEntries: int, retry: int) {
    var buckets := Buckets(entries, specs, now);
    var full := Full(buckets, RulesOf(specs));
    if Granted(entries, specs, now, maxEntries) then retry == 0
    else if full != {} then
      && (exists k :: k in full && k in buckets && retry == Wait(buckets[k], now))
      && (forall k | k in full && k in buckets :: Wait(buckets[k], now) <= retry)
    else IsEarliest(buckets, now, retry)
  }

  ghost predicate IsEarliest(buckets: Entries, now: int, retry: int) {
    if buckets == map[] then retry == SECOND
    else
      && (exists k :: k in buckets && retry == Wait(buckets[k], now))
      && (forall k | k in buckets :: retry <= Wait(buckets[k], now))
  }

  /** The answer is determined by the entries and the specs, however the maps are walked. */
  lemma RetryIsUnique(entries: Entries, specs: seq<Spec>, now: int, maxEntries: int, a: int, b: int)
    requires IsRetry(entries, specs, now, maxEntries, a) && IsRetry(entries, specs, now, maxEntries, b)
    ensures a == b
  {
    var buckets := Buckets(entries, specs, now);
    var full := Full(buckets, RulesOf(specs));
    if !Granted(entries, specs, now, maxEntries) && full != {} {
      var x :| x in full && x in buckets && a == Wait(buckets[x], now);
      var y :| y in full && y in buckets && b == Wait(buckets[y], now);
    } else if !Granted(entries, specs, now, maxEntries) && buckets != map[] {
      var x :| x in buckets && a == Wait(buckets[x], now);
      var y :| y in buckets && b == Wait(buckets[y], now);
    }
  }

  // ----- all or nothing, and bounded -----

  /**
   A granted call counts every key exactly once, within its limit, and touches nothing else; a
   denied one counts nothing at all.
   */
  lemma AllOrNothing(entries: Entries, specs: seq<Spec>, now: int, maxEntries: int)
    ensures var rules, buckets, after := RulesOf(specs), Buckets(entries, specs, now),
            After(entries, specs, now, maxEntries);
            if Granted(entries, specs, now, maxEntries) then
              && (forall k | k in rules :: k in after
                   && after[k].count == (if k in buckets then buckets[k].count else 0) + 1 <= rules[k].limit
                   && after[k].expiresAt == if k in buckets then entries[k].expiresAt else now + rules[k].window)
              && (forall k | k !in rules :: k in after <==> k in buckets)
              && (forall k | k in after && k !in rules :: k in entries && after[k] == entries[k])
            else forall k | k in after :: k in entries && after[k] == entries[k]
  {
    RulesPositive(specs);
    var rules, buckets := RulesOf(specs), Buckets(entries, specs, now);
    hide RulesOf, DisabledKeys;
    if Granted(entries, specs, now, maxEntries) {
      forall k | k in rules
        ensures k in buckets ==> buckets[k].count < rules[k].limit
      {
        assert k !in Full(buckets, rules);
      }
    }
  }

  lemma {:induction false} RulesPositive(specs: seq<Spec>)
    ensures forall k | k in RulesOf(specs) :: k != "" && RulesOf(specs)[k].limit > 0 && RulesOf(specs)[k].window > 0
  {
    if specs != [] {
      RulesPositive(specs[..|specs| - 1]);
    }
  }

  /** What one key's rule comes from: the least limit and the greatest window of its enabled specs. */
  lemma {:induction false} RuleIsStrictest(specs: seq<Spec>, key: string)
    ensures key in RulesOf(specs) <==>
              key != "" && exists k ::
                  0 <= k < |specs| && specs[k].key == key && specs[k].limit > 0 && specs[k].window > 0
    ensures key in RulesOf(specs) ==>
              && (forall k | 0 <= k < |specs| && specs[k].key == key && Enabled(specs[k]) ::
                   RulesOf(specs)[key].limit <= specs[k].limit && specs[k].window <= RulesOf(specs)[key].window)
              && (exists k ::
                  0 <= k < |specs| && specs[k].key == key && Enabled(specs[k])
                      && specs[k].limit == RulesOf(specs)[key].limit)
              && (exists k ::
                  0 <= k < |specs| && specs[k].key == key && Enabled(specs[k])
                      && specs[k].window == RulesOf(specs)[key].window)
  {
    if specs != [] {
      var front, last := specs[..|specs| - 1], |specs| - 1;
      RuleIsStrictest(front, key);
      assert forall k | 0 <= k < last :: front[k] == specs[k];
      if key in RulesOf(front) {
        var i :| 0 <= i < |front| && front[i].key == key && Enabled(front[i])
            && front[i].limit == RulesOf(front)[key].limit;
        var j :| 0 <= j < |front| && front[j].key == key && Enabled(front[j])
            && front[j].window == RulesOf(front)[key].window;
        assert specs[i] == front[i] && specs[j] == front[j];
      }
      if key in RulesOf(specs) && key !in RulesOf(front) {
        assert specs[last].key == key && specs[last].limit > 0 && specs[last].window > 0;
      }
      if k :| 0 <= k < last && specs[k].key == key && specs[k].limit > 0 && specs[k].window > 0 {
        assert front[k] == specs[k];
      }
    }
  }

  /** There are never more entries than allowed. */
  lemma EntriesBounded(entries: Entries, specs: seq<Spec>, now: int, maxEntries: int)
    requires |entries| <= maxEntries
    ensures |After(entries, specs, now, maxEntries)| <= maxEntries
  {
    var buckets, rules := Buckets(entries, specs, now), RulesOf(specs);
    hide RulesOf, DisabledKeys;
    assert buckets.Keys <= entries.Keys;
    hide Buckets;
    SubsetCardinality(buckets.Keys, entries.Keys);
    var after := Counted(buckets, rules, now);
    hide Counted;
  }

  // ----- when a call is granted, and what a denial tells -----

  /**
   The buckets a call looks at: those that have not expired, of an asked key only with the asked
   window, and of a key that is named but asked for nothing not at all.
   */
  lemma BucketsAre(entries: Entries, specs: seq<Spec>, now: int, key: string)
    ensures var buckets, rules := Buckets(entries, specs, now), RulesOf(specs);
            && (key in buckets <==>
                  && key in entries && now < entries[key].expiresAt
                  && if key in rules then entries[key].window == rules[key].window
                     else key == "" || forall i | 0 <= i < |specs| :: specs[i].key != key)
            && (key in buckets ==> buckets[key] == entries[key])
  {
    RuleIsStrictest(specs, key);
  }

  /**
   A call is granted exactly if none of the keys it asks for has used up its limit in a live bucket
   of its window, and the keys without one still fit.
   */
  lemma GrantMeans(entries: Entries, specs: seq<Spec>, now: int, maxEntries: int)
    ensures var buckets, rules := Buckets(entries, specs, now), RulesOf(specs);
            var missing := set k | k in rules
                && !(k in entries && now < entries[k].expiresAt && entries[k].window == rules[k].window);
            Granted(entries, specs, now, maxEntries) <==>
              && (forall k | k in rules && k !in missing :: entries[k].count < rules[k].limit)
              && |buckets| + |missing| <= maxEntries
  {
    var buckets, rules := Buckets(entries, specs, now), RulesOf(specs);
    var missing := set k | k in rules
        && !(k in entries && now < entries[k].expiresAt && entries[k].window == rules[k].window);
    forall k
      ensures k in buckets && k in rules <==> k in rules && k !in missing
      ensures k in buckets ==> buckets[k] == entries[k]
    {
      BucketsAre(entries, specs, now, k);
    }
    hide Buckets, RulesOf;
    assert Fresh(buckets, rules) == missing;
    if Full(buckets, rules) != {} {
      var k :| k in Full(buckets, rules);
      assert k in rules && k !in missing;
    }
    forall k | k in rules && k !in missing && entries[k].count >= rules[k].limit
      ensures k in Full(buckets, rules)
    {
    }
  }

  /**
   The time a denied caller is told to wait is long enough and not too long. With full buckets, all
   of them have expired by then, and a nanosecond earlier, unless the wait is the least there is, one
   has not. With too many buckets, by then one has expired, and none before.
   */
  lemma RetryMeans(entries: Entries, specs: seq<Spec>, now: int, maxEntries: int, retry: int)
    requires IsRetry(entries, specs, now, maxEntries, retry) && !Granted(entries, specs, now, maxEntries)
    ensures var buckets := Buckets(entries, specs, now);
            var full := Full(buckets, RulesOf(specs));
            && retry >= 1_000_000_000
            && (full != {} ==>
                  && (forall k | k in full && k in buckets :: buckets[k].expiresAt <= now + retry)
                  && (retry > 1_000_000_000 ==> exists k ::
                      k in full && k in buckets && buckets[k].expiresAt > now + retry - 1))
            && (full == {} && buckets != map[] ==>
                  && (exists k :: k in buckets && buckets[k].expiresAt <= now + retry)
                  && (retry > 1_000_000_000 ==> forall k | k in buckets :: buckets[k].expiresAt >= now + retry))
  {
  }

  // ----- grants over time -----

  datatype Call = Call(specs: seq<Spec>, now: int)

  function EntriesAfter(calls: seq<Call>, maxEntries: int): Entries {
    if calls == [] then map[] else
    var last := calls[|calls| - 1];
    After(EntriesAfter(calls[..|calls| - 1], maxEntries), last.specs, last.now, maxEntries)
  }

  predicate GrantsKey(entries: Entries, call: Call, maxEntries: int, key: string) {
    Granted(entries, call.specs, call.now, maxEntries) && key in RulesOf(call.specs)
  }

  /** When the key was granted, in order. */
  function GrantTimes(calls: seq<Call>, maxEntries: int, key: string): seq<int> {
    if calls == [] then [] else
    var front, last := calls[..|calls| - 1], calls[|calls| - 1];
    GrantTimes(front, maxEntries, key)
    + if GrantsKey(EntriesAfter(front, maxEntries), last, maxEntries, key) then [last.now] else []
  }

  function CountIn(times: seq<int>, from: int, to: int): nat {
    if times == [] then 0 else
    var last := times[|times| - 1];
    CountIn(times[..|times| - 1], from, to) + if from <= last < to then 1 else 0
  }

  ghost predicate InOrder(calls: seq<Call>) {
    forall i, j | 0 <= i < j < |calls| :: calls[i].now <= calls[j].now
  }

  /** Every use of the key is with the same limit and window. */
  ghost predicate UsedWith(calls: seq<Call>, key: string, limit: int, window: int) {
    forall i | 0 <= i < |calls| :: UsesWith(calls[i].specs, key, limit, window)
  }

  ghost predicate UsesWith(specs: seq<Spec>, key: string, limit: int, window: int) {
    if key in RulesOf(specs) then RulesOf(specs)[key] == Rule(limit, window) else key !in DisabledKeys(specs)
  }

  lemma {:induction false} CountSplit(times: seq<int>, from: int, mid: int, to: int)
    requires from <= mid <= to
    ensures CountIn(times, from, to) == CountIn(times, from, mid) + CountIn(times, mid, to)
  {
    if times != [] {
      CountSplit(times[..|times| - 1], from, mid, to);
    }
  }

  lemma {:induction false} CountNone(times: seq<int>, from: int, to: int)
    requires forall k | 0 <= k < |times| :: !(from <= times[k] < to)
    ensures CountIn(times, from, to) == 0
  {
    if times != [] {
      CountNone(times[..|times| - 1], from, to);
    }
  }

  /**
   What is known about a key at time `now`: `start` is when its latest bucket opened, with a
   grant; that bucket holds all grants since; the bucket is gone only once it has expired.
   */
  ghost predicate Tracks(times: seq<int>, start: Option<int>, e: Option<Entry>, now: int, limit: int, window: int) {
    && (start.None? ==> times == [] && e.None?)
    && (start.Some? ==>
          && start.value <= now && 1 <= CountIn(times, start.value, start.value + 1)
          && CountIn(times, start.value, start.value + window) <= limit
          && (forall k | 0 <= k < |times| :: times[k] < start.value + window)
          && (e.Some? ==> e.value == Entry(CountIn(times, start.value, start.value + window), start.value + window,
              window))
          && (e.None? ==> start.value + window <= now))
  }

  /** No interval of one window's length holds twice the limit. */
  ghost predicate Spread(times: seq<int>, start: Option<int>, from: int, limit: int, window: int) {
    && CountIn(times, from, from + window) <= 2 * limit - 1
    && (start.Some? && start.value < from + window
        ==> from > start.value || CountIn(times, from, start.value) <= limit - 1)
  }

  function EntryOf(entries: Entries, key: string): Option<Entry> {
    if key in entries then Some(entries[key]) else None
  }

  /** A grant in the open bucket. */
  lemma GrantInside(times: seq<int>, start: int, now: int, limit: int, window: int, from: int)
    requires limit >= 1 && window >= 1 && start <= now < start + window
    requires Tracks(times, Some(start), Some(Entry(CountIn(times, start, start + window), start + window, window)), now,
             limit, window)
    requires CountIn(times, start, start + window) + 1 <= limit
    requires Spread(times, Some(start), from, limit, window)
    ensures var after := times + [now];
            && Tracks(after, Some(start), Some(Entry(CountIn(times, start, start + window) + 1, start + window,
                window)), now, limit, window)
            && Spread(after, Some(start), from, limit, window)
  {
    var after := times + [now];
    if from <= start < from + window {
      CountSplit(after, from, start, from + window);
      CountSplit(after, start, from + window, start + window);
    } else if start < from < start + window {
      CountSplit(after, start, from, start + window);
      CountSplit(after, from, start + window, from + window);
      CountNone(after, start + window, from + window);
    } else if start + window <= from {
      CountNone(after, from, from + window);
    }
  }

  /** A grant that opens a new bucket. */
  lemma GrantOpens(times: seq<int>, start: Option<int>, now: int, limit: int, window: int, from: int)
    requires limit >= 1 && window >= 1
    requires Tracks(times, start, None, now, limit, window) && Spread(times, start, from, limit, window)
    ensures var after := times + [now];
            && Tracks(after, Some(now), Some(Entry(1, now + window, window)), now, limit, window)
            && Spread(after, Some(now), from, limit, window)
  {
    var after := times + [now];
    CountNone(times, now, now + window);
    CountNone(times, now, now + 1);
    if from <= now < from + window {
      CountSplit(after, from, now, from + window);
      CountNone(times, now, from + window);
      if start.Some? {
        var last := start.value;
        if from <= last + window {
          CountSplit(times, last, last + 1, from);
          CountSplit(times, last, from, last + window);
          CountSplit(times, from, last + window, now);
          CountNone(times, last + window, now);
        } else {
          CountNone(times, from, now);
        }
      } else {
        CountNone(times, from, now);
      }
    }
  }

  function Start(calls: seq<Call>, maxEntries: int, key: string): Option<int> {
    if calls == [] then None else
    var front, last := calls[..|calls| - 1], calls[|calls| - 1];
    var entries := EntriesAfter(front, maxEntries);
    if GrantsKey(entries, last, maxEntries, key) && key !in Buckets(entries, last.specs, last.now) then Some(last.now)
    else Start(front, maxEntries, key)
  }

  function EntryAfter(e: Option<Entry>, granted: bool, now: int, window: int): Option<Entry> {
    if !granted then e
    else if e.Some? then Some(e.value.(count := e.value.count + 1))
    else Some(Entry(1, now + window, window))
  }

  function Alive(e: Option<Entry>, now: int): Option<Entry> {
    if e.Some? && e.value.expiresAt <= now then None else e
  }

  /** What a call does to the bucket of such a key. */
  lemma KeyAfter(entries: Entries, call: Call, maxEntries: int, key: string, limit: int, window: int)
    requires UsesWith(call.specs, key, limit, window)
    ensures var bucket := EntryOf(Buckets(entries, call.specs, call.now), key);
            var granted := GrantsKey(entries, call, maxEntries, key);
            && EntryOf(After(entries, call.specs, call.now, maxEntries), key)
                == EntryAfter(bucket, granted, call.now, window)
            && (granted && bucket.Some? ==> bucket.value.count < limit)
  {
    var buckets, rules := Buckets(entries, call.specs, call.now), RulesOf(call.specs);
    CountedAt(buckets, rules, call.now, key);
    NotFull(buckets, rules, key);
    hide Buckets, RulesOf, DisabledKeys, Counted, Full, Fresh;
  }

  lemma CountedAt(buckets: Entries, rules: Rules, now: int, key: string)
    ensures EntryOf(Counted(buckets, rules, now), key) ==
            EntryAfter(EntryOf(buckets, key), key in rules, now, if key in rules then rules[key].window else 0)
  {
  }

  lemma NotFull(buckets: Entries, rules: Rules, key: string)
    ensures Full(buckets, rules) == {} && key in rules && key in buckets ==> buckets[key].count < rules[key].limit
  {
    assert key in Full(buckets, rules) <==> key in rules && key in buckets && buckets[key].count >= rules[key].limit;
  }

  lemma StepTracks(
    times: seq<int>, start: Option<int>, bucket: Option<Entry>, granted: bool, now: int, limit: int, window: int,
    from: int)
    requires limit >= 1 && window >= 1 && (granted && bucket.Some? ==> bucket.value.count < limit)
    requires bucket.Some? ==> now < bucket.value.expiresAt
    requires Tracks(times, start, bucket, now, limit, window) && Spread(times, start, from, limit, window)
    ensures var times', start' := times + (if granted then [now] else []), if granted && bucket.None? then Some(now)
            else start;
            && Tracks(times', start', EntryAfter(bucket, granted, now, window), now, limit, window)
            && Spread(times', start', from, limit, window)
  {
    if granted && bucket.Some? {
      GrantInside(times, start.value, now, limit, window, from);
    } else if granted {
      GrantOpens(times, start, now, limit, window, from);
    } else {
      assert times + [] == times;
    }
  }

  lemma TimePasses(times: seq<int>, start: Option<int>, e: Option<Entry>, now: int, later: int, limit: int, window: int)
    requires Tracks(times, start, e, now, limit, window) && now <= later
    ensures Tracks(times, start, Alive(e, later), later, limit, window)
  {
  }

  lemma {:induction false} RunTracks(
    calls: seq<Call>, maxEntries: int, key: string, limit: int, window: int, from: int, now: int)
    requires limit >= 1 && window >= 1
    requires InOrder(calls) && UsedWith(calls, key, limit, window) && (calls != [] ==> calls[|calls| - 1].now <= now)
    ensures var times, start := GrantTimes(calls, maxEntries, key), Start(calls, maxEntries, key);
            && Spread(times, start, from, limit, window)
            && Tracks(times, start, Alive(EntryOf(EntriesAfter(calls, maxEntries), key), now), now, limit, window)
  {
    if calls != [] {
      var front, last := calls[..|calls| - 1], calls[|calls| - 1];
      var entries := EntriesAfter(front, maxEntries);
      var bucket, granted := EntryOf(Buckets(entries, last.specs, last.now), key),
          GrantsKey(entries, last, maxEntries, key);
      RunTracks(front, maxEntries, key, limit, window, from, last.now);
      EntryWindow(front, maxEntries, key, limit, window);
      assert UsesWith(last.specs, key, limit, window);
      hide UsesWith, Tracks, Spread, GrantsKey, Buckets, After;
      KeyAfter(entries, last, maxEntries, key, limit, window);
      StepTracks(GrantTimes(front, maxEntries, key), Start(front, maxEntries, key), bucket, granted, last.now, limit,
          window, from);
      TimePasses(GrantTimes(calls, maxEntries, key), Start(calls, maxEntries, key),
                 EntryOf(EntriesAfter(calls, maxEntries), key), last.now, now, limit, window);
    }
  }

  lemma {:induction false} EntryWindow(calls: seq<Call>, maxEntries: int, key: string, limit: int, window: int)
    requires UsedWith(calls, key, limit, window)
    ensures key in EntriesAfter(calls, maxEntries) ==> EntriesAfter(calls, maxEntries)[key].window == window
  {
    if calls != [] {
      var front := calls[..|calls| - 1];
      EntryWindow(front, maxEntries, key, limit, window);
      KeyAfter(EntriesAfter(front, maxEntries), calls[|calls| - 1], maxEntries, key, limit, window);
    }
  }

  /**
   A key always used with limit L and window W is granted at most 2L - 1 times in any half-open
   interval of length W: a bucket that ends inside the interval was opened before it, and that
   first grant lies outside.
   */
  lemma GrantsPerInterval(calls: seq<Call>, maxEntries: int, key: string, limit: int, window: int, from: int)
    requires limit >= 1 && window >= 1 && InOrder(calls) && UsedWith(calls, key, limit, window)
    ensures CountIn(GrantTimes(calls, maxEntries, key), from, from + window) <= 2 * limit - 1
  {
    RunTracks(calls, maxEntries, key, limit, window, from, if calls == [] then 0 else calls[|calls| - 1].now);
  }

  // ----- the bound is reached -----

  function Only(key: string, e: Option<Entry>): Entries {
    if e.Some? then map[key := e.value] else map[]
  }

  /** `n` calls at the same time. */
  function Burst(spec: Spec, now: int, n: nat): seq<Call> {
    if n == 0 then [] else Burst(spec, now, n - 1) + [Call([spec], now)]
  }

  function Copies(now: int, n: nat): seq<int> {
    if n == 0 then [] else Copies(now, n - 1) + [now]
  }

  lemma SingleSpec(spec: Spec)
    requires Enabled(spec)
    ensures RulesOf([spec]) == map[spec.key := Rule(spec.limit, spec.window)] && DisabledKeys([spec]) == {}
  {
    assert [spec][..0] == [];
  }

  lemma OnlyBucket(spec: Spec, e: Option<Entry>, now: int)
    requires Enabled(spec) && (e.Some? ==> e.value.window == spec.window)
    ensures Buckets(Only(spec.key, e), [spec], now) == Only(spec.key, Alive(e, now))
  {
    SingleSpec(spec);
    hide RulesOf, DisabledKeys;
    var rules, disabled := RulesOf([spec]), DisabledKeys([spec]);
    assert Cleaned(Only(spec.key, e), now) == Only(spec.key, Alive(e, now));
    hide Cleaned;
    assert Kept(Only(spec.key, Alive(e, now)), rules, disabled) == Only(spec.key, Alive(e, now));
  }

  lemma OnlyCounted(key: string, rule: Rule, e: Option<Entry>, now: int)
    requires e.Some? ==> e.value.count < rule.limit
    ensures var buckets, rules := Only(key, e), map[key := rule];
            && Full(buckets, rules) == {}
            && |buckets| + |Fresh(buckets, rules)| == 1
            && Counted(buckets, rules, now) == Only(key, EntryAfter(e, true, now, rule.window))
  {
    var buckets, rules := Only(key, e), map[key := rule];
    OnlyFresh(key, rule, e);
    hide Fresh;
    assert Counted(buckets, rules, now).Keys == {key};
  }

  lemma OnlyFresh(key: string, rule: Rule, e: Option<Entry>)
    ensures |Only(key, e)| + |Fresh(Only(key, e), map[key := rule])| == 1
  {
    assert Fresh(Only(key, e), map[key := rule]) == if e.Some? then {} else {key};
    assert Only(key, e).Keys == if e.Some? then {key} else {};
    assert |Only(key, e)| == |Only(key, e).Keys|;
  }

  lemma SingleCall(spec: Spec, e: Option<Entry>, now: int, maxEntries: int)
    requires Enabled(spec) && maxEntries >= 1 && (e.Some? ==> e.value.window == spec.window)
    requires Alive(e, now).Some? ==> e.value.count < spec.limit
    ensures Granted(Only(spec.key, e), [spec], now, maxEntries) && spec.key in RulesOf([spec])
    ensures After(Only(spec.key, e), [spec], now, maxEntries)
            == Only(spec.key, EntryAfter(Alive(e, now), true, now, spec.window))
  {
    SingleSpec(spec);
    OnlyBucket(spec, e, now);
    OnlyCounted(spec.key, Rule(spec.limit, spec.window), Alive(e, now), now);
    hide Buckets, RulesOf, DisabledKeys, Full, Fresh, Counted;
  }

  /** The bucket after `n` more grants. */
  function Filled(e: Option<Entry>, now: int, n: nat, window: int): Option<Entry> {
    if n == 0 then e
    else if Alive(e, now).Some? then Some(Entry(e.value.count + n, e.value.expiresAt, window))
    else Some(Entry(n, now + window, window))
  }

  lemma LastCall(front: seq<Call>, call: Call, maxEntries: int, key: string)
    ensures EntriesAfter(front + [call], maxEntries)
            == After(EntriesAfter(front, maxEntries), call.specs, call.now, maxEntries)
    ensures GrantTimes(front + [call], maxEntries, key) ==
            GrantTimes(front, maxEntries, key)
            + if GrantsKey(EntriesAfter(front, maxEntries), call, maxEntries, key) then [call.now] else []
  {
    assert (front + [call])[..|front|] == front;
  }

  lemma FilledStep(e: Option<Entry>, now: int, n: nat, limit: int, window: int)
    requires n >= 1 && window >= 1 && (e.Some? ==> e.value.window == window)
    requires n + (if Alive(e, now).Some? then e.value.count else 0) <= limit
    ensures var before := Filled(e, now, n - 1, window);
            && (before.Some? ==> before.value.window == window)
            && (Alive(before, now).Some? ==> before.value.count < limit)
            && EntryAfter(Alive(before, now), true, now, window) == Filled(e, now, n, window)
  {
  }

  lemma {:induction false} BurstIsGranted(
    calls: seq<Call>, spec: Spec, e: Option<Entry>, now: int, n: nat, maxEntries: int)
    requires Enabled(spec) && maxEntries >= 1 && (e.Some? ==> e.value.window == spec.window)
    requires EntriesAfter(calls, maxEntries) == Only(spec.key, e)
    requires n + (if Alive(e, now).Some? then e.value.count else 0) <= spec.limit
    ensures EntriesAfter(calls + Burst(spec, now, n), maxEntries) == Only(spec.key, Filled(e, now, n, spec.window))
    ensures GrantTimes(calls + Burst(spec, now, n), maxEntries, spec.key)
            == GrantTimes(calls, maxEntries, spec.key) + Copies(now, n)
  {
    hide EntriesAfter, GrantTimes, Only, Alive;
    if n == 0 {
      assert calls + Burst(spec, now, 0) == calls;
      assert GrantTimes(calls, maxEntries, spec.key) + Copies(now, 0) == GrantTimes(calls, maxEntries, spec.key);
    } else {
      BurstIsGranted(calls, spec, e, now, n - 1, maxEntries);
      BurstStep(calls, spec, e, now, n, maxEntries);
    }
  }

  lemma BurstStep(calls: seq<Call>, spec: Spec, e: Option<Entry>, now: int, n: nat, maxEntries: int)
    requires Enabled(spec) && maxEntries >= 1 && n >= 1 && (e.Some? ==> e.value.window == spec.window)
    requires n + (if Alive(e, now).Some? then e.value.count else 0) <= spec.limit
    requires EntriesAfter(calls + Burst(spec, now, n - 1), maxEntries)
             == Only(spec.key, Filled(e, now, n - 1, spec.window))
    requires GrantTimes(calls + Burst(spec, now, n - 1), maxEntries, spec.key) ==
             GrantTimes(calls, maxEntries, spec.key) + Copies(now, n - 1)
    ensures EntriesAfter(calls + Burst(spec, now, n), maxEntries) == Only(spec.key, Filled(e, now, n, spec.window))
    ensures GrantTimes(calls + Burst(spec, now, n), maxEntries, spec.key)
            == GrantTimes(calls, maxEntries, spec.key) + Copies(now, n)
  {
    var before, front := GrantTimes(calls, maxEntries, spec.key), calls + Burst(spec, now, n - 1);
    assert calls + Burst(spec, now, n) == front + [Call([spec], now)];
    assert before + Copies(now, n) == before + Copies(now, n - 1) + [now];
    hide Only, After, Granted, RulesOf, EntriesAfter, GrantTimes, Burst, Copies;
    FilledStep(e, now, n, spec.limit, spec.window);
    hide Filled, Alive, EntryAfter;
    SingleCall(spec, Filled(e, now, n - 1, spec.window), now, maxEntries);
    LastCall(front, Call([spec], now), maxEntries, spec.key);
  }

  lemma {:induction false} CountCopies(times: seq<int>, now: int, n: nat, from: int, to: int)
    ensures CountIn(times + Copies(now, n), from, to) == CountIn(times, from, to) + if from <= now < to then n else 0
  {
    if n == 0 {
      assert times + Copies(now, 0) == times;
    } else {
      CountCopies(times, now, n - 1, from, to);
      assert times + Copies(now, n) == (times + Copies(now, n - 1)) + [now];
    }
  }

  /** For every limit there are calls that reach the bound of GrantsPerInterval. */
  lemma BoundIsReached(spec: Spec, maxEntries: int)
    requires Enabled(spec) && spec.window >= 2 && spec.limit >= 2 && maxEntries >= 1
    ensures var calls := Burst(spec, 0, 1) + Burst(spec, spec.window - 1, spec.limit - 1) + Burst(spec, spec.window,
            spec.limit);
            CountIn(GrantTimes(calls, maxEntries, spec.key), spec.window - 1, 2 * spec.window - 1) == 2 * spec.limit - 1
  {
    var w, n := spec.window, spec.limit;
    hide Only, Burst, GrantTimes, Copies, CountIn;
    var first, second, times := TwoBuckets(spec, maxEntries);
    CountCopies([], 0, 1, w - 1, 2 * w - 1);
    CountCopies(first, w - 1, n - 1, w - 1, 2 * w - 1);
    CountCopies(second, w, n, w - 1, 2 * w - 1);
    assert CountIn([], w - 1, 2 * w - 1) == 0 by {
      CountNone([], w - 1, 2 * w - 1);
    }
  }

  lemma TwoBuckets(spec: Spec, maxEntries: int) returns (first: seq<int>, second: seq<int>, times: seq<int>)
    requires Enabled(spec) && spec.window >= 2 && spec.limit >= 2 && maxEntries >= 1
    ensures first == [] + Copies(0, 1) && second == first + Copies(spec.window - 1, spec.limit - 1)
    ensures times == second + Copies(spec.window, spec.limit)
    ensures var calls := Burst(spec, 0, 1) + Burst(spec, spec.window - 1, spec.limit - 1) + Burst(spec, spec.window,
            spec.limit);
            GrantTimes(calls, maxEntries, spec.key) == times
  {
    var w, n, key := spec.window, spec.limit, spec.key;
    var one := Burst(spec, 0, 1);
    assert [] + one == one;
    assert EntriesAfter([], maxEntries) == Only(key, None) && GrantTimes([], maxEntries, key) == [];
    hide Only, Burst, GrantTimes, Copies, EntriesAfter;
    BurstIsGranted([], spec, None, 0, 1, maxEntries);
    BurstIsGranted(one, spec, Some(Entry(1, w, w)), w - 1, n - 1, maxEntries);
    var two := one + Burst(spec, w - 1, n - 1);
    BurstIsGranted(two, spec, Some(Entry(n, w, w)), w, n, maxEntries);
    first, second := GrantTimes(one, maxEntries, key), GrantTimes(two, maxEntries, key);
    times := GrantTimes(two + Burst(spec, w, n), maxEntries, key);
  }

  // ----- the limiter -----

  class Limiter {
    var entries: Entries
    const maxEntries: int

    ghost predicate Valid()
      reads this
    {
      1 <= maxEntries && |entries| <= maxEntries
    }

    constructor (maxEntries: int)
      ensures Valid() && entries == map[] && this.maxEntries == Max(maxEntries, 1)
    {
      this.entries, this.maxEntries := map[], if maxEntries < 1 then 1 else maxEntries;
    }

    method AllowMany(specs: seq<Spec>, now: int) returns (granted: bool, retryAfter: int)
      requires Valid()
      modifies this
      ensures Valid()
      ensures entries == After(old(entries), specs, now, maxEntries)
      ensures granted == Granted(old(entries), specs, now, maxEntries)
      ensures IsRetry(old(entries), specs, now, maxEntries, retryAfter)
    {
      ghost var before := entries;
      EntriesBounded(before, specs, now, maxEntries);
      Cleanup(now);
      var rules, disabled := ReadSpecs(specs);
      DropDisabled(rules, disabled);
      retryAfter := CheckFull(rules, now);
      assert entries == Buckets(before, specs, now);
      if retryAfter > 0 {
        return false, retryAfter;
      }
      var newEntries := CountFresh(rules);
      if |entries| + newEntries > maxEntries {
        retryAfter := EarliestExpiry(now);
        return false, retryAfter;
      }
      CountGrant(rules, now);
      return true, 0;
    }

    method Cleanup(now: int)
      modifies this`entries
      ensures entries == Cleaned(old(entries), now)
    {
      ghost var was := entries;
      var rest := entries.Keys;
      while rest != {}
        invariant rest <= entries.Keys
        invariant entries == map k | k in was && (k in rest || now < was[k].expiresAt) :: was[k]
        decreases rest
      {
        var k :| k in rest;
        if now >= entries[k].expiresAt {
          entries := entries - {k};
        }
        rest := rest - {k};
      }
    }

    method ReadSpecs(specs: seq<Spec>) returns (rules: Rules, disabled: set<string>)
      ensures rules == RulesOf(specs) && disabled == DisabledKeys(specs)
    {
      rules, disabled := map[], {};
      for i := 0 to |specs|
        invariant rules == RulesOf(specs[..i]) && disabled == DisabledKeys(specs[..i])
      {
        var spec := specs[i];
        assert specs[..i + 1][..i] == specs[..i];
        if spec.key == "" {
          continue;
        }
        if spec.limit <= 0 || spec.window <= 0 {
          disabled := disabled + {spec.key};
          continue;
        }
        if spec.key in rules {
          var existing := rules[spec.key];
          if spec.limit < existing.limit {
            existing := existing.(limit := spec.limit);
          }
          if spec.window > existing.window {
            existing := existing.(window := spec.window);
          }
          rules := rules[spec.key := existing];
        } else {
          rules := rules[spec.key := Rule(spec.limit, spec.window)];
        }
      }
      assert specs[..|specs|] == specs;
    }

    method DropDisabled(rules: Rules, disabled: set<string>)
      modifies this`entries
      ensures entries == map k | k in old(entries) && (k in rules || k !in disabled) :: old(entries)[k]
    {
      ghost var was := entries;
      var rest := disabled;
      while rest != {}
        invariant rest <= disabled
        invariant entries == map k | k in was && (k in rules || k !in disabled - rest) :: was[k]
        decreases rest
      {
        var k :| k in rest;
        if k !in rules {
          entries := entries - {k};
        }
        rest := rest - {k};
      }
    }

    /** Drops buckets of another window and looks for full ones. */
    method CheckFull(rules: Rules, now: int) returns (retryAfter: int)
      modifies this`entries
      ensures entries == map k | k in old(entries) && (k in rules ==> old(entries)[k].window == rules[k].window) ::
              old(entries)[k]
      ensures if Full(entries, rules) == {} then retryAfter == 0
              else && retryAfter >= SECOND
                   && (exists k :: k in Full(entries, rules) && k in entries && retryAfter == Wait(entries[k], now))
                   && (forall k | k in Full(entries, rules) && k in entries :: Wait(entries[k], now) <= retryAfter)
    {
      ghost var was := entries;
      retryAfter := 0;
      ghost var worst := "";
      var rest := rules.Keys;
      while rest != {}
        invariant rest <= rules.Keys
        invariant entries == map k | k in was && (k in rules && k !in rest ==> was[k].window == rules[k].window) ::
            was[k]
        invariant retryAfter == 0 || (retryAfter >= SECOND && worst in Full(entries, rules) && worst !in rest
                                      && worst in entries && retryAfter == Wait(entries[worst], now))
        invariant forall k | k in Full(entries, rules) && k !in rest && k in entries ::
            Wait(entries[k], now) <= retryAfter
        decreases rest
      {
        var k :| k in rest;
        if k in entries && entries[k].window != rules[k].window {
          entries := entries - {k};
        } else if k in entries && entries[k].count >= rules[k].limit {
          var retry := entries[k].expiresAt - now;
          if retry < SECOND {
            retry := SECOND;
          }
          if retry > retryAfter {
            retryAfter, worst := retry, k;
          }
        }
        rest := rest - {k};
      }
    }

    method CountFresh(rules: Rules) returns (n: nat)
      ensures n == |Fresh(entries, rules)|
    {
      n := 0;
      var rest := rules.Keys;
      while rest != {}
        invariant rest <= rules.Keys
        invariant n == |NotIn(rules.Keys, rest, entries.Keys)|
        decreases rest
      {
        var k :| k in rest;
        CountNew(rules.Keys, rest, entries.Keys, k);
        if k !in entries {
          n := n + 1;
        }
        rest := rest - {k};
      }
      assert NotIn(rules.Keys, {}, entries.Keys) == Fresh(entries, rules);
    }

    method EarliestExpiry(now: int) returns (retryAfter: int)
      requires forall k | k in entries :: now < entries[k].expiresAt
      ensures retryAfter > 0 && IsEarliest(entries, now, retryAfter)
    {
      retryAfter := 0;
      ghost var first := "";
      var rest := entries.Keys;
      while rest != {}
        invariant rest <= entries.Keys && retryAfter >= 0
        invariant retryAfter == 0 ==> rest == entries.Keys
        invariant retryAfter > 0 ==> first in entries && retryAfter == entries[first].expiresAt - now
        invariant forall k | k in entries && k !in rest :: retryAfter <= entries[k].expiresAt - now
        decreases rest
      {
        var k :| k in rest;
        var retry := entries[k].expiresAt - now;
        if retry > 0 && (retryAfter == 0 || retry < retryAfter) {
          retryAfter, first := retry, k;
        }
        rest := rest - {k};
      }
      if retryAfter < SECOND {
        retryAfter := SECOND;
      }
    }

    method CountGrant(rules: Rules, now: int)
      modifies this`entries
      ensures entries == Counted(old(entries), rules, now)
    {
      ghost var was := entries;
      var rest := rules.Keys;
      while rest != {}
        invariant rest <= rules.Keys && entries.Keys == was.Keys + (rules.Keys - rest)
        invariant forall k | k in entries :: entries[k] == if k in rest then (if k in was then was[k] else entries[k])
                                                          else Counted(was, rules, now)[k]
        decreases rest
      {
        var k :| k in rest;
        var entry := if k in entries then entries[k] else Entry(0, now + rules[k].window, rules[k].window);
        entries := entries[k := entry.(count := entry.count + 1)];
        rest := rest - {k};
      }
      assert entries.Keys == Counted(was, rules, now).Keys;
    }
  }

  function NotIn(all: set<string>, rest: set<string>, present: set<string>): set<string> {
    (all - rest) - present
  }

  lemma CountNew(all: set<string>, rest: set<string>, present: set<string>, k: string)
    requires k in rest && rest <= all
    ensures |NotIn(all, rest - {k}, present)| == |NotIn(all, rest, present)| + if k in present then 0 else 1
  {
    assert NotIn(all, rest - {k}, present) == NotIn(all, rest, present) + if k in present then {} else {k};
  }

}
