/** The fixed-window limiter of portal/lib/onlytty/rate_limit.ex: one shared table of
    counters per key and clock-aligned window, swept from time to time. */
module RateLimit {
  import opened Base

  type Key = nat

  /** Milliseconds. */
  type Instant = nat

  datatype Config = Config(max: nat, window: nat)

  ghost predicate Sane(c: Config) { c.window > 0 }

  type Table = map<(Key, nat), nat>

  /** None: admitted. Some(r): refused, try again in r seconds. */
  type Answer = Option<nat>

  function Bucket(c: Config, now: Instant): nat
    requires Sane(c)
  {
    now / c.window
  }

  function Count(t: Table, key: Key, bucket: nat): nat {
    if (key, bucket) in t then t[(key, bucket)] else 0
  }

  function RetryAfter(c: Config, now: Instant): nat
    requires Sane(c)
  {
    InBucket(c, now, Bucket(c, now));
    ((Bucket(c, now) + 1) * c.window - now) / 1000 + 1
  }

  class Limiter {
    const config: Config
    var table: Table

    constructor (config: Config)
      requires Sane(config)
      ensures this.config == config && table == map[]
    {
      this.config := config;
      table := map[];
    }

    method Check(key: Key, now: Instant) returns (answer: Answer)
      requires Sane(config)
      modifies this`table
      ensures (table, answer) == old(OnCheck(config, table, key, now))
    {
      InBucket(config, now, Bucket(config, now));
      var bucket := now / config.window;
      var count := 1;
      if (key, bucket) in table {
        count := table[(key, bucket)] + 1;
      }
      table := table[(key, bucket) := count];
      if count <= config.max {
        return None;
      } else {
        return Some(((bucket + 1) * config.window - now) / 1000 + 1);
      }
    }

    method Sweep(now: Instant)
      requires Sane(config)
      modifies this`table
      ensures table == old(OnSweep(config, table, now))
    {
      var current := now / config.window;
      table := map k | k in table && k.1 >= current :: table[k];
    }
  }

  function OnCheck(c: Config, t: Table, key: Key, now: Instant): (Table, Answer)
    requires Sane(c)
  {
    var n := Count(t, key, Bucket(c, now)) + 1;
    (t[(key, Bucket(c, now)) := n], if n <= c.max then None else Some(RetryAfter(c, now)))
  }

  function OnSweep(c: Config, t: Table, now: Instant): Table
    requires Sane(c)
  {
    map k | k in t && k.1 >= Bucket(c, now) :: t[k]
  }

  // ---- Traces ---------------------------------------------------------------

  /** The table operations, in the order the table applied them; `now` is when the clock was
      read for each. A check reads the clock before its atomic increment, so another
      process may come in between and the clock readings need not be in order. */
  datatype Event = Request(key: Key, now: Instant) | Swept(now: Instant)

  function Apply(c: Config, t: Table, e: Event): (Table, Answer)
    requires Sane(c)
  {
    match e
    case Request(key, now) => OnCheck(c, t, key, now)
    case Swept(now) => (OnSweep(c, t, now), None)
  }

  function After(c: Config, es: seq<Event>): Table
    requires Sane(c)
  {
    if es == [] then map[] else Apply(c, After(c, es[..|es| - 1]), es[|es| - 1]).0
  }

  function Admitted(c: Config, es: seq<Event>, i: nat): bool
    requires Sane(c) && i < |es|
  {
    es[i].Request? && Apply(c, After(c, es[..i]), es[i]).1.None?
  }

  /** The event is a request of this key in this window. */
  predicate Counts(c: Config, e: Event, key: Key, bucket: nat)
    requires Sane(c)
  {
    e.Request? && e.key == key && Bucket(c, e.now) == bucket
  }

  /** The event is a sweep that finds this window past. */
  predicate Passes(c: Config, e: Event, bucket: nat)
    requires Sane(c)
  {
    e.Swept? && Bucket(c, e.now) > bucket
  }

  /** Requests of one key in one window. */
  function Requests(c: Config, es: seq<Event>, key: Key, bucket: nat): nat
    requires Sane(c)
  {
    if es == [] then 0
    else
      Requests(c, es[..|es| - 1], key, bucket) + if Counts(c, es[|es| - 1], key, bucket) then 1 else 0
  }

  /** ... and those among them after the last sweep that passed the window. */
  function Since(c: Config, es: seq<Event>, key: Key, bucket: nat): nat
    requires Sane(c)
  {
    if es == [] || Passes(c, es[|es| - 1], bucket) then 0
    else
      Since(c, es[..|es| - 1], key, bucket) + if Counts(c, es[|es| - 1], key, bucket) then 1 else 0
  }

  /** A sweep that passed the window came after one of its requests. */
  ghost predicate Discarded(c: Config, es: seq<Event>, key: Key, bucket: nat)
    requires Sane(c)
  {
    exists j | 0 <= j < |es| :: Passes(c, es[j], bucket) && Requests(c, es[..j], key, bucket) > 0
  }

  /** ... and another request of the window after that sweep. */
  ghost predicate Resumed(c: Config, es: seq<Event>, key: Key, bucket: nat)
    requires Sane(c)
  {
    exists k | 0 <= k < |es| :: Counts(c, es[k], key, bucket) && Discarded(c, es[..k], key, bucket)
  }

  lemma DiscardedMore(c: Config, front: seq<Event>, e: Event, key: Key, bucket: nat)
    requires Sane(c)
    ensures Discarded(c, front + [e], key, bucket)
       <==> Discarded(c, front, key, bucket) || (Passes(c, e, bucket) && Requests(c, front, key, bucket) > 0)
  {
    var es := front + [e];
    assert es[|front|] == e && es[..|front|] == front;
    forall j | 0 <= j < |front| ensures es[j] == front[j] && es[..j] == front[..j] {}
  }

  lemma ResumedMore(c: Config, front: seq<Event>, e: Event, key: Key, bucket: nat)
    requires Sane(c)
    ensures Resumed(c, front + [e], key, bucket)
       <==> Resumed(c, front, key, bucket) || (Counts(c, e, key, bucket) && Discarded(c, front, key, bucket))
  {
    var es := front + [e];
    assert es[|front|] == e && es[..|front|] == front;
    forall k | 0 <= k < |front| ensures es[k] == front[k] && es[..k] == front[..k] {}
  }

  /** What sweeps took away from a window, and when requests came back after it. */
  lemma {:induction false} SinceMeaning(c: Config, es: seq<Event>, key: Key, bucket: nat)
    requires Sane(c)
    ensures Since(c, es, key, bucket) <= Requests(c, es, key, bucket)
    ensures Since(c, es, key, bucket) == Requests(c, es, key, bucket) <==> !Discarded(c, es, key, bucket)
    ensures Resumed(c, es, key, bucket) ==> Discarded(c, es, key, bucket)
    ensures Discarded(c, es, key, bucket) && !Resumed(c, es, key, bucket) ==> Since(c, es, key, bucket) == 0
  {
    if es != [] {
      var front, e := es[..|es| - 1], es[|es| - 1];
      assert es == front + [e];
      SinceMeaning(c, front, key, bucket);
      DiscardedMore(c, front, e, key, bucket);
      ResumedMore(c, front, e, key, bucket);
    }
  }

  /** In every trace the counter holds the requests since the last sweep that passed its window. */
  lemma {:induction false} CounterIsSince(c: Config, es: seq<Event>, key: Key, bucket: nat)
    requires Sane(c)
    ensures Count(After(c, es), key, bucket) == Since(c, es, key, bucket)
  {
    if es != [] {
      CounterIsSince(c, es[..|es| - 1], key, bucket);
    }
  }

  /** ... so it is the number of the window's requests exactly until such a sweep discards one. */
  lemma CounterIsCount(c: Config, es: seq<Event>, key: Key, bucket: nat)
    requires Sane(c)
    ensures Count(After(c, es), key, bucket) == Requests(c, es, key, bucket) <==> !Discarded(c, es, key, bucket)
  {
    CounterIsSince(c, es, key, bucket);
    SinceMeaning(c, es, key, bucket);
  }

  /** In every trace, request i is admitted exactly if fewer than max requests of its key came
      before it in its window since the last sweep that passed that window. */
  lemma AdmittedMeaning(c: Config, es: seq<Event>, i: nat)
    requires Sane(c) && i < |es| && es[i].Request?
    ensures Admitted(c, es, i) <==> Since(c, es[..i], es[i].key, Bucket(c, es[i].now)) < c.max
  {
    CounterIsSince(c, es[..i], es[i].key, Bucket(c, es[i].now));
  }

  /** Sweeps change the answer to request i, against counting every request of its window,
      exactly if one of them discarded enough of those before it to lift a refusal. */
  lemma SweepsMatter(c: Config, es: seq<Event>, i: nat)
    requires Sane(c) && i < |es| && es[i].Request?
    ensures var key, bucket := es[i].key, Bucket(c, es[i].now);
            var before := es[..i];
            && (!Discarded(c, before, key, bucket) ==> (Admitted(c, es, i) <==> Requests(c, before, key, bucket) < c.max))
            && ((Admitted(c, es, i) <==> Requests(c, before, key, bucket) < c.max)
                <==> !(Since(c, before, key, bucket) < c.max <= Requests(c, before, key, bucket)))
  {
    AdmittedMeaning(c, es, i);
    SinceMeaning(c, es[..i], es[i].key, Bucket(c, es[i].now));
  }

  /** Admissions of one key at instants from `from` up to but not including `to`. */
  function Admissions(c: Config, es: seq<Event>, key: Key, from: Instant, to: Instant): nat
    requires Sane(c)
  {
    if es == [] then 0
    else
      var n := |es| - 1;
      Admissions(c, es[..n], key, from, to)
      + if Admitted(c, es, n) && es[n].key == key && from <= es[n].now < to then 1 else 0
  }

  function InWindow(c: Config, es: seq<Event>, key: Key, bucket: nat): nat
    requires Sane(c)
  {
    Admissions(c, es, key, bucket * c.window, (bucket + 1) * c.window)
  }

  /** One more event admits one more of the window exactly if it is a request of the window
      that finds fewer than max since the last passing sweep. */
  lemma InWindowMore(c: Config, es: seq<Event>, key: Key, bucket: nat)
    requires Sane(c) && es != []
    ensures var front, e := es[..|es| - 1], es[|es| - 1];
            InWindow(c, es, key, bucket) == InWindow(c, front, key, bucket)
              + if Counts(c, e, key, bucket) && Since(c, front, key, bucket) < c.max then 1 else 0
  {
    var n := |es| - 1;
    if es[n].Request? {
      AdmittedMeaning(c, es, n);
      InBucket(c, es[n].now, bucket);
    }
  }

  /** What one aligned window admits, in every trace: all its requests up to max; beyond max,
      exactly max if none came back after a sweep that discarded some, and more if one did. */
  lemma {:induction false} WindowMeaning(c: Config, es: seq<Event>, key: Key, bucket: nat)
    requires Sane(c)
    ensures var n, a := Requests(c, es, key, bucket), InWindow(c, es, key, bucket);
            && (!Resumed(c, es, key, bucket) ==> a == if n <= c.max then n else c.max)
            && (Resumed(c, es, key, bucket) && c.max > 0 ==> if n <= c.max then a == n else a > c.max)
            && (c.max == 0 ==> a == 0)
  {
    if es != [] {
      var front, e := es[..|es| - 1], es[|es| - 1];
      assert es == front + [e];
      WindowMeaning(c, front, key, bucket);
      InWindowMore(c, es, key, bucket);
      SinceMeaning(c, front, key, bucket);
      ResumedMore(c, front, e, key, bucket);
    }
  }

  /** A window admits more than max of a key exactly if it had more requests than that and one
      of them came after a sweep that passed the window and discarded an earlier one. */
  lemma WindowBound(c: Config, es: seq<Event>, key: Key, bucket: nat)
    requires Sane(c)
    ensures InWindow(c, es, key, bucket) > c.max <==> Overrun(c, es, key, bucket)
  {
    WindowMeaning(c, es, key, bucket);
  }

  ghost predicate Overrun(c: Config, es: seq<Event>, key: Key, bucket: nat)
    requires Sane(c)
  {
    0 < c.max < Requests(c, es, key, bucket) && Resumed(c, es, key, bucket)
  }

  lemma InBucket(c: Config, now: Instant, bucket: nat)
    requires Sane(c)
    ensures Bucket(c, now) == bucket <==> bucket * c.window <= now < (bucket + 1) * c.window
  {
    var q := now / c.window;
    assert now == q * c.window + now % c.window;
    if q < bucket {
      assert (q + 1) * c.window <= bucket * c.window;
    } else if q > bucket {
      assert (bucket + 1) * c.window <= q * c.window;
    }
  }

  lemma AtLeastBucket(c: Config, now: Instant, bucket: nat)
    requires Sane(c) && bucket * c.window <= now
    ensures Bucket(c, now) >= bucket
  {
    var beyond := now - bucket * c.window;
    var q := beyond / c.window;
    InBucket(c, beyond, q);
    assert (bucket + q) * c.window == bucket * c.window + q * c.window;
    assert (bucket + q + 1) * c.window == bucket * c.window + (q + 1) * c.window;
    InBucket(c, now, bucket + q);
  }

  /** Any stretch of one window's length sees at most 2 * max admissions of a key, unless one
      of the two windows it touches was overrun. */
  lemma SlidingBound(c: Config, es: seq<Event>, key: Key, from: Instant)
    requires Sane(c)
    ensures Admissions(c, es, key, from, from + c.window) <= 2 * c.max
         || Overrun(c, es, key, Bucket(c, from)) || Overrun(c, es, key, Bucket(c, from) + 1)
  {
    var b := Bucket(c, from);
    InBucket(c, from, b);
    assert (b + 2) * c.window == (b + 1) * c.window + c.window;
    SplitAdmissions(c, es, key, from, from + c.window, b * c.window, (b + 1) * c.window, (b + 2) * c.window);
    WindowBound(c, es, key, b);
    WindowBound(c, es, key, b + 1);
  }

  lemma {:induction false} SplitAdmissions(c: Config, es: seq<Event>, key: Key, from: Instant, to: Instant,
                                           lo: Instant, mid: Instant, hi: Instant)
    requires Sane(c) && lo <= from && to <= hi && lo <= mid <= hi
    ensures Admissions(c, es, key, from, to) <= Admissions(c, es, key, lo, mid) + Admissions(c, es, key, mid, hi)
  {
    if es != [] {
      SplitAdmissions(c, es[..|es| - 1], key, from, to, lo, mid, hi);
    }
  }

  /** A clock that is read and used in one order never discards what is still counted, so every
      request is answered by the full count of its window, no window admits more than max and
      no stretch of a window's length more than 2 * max. */
  lemma {:induction false} ClockInOrder(c: Config, es: seq<Event>, key: Key, at: Instant)
    requires Sane(c) && forall i, j | 0 <= i < j < |es| :: es[i].now <= es[j].now
    ensures forall i | 0 <= i < |es| && es[i].Request? ::
      Admitted(c, es, i) <==> Requests(c, es[..i], es[i].key, Bucket(c, es[i].now)) < c.max
    ensures InWindow(c, es, key, Bucket(c, at)) <= c.max
    ensures Admissions(c, es, key, at, at + c.window) <= 2 * c.max
  {
    forall i | 0 <= i < |es| && es[i].Request?
      ensures Admitted(c, es, i) <==> Requests(c, es[..i], es[i].key, Bucket(c, es[i].now)) < c.max
    {
      NothingDiscarded(c, es, i);
      SweepsMatter(c, es, i);
    }
    NeverResumed(c, es, key, Bucket(c, at));
    NeverResumed(c, es, key, Bucket(c, at) + 1);
    WindowBound(c, es, key, Bucket(c, at));
    SlidingBound(c, es, key, at);
  }

  lemma LaterBucket(c: Config, early: Instant, late: Instant)
    requires Sane(c) && early <= late
    ensures Bucket(c, early) <= Bucket(c, late)
  {
    InBucket(c, early, Bucket(c, early));
    AtLeastBucket(c, late, Bucket(c, early));
  }

  lemma NothingDiscarded(c: Config, es: seq<Event>, k: nat)
    requires Sane(c) && forall i, j | 0 <= i < j < |es| :: es[i].now <= es[j].now
    requires k < |es| && es[k].Request?
    ensures !Discarded(c, es[..k], es[k].key, Bucket(c, es[k].now))
  {
    forall j | 0 <= j < k ensures !Passes(c, es[..k][j], Bucket(c, es[k].now)) {
      LaterBucket(c, es[j].now, es[k].now);
    }
  }

  lemma NeverResumed(c: Config, es: seq<Event>, key: Key, bucket: nat)
    requires Sane(c) && forall i, j | 0 <= i < j < |es| :: es[i].now <= es[j].now
    ensures !Resumed(c, es, key, bucket)
  {
    forall j, k | 0 <= j < k < |es| && Counts(c, es[k], key, bucket) ensures !Passes(c, es[j], bucket) {
      LaterBucket(c, es[j].now, es[k].now);
    }
  }

  /** The overrun does happen: a request that read its clock before a sweep did and is counted
      after it makes a window of quota one admit two. */
  lemma LateRequestOverruns()
    ensures var c := Config(1, 10);
            var es := [Request(7, 5), Swept(10), Request(7, 6)];
            Overrun(c, es, 7, 0) && InWindow(c, es, 7, 0) == 2
  {
    var c := Config(1, 10);
    var es := [Request(7, 5), Swept(10), Request(7, 6)];
    assert es[..2] == [Request(7, 5), Swept(10)] && es[..2][..1] == [Request(7, 5)] && es[..2][..1][..0] == [];
    assert Counts(c, es[0], 7, 0) && Passes(c, es[1], 0) && Counts(c, es[2], 7, 0);
    assert Requests(c, es[..2][..1], 7, 0) == 1 && Since(c, es[..2][..1], 7, 0) == 1;
    assert Requests(c, es[..2], 7, 0) == 1 && Since(c, es[..2], 7, 0) == 0;
    InWindowMore(c, es, 7, 0);
    InWindowMore(c, es[..2], 7, 0);
    InWindowMore(c, es[..2][..1], 7, 0);
  }

  /** Waiting as told always lands in a later window, at most a second after it opens. */
  lemma RetryReachesNextWindow(c: Config, now: Instant)
    requires Sane(c)
    ensures RetryAfter(c, now) > 0
    ensures Bucket(c, now + 1000 * RetryAfter(c, now)) > Bucket(c, now)
    ensures now + 1000 * RetryAfter(c, now) <= (Bucket(c, now) + 1) * c.window + 1000
  {
    var b := Bucket(c, now);
    var later := now + 1000 * RetryAfter(c, now);
    InBucket(c, now, b);
    assert later >= (b + 1) * c.window;
    AtLeastBucket(c, later, b + 1);
  }

  /** In every trace a request is let through, or refused with the seconds after which a new
      window has opened, at most one second late; never anything else. */
  lemma AnswerMeaning(c: Config, es: seq<Event>, i: nat)
    requires Sane(c) && i < |es| && es[i].Request?
    ensures var now, bucket := es[i].now, Bucket(c, es[i].now);
            var answer := Apply(c, After(c, es[..i]), es[i]).1;
            && (answer.None? <==> Since(c, es[..i], es[i].key, bucket) < c.max)
            && (answer.Some? ==> answer.value > 0 && Bucket(c, now + 1000 * answer.value) > bucket
                                 && now + 1000 * answer.value <= (bucket + 1) * c.window + 1000)
  {
    AdmittedMeaning(c, es, i);
    RetryReachesNextWindow(c, es[i].now);
  }
}
