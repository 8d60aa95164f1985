/** A session's deadline across any number of re-creations: reclaimTTL in runner.go with
    clamp_ttl, cap, ceiling and expiry_at in portal/lib/onlytty/session_store.ex.
    Instants are nanoseconds of one shared clock; lifetimes and deadlines are seconds. */
module Deadline {
  import opened Base

  const NANOS: nat := 1_000_000_000
  const MIN_TTL: nat := 60
  const HARD_MAX_TTL: nat := 3_153_600_000

  /** The operator's ceiling, if there is one; a lifetime of 0 is never a ceiling. */
  type Seconds = n: nat | n > 0 witness 1

  function Ceiling(maxTtl: Option<Seconds>): nat {
    match maxTtl
    case None => HARD_MAX_TTL
    case Some(m) => if m <= HARD_MAX_TTL then m else HARD_MAX_TTL
  }

  function Min(a: int, b: int): int { if a <= b then a else b }

  function Max(a: int, b: int): int { if a >= b then a else b }

  function Capped(maxTtl: Option<Seconds>, ttl: int): int {
    if ttl <= 0 then (if maxTtl.None? then 0 else Ceiling(maxTtl)) else Min(ttl, Ceiling(maxTtl))
  }

  /** 0 means no expiry, in requests and in answers. */
  function Clamp(maxTtl: Option<Seconds>, ttl: int): int {
    if ttl <= 0 then Capped(maxTtl, 0) else Capped(maxTtl, Max(ttl, MIN_TTL))
  }

  function ExpiryAt(ttl: int, now: nat): int {
    if ttl == 0 then 0 else now / NANOS + ttl
  }

  /** The relay creates a session on request at `now`. */
  function Create(maxTtl: Option<Seconds>, ttl: int, now: nat): int {
    ExpiryAt(Clamp(maxTtl, ttl), now)
  }

  /** What the runner asks for after a loss; None: stop sharing. */
  function ReclaimTtl(expiresAt: int, ttl: int, now: nat): Option<int> {
    if expiresAt == 0 then Some(ttl)
    else
      var remaining := expiresAt * NANOS - now;
      if remaining <= 0 then None else Some((remaining + NANOS - 1) / NANOS)
  }

  /** Seconds round up to exactly the distance from the clock's current second. */
  lemma RoundsUp(expiresAt: int, now: nat)
    requires expiresAt * NANOS > now
    ensures (expiresAt * NANOS - now + NANOS - 1) / NANOS == expiresAt - now / NANOS
    ensures now / NANOS < expiresAt
  {
  }

  /** One re-creation: the new deadline is the original one, or as far from now as the
      shortest lifetime the relay grants, whichever is later. */
  lemma ReclaimedDeadline(maxTtl: Option<Seconds>, ttl: int, start: nat, now: nat)
    requires start <= now
    ensures var e := Create(maxTtl, ttl, start);
            var ask := ReclaimTtl(e, ttl, now);
            && (e == 0 ==> ask == Some(ttl) && Create(maxTtl, ttl, now) == 0)
            && (e != 0 && now >= e * NANOS ==> ask == None)
            && (e != 0 && now < e * NANOS ==>
                  && ask.Some? && ask.value > 0
                  && var again := Create(maxTtl, ask.value, now);
                     again == Max(e, now / NANOS + Min(MIN_TTL, Ceiling(maxTtl))))
  {
  }

  // ---- Any number of losses ------------------------------------------------------

  datatype Event =
    | Lose(now: nat)      // the relay node goes away
    | Expire(now: nat)    // the session's own timer
    | Redial(now: nat)    // the runner finds no session and re-creates it, or attaches to it

  /** The live session's deadline, and whether the runner has stopped sharing. */
  datatype State = State(session: Option<int>, stopped: bool)

  function Next(maxTtl: Option<Seconds>, expiresAt: int, ttl: int, s: State, e: Event): State {
    match e
    case Lose(_) => s.(session := None)
    case Expire(now) =>
      if s.session.Some? && s.session.value != 0 && now >= s.session.value * NANOS then s.(session := None) else s
    case Redial(now) =>
      if s.stopped || s.session.Some? then s
      else
        match ReclaimTtl(expiresAt, ttl, now)
        case None => s.(stopped := true)
        case Some(ask) => s.(session := Some(Create(maxTtl, ask, now)))
  }

  function Run(maxTtl: Option<Seconds>, ttl: int, start: nat, es: seq<Event>): State {
    if es == [] then State(Some(Create(maxTtl, ttl, start)), false)
    else Next(maxTtl, Create(maxTtl, ttl, start), ttl, Run(maxTtl, ttl, start, es[..|es| - 1]), es[|es| - 1])
  }

  ghost predicate Clocked(start: nat, es: seq<Event>) {
    forall i | 0 <= i < |es| :: start <= es[i].now
  }

  /** However often the session is lost and re-created: a bounded session stays bounded, by
      its original deadline or at most 59 seconds more; an unbounded one stays unbounded. */
  lemma {:induction false} NeverOutlives(maxTtl: Option<Seconds>, ttl: int, start: nat, es: seq<Event>)
    requires Clocked(start, es)
    ensures var e, s := Create(maxTtl, ttl, start), Run(maxTtl, ttl, start, es);
            s.session.Some? ==> if e == 0 then s.session.value == 0 else e <= s.session.value <= e + 59
    ensures Create(maxTtl, ttl, start) == 0 ==> !Run(maxTtl, ttl, start, es).stopped
  {
    if es != [] {
      var last := es[|es| - 1];
      NeverOutlives(maxTtl, ttl, start, es[..|es| - 1]);
      ReclaimedDeadline(maxTtl, ttl, start, last.now);
      var e := Create(maxTtl, ttl, start);
      if e != 0 && last.now < e * NANOS { RoundsUp(e, last.now); }
    }
  }

  /** From the original deadline on, no session is created again; before it, a re-creation
      has the original deadline exactly when that is at least a minimum lifetime away. */
  lemma RedialMeaning(maxTtl: Option<Seconds>, ttl: int, start: nat, es: seq<Event>, now: nat)
    requires Clocked(start, es) && start <= now
    ensures var e, s := Create(maxTtl, ttl, start), Run(maxTtl, ttl, start, es);
            var t := Next(maxTtl, e, ttl, s, Redial(now));
            e != 0 && s.session.None? && !s.stopped ==>
              && (t.session.None? <==> now >= e * NANOS)
              && (t.session == Some(e) <==> now < e * NANOS && e - now / NANOS >= Min(MIN_TTL, Ceiling(maxTtl)))
  {
  }

  // ---- What is granted, and that it ends --------------------------------------------

  /** A session gets exactly the lifetime asked for if that is between a minute and the ceiling;
      otherwise the nearer of the two; and none ends never unless the operator allows it. */
  lemma CreateMeaning(maxTtl: Option<Seconds>, ttl: int, start: nat)
    ensures var e, second := Create(maxTtl, ttl, start), start / NANOS;
            && (e == 0 <==> ttl <= 0 && maxTtl.None?)
            && (e != 0 ==> second < e <= second + 3_153_600_000)
            && (maxTtl.Some? ==> e <= second + maxTtl.value)
            && (60 <= ttl <= 3_153_600_000 && (maxTtl.Some? ==> ttl <= maxTtl.value) ==> e == second + ttl)
            && (0 < ttl < 60 && (maxTtl.Some? ==> 60 <= maxTtl.value) ==> e == second + 60)
            && (maxTtl.Some? && maxTtl.value <= 3_153_600_000 && (ttl <= 0 || ttl > maxTtl.value) ==> e == second + maxTtl.value)
  {
  }

  /** A session that is lost while it is shared is there again after the next dial, with its
      deadline, or a minimum lifetime where that is later; past the deadline sharing stops. */
  lemma ComesBack(maxTtl: Option<Seconds>, ttl: int, start: nat, es: seq<Event>, lost: nat, now: nat)
    requires start <= now
    ensures var e := Create(maxTtl, ttl, start);
            var s := Run(maxTtl, ttl, start, es + [Lose(lost), Redial(now)]);
            !Run(maxTtl, ttl, start, es).stopped ==>
              if e == 0 then s == State(Some(0), false)
              else if now >= e * NANOS then s == State(None, true)
              else s == State(Some(Max(e, now / NANOS + Min(MIN_TTL, Ceiling(maxTtl)))), false)
  {
    RunMore(maxTtl, ttl, start, es, Lose(lost));
    RunMore(maxTtl, ttl, start, es + [Lose(lost)], Redial(now));
    assert es + [Lose(lost)] + [Redial(now)] == es + [Lose(lost), Redial(now)];
    ReclaimedDeadline(maxTtl, ttl, start, now);
  }

  /** The session's own timer ends it at its deadline and not before, and never an unbounded one. */
  lemma ExpiresOnTime(maxTtl: Option<Seconds>, ttl: int, start: nat, es: seq<Event>, now: nat)
    ensures var s, t := Run(maxTtl, ttl, start, es), Run(maxTtl, ttl, start, es + [Expire(now)]);
            && t.stopped == s.stopped
            && (t.session.None? <==> s.session.None? || (s.session.value != 0 && now >= s.session.value * NANOS))
            && (t.session.Some? ==> t.session == s.session)
  {
    RunMore(maxTtl, ttl, start, es, Expire(now));
  }

  lemma RunMore(maxTtl: Option<Seconds>, ttl: int, start: nat, es: seq<Event>, e: Event)
    ensures Run(maxTtl, ttl, start, es + [e])
         == Next(maxTtl, Create(maxTtl, ttl, start), ttl, Run(maxTtl, ttl, start, es), e)
  {
    assert (es + [e])[..|es|] == es;
  }
}
