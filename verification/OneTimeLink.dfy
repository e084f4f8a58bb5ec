/** Install links: a signed token with an expiry, burnt in Redis by its first download. */
module OneTimeLink {
  import opened Wrappers

  type Jti = int

  const TTL_SECONDS: int := 30 * 60

  const MODES := ["full", "ssh", "posture"]

  /** The claims of a token, its signature being good. Times in claims are in seconds (NumericDate
      of RFC 7519), clocks are in milliseconds. */
  datatype Payload = Payload(kind: string, jti: Option<Jti>, exp: int, mode: Option<string>)

  function Seconds(date: int): int { date / 1000 }

  function Sign(jti: Jti, mode: Option<string>, date: int): Payload {
    Payload(
      "bootstrap", Some(jti), Seconds(date) + TTL_SECONDS,
      if mode.Some? && mode.value != "" then mode else Some("full"))
  }

  /** The current time must be before `exp` (section 4.1.4 of RFC 7519). */
  function Verify(p: Payload, date: int): Option<Payload> {
    if Seconds(date) >= p.exp || p.kind != "bootstrap" then None
    else Some(p.(mode := if p.mode.Some? && p.mode.value in MODES then p.mode else Some("full")))
  }

  /** For every signed token: it must be one of this family and not have expired. Its mode comes
      out as it is if it is known, and as the full one if it is not; the rest is untouched. */
  lemma VerifyIff(p: Payload, date: int)
    ensures var r := Verify(p, date);
            && (r.Some? <==> p.kind == "bootstrap" && date < 1000 * p.exp)
            && (r.Some? ==>
                  && (r.value.mode == Some("full") || r.value.mode == Some("ssh") || r.value.mode == Some("posture"))
                  && (p.mode.Some? && p.mode.value in ["full", "ssh", "posture"] ==> r.value.mode == p.mode)
                  && (!(p.mode.Some? && p.mode.value in ["full", "ssh", "posture"]) ==> r.value.mode == Some("full"))
                  && r.value.(mode := p.mode) == p)
  {
  }

  /** A signed link verifies exactly until its half hour is over, and comes out with the mode it
      was minted for, or the full one if that is none of the known. */
  lemma SignVerify(jti: Jti, mode: Option<string>, minted: int, date: int)
    ensures var r := Verify(Sign(jti, mode, minted), date);
            && (r.Some? <==> date < 1000 * (Seconds(minted) + TTL_SECONDS))
            && (r.Some? ==> r.value.jti == Some(jti) && r.value.mode.Some? && r.value.mode.value in MODES
                            && (mode.Some? && mode.value in MODES ==> r.value.mode == mode)
                            && (mode.None? ==> r.value.mode == Some("full")))
  {
    assert MODES[0] == "full" && MODES[1] == "ssh" && MODES[2] == "posture";
    assert "" !in MODES;
  }

  // ---------------------------------------------------------------- the claim in Redis

  /** Redis' clock, and when the key of each claimed link expires. */
  datatype State = State(now: int, keys: map<Jti, int>)

  /** `Claim`: the `SET ... NX` of a verified token takes effect at Redis; `date` is what the
      server's clock said when it computed the TTL. `Lost`: Redis failed, and the download with it. */
  datatype Event =
    | Claim(p: Payload, date: int)
    | Lost(p: Payload)
    | Tick(elapsed: nat)

  function Ttl(p: Payload, date: int): int {
    var left := p.exp - Seconds(date);
    if left > 1 then left else 1
  }

  predicate Live(s: State, j: Jti) { j in s.keys && s.now < s.keys[j] }

  /** The download goes through. */
  predicate Accepts(s: State, e: Event) {
    e.Claim? && (e.p.jti.None? || !Live(s, e.p.jti.value))
  }

  function Apply(s: State, e: Event): State {
    match e
    case Tick(elapsed) => s.(now := s.now + elapsed)
    case Lost(_) => s
    case Claim(p, date) =>
      if p.jti.Some? && Accepts(s, e) then s.(keys := s.keys[p.jti.value := s.now + 1000 * Ttl(p, date)]) else s
  }

  function Run(s: State, es: seq<Event>): State
    decreases |es|
  {
    if es == [] then s else Apply(Run(s, es[..|es| - 1]), es[|es| - 1])
  }

  predicate Claims(e: Event, j: Jti) { e.Claim? && e.p.jti == Some(j) }

  /** How many downloads of link `j` the run lets through. */
  function Downloads(s: State, es: seq<Event>, j: Jti): nat
    decreases |es|
  {
    if es == [] then 0
    else
      var last := es[|es| - 1];
      var before := es[..|es| - 1];
      Downloads(s, before, j) + if Claims(last, j) && Accepts(Run(s, before), last) then 1 else 0
  }

  predicate Tried(es: seq<Event>, j: Jti)
    decreases |es|
  {
    es != [] && (Claims(es[|es| - 1], j) || Tried(es[..|es| - 1], j))
  }

  /** Claims of `j` are for the one token that has this `jti`, and the server's clock is not ahead
      of Redis' when the claim gets there. */
  ghost predicate InStep(s: State, es: seq<Event>, j: Jti, exp: int)
    decreases |es|
  {
    es == [] ||
      (var last := es[|es| - 1];
       var before := es[..|es| - 1];
       InStep(s, before, j, exp) && (Claims(last, j) ==> last.p.exp == exp && last.date <= Run(s, before).now))
  }

  /** The TTL, with its floor and its minimum of one second, outlives the token; and but for what
      the server's clock is behind, by less than a second. */
  lemma TtlOutlives(p: Payload, date: int, now: int)
    requires date <= now
    ensures var end := now + 1000 * Ttl(p, date);
            && end >= 1000 * p.exp && end > now
            && (end - (now - date) < 1000 * p.exp + 1000 || end - (now - date) == date + 1000)
  {
  }

  lemma ClockOnlyAdvances(s: State, e: Event)
    ensures s.now <= Apply(s, e).now
  {
  }

  /** Single use: however claims are spread before the token's expiry, and whatever happens to
      other links, the run lets through exactly one download if one was tried, and none else. */
  lemma {:induction false} SingleUse(s: State, es: seq<Event>, j: Jti, exp: int)
    requires j !in s.keys && InStep(s, es, j, exp) && Run(s, es).now < 1000 * exp
    ensures Downloads(s, es, j) == if Tried(es, j) then 1 else 0
    ensures var t := Run(s, es);
            if Tried(es, j) then j in t.keys && t.keys[j] >= 1000 * exp else j !in t.keys
    decreases |es|
  {
    hide Ttl;
    if es == [] {
    } else {
      var n := |es| - 1;
      ClockOnlyAdvances(Run(s, es[..n]), es[n]);
      SingleUse(s, es[..n], j, exp);
      if Claims(es[n], j) {
        TtlOutlives(es[n].p, es[n].date, Run(s, es[..n]).now);
      }
    }
  }

  /** Exactly when a link could be claimed again: after its first claim, an attempt is let through
      if and only if it reaches Redis when the TTL is over - so never before the expiry, but a
      request that was verified just in time and is slower than that gets a second download. */
  lemma ClaimedAgainIff(s: State, first: Event, elapsed: nat, again: Event)
    requires first.Claim? && first.p.jti.Some? && Accepts(s, first)
    requires again.Claim? && again.p.jti == first.p.jti
    ensures Accepts(Apply(Apply(s, first), Tick(elapsed)), again) <==> elapsed >= 1000 * Ttl(first.p, first.date)
  {
  }

  /** A server whose clock runs ahead by `skew` milliseconds shortens that by no more than the skew. */
  lemma SkewCosts(s: State, first: Event, skew: nat, elapsed: nat, again: Event)
    requires first.Claim? && first.p.jti.Some? && Accepts(s, first) && first.date <= s.now + skew
    requires again.Claim? && again.p.jti == first.p.jti
    requires s.now + elapsed < 1000 * first.p.exp - skew
    ensures !Accepts(Apply(Apply(s, first), Tick(elapsed)), again)
  {
    ClaimedAgainIff(s, first, elapsed, again);
    TtlOutlives(first.p, first.date, first.date);
  }

  /** Links from before tokens had a `jti` can be downloaded any number of times. */
  lemma OldLinksAreNotBurnt(s: State, es: seq<Event>, e: Event)
    requires e.Claim? && e.p.jti.None?
    ensures Accepts(Run(s, es), e) && Apply(Run(s, es), e) == Run(s, es)
  {
  }

  // ---------------------------------------------------------------- the route

  class Redis {
    var now: int
    var keys: map<Jti, int>

    ghost function Contents(): State
      reads this
    {
      State(now, keys)
    }

    constructor (now: int)
      ensures Contents() == State(now, map[])
    {
      this.now, keys := now, map[];
    }

    /** `SET key 1 EX ttl NX`. */
    method SetNx(j: Jti, ttl: int) returns (ok: bool)
      modifies `keys
      ensures ok == !Live(old(Contents()), j)
      ensures keys == if ok then old(keys)[j := now + 1000 * ttl] else old(keys)
    {
      ok := j !in keys || keys[j] <= now;
      if ok {
        keys := keys[j := now + 1000 * ttl];
      }
    }

    /** The download route up to the burnt link: verified at `verifiedAt`, burnt at `date`. */
    method Download(p: Payload, verifiedAt: int, date: int) returns (mode: Option<string>)
      modifies `keys
      ensures var claim := Claim(p, date);
              if Verify(p, verifiedAt).None? then mode.None? && keys == old(keys)
              else
                && Contents() == Apply(old(Contents()), claim)
                && mode == if Accepts(old(Contents()), claim) then Verify(p, verifiedAt).value.mode else None
    {
      var verified := Verify(p, verifiedAt);
      if verified.None? {
        return None;
      }
      if p.jti.Some? {
        var burnt := SetNx(p.jti.value, Ttl(p, date));
        if !burnt {
          return None;
        }
      }
      mode := verified.value.mode;
    }
  }
}
