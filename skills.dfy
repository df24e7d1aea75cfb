/** The skill timer: a cooldown and an optional active window per skill,
    both read off the current time rather than driven by callbacks.

    Time is a `steady_clock` reading in its own ticks, taken to be
    nanoseconds (the period of the usual standard libraries), so that the
    millisecond truncation of `remainingMs` is visible. */
module Skills {

  const NanosPerMs := 1_000_000

  /** `activeUntil`: either the clock's earliest instant (never activated) or a real instant. */
  datatype Deadline = Earliest | At(t: int)

  datatype Skill = Skill(name: string, cooldownMs: int, durationMs: int, nextReady: int, activeUntil: Deadline)

  /** The constructor `Skill(n, cd, dur)` run at time `now`: ready at once, never active. */
  function Create(name: string, cooldownMs: int, durationMs: int, now: int): (s: Skill)
    ensures IsReady(s, now) && !IsActive(s, now)
    ensures s.name == name && s.cooldownMs == cooldownMs && s.durationMs == durationMs
    ensures 0 <= durationMs <= cooldownMs ==> Coherent(s)
  {
    Skill(name, cooldownMs, durationMs, now, Earliest)
  }

  predicate IsReady(s: Skill, now: int) {
    now >= s.nextReady
  }

  predicate IsActive(s: Skill, now: int) {
    s.durationMs > 0 && s.activeUntil.At? && now < s.activeUntil.t
  }

  /** `remainingMs`: whole milliseconds left, truncated, 0 once ready. Within
      the last millisecond of a cooldown it is 0 although the skill is not ready. */
  function RemainingMs(s: Skill, now: int): (r: int)
    ensures r >= 0
    ensures IsReady(s, now) ==> r == 0
    ensures !IsReady(s, now) ==> r * NanosPerMs <= s.nextReady - now < (r + 1) * NanosPerMs
    ensures r == 0 <==> s.nextReady - now < NanosPerMs
  {
    if IsReady(s, now) then 0 else (s.nextReady - now) / NanosPerMs
  }

  /** Pressing the key of a skill with an active window (Reveal, Freeze) while it is ready. */
  function Activate(s: Skill, now: int): (t: Skill)
    ensures t.name == s.name && t.cooldownMs == s.cooldownMs && t.durationMs == s.durationMs
    ensures forall u :: IsReady(t, u) <==> u >= now + s.cooldownMs * NanosPerMs
    ensures forall u :: IsActive(t, u) <==> s.durationMs > 0 && u < now + s.durationMs * NanosPerMs
  {
    s.(activeUntil := At(now + s.durationMs * NanosPerMs), nextReady := now + s.cooldownMs * NanosPerMs)
  }

  /** Slash only restarts its cooldown; its active window is left as it was. */
  function Restart(s: Skill, now: int): (t: Skill)
    ensures t.name == s.name && t.cooldownMs == s.cooldownMs && t.durationMs == s.durationMs
    ensures forall u :: IsReady(t, u) <==> u >= now + s.cooldownMs * NanosPerMs
    ensures forall u :: IsActive(t, u) <==> IsActive(s, u)
  {
    s.(nextReady := now + s.cooldownMs * NanosPerMs)
  }

  /** Once ready a skill stays ready, and once its window has closed it stays
      closed, as time moves on. */
  lemma TimersAreMonotone(s: Skill, u: int, v: int)
    requires u <= v
    ensures IsReady(s, u) ==> IsReady(s, v)
    ensures IsActive(s, v) ==> IsActive(s, u)
  {
  }

  /** The active window never outlasts the cooldown. */
  predicate Coherent(s: Skill) {
    0 <= s.durationMs <= s.cooldownMs &&
    (s.activeUntil.At? ==> s.activeUntil.t <= s.nextReady)
  }

  /** The three skills of the game, each made at time `now`. */
  function Reveal(now: int): Skill { Create("Reveal Vowels", 8000, 4000, now) }
  function Freeze(now: int): Skill { Create("Freeze", 10000, 3000, now) }
  function Slash(now: int): Skill { Create("Slash", 6000, 0, now) }

  /** `s` is the skill `proto` was made as, at whatever time and in whatever timer state. */
  predicate SameKind(s: Skill, proto: Skill) {
    s.name == proto.name && s.cooldownMs == proto.cooldownMs && s.durationMs == proto.durationMs
  }

  /** A coherent skill is never ready while active: a request in the active window is ignored. */
  lemma ActiveMeansCooling(s: Skill, now: int)
    requires Coherent(s) && IsActive(s, now)
    ensures !IsReady(s, now)
  {
  }

  /** Activation at a ready moment keeps the timer coherent. */
  lemma ActivationKeepsCoherent(s: Skill, now: int)
    requires Coherent(s) && IsReady(s, now)
    ensures Coherent(Activate(s, now)) && Coherent(Restart(s, now))
  {
  }

  /** Slash, with no active window, is never active. */
  lemma SlashNeverActive(s: Skill, now: int)
    requires SameKind(s, Slash(0))
    ensures !IsActive(s, now)
  {
  }
}
