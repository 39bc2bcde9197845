/** How many submitted codes can be compared for one chat, over whole runs of the access control. */
module PairingRate {
  import opened Prelude
  import opened Access

  datatype Event =
    | Arm(chat: int, minted: seq<Byte>)
    | Submit(chat: int, code: seq<Byte>, minted: seq<Byte>)
    | Grant(chat: int)
    | Revoke(chat: int)

  datatype Timed = Timed(at: Time, event: Event)

  function Step(s: AccessView, e: Timed): AccessView {
    match e.event
    case Arm(chat, minted) => if chat in s.allowed then s else Ensured(s, chat, e.at, minted)
    case Submit(chat, code, minted) => Attempt(s, chat, code, e.at, minted).0
    case Grant(chat) => Allow(s, chat)
    case Revoke(chat) => DenyChat(s, chat)
  }

  predicate Compared(s: AccessView, e: Timed, chat: int) {
    e.event.Submit? && e.event.chat == chat && Compares(s, chat, e.at)
  }

  /** The comparisons for `chat` at times in [from, until). */
  function Comparisons(s: AccessView, events: seq<Timed>, chat: int, from: int, until: int): nat
    decreases events
  {
    if events == [] then 0
    else
      (if Compared(s, events[0], chat) && from <= events[0].at < until then 1 else 0)
      + Comparisons(Step(s, events[0]), events[1..], chat, from, until)
  }

  ghost predicate Ordered(events: seq<Timed>) {
    forall i, j :: 0 <= i < j < |events| ==> events[i].at <= events[j].at
  }

  /** The clock stays below the last value a 64-bit second counter can show. */
  ghost predicate ClockRunning(events: seq<Timed>) {
    forall i :: 0 <= i < |events| ==> events[i].at < U64_MAX
  }

  ghost predicate NotRevoked(events: seq<Timed>, chat: int, from: int, until: int) {
    forall i :: 0 <= i < |events| && from <= events[i].at < until ==> events[i].event != Revoke(chat)
  }

  // ---------- Invariant and potential ----------

  /** An unlocked entry has counted at least one failure and fewer than the limit. */
  ghost predicate Counting(s: AccessView, chat: int) {
    chat in s.attempts && s.attempts[chat].lockedUntil == None ==>
      1 <= s.attempts[chat].count < MAX_PAIRING_ATTEMPTS
  }

  /** The most comparisons an untouched chat can have from `from` on and before `until`. */
  function Budget(from: int, until: int): nat {
    if from >= until then 0 else 5 * ((until - from + 299) / 300)
  }

  lemma {:induction false} BudgetDrops(from: int, until: int)
    requires from < until
    ensures Budget(from, until) == 5 + Budget(from + 300, until)
  {
  }

  lemma {:induction false} BudgetMonotone(a: int, b: int, until: int)
    requires a <= b
    ensures Budget(b, until) <= Budget(a, until)
  {
  }

  /** The most comparisons the chat can still have before `until`. */
  function Potential(s: AccessView, chat: int, now: int, until: int): int {
    if chat in s.allowed then 0
    else if chat !in s.attempts then Budget(now, until)
    else
      var a := s.attempts[chat];
      match a.lockedUntil
      case Some(t) => if t == U64_MAX then 0 else Budget(Max(now, t), until)
      case None =>
        if now >= a.windowStartedAt + 300 then Budget(now, until)
        else Max(4 - a.count + Budget(a.windowStartedAt + 300, until), 5 - a.count + Budget(now + 300, until))
  }

  lemma {:induction false} PotentialMonotone(s: AccessView, chat: int, a: int, b: int, until: int)
    requires a <= b && Counting(s, chat)
    ensures 0 <= Potential(s, chat, b, until) <= Potential(s, chat, a, until)
  {
    BudgetMonotone(a, b, until);
    BudgetMonotone(a + 300, b + 300, until);
    if chat in s.attempts {
      var w := s.attempts[chat].windowStartedAt + 300;
      if w <= b {
        BudgetMonotone(w, b, until);
      }
      if s.attempts[chat].lockedUntil.Some? {
        BudgetMonotone(Max(a, s.attempts[chat].lockedUntil.value), Max(b, s.attempts[chat].lockedUntil.value), until);
      }
    }
  }

  /** A comparison uses up one unit. */
  lemma {:induction false} ComparisonSpends(
      s: AccessView, chat: int, code: seq<Byte>, minted: seq<Byte>, now: Time, until: int)
    requires Counting(s, chat) && Compares(s, chat, now) && now < U64_MAX && now < until
    ensures var t := Attempt(s, chat, code, now, minted).0;
      Counting(t, chat) && Potential(t, chat, now, until) + 1 <= Potential(s, chat, now, until)
  {
    BudgetDrops(now, until);
    var t := Attempt(s, chat, code, now, minted).0;
    if chat in s.attempts && s.attempts[chat].lockedUntil.None? && now < s.attempts[chat].windowStartedAt + 300 {
      assert Budget(now + 300, until) >= 0;
    } else {
      assert Potential(s, chat, now, until) == Budget(now, until);
    }
    if chat !in t.allowed && t.attempts[chat].lockedUntil.Some? {
      assert t.attempts[chat].lockedUntil.value == Later(now, 300);
    }
  }

  lemma {:induction false} StepSpends(s: AccessView, e: Timed, chat: int, until: int)
    requires Counting(s, chat) && e.at < U64_MAX && e.event != Revoke(chat)
    requires Compared(s, e, chat) ==> e.at < until
    ensures Counting(Step(s, e), chat)
    ensures Potential(Step(s, e), chat, e.at, until) + (if Compared(s, e, chat) then 1 else 0)
         <= Potential(s, chat, e.at, until)
  {
    if Compared(s, e, chat) {
      ComparisonSpends(s, chat, e.event.code, e.event.minted, e.at, until);
    } else {
      PotentialMonotone(s, chat, e.at, e.at, until);
    }
  }

  lemma {:induction false} ComparisonsWithinPotential(
      s: AccessView, events: seq<Timed>, chat: int, now: int, from: int, until: int)
    requires Counting(s, chat) && Ordered(events) && ClockRunning(events)
    requires NotRevoked(events, chat, from, until)
    requires from <= now && forall i :: 0 <= i < |events| ==> now <= events[i].at
    ensures Comparisons(s, events, chat, from, until) <= Potential(s, chat, now, until)
    decreases events
  {
    PotentialMonotone(s, chat, now, now, until);
    if events != [] {
      var e, rest := events[0], events[1..];
      PotentialMonotone(s, chat, now, e.at, until);
      if e.at >= until {
        NothingAfter(s, events, chat, from, until);
      } else {
        StepSpends(s, e, chat, until);
        assert forall i :: 0 <= i < |rest| ==> e.at <= rest[i].at;
        ComparisonsWithinPotential(Step(s, e), rest, chat, e.at, from, until);
      }
    }
  }

  lemma {:induction false} NothingAfter(s: AccessView, events: seq<Timed>, chat: int, from: int, until: int)
    requires forall i :: 0 <= i < |events| ==> until <= events[i].at
    ensures Comparisons(s, events, chat, from, until) == 0
    decreases events
  {
    if events != [] {
      NothingAfter(Step(s, events[0]), events[1..], chat, from, until);
    }
  }

  lemma {:induction false} StepKeepsCounting(s: AccessView, e: Timed, chat: int)
    requires Counting(s, chat)
    ensures Counting(Step(s, e), chat)
  {
  }

  lemma {:induction false} InitialPotential(s: AccessView, chat: int, now: int, n: nat)
    requires Counting(s, chat) && n >= 1
    ensures Potential(s, chat, now, now + 300 * n) <= 5 * n + 3
  {
  }

  // ---------- Main results ----------

  /** In any half-open interval of n lockout windows in which the chat is not denied, at most
      5n + 3 submitted codes are compared for it, wherever the run starts. */
  lemma {:induction false} RateLimit(s: AccessView, events: seq<Timed>, chat: int, from: int, n: nat)
    requires Counting(s, chat) && Ordered(events) && ClockRunning(events) && n >= 1
    requires NotRevoked(events, chat, from, from + 300 * n)
    ensures Comparisons(s, events, chat, from, from + 300 * n) <= 5 * n + 3
    decreases events
  {
    if events != [] {
      if events[0].at < from {
        StepKeepsCounting(s, events[0], chat);
        RateLimit(Step(s, events[0]), events[1..], chat, from, n);
      } else {
        InitialPotential(s, chat, from, n);
        ComparisonsWithinPotential(s, events, chat, from, from, from + 300 * n);
      }
    }
  }

  const FRESH := AccessView({}, {}, map[], map[], {})

  /** At most eight comparisons in any 300 seconds. */
  lemma {:induction false} AtMostEightPerWindow(
      allowed: set<int>, owners: set<int>, events: seq<Timed>, chat: int, from: int)
    requires Ordered(events) && ClockRunning(events) && NotRevoked(events, chat, from, from + LOCKOUT_WINDOW)
    ensures Comparisons(AccessView(allowed, owners, map[], map[], {}), events, chat, from, from + LOCKOUT_WINDOW) <= 8
  {
    RateLimit(AccessView(allowed, owners, map[], map[], {}), events, chat, from, 1);
  }

  /** Whether an event makes the chat's code a newly issued one. */
  predicate Issues(s: AccessView, e: Timed, chat: int) {
    && NeedsIssue(s, chat, e.at)
    && ((e.event.Arm? && e.event.chat == chat && chat !in s.allowed) || Compared(s, e, chat))
  }

  /** The comparisons made before the chat's current code is replaced or withdrawn. */
  function RestOfLife(s: AccessView, events: seq<Timed>, chat: int): nat
    decreases events
  {
    if events == [] || events[0].event == Revoke(chat) || Issues(s, events[0], chat) then 0
    else (if Compared(s, events[0], chat) then 1 else 0) + RestOfLife(Step(s, events[0]), events[1..], chat)
  }

  lemma {:induction false} LifeWithinPotential(
      s: AccessView, events: seq<Timed>, chat: int, now: int, expires: Time, until: int)
    requires Counting(s, chat) && Ordered(events) && ClockRunning(events) && expires <= until
    requires forall i :: 0 <= i < |events| ==> now <= events[i].at
    requires chat in s.allowed || (chat in s.pending && s.pending[chat].expiresAt == expires)
    ensures RestOfLife(s, events, chat) <= Potential(s, chat, now, until)
    decreases events
  {
    PotentialMonotone(s, chat, now, now, until);
    if events != [] && events[0].event != Revoke(chat) && !Issues(s, events[0], chat) {
      var e, rest := events[0], events[1..];
      PotentialMonotone(s, chat, now, e.at, until);
      StepSpends(s, e, chat, until);
      assert forall i :: 0 <= i < |rest| ==> e.at <= rest[i].at;
      LifeWithinPotential(Step(s, e), rest, chat, e.at, expires, until);
    }
  }

  /** Over the whole life of any single issued code, at most 13 submissions are compared with it,
      the one that may have issued it included. */
  lemma {:induction false} CodeComparedAtMost13Times(s: AccessView, events: seq<Timed>, chat: int)
    requires Counting(s, chat) && Ordered(events) && ClockRunning(events)
    requires events != [] && Issues(s, events[0], chat)
    ensures (if Compared(s, events[0], chat) then 1 else 0) + RestOfLife(Step(s, events[0]), events[1..], chat) <= 13
  {
    var e := events[0];
    InitialPotential(s, chat, e.at, 2);
    StepSpends(s, e, chat, e.at + 600);
    LifeWithinPotential(Step(s, e), events[1..], chat, e.at, Later(e.at, PAIRING_CODE_TTL), e.at + 600);
  }

  // ---------- The bounds are attained, and need a running clock ----------

  function Wrong(at: Time): Timed {
    Timed(at, Submit(7, [0], [1]))
  }

  function Repeat(at: Time, n: nat): seq<Timed> {
    seq(n, i => Wrong(at))
  }

  /** Chat 7 with a code issued at 0 and the given failures so far. */
  function Failed(started: Time, count: nat): AccessView {
    AccessView({}, {}, map[7 := PairingState([1], 600)], map[7 := AttemptState(started, count, None)], {})
  }

  lemma {:induction false} OneWrong(started: Time, count: nat, at: Time)
    requires 1 <= count < 5 && started <= at < 600 && (at < started + 300 ==> count < 4)
    ensures Step(Failed(started, count), Wrong(at))
         == if at < started + 300 then Failed(started, count + 1) else Failed(at, 1)
  {
  }

  /** n wrong codes at one time inside the window: n comparisons. */
  lemma {:induction false} RepeatedWrong(
      started: Time, count: nat, rest: seq<Timed>, at: Time, n: nat, from: int, until: int)
    requires 1 <= count && count + n < 5 && started <= at < started + 300 && at < 600 && from <= at < until
    ensures Comparisons(Failed(started, count), Repeat(at, n) + rest, 7, from, until)
         == n + Comparisons(Failed(started, count + n), rest, 7, from, until)
    decreases n
  {
    if n == 0 {
      assert Repeat(at, 0) + rest == rest;
    } else {
      assert (Repeat(at, n) + rest)[1..] == Repeat(at, n - 1) + rest;
      OneWrong(started, count, at);
      RepeatedWrong(started, count + 1, rest, at, n - 1, from, until);
    }
  }

  lemma {:induction false} FiveAt300()
    ensures Comparisons(Failed(0, 4), [Wrong(300)] + (Repeat(300, 3) + [Wrong(300)]), 7, 1, 301) == 5
  {
    var last := [Wrong(300)];
    var rest := Repeat(300, 3) + last;
    assert (last + rest)[1..] == rest;
    OneWrong(0, 4, 300);
    RepeatedWrong(300, 1, last, 300, 3, 1, 301);
    assert Comparisons(Failed(300, 4), last, 7, 1, 301)
        == 1 + Comparisons(Step(Failed(300, 4), last[0]), [], 7, 1, 301);
  }

  /** One failure at 0, three at 299, five at 300: eight comparisons between 1 and 301. */
  lemma {:induction false} EightIsAttained()
    ensures var events := [Wrong(0)] + (Repeat(299, 3) + ([Wrong(300)] + (Repeat(300, 3) + [Wrong(300)])));
      Comparisons(FRESH, events, 7, 1, 301) == 8
  {
    var late := [Wrong(300)] + (Repeat(300, 3) + [Wrong(300)]);
    assert ([Wrong(0)] + (Repeat(299, 3) + late))[1..] == Repeat(299, 3) + late;
    assert Step(FRESH, Wrong(0)).attempts == Failed(0, 1).attempts;
    assert Step(FRESH, Wrong(0)) == Failed(0, 1);
    RepeatedWrong(0, 1, late, 299, 3, 1, 301);
    FiveAt300();
  }

  /** Chat 7 with a code that expires then and these failures. */
  function Live(expires: Time, a: AttemptState): AccessView {
    AccessView({}, {}, map[7 := PairingState([1], expires)], map[7 := a], {})
  }

  lemma {:induction false} WrongIsCompared(
      expires: Time, a: AttemptState, at: Time, next: AttemptState, events: seq<Timed>)
    requires at < expires && (a.lockedUntil.Some? ==> a.lockedUntil.value <= at)
    requires next == Counted(if a.lockedUntil.Some? then None else Some(a), at)
    requires events != [] && events[0] == Wrong(at)
    ensures RestOfLife(Live(expires, a), events, 7) == 1 + RestOfLife(Live(expires, next), events[1..], 7)
  {
    var s := Live(expires, a);
    assert !Issues(s, events[0], 7) && Compared(s, events[0], 7);
    assert Step(s, events[0]) == Live(expires, next);
  }

  /** n more wrong codes inside the window, short of the limit. */
  lemma {:induction false} RepeatedLife(expires: Time, started: Time, count: nat, at: Time, n: nat, rest: seq<Timed>)
    requires 1 <= count && count + n < 5 && started <= at < started + 300 && at < expires
    ensures RestOfLife(Live(expires, AttemptState(started, count, None)), Repeat(at, n) + rest, 7)
         == n + RestOfLife(Live(expires, AttemptState(started, count + n, None)), rest, 7)
    decreases n
  {
    if n == 0 {
      assert Repeat(at, 0) + rest == rest;
    } else {
      assert (Repeat(at, n) + rest)[1..] == Repeat(at, n - 1) + rest;
      var next := AttemptState(started, count + 1, None);
      assert Counted(Some(AttemptState(started, count, None)), at) == next;
      WrongIsCompared(expires, AttemptState(started, count, None), at, next, Repeat(at, n) + rest);
      RepeatedLife(expires, started, count + 1, at, n - 1, rest);
    }
  }

  /** Five wrong codes at one time. */
  function Five(at: Time, rest: seq<Timed>): seq<Timed> {
    [Wrong(at)] + (Repeat(at, 3) + ([Wrong(at)] + rest))
  }

  /** Once the window or the lockout is over, five more are compared, and lock the chat out. */
  lemma {:induction false} FiveLife(expires: Time, a: AttemptState, at: Time, rest: seq<Timed>)
    requires at < expires && at + 300 < U64_MAX
    requires if a.lockedUntil.Some? then a.lockedUntil.value <= at else a.windowStartedAt + 300 <= at
    ensures RestOfLife(Live(expires, a), Five(at, rest), 7)
         == 5 + RestOfLife(Live(expires, AttemptState(at, 5, Some(at + 300))), rest, 7)
  {
    var last := [Wrong(at)] + rest;
    assert Five(at, rest)[1..] == Repeat(at, 3) + last;
    WrongIsCompared(expires, a, at, AttemptState(at, 1, None), Five(at, rest));
    RepeatedLife(expires, at, 1, at, 3, last);
    assert last[1..] == rest;
    WrongIsCompared(expires, AttemptState(at, 4, None), at, AttemptState(at, 5, Some(at + 300)), last);
  }

  /** A failure at 701 and a code issued at 1000: three, five and five wrong codes are compared with
      it, at 1000, 1001 and 1301. */
  lemma {:induction false} ThirteenIsAttained()
    ensures var s := Step(Step(FRESH, Timed(400, Arm(7, [1]))), Wrong(701));
      var events := [Wrong(1000)] + (Repeat(1000, 2) + Five(1001, Five(1301, [])));
      && Issues(s, events[0], 7)
      && (if Compared(s, events[0], 7) then 1 else 0) + RestOfLife(Step(s, events[0]), events[1..], 7) == 13
  {
    var s := Step(Step(FRESH, Timed(400, Arm(7, [1]))), Wrong(701));
    assert s == Live(1000, AttemptState(701, 1, None));
    var late := Five(1001, Five(1301, []));
    assert ([Wrong(1000)] + (Repeat(1000, 2) + late))[1..] == Repeat(1000, 2) + late;
    assert Step(s, Wrong(1000)) == Live(1600, AttemptState(701, 2, None));
    RepeatedLife(1600, 701, 2, 1000, 2, late);
    FiveLife(1600, AttemptState(701, 4, None), 1001, Five(1301, []));
    FiveLife(1600, AttemptState(1001, 5, Some(1301)), 1301, []);
  }

  /** With the clock stuck at its last value a lockout ends the moment it starts: every wrong code
      is compared, however many there are. */
  lemma {:induction false} StoppedClockComparesEverything(s: AccessView, events: seq<Timed>, chat: int)
    requires chat !in s.allowed
    requires forall i :: 0 <= i < |events| ==>
      && events[i].at == U64_MAX
      && events[i].event.Submit? && events[i].event.chat == chat && events[i].event.code != events[i].event.minted
    ensures Comparisons(s, events, chat, U64_MAX, U64_MAX + 1) == |events|
    decreases events
  {
    if events != [] {
      var e := events[0];
      assert NeedsIssue(s, chat, e.at);
      StoppedClockComparesEverything(Step(s, e), events[1..], chat);
    }
  }
}
