/** Who may talk to the bot, and how an unknown room pairs with it. */
module Access {
  import opened Prelude

  const PAIRING_CODE_TTL: nat := 600
  const LOCKOUT_WINDOW: nat := 300
  const LOCKOUT_DURATION: nat := 300
  const MAX_PAIRING_ATTEMPTS: nat := 5
  const STALE_AFTER: nat := 60
  const U64_MAX: nat := 0xFFFF_FFFF_FFFF_FFFF

  /** Unix seconds, a 64-bit clock. */
  type Time = t: nat | t <= U64_MAX

  function Later(now: Time, seconds: nat): Time {
    Min(now + seconds, U64_MAX)
  }

  function Since(now: Time, then_: Time): nat {
    Max(now - then_, 0)
  }

  datatype PairingState = PairingState(code: seq<Byte>, expiresAt: Time)

  datatype AttemptState = AttemptState(windowStartedAt: Time, count: nat, lockedUntil: Option<Time>)

  datatype PairingAttempt = Paired | AlreadyAllowed | Rejected(attemptsRemaining: nat) | LockedOut(until: Time)

  datatype PrivilegedAccess = Allowed | NotOwner | Stale

  datatype AccessView = AccessView(
    allowed: set<int>, owners: set<int>,
    pending: map<int, PairingState>, attempts: map<int, AttemptState>, hinted: set<int>)

  // ---------- Specification ----------

  predicate NeedsIssue(s: AccessView, chat: int, now: Time) {
    chat !in s.pending || now >= s.pending[chat].expiresAt
  }

  /** `minted` is the code the generator would issue now. */
  function Ensured(s: AccessView, chat: int, now: Time, minted: seq<Byte>): AccessView {
    if NeedsIssue(s, chat, now) then
      s.(pending := s.pending[chat := PairingState(minted, Later(now, PAIRING_CODE_TTL))])
    else s
  }

  predicate Locked(s: AccessView, chat: int, now: Time) {
    chat in s.attempts && s.attempts[chat].lockedUntil.Some? && now < s.attempts[chat].lockedUntil.value
  }

  function Unlocked(s: AccessView, chat: int): AccessView {
    if chat in s.attempts && s.attempts[chat].lockedUntil.Some? then s.(attempts := s.attempts - {chat}) else s
  }

  function Counted(attempt: Option<AttemptState>, now: Time): AttemptState {
    var entry := attempt.GetOr(AttemptState(now, 0, None));
    var current := if Since(now, entry.windowStartedAt) >= LOCKOUT_WINDOW then AttemptState(now, 0, None) else entry;
    var count := Min(current.count + 1, 255);
    if count >= MAX_PAIRING_ATTEMPTS
    then AttemptState(current.windowStartedAt, count, Some(Later(now, LOCKOUT_DURATION)))
    else current.(count := count)
  }

  function Allow(s: AccessView, chat: int): AccessView {
    s.(allowed := s.allowed + {chat}, hinted := s.hinted - {chat})
  }

  function DenyChat(s: AccessView, chat: int): AccessView {
    s.(allowed := s.allowed - {chat}, hinted := s.hinted - {chat},
       attempts := s.attempts - {chat}, pending := s.pending - {chat})
  }

  /** A submitted code is compared only when the chat is neither allowed nor locked out. */
  predicate Compares(s: AccessView, chat: int, now: Time) {
    chat !in s.allowed && !Locked(s, chat, now)
  }

  function Attempt(
      s: AccessView, chat: int, code: seq<Byte>, now: Time, minted: seq<Byte>): (AccessView, PairingAttempt) {
    if chat in s.allowed then (s, AlreadyAllowed)
    else if Locked(s, chat, now) then (s, LockedOut(s.attempts[chat].lockedUntil.value))
    else
      var armed := Ensured(Unlocked(s, chat), chat, now, minted);
      if armed.pending[chat].code == code then
        (Allow(armed, chat).(attempts := armed.attempts - {chat}, pending := armed.pending - {chat}), Paired)
      else
        var attempt := Counted(if chat in armed.attempts then Some(armed.attempts[chat]) else None, now);
        (armed.(attempts := armed.attempts[chat := attempt]),
         if attempt.count >= MAX_PAIRING_ATTEMPTS then LockedOut(Later(now, LOCKOUT_DURATION))
         else Rejected(MAX_PAIRING_ATTEMPTS - attempt.count))
  }

  // ---------- The program ----------

  class AccessControl {
    var allowedChatIds: set<int>
    var ownerUserIds: set<int>
    var pending: map<int, PairingState>
    var attempts: map<int, AttemptState>
    var hintedUnknownChats: set<int>

    ghost function View(): AccessView
      reads this
    {
      AccessView(allowedChatIds, ownerUserIds, pending, attempts, hintedUnknownChats)
    }

    constructor (allowed: set<int>, owners: set<int>, pinned: set<int>)
      ensures View() == AccessView(allowed + pinned, owners, map[], map[], {})
    {
      allowedChatIds, ownerUserIds := allowed + pinned, owners;
      pending, attempts, hintedUnknownChats := map[], map[], {};
    }

    /** None for an allowed room; otherwise its code, and whether this call issued it. */
    method ArmRoom(chat: int, now: Time, minted: seq<Byte>) returns (code: Option<(seq<Byte>, bool)>)
      modifies this
      ensures chat in old(allowedChatIds) ==> View() == old(View()) && code == None
      ensures chat !in old(allowedChatIds) ==>
        && View() == Ensured(old(View()), chat, now, minted)
        && code == Some((pending[chat].code, NeedsIssue(old(View()), chat, now)))
    {
      if chat in allowedChatIds {
        return None;
      }
      var current, issued := EnsureRoomCode(chat, now, minted);
      return Some((current, issued));
    }

    method CheckChat(chat: int) returns (allowed: bool, sendHint: bool)
      modifies this`hintedUnknownChats
      ensures allowed <==> chat in allowedChatIds
      ensures sendHint <==> !allowed && chat !in old(hintedUnknownChats)
      ensures hintedUnknownChats == if allowed then old(hintedUnknownChats) else old(hintedUnknownChats) + {chat}
    {
      allowed := chat in allowedChatIds;
      sendHint := !allowed && chat !in hintedUnknownChats;
      if !allowed {
        hintedUnknownChats := hintedUnknownChats + {chat};
      }
    }

    method AllowChat(chat: int)
      modifies this
      ensures View() == Allow(old(View()), chat)
      ensures allowedChatIds == old(allowedChatIds) + {chat} && ownerUserIds == old(ownerUserIds)
      ensures pending == old(pending) && attempts == old(attempts)
      ensures hintedUnknownChats == old(hintedUnknownChats) - {chat}
    {
      allowedChatIds := allowedChatIds + {chat};
      hintedUnknownChats := hintedUnknownChats - {chat};
    }

    method Deny(chat: int)
      modifies this
      ensures View() == DenyChat(old(View()), chat)
      ensures allowedChatIds == old(allowedChatIds) - {chat} && ownerUserIds == old(ownerUserIds)
      ensures pending == old(pending) - {chat} && attempts == old(attempts) - {chat}
      ensures hintedUnknownChats == old(hintedUnknownChats) - {chat}
    {
      allowedChatIds := allowedChatIds - {chat};
      hintedUnknownChats := hintedUnknownChats - {chat};
      attempts := attempts - {chat};
      pending := pending - {chat};
    }

    method AddOwner(user: int)
      modifies this`ownerUserIds
      ensures ownerUserIds == old(ownerUserIds) + {user}
    {
      ownerUserIds := ownerUserIds + {user};
    }

    method AttemptPair(chat: int, submitted: seq<Byte>, now: Time, minted: seq<Byte>) returns (result: PairingAttempt)
      modifies this
      ensures (View(), result) == Attempt(old(View()), chat, submitted, now, minted)
    {
      if chat in allowedChatIds {
        return AlreadyAllowed;
      }
      var until := LockedUntil(chat, now);
      if until.Some? {
        return LockedOut(until.value);
      }
      var expected, _ := EnsureRoomCode(chat, now, minted);
      var same := ConstantTimeEq(expected, submitted);
      if same {
        allowedChatIds := allowedChatIds + {chat};
        attempts := attempts - {chat};
        hintedUnknownChats := hintedUnknownChats - {chat};
        pending := pending - {chat};
        return Paired;
      }
      result := RecordFailedAttempt(chat, now);
    }

    method EnsureRoomCode(chat: int, now: Time, minted: seq<Byte>) returns (code: seq<Byte>, issued: bool)
      modifies this`pending
      ensures View() == Ensured(old(View()), chat, now, minted)
      ensures chat in pending && code == pending[chat].code
      ensures issued <==> NeedsIssue(old(View()), chat, now)
    {
      issued := chat !in pending || now >= pending[chat].expiresAt;
      if issued {
        pending := pending[chat := PairingState(minted, Later(now, PAIRING_CODE_TTL))];
      }
      code := pending[chat].code;
    }

    method LockedUntil(chat: int, now: Time) returns (until: Option<Time>)
      modifies this`attempts
      ensures Locked(old(View()), chat, now) ==>
        View() == old(View()) && until == old(attempts)[chat].lockedUntil
      ensures !Locked(old(View()), chat, now) ==> View() == Unlocked(old(View()), chat) && until == None
    {
      if chat !in attempts {
        return None;
      }
      match attempts[chat].lockedUntil {
        case Some(t) =>
          if now < t {
            return Some(t);
          }
          attempts := attempts - {chat};
          return None;
        case None =>
          return None;
      }
    }

    method RecordFailedAttempt(chat: int, now: Time) returns (result: PairingAttempt)
      modifies this`attempts
      ensures var counted := Counted(if chat in old(attempts) then Some(old(attempts)[chat]) else None, now);
        && attempts == old(attempts)[chat := counted]
        && result == if counted.count >= MAX_PAIRING_ATTEMPTS then LockedOut(Later(now, LOCKOUT_DURATION))
                     else Rejected(MAX_PAIRING_ATTEMPTS - counted.count)
    {
      var attempt := if chat in attempts then attempts[chat] else AttemptState(now, 0, None);
      if Since(now, attempt.windowStartedAt) >= LOCKOUT_WINDOW {
        attempt := AttemptState(now, 0, None);
      }
      attempt := attempt.(count := Min(attempt.count + 1, 255));
      if attempt.count >= MAX_PAIRING_ATTEMPTS {
        var until := Later(now, LOCKOUT_DURATION);
        attempts := attempts[chat := attempt.(lockedUntil := Some(until))];
        return LockedOut(until);
      }
      attempts := attempts[chat := attempt];
      return Rejected(MAX_PAIRING_ATTEMPTS - attempt.count);
    }

    method CheckPrivileged(sender: Option<int>, sentAt: Time, now: Time) returns (access: PrivilegedAccess)
      ensures access == Allowed <==> sender.Some? && sender.value in ownerUserIds && now <= sentAt + STALE_AFTER
      ensures access == NotOwner <==> sender.None? || sender.value !in ownerUserIds
    {
      if sender.None? || sender.value !in ownerUserIds {
        return NotOwner;
      }
      if Since(now, sentAt) > STALE_AFTER {
        return Stale;
      }
      return Allowed;
    }
  }

  /** Exclusive or of machine words, bit by bit. */
  function Xor(a: nat, b: nat): (x: nat)
    ensures x == 0 <==> a == b
  {
    if a == 0 && b == 0 then 0 else 2 * Xor(a / 2, b / 2) + (if a % 2 == b % 2 then 0 else 1)
  }

  /** Inclusive or of machine words, bit by bit. */
  function Or(a: nat, b: nat): (o: nat)
    ensures o == 0 <==> a == 0 && b == 0
  {
    if a == 0 && b == 0 then 0 else 2 * Or(a / 2, b / 2) + Max(a % 2, b % 2)
  }

  /** Accumulates every difference instead of stopping at the first. */
  method ConstantTimeEq(left: seq<Byte>, right: seq<Byte>) returns (equal: bool)
    ensures equal <==> left == right
  {
    var diff := Xor(|left|, |right|);
    for index := 0 to Max(|left|, |right|)
      invariant diff == 0 <==>
        |left| == |right| && forall i :: 0 <= i < index ==> left[i] == right[i]
    {
      var l := if index < |left| then left[index] else 0;
      var r := if index < |right| then right[index] else 0;
      diff := Or(diff, Xor(l, r));
    }
    equal := diff == 0;
  }

  // ---------- What an attempt comes to ----------

  /** The code a chat has to submit now. */
  function CurrentCode(s: AccessView, chat: int, now: Time, minted: seq<Byte>): seq<Byte> {
    if chat in s.pending && now < s.pending[chat].expiresAt then s.pending[chat].code else minted
  }

  /** A submission pairs exactly when the chat is neither allowed nor locked out and the code is its
      current one; pairing admits the chat and nobody else. */
  lemma {:induction false} PairsExactly(s: AccessView, chat: int, code: seq<Byte>, now: Time, minted: seq<Byte>)
    ensures var (t, result) := Attempt(s, chat, code, now, minted);
      && (result.Paired? <==>
            && chat !in s.allowed
            && !(chat in s.attempts && s.attempts[chat].lockedUntil.Some? && now < s.attempts[chat].lockedUntil.value)
            && code == CurrentCode(s, chat, now, minted))
      && t.owners == s.owners
      && t.allowed == (if result.Paired? then s.allowed + {chat} else s.allowed)
      && (result.Paired? ==> chat !in t.pending && chat !in t.attempts)
  {
  }

  /** A wrong code that is compared counts as the next failure of the last 300 seconds, or the first;
      the fifth locks the chat out for 300 seconds. */
  lemma {:induction false} WrongCodeCounts(s: AccessView, chat: int, code: seq<Byte>, now: Time, minted: seq<Byte>)
    requires chat !in s.allowed && code != CurrentCode(s, chat, now, minted)
    requires !(chat in s.attempts && s.attempts[chat].lockedUntil.Some? && now < s.attempts[chat].lockedUntil.value)
    ensures var (t, result) := Attempt(s, chat, code, now, minted);
      var recent := chat in s.attempts && s.attempts[chat].lockedUntil.None?
                    && now < s.attempts[chat].windowStartedAt + 300;
      var count := Min(if recent then s.attempts[chat].count + 1 else 1, 255);
      var started := if recent then s.attempts[chat].windowStartedAt else now;
      var until := Min(now + 300, U64_MAX);
      && chat in t.attempts
      && t.attempts[chat] == AttemptState(started, count, if count >= 5 then Some(until) else None)
      && result == (if count >= 5 then LockedOut(until) else Rejected(5 - count))
      && chat in t.pending && t.pending[chat].code == CurrentCode(s, chat, now, minted)
      && (t.pending != s.pending ==> t.pending[chat].expiresAt == Min(now + 600, U64_MAX))
  {
  }
}
