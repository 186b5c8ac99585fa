/**
 * The in-memory store as an object whose maps are changed in place, and the
 * two requests on top of it.
 */
module OtpService {
  import opened Wrappers
  import opened Otp

  datatype SendAnswer = RateLimited | GatewayDown | Sent

  /** The action belongs to send p. */
  predicate BelongsTo(a: Action, p: Pid) {
    match a
    case SendBegin(q, _, _) => q == p
    case GatewayAccepts(q) => q == p
    case GatewayFails(q) => q == p
    case Crash(q) => q == p
    case _ => false
  }

  predicate Foreign(actions: seq<Action>, p: Pid) {
    forall i :: 0 <= i < |actions| ==> !BelongsTo(actions[i], p)
  }

  lemma {:induction false} ForeignRunKeepsSend(s: State, actions: seq<Action>, p: Pid)
    requires p in s.sends && Foreign(actions, p)
    ensures p in Exec(s, actions).sends && Exec(s, actions).sends[p] == s.sends[p]
    decreases |actions|
  {
    if actions != [] {
      ForeignStepKeepsSend(s, actions[0], p);
      ForeignRunKeepsSend(Next(s, actions[0]), actions[1..], p);
    }
  }

  lemma ForeignStepKeepsSend(s: State, a: Action, p: Pid)
    requires p in s.sends && !BelongsTo(a, p)
    ensures p in Next(s, a).sends && Next(s, a).sends[p] == s.sends[p]
  {
  }

  lemma {:induction false} ExecConcat(s: State, before: seq<Action>, after: seq<Action>)
    ensures Exec(s, before + after) == Exec(Exec(s, before), after)
    decreases |before|
  {
    if before == [] {
      assert before + after == after;
    } else {
      assert (before + after)[1..] == before[1..] + after;
      ExecConcat(Next(s, before[0]), before[1..], after);
    }
  }

  /** Everybody else, then one step. */
  lemma Turn(s: State, gap: seq<Action>, a: Action)
    ensures Exec(s, gap + [a]) == Next(Exec(s, gap), a)
  {
    ExecConcat(s, gap, [a]);
    assert [a][1..] == [];
  }

  /** The store: entries and send locks, removed when they are looked at and found expired. */
  class InMemoryOtpStore {
    var entries: map<Phone, Entry>
    var sendLocks: map<Phone, Lock>

    constructor ()
      ensures entries == map[] && sendLocks == map[]
    {
      entries, sendLocks := map[], map[];
    }

    method Set(phone: Phone, code: Code, ttlMs: int, serial: nat, now: int)
      modifies this`entries
      ensures entries == old(entries)[phone := Entry(code, 0, now + ttlMs, serial)]
    {
      entries := entries[phone := Entry(code, 0, now + ttlMs, serial)];
    }

    method Get(phone: Phone, now: int) returns (entry: Option<Entry>)
      modifies this`entries
      ensures entry.Some? <==> phone in old(entries) && old(entries)[phone].expiresAt > now
      ensures entry.Some? ==> entry.value == old(entries)[phone] && entries == old(entries)
      ensures entry.None? ==> entries == old(entries) - {phone}
    {
      if phone !in entries {
        return None;
      }
      if entries[phone].expiresAt <= now {
        entries := entries - {phone};
        return None;
      }
      return Some(entries[phone]);
    }

    method IncrementAttempts(phone: Phone, now: int) returns (attempts: Option<nat>)
      modifies this`entries
      ensures attempts.Some? <==> phone in old(entries) && old(entries)[phone].expiresAt > now
      ensures attempts.None? ==> entries == old(entries) - {phone}
      ensures attempts.Some? ==>
        && attempts.value == old(entries)[phone].attempts + 1
        && entries == old(entries)[phone := old(entries)[phone].(attempts := attempts.value)]
    {
      if phone !in entries || entries[phone].expiresAt <= now {
        entries := entries - {phone};
        return None;
      }
      var entry := entries[phone];
      entries := entries[phone := entry.(attempts := entry.attempts + 1)];
      return Some(entry.attempts + 1);
    }

    method Delete(phone: Phone)
      modifies this`entries
      ensures entries == old(entries) - {phone}
    {
      entries := entries - {phone};
    }

    /** The slot, unless the last one is still within its cooldown; `uuid` is the new token. */
    method AcquireSendSlot(phone: Phone, cooldownMs: int, uuid: Token, now: int) returns (token: Option<Token>)
      modifies this`sendLocks
      ensures token == if phone in old(sendLocks) && old(sendLocks)[phone].until > now then None else Some(uuid)
      ensures sendLocks == if token.Some? then old(sendLocks)[phone := Lock(uuid, now + cooldownMs)] else old(sendLocks)
    {
      if phone in sendLocks && sendLocks[phone].until > now {
        return None;
      }
      sendLocks := sendLocks[phone := Lock(uuid, now + cooldownMs)];
      return Some(uuid);
    }

    /** Frees the slot only for the token that took it. */
    method ReleaseSendSlot(phone: Phone, token: Token)
      modifies this`sendLocks
      ensures phone in old(sendLocks) && old(sendLocks)[phone].token == token ==> sendLocks == old(sendLocks) - {phone}
      ensures phone !in old(sendLocks) || old(sendLocks)[phone].token != token ==> sendLocks == old(sendLocks)
    {
      if phone in sendLocks && sendLocks[phone].token == token {
        sendLocks := sendLocks - {phone};
      }
    }
  }

  class AuthDesk {
    const config: Config
    const store: InMemoryOtpStore
    var sends: map<Pid, Send>
    var issued: nat
    var tokens: nat
    var log: seq<Event>
    var now: int

    function Seen(): State
      reads this, store
    {
      State(config, store.entries, store.sendLocks, sends, issued, tokens, log, now)
    }

    constructor (settings: Config)
      ensures fresh(store) && Seen() == Fresh(settings)
    {
      config := settings;
      store := new InMemoryOtpStore();
      sends, issued, tokens, log, now := map[], 0, 0, [], 0;
    }

    /** Everybody else's steps, one after another. */
    method Interfere(actions: seq<Action>)
      modifies this, store
      ensures Seen() == Exec(old(Seen()), actions)
    {
      var i := 0;
      while i < |actions|
        invariant i <= |actions|
        invariant Exec(Seen(), actions[i..]) == Exec(old(Seen()), actions)
      {
        assert actions[i..][1..] == actions[i + 1..];
        var s := Next(Seen(), actions[i]);
        ConfigStays(Seen(), [actions[i]]);
        assert [actions[i]][1..] == [];
        store.entries, store.sendLocks := s.entries, s.locks;
        sends, issued, tokens, log, now := s.sends, s.issued, s.tokens, s.log, s.now;
        i := i + 1;
      }
    }

    /** Takes the slot and hands the code to the gateway. */
    method BeginSend(p: Pid, phone: Phone, code: Code) returns (began: bool)
      requires p !in sends
      modifies this, store
      ensures Seen() == Next(old(Seen()), SendBegin(p, phone, code))
      ensures began <==> !SlotTaken(old(Seen()), phone)
      ensures !began ==> Seen() == old(Seen())
      ensures began ==> p in sends && sends[p] == Send(phone, code, old(tokens))
    {
      var token := store.AcquireSendSlot(phone, config.cooldownMs, tokens, now);
      if token.None? {
        return false;
      }
      log := log + [Acquired(phone, token.value, now)];
      sends := sends[p := Send(phone, code, token.value)];
      tokens := tokens + 1;
      return true;
    }

    /** The gateway's answer: the code is stored, or the slot is given back. */
    method FinishSend(p: Pid, accepted: bool) returns (answer: SendAnswer)
      requires p in sends
      modifies this, store
      ensures answer == if accepted then Sent else GatewayDown
      ensures Seen() == Next(old(Seen()), if accepted then GatewayAccepts(p) else GatewayFails(p))
    {
      var Send(phone, code, token) := sends[p];
      sends := sends - {p};
      if !accepted {
        store.ReleaseSendSlot(phone, token);
        log := log + [GivenBack(phone, token)];
        return GatewayDown;
      }
      store.Set(phone, code, config.ttlMs, issued, now);
      log := log + [Stored(issued, phone, now + config.ttlMs)];
      issued := issued + 1;
      return Sent;
    }

    /** Everybody else while the gateway works, then its answer. */
    method AwaitGateway(p: Pid, between: seq<Action>, accepted: bool) returns (answer: SendAnswer)
      requires p in sends && Foreign(between, p)
      modifies this, store
      ensures answer == if accepted then Sent else GatewayDown
      ensures Seen() == Exec(old(Seen()), between + [if accepted then GatewayAccepts(p) else GatewayFails(p)])
    {
      Turn(Seen(), between, if accepted then GatewayAccepts(p) else GatewayFails(p));
      ForeignRunKeepsSend(Seen(), between, p);
      Interfere(between);
      answer := FinishSend(p, accepted);
    }

    /** Takes the slot, sends, and stores the code only once the gateway has accepted it. */
    method SendOtp(p: Pid, phone: Phone, code: Code, between: seq<Action>, accepted: bool) returns (answer: SendAnswer)
      requires p !in sends && Foreign(between, p)
      modifies this, store
      ensures answer == if SlotTaken(old(Seen()), phone) then RateLimited else if accepted then Sent else GatewayDown
      ensures Seen() == if answer.RateLimited? then old(Seen())
                        else Exec(Next(old(Seen()), SendBegin(p, phone, code)),
                            between + [if accepted then GatewayAccepts(p) else GatewayFails(p)])
    {
      var began := BeginSend(p, phone, code);
      if !began {
        return RateLimited;
      }
      answer := AwaitGateway(p, between, accepted);
    }

    /** Looks the code up, counts a wrong guess and burns the code at the limit, or uses it up. */
    method VerifyOtp(phone: Phone, code: Code) returns (verdict: Verdict)
      modifies this, store
      ensures Seen() == Next(old(Seen()), Verify(phone, code))
      ensures verdict == Answer(old(Seen()), phone, code)
    {
      var entry := store.Get(phone, now);
      if entry.None? {
        return Expired;
      }
      var serial := entry.value.serial;
      if entry.value.code != code {
        log := log + [WrongGuess(serial, now)];
        var attempts := store.IncrementAttempts(phone, now);
        if attempts.Some? && attempts.value >= config.maxAttempts {
          store.Delete(phone);
          return AttemptsExceeded;
        }
        return Invalid;
      }
      store.Delete(phone);
      log := log + [Accepted(serial, now)];
      return Verified;
    }
  }
}
