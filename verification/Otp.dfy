/**
 * One-time codes by phone: the in-memory store, and sending and verifying on
 * top of it. A send is split around the call to the SMS gateway, so sends of
 * one phone overlap; a verification touches only the store and is one step.
 *
 * `serial` numbers the codes in the order in which they were stored and `log`
 * records what happened to each; neither influences any decision.
 */
module Otp {
  import opened Wrappers

  type Phone = string
  type Code = string
  type Token = nat
  type Pid = nat

  datatype Config = Config(maxAttempts: int, ttlMs: int, cooldownMs: int)

  datatype Entry = Entry(code: Code, attempts: nat, expiresAt: int, serial: nat)

  datatype Lock = Lock(token: Token, until: int)

  /** A send whose code is with the gateway. */
  datatype Send = Send(phone: Phone, code: Code, token: Token)

  datatype Event =
    | Stored(serial: nat, phone: Phone, expiresAt: int)
    | WrongGuess(serial: nat, at: int)
    | Accepted(serial: nat, at: int)
    | Acquired(phone: Phone, token: Token, at: int)
    | GivenBack(phone: Phone, token: Token)

  datatype State = State(
    config: Config,
    entries: map<Phone, Entry>,
    locks: map<Phone, Lock>,
    sends: map<Pid, Send>,
    issued: nat,
    tokens: nat,
    log: seq<Event>,
    now: int)

  datatype Action =
    | SendBegin(p: Pid, phone: Phone, code: Code)
    | GatewayAccepts(p: Pid)
    | GatewayFails(p: Pid)
    | Crash(p: Pid)
    | Verify(phone: Phone, code: Code)
    | Tick(ms: nat)

  datatype Verdict = Expired | Invalid | AttemptsExceeded | Verified

  predicate Current(s: State, phone: Phone) {
    phone in s.entries && s.entries[phone].expiresAt > s.now
  }

  predicate SlotTaken(s: State, phone: Phone) {
    phone in s.locks && s.locks[phone].until > s.now
  }

  // ----- steps -----

  function DoSendBegin(s: State, p: Pid, phone: Phone, code: Code): State {
    if p in s.sends || SlotTaken(s, phone) then s
    else
      s.(locks := s.locks[phone := Lock(s.tokens, s.now + s.config.cooldownMs)],
         sends := s.sends[p := Send(phone, code, s.tokens)],
         tokens := s.tokens + 1,
         log := s.log + [Acquired(phone, s.tokens, s.now)])
  }

  function DoGatewayAccepts(s: State, p: Pid): State {
    if p !in s.sends then s
    else
      var Send(phone, code, _) := s.sends[p];
      var expiresAt := s.now + s.config.ttlMs;
      s.(entries := s.entries[phone := Entry(code, 0, expiresAt, s.issued)],
         issued := s.issued + 1,
         sends := s.sends - {p},
         log := s.log + [Stored(s.issued, phone, expiresAt)])
  }

  function DoGatewayFails(s: State, p: Pid): State {
    if p !in s.sends then s
    else
      var Send(phone, _, token) := s.sends[p];
      s.(locks := if phone in s.locks && s.locks[phone].token == token then s.locks - {phone} else s.locks,
         sends := s.sends - {p},
         log := s.log + [GivenBack(phone, token)])
  }

  function Answer(s: State, phone: Phone, code: Code): Verdict {
    if !Current(s, phone) then Expired
    else if s.entries[phone].code == code then Verified
    else if s.entries[phone].attempts + 1 >= s.config.maxAttempts then AttemptsExceeded
    else Invalid
  }

  function DoVerify(s: State, phone: Phone, code: Code): State {
    match Answer(s, phone, code)
    case Expired => s.(entries := s.entries - {phone})
    case Invalid =>
      var e := s.entries[phone];
      s.(entries := s.entries[phone := e.(attempts := e.attempts + 1)], log := s.log + [WrongGuess(e.serial, s.now)])
    case AttemptsExceeded =>
      s.(entries := s.entries - {phone}, log := s.log + [WrongGuess(s.entries[phone].serial, s.now)])
    case Verified =>
      s.(entries := s.entries - {phone}, log := s.log + [Accepted(s.entries[phone].serial, s.now)])
  }

  function Next(s: State, a: Action): State {
    match a
    case SendBegin(p, phone, code) => DoSendBegin(s, p, phone, code)
    case GatewayAccepts(p) => DoGatewayAccepts(s, p)
    case GatewayFails(p) => DoGatewayFails(s, p)
    case Crash(p) => s.(sends := s.sends - {p})
    case Verify(phone, code) => DoVerify(s, phone, code)
    case Tick(ms) => s.(now := s.now + ms)
  }

  function Exec(s: State, actions: seq<Action>): State
    decreases |actions|
  {
    if actions == [] then s else Exec(Next(s, actions[0]), actions[1..])
  }

  function Fresh(config: Config): State {
    State(config, map[], map[], map[], 0, 0, [], 0)
  }

  // ----- what happened to a code -----

  function WrongGuesses(log: seq<Event>, serial: nat): nat {
    if log == [] then 0
    else WrongGuesses(log[..|log| - 1], serial) + if log[|log| - 1].WrongGuess? && log[|log| - 1].serial == serial
        then 1 else 0
  }

  function Acceptances(log: seq<Event>, serial: nat): nat {
    if log == [] then 0
    else Acceptances(log[..|log| - 1], serial) + if log[|log| - 1].Accepted? && log[|log| - 1].serial == serial then 1
        else 0
  }

  lemma LogGrows(log: seq<Event>, e: Event, serial: nat)
    ensures WrongGuesses(log + [e], serial) == WrongGuesses(log, serial) + if e.WrongGuess? && e.serial == serial then 1
        else 0
    ensures Acceptances(log + [e], serial) == Acceptances(log, serial) + if e.Accepted? && e.serial == serial then 1
        else 0
  {
    assert (log + [e])[..|log|] == log;
  }

  /** The budget of wrong guesses; a limit below one still admits one guess. */
  function Budget(config: Config): int {
    Max(1, config.maxAttempts)
  }

  ghost predicate CodesOk(s: State) {
    && (forall phone :: phone in s.entries ==>
          && s.entries[phone].serial < s.issued
          && WrongGuesses(s.log, s.entries[phone].serial) == s.entries[phone].attempts < Budget(s.config)
          && Acceptances(s.log, s.entries[phone].serial) == 0)
    && (forall a, b :: a in s.entries && b in s.entries && a != b ==> s.entries[a].serial != s.entries[b].serial)
    && (forall serial: nat :: WrongGuesses(s.log, serial) <= Budget(s.config) && Acceptances(s.log, serial) <= 1)
    && (forall serial: nat :: serial >= s.issued ==>
        WrongGuesses(s.log, serial) == 0 && Acceptances(s.log, serial) == 0)
  }

  /** When the code stops being valid, as it was stored. */
  function ExpiryOf(log: seq<Event>, serial: nat): Option<int> {
    if log == [] then None
    else
      var earlier := ExpiryOf(log[..|log| - 1], serial);
      if earlier.Some? then earlier
      else if log[|log| - 1].Stored? && log[|log| - 1].serial == serial then Some(log[|log| - 1].expiresAt)
      else None
  }

  /** A guess is met, and a code accepted, only after the code was stored and before it expires. */
  predicate OnTime(log: seq<Event>, e: Event) {
    e.WrongGuess? || e.Accepted? ==> ExpiryOf(log, e.serial).Some? && e.at < ExpiryOf(log, e.serial).value
  }

  predicate AllOnTime(log: seq<Event>) {
    log == [] || (AllOnTime(log[..|log| - 1]) && OnTime(log[..|log| - 1], log[|log| - 1]))
  }

  ghost predicate InTime(s: State) {
    && AllOnTime(s.log)
    && (forall phone :: phone in s.entries ==>
        ExpiryOf(s.log, s.entries[phone].serial) == Some(s.entries[phone].expiresAt))
    && (forall serial: nat :: serial >= s.issued ==> ExpiryOf(s.log, serial) == None)
  }

  // ----- the slots -----

  ghost predicate GaveBack(log: seq<Event>, phone: Phone, token: Token) {
    GivenBack(phone, token) in log
  }

  /** An acquired slot is still in place, or over, or was given back. */
  ghost predicate SlotOk(s: State, e: Event)
    requires e.Acquired?
  {
    || GaveBack(s.log, e.phone, e.token)
    || (e.phone in s.locks && s.locks[e.phone] == Lock(e.token, e.at + s.config.cooldownMs))
    || e.at + s.config.cooldownMs <= s.now
  }

  ghost predicate SlotsOk(s: State) {
    && (forall e :: e in s.log && e.Acquired? ==> e.token < s.tokens && e.at <= s.now && SlotOk(s, e))
    && (forall p :: p in s.sends ==> s.sends[p].token < s.tokens)
    && (forall phone :: phone in s.locks ==> s.locks[phone].token < s.tokens)
  }

  /** Slots of one phone that were not given back begin at least one cooldown apart. */
  ghost predicate Spaced(s: State) {
    forall i, j ::
      (0 <= i < j < |s.log| && s.log[i].Acquired? && s.log[j].Acquired? && s.log[i].phone == s.log[j].phone) ==>
      GaveBack(s.log, s.log[i].phone, s.log[i].token) || s.log[i].at + s.config.cooldownMs <= s.log[j].at
  }

  ghost predicate Inv(s: State) {
    CodesOk(s) && InTime(s) && SlotsOk(s) && Spaced(s)
  }

  // ----- every step keeps it -----

  lemma ExpiryGrows(log: seq<Event>, e: Event, serial: nat)
    ensures ExpiryOf(log + [e], serial)
         == if ExpiryOf(log, serial).Some? then ExpiryOf(log, serial)
             else if e.Stored? && e.serial == serial then Some(e.expiresAt) else None
  {
    assert (log + [e])[..|log|] == log;
  }

  lemma OnTimeGrows(log: seq<Event>, e: Event)
    requires AllOnTime(log) && OnTime(log, e)
    ensures AllOnTime(log + [e])
  {
    assert (log + [e])[..|log|] == log;
  }

  /** The accounts after one more event. */
  lemma EventKeepsCodes(s: State, t: State, e: Event)
    requires CodesOk(s) && t.config == s.config && t.log == s.log + [e]
    requires s.issued <= t.issued
    requires e.WrongGuess? || e.Accepted? ==>
      exists phone :: phone in s.entries && s.entries[phone].serial == e.serial
    requires forall phone :: phone in t.entries ==> EntryAfter(s, t, e, phone)
    requires e.Stored? ==> e.serial == s.issued < t.issued
    ensures CodesOk(t)
  {
    forall serial: nat
      ensures WrongGuesses(t.log, serial) == WrongGuesses(s.log, serial) + if e.WrongGuess? && e.serial == serial then 1
          else 0
      ensures Acceptances(t.log, serial) == Acceptances(s.log, serial) + if e.Accepted? && e.serial == serial then 1
          else 0
    {
      LogGrows(s.log, e, serial);
    }
  }

  /** An entry after one more event: untouched, guessed at once more, or just stored. */
  ghost predicate EntryAfter(s: State, t: State, e: Event, phone: Phone)
    requires phone in t.entries
  {
    var entry := t.entries[phone];
    if e.Stored? && e.phone == phone
        then entry.serial == e.serial && entry.attempts == 0 && entry.expiresAt == e.expiresAt
    else
      && phone in s.entries && entry.serial == s.entries[phone].serial && entry.expiresAt == s.entries[phone].expiresAt
      && (if e.WrongGuess? && e.serial == entry.serial
          then entry.attempts == s.entries[phone].attempts + 1 < Budget(s.config)
          else entry.attempts == s.entries[phone].attempts && !(e.Accepted? && e.serial == entry.serial))
  }

  lemma EventKeepsTimes(s: State, t: State, e: Event)
    requires InTime(s) && t.log == s.log + [e] && s.issued <= t.issued
    requires OnTime(s.log, e)
    requires forall phone :: phone in t.entries ==> EntryAfter(s, t, e, phone)
    requires e.Stored? ==> e.serial == s.issued < t.issued
    ensures InTime(t)
  {
    OnTimeGrows(s.log, e);
    forall serial: nat
      ensures ExpiryOf(t.log, serial) == if ExpiryOf(s.log, serial).Some? then ExpiryOf(s.log, serial)
                                         else if e.Stored? && e.serial == serial then Some(e.expiresAt) else None
    {
      ExpiryGrows(s.log, e, serial);
    }
  }

  /** Nothing about the slots depends on events that are not about slots. */
  lemma OtherEventsKeepSlots(s: State, t: State, e: Event)
    requires SlotsOk(s) && Spaced(s) && !e.Acquired?
    requires t.log == s.log + [e] && t.tokens == s.tokens && t.config == s.config && t.now == s.now
    requires t.sends.Keys <= s.sends.Keys && forall p :: p in t.sends ==> t.sends[p] == s.sends[p]
    requires t.locks == s.locks
        || (e.GivenBack? && e.phone in s.locks && s.locks[e.phone].token == e.token && t.locks == s.locks - {e.phone})
    ensures SlotsOk(t) && Spaced(t)
  {
    assert e == t.log[|s.log|];
    forall f | f in t.log && f.Acquired?
      ensures f.token < t.tokens && f.at <= t.now && SlotOk(t, f)
    {
      assert f in s.log && SlotOk(s, f);
      if GaveBack(s.log, f.phone, f.token) { assert GaveBack(t.log, f.phone, f.token); }
      if e == GivenBack(f.phone, f.token) { assert GaveBack(t.log, f.phone, f.token); }
    }
    forall i, j | 0 <= i < j < |t.log| && t.log[i].Acquired? && t.log[j].Acquired? && t.log[i].phone == t.log[j].phone
      ensures GaveBack(t.log, t.log[i].phone, t.log[i].token) || t.log[i].at + s.config.cooldownMs <= t.log[j].at
    {
      assert t.log[i] == s.log[i] && t.log[j] == s.log[j];
      if GaveBack(s.log, s.log[i].phone, s.log[i].token) { assert GaveBack(t.log, t.log[i].phone, t.log[i].token); }
    }
  }

  lemma SendBeginKeepsSlots(s: State, p: Pid, phone: Phone, code: Code)
    requires SlotsOk(s) && Spaced(s)
    ensures SlotsOk(DoSendBegin(s, p, phone, code)) && Spaced(DoSendBegin(s, p, phone, code))
  {
    var t := DoSendBegin(s, p, phone, code);
    if t != s {
      var e := Acquired(phone, s.tokens, s.now);
      forall f | f in t.log && f.Acquired?
        ensures f.token < t.tokens && f.at <= t.now && SlotOk(t, f)
      {
        if f != e {
          assert f in s.log && SlotOk(s, f);
          if GaveBack(s.log, f.phone, f.token) { assert GaveBack(t.log, f.phone, f.token); }
        }
      }
      forall i, j | 0 <= i < j < |t.log| && t.log[i].Acquired? && t.log[j].Acquired? && t.log[i].phone == t.log[j].phone
        ensures GaveBack(t.log, t.log[i].phone, t.log[i].token) || t.log[i].at + s.config.cooldownMs <= t.log[j].at
      {
        assert s.log[i] in s.log && SlotOk(s, s.log[i]);
        if GaveBack(s.log, s.log[i].phone, s.log[i].token) { assert GaveBack(t.log, t.log[i].phone, t.log[i].token); }
      }
    }
  }

  lemma SendBeginKeepsInv(s: State, p: Pid, phone: Phone, code: Code)
    requires Inv(s)
    ensures Inv(DoSendBegin(s, p, phone, code))
  {
    var t := DoSendBegin(s, p, phone, code);
    if t != s {
      var e := Acquired(phone, s.tokens, s.now);
      EventKeepsCodes(s, t, e);
      EventKeepsTimes(s, t, e);
      SendBeginKeepsSlots(s, p, phone, code);
    }
  }

  lemma GatewayFailsKeepsInv(s: State, p: Pid)
    requires Inv(s)
    ensures Inv(DoGatewayFails(s, p))
  {
    if p in s.sends {
      var t, e := DoGatewayFails(s, p), GivenBack(s.sends[p].phone, s.sends[p].token);
      EventKeepsCodes(s, t, e);
      EventKeepsTimes(s, t, e);
      OtherEventsKeepSlots(s, t, e);
    }
  }

  lemma GatewayAcceptsKeepsInv(s: State, p: Pid)
    requires Inv(s)
    ensures Inv(DoGatewayAccepts(s, p))
  {
    if p in s.sends {
      var t := DoGatewayAccepts(s, p);
      var e := Stored(s.issued, s.sends[p].phone, s.now + s.config.ttlMs);
      EventKeepsCodes(s, t, e);
      EventKeepsTimes(s, t, e);
      OtherEventsKeepSlots(s, t, e);
    }
  }

  /** What a verification that finds the code records. */
  function VerdictEvent(s: State, phone: Phone, code: Code): Event
    requires Current(s, phone)
  {
    if s.entries[phone].code == code then Accepted(s.entries[phone].serial, s.now)
        else WrongGuess(s.entries[phone].serial, s.now)
  }

  lemma VerifyEntries(s: State, phone: Phone, code: Code)
    requires CodesOk(s) && Current(s, phone)
    ensures var t := DoVerify(s, phone, code);
            && t.log == s.log + [VerdictEvent(s, phone, code)]
            && forall q :: q in t.entries ==> EntryAfter(s, t, VerdictEvent(s, phone, code), q)
  {
  }

  lemma VerifyKeepsInv(s: State, phone: Phone, code: Code)
    requires Inv(s)
    ensures Inv(DoVerify(s, phone, code))
  {
    var t := DoVerify(s, phone, code);
    if Current(s, phone) {
      VerifyEntries(s, phone, code);
      var e := VerdictEvent(s, phone, code);
      EventKeepsCodes(s, t, e);
      EventKeepsTimes(s, t, e);
      OtherEventsKeepSlots(s, t, e);
    } else {
      ForgettingKeepsInv(s, phone);
    }
  }

  lemma ForgettingKeepsInv(s: State, phone: Phone)
    requires Inv(s)
    ensures Inv(s.(entries := s.entries - {phone}))
  {
    var t := s.(entries := s.entries - {phone});
    assert CodesOk(t);
    assert SlotsOk(t) && Spaced(t);
  }

  lemma NextKeepsInv(s: State, a: Action)
    requires Inv(s)
    ensures Inv(Next(s, a))
  {
    match a
    case SendBegin(p, phone, code) => SendBeginKeepsInv(s, p, phone, code);
    case GatewayAccepts(p) => GatewayAcceptsKeepsInv(s, p);
    case GatewayFails(p) => GatewayFailsKeepsInv(s, p);
    case Crash(p) =>
    case Verify(phone, code) => VerifyKeepsInv(s, phone, code);
    case Tick(ms) =>
  }

  lemma {:induction false} RunsKeepInv(s: State, actions: seq<Action>)
    requires Inv(s)
    ensures Inv(Exec(s, actions))
    decreases |actions|
  {
    if actions != [] {
      NextKeepsInv(s, actions[0]);
      RunsKeepInv(Next(s, actions[0]), actions[1..]);
    }
  }

  lemma {:induction false} ConfigStays(s: State, actions: seq<Action>)
    ensures Exec(s, actions).config == s.config
    decreases |actions|
  {
    if actions != [] {
      ConfigStays(Next(s, actions[0]), actions[1..]);
    }
  }

  /**
   * In every run a stored code meets at most max(1, limit) wrong guesses, is
   * accepted at most once, and neither before it is stored nor after it
   * expired.
   */
  lemma CodesAreGuessedLittle(config: Config, actions: seq<Action>, serial: nat)
    ensures var log := Exec(Fresh(config), actions).log;
            WrongGuesses(log, serial) <= Max(1, config.maxAttempts) && Acceptances(log, serial) <= 1 && AllOnTime(log)
  {
    FreshIsInOrder(config);
    RunsKeepInv(Fresh(config), actions);
    ConfigStays(Fresh(config), actions);
  }

  lemma FreshIsInOrder(config: Config)
    ensures Inv(Fresh(config))
  {
  }

  /** In every run, two slots of one phone begin at least one cooldown apart unless the first was given back. */
  lemma SlotsAreSpaced(config: Config, actions: seq<Action>)
    ensures Exec(Fresh(config), actions).config == config && Spaced(Exec(Fresh(config), actions))
  {
    FreshIsInOrder(config);
    RunsKeepInv(Fresh(config), actions);
    ConfigStays(Fresh(config), actions);
  }

  /** The slot is over, was given back by the send that took it, or is in place. */
  ghost predicate Kept(s: State, phone: Phone, lock: Lock) {
    || lock.until <= s.now
    || GaveBack(s.log, phone, lock.token)
    || (phone in s.locks && s.locks[phone] == lock)
  }

  lemma StepKeepsSlot(s: State, a: Action, phone: Phone, lock: Lock)
    requires Kept(s, phone, lock)
    ensures Kept(Next(s, a), phone, lock)
  {
    var t := Next(s, a);
    if GaveBack(s.log, phone, lock.token) {
      assert GivenBack(phone, lock.token) in t.log;
    } else if a.GatewayFails? && a.p in s.sends {
      assert t.log[|s.log|] == GivenBack(s.sends[a.p].phone, s.sends[a.p].token);
    }
  }

  /**
   * In every run a slot stays in place until it is over, unless the very send
   * that took it fails: a stale release never frees a newer slot.
   */
  lemma {:induction false} StaleReleaseFreesNothing(s: State, actions: seq<Action>, phone: Phone, lock: Lock)
    requires Kept(s, phone, lock)
    ensures Kept(Exec(s, actions), phone, lock)
    decreases |actions|
  {
    if actions != [] {
      StepKeepsSlot(s, actions[0], phone, lock);
      StaleReleaseFreesNothing(Next(s, actions[0]), actions[1..], phone, lock);
    }
  }

  // ----- lazy expiry -----

  /** The same state with everything that expired already removed. */
  function Purged(s: State): State {
    s.(entries := LiveEntries(s.entries, s.now), locks := LiveLocks(s.locks, s.now))
  }

  /** A store that removes entries and slots the moment they expire. */
  function EagerNext(s: State, a: Action): State {
    Purged(Next(s, a))
  }

  function EagerExec(s: State, actions: seq<Action>): State
    decreases |actions|
  {
    if actions == [] then s else EagerExec(EagerNext(s, actions[0]), actions[1..])
  }

  function LiveEntries(entries: map<Phone, Entry>, now: int): map<Phone, Entry> {
    map phone | phone in entries && entries[phone].expiresAt > now :: entries[phone]
  }

  function LiveLocks(locks: map<Phone, Lock>, now: int): map<Phone, Lock> {
    map phone | phone in locks && locks[phone].until > now :: locks[phone]
  }

  lemma VerifyPurged(s: State, phone: Phone, code: Code)
    ensures Purged(DoVerify(s, phone, code)) == Purged(DoVerify(Purged(s), phone, code))
  {
    var t, u := DoVerify(s, phone, code), DoVerify(Purged(s), phone, code);
    assert Answer(s, phone, code) == Answer(Purged(s), phone, code);
    assert LiveEntries(t.entries, s.now) == LiveEntries(u.entries, s.now);
    assert LiveLocks(t.locks, s.now) == LiveLocks(u.locks, s.now);
  }

  lemma SamePurged(t: State, u: State)
    requires t.now == u.now && t.(entries := u.entries, locks := u.locks) == u
    requires LiveEntries(t.entries, t.now) == LiveEntries(u.entries, u.now)
    requires LiveLocks(t.locks, t.now) == LiveLocks(u.locks, u.now)
    ensures Purged(t) == Purged(u)
  {
  }

  lemma SendBeginPurged(s: State, p: Pid, phone: Phone, code: Code)
    ensures Purged(DoSendBegin(s, p, phone, code)) == Purged(DoSendBegin(Purged(s), p, phone, code))
  {
    var t, u := DoSendBegin(s, p, phone, code), DoSendBegin(Purged(s), p, phone, code);
    SendBeginEntries(s, p, phone, code);
    assert LiveLocks(t.locks, s.now) == LiveLocks(u.locks, s.now);
    SamePurged(t, u);
  }

  lemma SendBeginEntries(s: State, p: Pid, phone: Phone, code: Code)
    ensures LiveEntries(DoSendBegin(s, p, phone, code).entries, s.now)
         == LiveEntries(DoSendBegin(Purged(s), p, phone, code).entries, s.now)
  {
  }

  lemma AcceptPurged(s: State, p: Pid)
    ensures Purged(DoGatewayAccepts(s, p)) == Purged(DoGatewayAccepts(Purged(s), p))
  {
    var t, u := DoGatewayAccepts(s, p), DoGatewayAccepts(Purged(s), p);
    assert LiveEntries(t.entries, s.now) == LiveEntries(u.entries, s.now);
    assert LiveLocks(t.locks, s.now) == LiveLocks(u.locks, s.now);
    SamePurged(t, u);
  }

  lemma FailPurged(s: State, p: Pid)
    ensures Purged(DoGatewayFails(s, p)) == Purged(DoGatewayFails(Purged(s), p))
  {
    var t, u := DoGatewayFails(s, p), DoGatewayFails(Purged(s), p);
    assert LiveEntries(t.entries, s.now) == LiveEntries(u.entries, s.now);
    assert LiveLocks(t.locks, s.now) == LiveLocks(u.locks, s.now);
    SamePurged(t, u);
  }

  lemma ExpiryStep(s: State, a: Action)
    ensures Purged(Next(s, a)) == EagerNext(Purged(s), a)
  {
    match a
    case Verify(phone, code) => VerifyPurged(s, phone, code);
    case Tick(ms) =>
      assert LiveEntries(LiveEntries(s.entries, s.now), s.now + ms) == LiveEntries(s.entries, s.now + ms);
      assert LiveLocks(LiveLocks(s.locks, s.now), s.now + ms) == LiveLocks(s.locks, s.now + ms);
    case SendBegin(p, phone, code) => SendBeginPurged(s, p, phone, code);
    case GatewayAccepts(p) => AcceptPurged(s, p);
    case GatewayFails(p) => FailPurged(s, p);
    case Crash(p) =>
      assert LiveEntries(LiveEntries(s.entries, s.now), s.now) == LiveEntries(s.entries, s.now);
      assert LiveLocks(LiveLocks(s.locks, s.now), s.now) == LiveLocks(s.locks, s.now);
  }

  /**
   * Removing entries only when they are looked at is invisible: every run
   * reaches the state of the eager store, with the same log, and every
   * verification gets the same answer.
   */
  lemma {:induction false} LazyExpiryRefinesEager(s: State, actions: seq<Action>)
    ensures Purged(Exec(s, actions)) == EagerExec(Purged(s), actions)
    ensures forall phone, code ::
        Answer(Exec(s, actions), phone, code) == Answer(EagerExec(Purged(s), actions), phone, code)
    decreases |actions|
  {
    if actions != [] {
      ExpiryStep(s, actions[0]);
      LazyExpiryRefinesEager(Next(s, actions[0]), actions[1..]);
    } else {
      forall phone, code
        ensures Answer(s, phone, code) == Answer(Purged(s), phone, code)
      {
      }
    }
  }
}
