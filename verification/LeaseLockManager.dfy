// FileLeaseLockManager as an object over its lock directory: each operation as the code runs it,
// with the files it changes, the retry loops and the clock readings. No other call runs in between;
// what interleaving can do is the subject of LeaseLock.
module LeaseLockManager {
  import opened Wrappers
  import opened LeaseLock

  // The reading an acquire ends with: the first, unless it had to remove a file.
  function Reading(found: Option<Content>, clock: (nat, nat)): nat {
    if found.Some? && Stale(found, clock.0) then clock.1 else clock.0
  }

  class FileLeaseLockManager {
    const guardMaxAttempts: nat
    var locks: map<Key, Content>
    var temps: map<(Key, Owner), Content>
    var guards: set<Key>

    constructor (maxAttempts: nat)
      requires maxAttempts > 0
      ensures guardMaxAttempts == maxAttempts && locks == map[] && temps == map[] && guards == {}
    {
      guardMaxAttempts, locks, temps, guards := maxAttempts, map[], map[], {};
    }

    // Tries to create the guard file up to guardMaxAttempts times; it is free from attempt `busy` + 1 on.
    method TakeGuard(key: Key, busy: nat) returns (taken: bool)
      requires key !in guards && guardMaxAttempts > 0
      modifies this`guards
      ensures taken <==> busy < guardMaxAttempts
      ensures guards == if taken then old(guards) + {key} else old(guards)
    {
      var attempt := 1;
      while attempt <= guardMaxAttempts
        invariant 1 <= attempt <= guardMaxAttempts && attempt <= busy + 1 && guards == old(guards)
      {
        if attempt > busy {
          guards := guards + {key};
          return true;
        }
        if attempt == guardMaxAttempts { return false; }
        attempt := attempt + 1;
      }
      taken := false;
    }

    // `clock` holds the readings of the two attempts.
    method TryAcquire(key: Key, owner: Owner, lease: nat, clock: (nat, nat), busy: nat) returns (r: Outcome)
      requires key !in guards && lease > 0 && guardMaxAttempts > 0 && clock.0 <= clock.1
      modifies this
      ensures guards == old(guards) && temps == old(temps) && locks - {key} == old(locks) - {key}
      ensures busy >= guardMaxAttempts ==> r == GuardBusy && locks == old(locks)
      ensures busy < guardMaxAttempts ==> !r.IoError?
      ensures busy < guardMaxAttempts ==>
        Atomic(Call(Op.Acquire(lease), key, owner, Over(r), Lookup(old(locks), key), clock.0, Reading(Lookup(old(locks), key), clock)),
               r, Lookup(locks, key))
      // What was found decides: nothing, a file that can be replaced, or a lease that is not over.
      ensures busy < guardMaxAttempts && key !in old(locks) ==>
        r == Won(clock.0 + lease) && locks == old(locks)[key := Entry(owner, clock.0, clock.0 + lease)]
      ensures busy < guardMaxAttempts && key in old(locks) && Stale(Some(old(locks)[key]), clock.0) ==>
        r == Won(clock.1 + lease) && locks == old(locks)[key := Entry(owner, clock.1, clock.1 + lease)]
      ensures busy < guardMaxAttempts && key in old(locks) && !Stale(Some(old(locks)[key]), clock.0) ==>
        r == Lost(old(locks)[key].expiresAt) && locks == old(locks)
    {
      var taken := TakeGuard(key, busy);
      if !taken { return GuardBusy; }
      r := Lost(0);
      var attempt := 0;
      while attempt < 2
        invariant 0 <= attempt < 2 && guards == old(guards) + {key} && temps == old(temps)
        invariant locks - {key} == old(locks) - {key}
        invariant attempt == 0 ==> locks == old(locks)
        invariant attempt == 1 ==> key in old(locks) && Stale(Some(old(locks)[key]), clock.0) && locks == old(locks) - {key}
      {
        var now := if attempt == 0 then clock.0 else clock.1;
        if key !in locks {
          locks := locks[key := HalfWritten];
          locks := locks[key := Entry(owner, now, now + lease)];
          r := Won(now + lease);
          break;
        }
        if Stale(Lookup(locks, key), now) {
          locks := locks - {key};
          attempt := attempt + 1;
          continue;
        }
        r := Lost(locks[key].expiresAt);
        break;
      }
      guards := guards - {key};
    }

    method TryRenew(key: Key, owner: Owner, lease: nat, clock: nat, busy: nat) returns (r: Outcome)
      requires key !in guards && lease > 0 && guardMaxAttempts > 0
      modifies this
      ensures guards == old(guards) && locks - {key} == old(locks) - {key}
      ensures temps == if r.Renewed? then old(temps) - {(key, owner)} else old(temps)
      ensures busy >= guardMaxAttempts ==> r == GuardBusy && locks == old(locks)
      ensures busy < guardMaxAttempts ==> !r.IoError?
      ensures busy < guardMaxAttempts ==>
        Atomic(Call(Op.Renew(lease), key, owner, Over(r), Lookup(old(locks), key), clock, clock), r, Lookup(locks, key))
    {
      var taken := TakeGuard(key, busy);
      if !taken { return GuardBusy; }
      var existing := Lookup(locks, key);
      if !OwnedBy(existing, owner) || existing.value.expiresAt <= clock {
        r := RenewRefused;
      } else {
        temps := temps[(key, owner) := Entry(owner, existing.value.acquiredAt, clock + lease)];
        locks := locks[key := temps[(key, owner)]];
        temps := temps - {(key, owner)};
        r := Renewed(clock + lease);
      }
      guards := guards - {key};
    }

    method TryRelease(key: Key, owner: Owner, busy: nat) returns (r: Outcome)
      requires key !in guards && guardMaxAttempts > 0
      modifies this
      ensures guards == old(guards) && temps == old(temps) && locks - {key} == old(locks) - {key}
      ensures busy >= guardMaxAttempts ==> r == GuardBusy && locks == old(locks)
      ensures busy < guardMaxAttempts ==> !r.IoError?
      ensures busy < guardMaxAttempts ==>
        Atomic(Call(Op.Release, key, owner, Over(r), Lookup(old(locks), key), 0, 0), r, Lookup(locks, key))
    {
      var taken := TakeGuard(key, busy);
      if !taken { return GuardBusy; }
      var existing := Lookup(locks, key);
      if existing.None? {
        r := NothingToRelease;
      } else if !OwnedBy(existing, owner) {
        r := OwnerMismatch;
      } else {
        locks := locks - {key};
        r := Released;
      }
      guards := guards - {key};
    }
  }

  // An operation's outcome and new file are settled by what it found and its clock readings.
  lemma {:induction false} AtomicIsDeterministic(c: Call, r: Outcome, s: Outcome, x: Option<Content>, y: Option<Content>)
    requires Atomic(c, r, x) && Atomic(c, s, y) && !r.IoError? && !s.IoError?
    ensures r == s && x == y
  {}
}
