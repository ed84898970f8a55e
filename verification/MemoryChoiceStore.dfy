/** The in-process choice store (apps/api/src/stores/choice.ts). Each method is the
    body that runs under the per-key lock; `now` is its reading of the clock. */
module MemoryChoiceStore {
  import opened Options
  import opened ChoiceDomain
  import opened ChoiceStore

  /** A stored text, as `parseChoiceRecord` reads it back. */
  datatype Stored = Readable(record: Record) | Unreadable

  datatype MemoryEntry = MemoryEntry(value: Stored, expiresAtMs: nat)

  function LiveRecords(entries: map<ChoiceId, MemoryEntry>, now: nat): View {
    map id | id in entries && now < entries[id].expiresAtMs && entries[id].value.Readable?
      :: Entry(entries[id].value.record, entries[id].expiresAtMs)
  }

  // ------------------------------------------------------------ one key

  function HeldAt(entries: map<ChoiceId, MemoryEntry>, id: ChoiceId): Option<MemoryEntry> {
    if id in entries then Some(entries[id]) else None
  }

  predicate IsLive(held: Option<MemoryEntry>, now: nat) {
    held.Some? && now < held.value.expiresAtMs && held.value.value.Readable?
  }

  /** What each method leaves under its own key. */
  function AfterOpening(held: Option<MemoryEntry>, record: Record, now: nat, ttlMs: nat): Option<MemoryEntry> {
    if IsLive(held, now) then held else Some(MemoryEntry(Readable(record.(status := ChoiceDomain.Open)), now + ttlMs))
  }

  function AfterClaiming(held: Option<MemoryEntry>, bind: Bind, option: string, now: nat): Option<MemoryEntry> {
    if !IsLive(held, now) then None
    else
      var r := held.value.value.record;
      if r.bind == bind && option in r.optionMap && r.status == ChoiceDomain.Open
      then Some(MemoryEntry(Readable(ClaimedRecord(r, option)), held.value.expiresAtMs)) else held
  }

  function AfterCompleting(held: Option<MemoryEntry>, bind: Bind, option: string, now: nat): Option<MemoryEntry> {
    if !IsLive(held, now) then None
    else
      var r := held.value.value.record;
      if r.bind == bind && r.status == Claimed && r.claimedOptionId == Some(option)
      then Some(MemoryEntry(Readable(r.(status := Completed)), held.value.expiresAtMs)) else held
  }

  function AfterPeeking(held: Option<MemoryEntry>, now: nat): Option<MemoryEntry> {
    if held.Some? && held.value.expiresAtMs <= now then None else held
  }

  /** Only the entry under `id` differs. */
  ghost predicate OthersStay(a: map<ChoiceId, MemoryEntry>, b: map<ChoiceId, MemoryEntry>, id: ChoiceId) {
    forall k :: k != id ==> HeldAt(b, k) == HeldAt(a, k)
  }

  class MemoryStore {
    const ttlMs: nat
    var entries: map<ChoiceId, MemoryEntry>

    constructor (ttlMs: nat)
      ensures this.ttlMs == ttlMs && entries == map[]
    {
      this.ttlMs := ttlMs;
      entries := map[];
    }

    ghost function View(now: nat): View
      reads this
    {
      LiveRecords(entries, now)
    }

    method ReadLive(key: ChoiceId, now: nat) returns (r: Option<Record>)
      modifies this
      ensures View(now) == old(View(now))
      ensures r == if key in old(View(now)) then Some(old(View(now))[key].record) else None
      ensures HeldAt(entries, key) == AfterPeeking(HeldAt(old(entries), key), now)
              && OthersStay(old(entries), entries, key)
    {
      if key !in entries {
        return None;
      }
      var entry := entries[key];
      if entry.expiresAtMs <= now {
        entries := entries - {key};
        return None;
      }
      return if entry.value.Readable? then Some(entry.value.record) else None;
    }

    method Open(record: Record, now: nat) returns (stored: bool)
      modifies this
      ensures stored <==> record.choiceId !in old(View(now))
      ensures View(now) == Unexpired(Opened(old(View(now)), record, now + ttlMs), now)
      ensures HeldAt(entries, record.choiceId)
              == AfterOpening(HeldAt(old(entries), record.choiceId), record, now, ttlMs)
      ensures OthersStay(old(entries), entries, record.choiceId)
    {
      var existing := ReadLive(record.choiceId, now);
      if existing.Some? {
        return false;
      }
      entries := entries[record.choiceId := MemoryEntry(Readable(record.(status := ChoiceDomain.Open)), now + ttlMs)];
      return true;
    }

    method Claim(id: ChoiceId, bind: Bind, option: string, now: nat) returns (d: ClaimDecision)
      modifies this
      ensures d == ClaimDecide(old(View(now)), id, bind, option)
      ensures View(now) == AfterClaim(old(View(now)), id, bind, option)
      ensures HeldAt(entries, id) == AfterClaiming(HeldAt(old(entries), id), bind, option, now)
      ensures OthersStay(old(entries), entries, id)
    {
      if id !in entries || entries[id].expiresAtMs <= now {
        entries := entries - {id};
        return ClaimExpired;
      }
      var existing := entries[id];
      if existing.value.Unreadable? {
        entries := entries - {id};
        return ClaimExpired;
      }
      var record := existing.value.record;
      if record.bind != bind {
        return ClaimForbidden;
      }
      if option !in record.optionMap {
        return ClaimInvalidOption;
      }
      if record.status == ChoiceDomain.Open {
        var claimed := record.(status := Claimed, claimedOptionId := Some(option));
        entries := entries[id := MemoryEntry(Readable(claimed), existing.expiresAtMs)];
        return ClaimWon(claimed);
      }
      if record.claimedOptionId == Some(option) {
        return ClaimReplay(record);
      }
      return ClaimConflict;
    }

    method Peek(id: ChoiceId, bind: Bind, now: nat) returns (d: PeekDecision)
      modifies this
      ensures d == PeekDecide(old(View(now)), id, bind)
      ensures View(now) == old(View(now))
      ensures HeldAt(entries, id) == AfterPeeking(HeldAt(old(entries), id), now)
              && OthersStay(old(entries), entries, id)
    {
      var record := ReadLive(id, now);
      if record.None? {
        return PeekExpired;
      }
      if record.value.bind != bind {
        return PeekForbidden;
      }
      return PeekFound(record.value);
    }

    method Complete(id: ChoiceId, bind: Bind, option: string, now: nat) returns (d: CompleteDecision)
      modifies this
      ensures d == CompleteDecide(old(View(now)), id, bind, option)
      ensures View(now) == AfterComplete(old(View(now)), id, bind, option)
      ensures HeldAt(entries, id) == AfterCompleting(HeldAt(old(entries), id), bind, option, now)
      ensures OthersStay(old(entries), entries, id)
    {
      if id !in entries || entries[id].expiresAtMs <= now {
        entries := entries - {id};
        return CompleteExpired;
      }
      var existing := entries[id];
      if existing.value.Unreadable? {
        entries := entries - {id};
        return CompleteExpired;
      }
      var record := existing.value.record;
      if record.bind != bind {
        return CompleteForbidden;
      }
      if record.status == Completed {
        if record.claimedOptionId == Some(option) {
          return CompleteReplay(record);
        }
        return CompleteConflict;
      }
      if record.status != Claimed || record.claimedOptionId != Some(option) {
        return CompleteConflict;
      }
      var completed := record.(status := Completed);
      entries := entries[id := MemoryEntry(Readable(completed), existing.expiresAtMs)];
      return CompleteDone(completed);
    }
  }
}
