/** The Redis choice store (apps/api/src/stores/redis.ts): each Lua script is one
    method, run to its end without another command in between. */
module RedisChoiceStore {
  import opened Options
  import opened ChoiceDomain
  import opened ChoiceStore
  import opened MemoryChoiceStore

  datatype RedisValue = RedisValue(text: Stored, expireAt: nat)

  function LiveKeys(keys: map<ChoiceId, RedisValue>, now: nat): View {
    map id | id in keys && now < keys[id].expireAt && keys[id].text.Readable?
      :: Entry(keys[id].text.record, keys[id].expireAt)
  }

  /** Redis drops a key only after its deadline: at the deadline itself `GET` still
      answers, with `PTTL` 0. */
  predicate Served(keys: map<ChoiceId, RedisValue>, id: ChoiceId, now: nat) {
    id in keys && now <= keys[id].expireAt
  }

  /** What a claim is told at the very millisecond of the deadline. */
  function DeadlineClaim(r: Record, bind: Bind, option: string): ClaimDecision {
    if r.bind != bind then ClaimForbidden
    else if option !in r.optionMap then ClaimInvalidOption
    else ClaimExpired
  }

  class RedisStore {
    const ttlMs: nat
    var keys: map<ChoiceId, RedisValue>

    constructor (ttlMs: nat)
      ensures this.ttlMs == ttlMs && keys == map[]
    {
      this.ttlMs := ttlMs;
      keys := map[];
    }

    ghost function View(now: nat): View
      reads this
    {
      LiveKeys(keys, now)
    }

    /** `GET` */
    function Get(id: ChoiceId, now: nat): Option<Stored>
      reads this
    {
      if Served(keys, id, now) then Some(keys[id].text) else None
    }

    /** `PTTL` of a served key. */
    function Pttl(id: ChoiceId, now: nat): int
      reads this
    {
      if Served(keys, id, now) then keys[id].expireAt - now else -2
    }

    /** `SET key value PX ttl` */
    method SetPx(id: ChoiceId, text: Stored, ttl: nat, now: nat)
      modifies this
      ensures keys == old(keys)[id := RedisValue(text, now + ttl)]
    {
      keys := keys[id := RedisValue(text, now + ttl)];
    }

    /** `open`: `SET ... PX ttl NX`. */
    method Open(record: Record, now: nat) returns (stored: bool)
      modifies this
      ensures stored <==> !Served(old(keys), record.choiceId, now)
      ensures (record.choiceId in old(View(now)) <==> Served(old(keys), record.choiceId, now)) ==>
                View(now) == Unexpired(Opened(old(View(now)), record, now + ttlMs), now)
      ensures !stored ==> View(now) == old(View(now))
    {
      if Get(record.choiceId, now).Some? {
        return false;
      }
      SetPx(record.choiceId, Readable(record.(status := ChoiceDomain.Open)), ttlMs, now);
      return true;
    }

    /** `CHOICE_CLAIM_LUA` */
    method Claim(id: ChoiceId, bind: Bind, option: string, now: nat) returns (d: ClaimDecision)
      modifies this
      ensures !(id in old(keys) && old(keys)[id].expireAt == now) ==> d == ClaimDecide(old(View(now)), id, bind, option)
      ensures id in old(keys) && old(keys)[id].expireAt == now && old(keys)[id].text.Readable? ==>
                d == DeadlineClaim(old(keys)[id].text.record, bind, option)
      ensures View(now) == AfterClaim(old(View(now)), id, bind, option)
    {
      var raw := Get(id, now);
      if raw.None? {
        return ClaimExpired;
      }
      if raw.value.Unreadable? {
        keys := keys - {id};
        return ClaimExpired;
      }
      var rec := raw.value.record;
      if rec.bind.actorId != bind.actorId || rec.bind.companyId != bind.companyId
         || rec.bind.conversationId != bind.conversationId {
        return ClaimForbidden;
      }
      if option !in rec.optionMap {
        return ClaimInvalidOption;
      }
      var ttl := Pttl(id, now);
      if ttl < 1 {
        keys := keys - {id};
        return ClaimExpired;
      }
      if rec.status == ChoiceDomain.Open {
        rec := rec.(status := Claimed, claimedOptionId := Some(option));
        SetPx(id, Readable(rec), ttl, now);
        return ClaimWon(Get(id, now).value.record);
      }
      if rec.claimedOptionId == Some(option) {
        return ClaimReplay(rec);
      }
      return ClaimConflict;
    }

    method Peek(id: ChoiceId, bind: Bind, now: nat) returns (d: PeekDecision)
      ensures !(id in keys && keys[id].expireAt == now) ==> d == PeekDecide(View(now), id, bind)
      ensures id in keys && keys[id].expireAt == now && keys[id].text.Readable? ==>
                d == if keys[id].text.record.bind != bind then PeekForbidden else PeekFound(keys[id].text.record)
    {
      var raw := Get(id, now);
      if raw.None? || raw.value.Unreadable? {
        return PeekExpired;
      }
      if raw.value.record.bind != bind {
        return PeekForbidden;
      }
      return PeekFound(raw.value.record);
    }

    /** `CHOICE_COMPLETE_LUA` */
    method Complete(id: ChoiceId, bind: Bind, option: string, now: nat) returns (d: CompleteDecision)
      modifies this
      ensures !(id in old(keys) && old(keys)[id].expireAt == now) ==>
              d == CompleteDecide(old(View(now)), id, bind, option)
      ensures id in old(keys) && old(keys)[id].expireAt == now && old(keys)[id].text.Readable? ==>
                d == if old(keys)[id].text.record.bind != bind then CompleteForbidden else CompleteExpired
      ensures View(now) == AfterComplete(old(View(now)), id, bind, option)
    {
      var raw := Get(id, now);
      if raw.None? {
        return CompleteExpired;
      }
      if raw.value.Unreadable? {
        keys := keys - {id};
        return CompleteExpired;
      }
      var rec := raw.value.record;
      if rec.bind.actorId != bind.actorId || rec.bind.companyId != bind.companyId
         || rec.bind.conversationId != bind.conversationId {
        return CompleteForbidden;
      }
      var ttl := Pttl(id, now);
      if ttl < 1 {
        keys := keys - {id};
        return CompleteExpired;
      }
      if rec.status == Completed {
        if rec.claimedOptionId == Some(option) {
          return CompleteReplay(rec);
        }
        return CompleteConflict;
      }
      if rec.status != Claimed || rec.claimedOptionId != Some(option) {
        return CompleteConflict;
      }
      rec := rec.(status := Completed);
      SetPx(id, Readable(rec), ttl, now);
      return CompleteDone(Get(id, now).value.record);
    }
  }

  /** Two stores with the same contents: `open` answers differently exactly when the
      key is at its deadline, or holds live text that does not parse as a record. */
  lemma OpenAgreesExactly(
    entries: map<ChoiceId, MemoryEntry>, keys: map<ChoiceId, RedisValue>, id: ChoiceId, now: nat)
    requires forall k :: k in entries <==> k in keys
    requires forall k :: k in entries ==> entries[k].value == keys[k].text && entries[k].expiresAtMs == keys[k].expireAt
    ensures LiveRecords(entries, now) == LiveKeys(keys, now)
    ensures (id !in LiveRecords(entries, now) <==> !Served(keys, id, now)) <==>
            !(id in keys && (now == keys[id].expireAt || (now < keys[id].expireAt && keys[id].text.Unreadable?)))
  {
    assert LiveRecords(entries, now).Keys == LiveKeys(keys, now).Keys;
  }
}
