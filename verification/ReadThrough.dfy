/** The read-through store as one caller sees it (`GetOrLoadJSON`, `writeEnvelope`,
    `effectiveTTL`, `Delete` in pkg/cache/read_through.go). */
module ReadThrough {
  import opened Base
  import opened Envelope

  /** The ttl a value is stored with: the jitter is uniform in [-jitter, jitter]. */
  function EffectiveTTL(base: int, jitter: int, delta: int): (ttl: int)
    requires jitter > 0 ==> -jitter <= delta <= jitter
    ensures 0 < ttl <= Max(Seconds(1), base + Max(jitter, 0))
    ensures base > jitter >= 0 ==> ttl == base + (if jitter > 0 then delta else 0) >= base - jitter
    ensures base <= 0 ==> ttl == Seconds(1)
  {
    if base <= 0 then Seconds(1)
    else if jitter <= 0 then base
    else if base + delta <= 0 then Seconds(1)
    else base + delta
  }

  /** A ttl that is not positive is never sent to Redis, where it would mean no expiry. */
  function StoredTTL(ttl: int): (stored: int)
    ensures stored > 0 && (ttl > 0 ==> stored == ttl) && (ttl <= 0 ==> stored == Seconds(1))
  {
    if ttl <= 0 then Seconds(1) else ttl
  }

  datatype Entry = Entry(raw: Json, expiresAt: int)

  datatype Status = Miss | Found | FoundNull | Loaded

  /** What one lookup answers: a status with its payload, or an error. */
  datatype Answer = Answer(status: Status, payload: Option<Json>) | Failed(error: string)

  predicate Live(entries: map<string, Entry>, key: string, now: int) {
    key in entries && now < entries[key].expiresAt
  }

  /** What a read of the key decodes to; `down` stands for a Redis error. */
  function Read(entries: map<string, Entry>, key: string, now: int, down: bool): Decoded {
    if down || !Live(entries, key, now) then Undecodable else Decode(entries[key].raw)
  }

  /** The caller can take what its read found. */
  predicate Usable(read: Decoded, fits: Json -> bool) {
    read.NullHit? || (read.Hit? && fits(read.payload))
  }

  class ReadThroughStore {
    const nullTTL: int
    const jitter: int
    var entries: map<string, Entry>

    constructor (nullTTL: int, jitter: int)
      ensures this.nullTTL == nullTTL && this.jitter == jitter && entries == map[]
    {
      this.nullTTL, this.jitter, this.entries := nullTTL, jitter, map[];
    }

    method WriteEnvelope(key: string, envelope: Envelope, ttl: int, now: int)
      modifies this
      ensures entries == old(entries)[key := Entry(Encode(envelope), now + StoredTTL(ttl))]
    {
      var stored := if ttl <= 0 then Seconds(1) else ttl;
      entries := entries[key := Entry(Encode(envelope), now + stored)];
    }

    method Delete(key: string)
      modifies this
      ensures entries == old(entries) - {key}
    {
      entries := entries - {key};
    }

    /** `fits` tells which payloads unmarshal into the caller's destination; `loader` is what
        the loader would answer (None: no such entity); the flags say which Redis commands
        fail; `delta` is the random part of the ttl. */
    method GetOrLoadJSON(
      key: string, fits: Json -> bool, ttl: int, loader: Result<Option<Json>, string>, now: int, delta: int,
      readFails: bool, recheckFails: bool, writeFails: bool)
      returns (answer: Answer, loaderCalled: bool)
      requires jitter > 0 ==> -jitter <= delta <= jitter
      modifies this
      // the loader is called exactly when the first read is of no use and the second decodes nothing
      ensures var first, again := Read(old(entries), key, now, readFails), Read(old(entries), key, now, recheckFails);
              loaderCalled <==> !Usable(first, fits) && again.Undecodable?
      // a usable entry is served as it is, on the first read or on the second
      ensures var first, again := Read(old(entries), key, now, readFails), Read(old(entries), key, now, recheckFails);
              && (first.NullHit? ==> answer == Answer(FoundNull, None))
              && (first.Hit? && fits(first.payload) ==> answer == Answer(Found, Some(first.payload)))
              && (!Usable(first, fits) && again.NullHit? ==> answer == Answer(FoundNull, None))
              && (!Usable(first, fits) && again.Hit? && fits(again.payload) ==>
                      answer == Answer(Found, Some(again.payload)))
      // what is loaded is the answer, whether or not it can be stored
      ensures loaderCalled ==>
                match loader
                case Err(e) => answer == Failed(e)
                case Ok(None) => answer == Answer(FoundNull, None)
                case Ok(Some(v)) => if fits(v) then answer == Answer(Loaded, Some(v)) else answer.Failed?
      // it fails exactly when the loader does, or when what it finds or loads does not fit
      ensures var first, again := Read(old(entries), key, now, readFails), Read(old(entries), key, now, recheckFails);
              answer.Failed? <==>
                && !Usable(first, fits)
                && (if again.Undecodable? then loader.Err? || (loader.value.Some? && !fits(loader.value.value))
                    else again.Hit? && !fits(again.payload))
      // only a load changes the cache, and only by storing what was loaded under a positive ttl
      ensures entries == (
                if loaderCalled && loader.Ok? && !writeFails then
                  old(entries)[key := match loader.value
                    case None => Entry(Encode(Envelope(true, None)), now + StoredTTL(nullTTL))
                    case Some(v) => Entry(Encode(Envelope(false, Some(v))), now + EffectiveTTL(ttl, jitter, delta))]
                else old(entries))
    {
      loaderCalled := false;
      var first := Read(entries, key, now, readFails);
      if first.NullHit? {
        return Answer(FoundNull, None), false;
      }
      if first.Hit? && fits(first.payload) {
        return Answer(Found, Some(first.payload)), false;
      }
      var again := Read(entries, key, now, recheckFails);
      if again.NullHit? {
        return Answer(FoundNull, None), false;
      }
      if again.Hit? {
        answer := if fits(again.payload) then Answer(Found, Some(again.payload)) else Failed("payload does not fit");
        return;
      }
      loaderCalled := true;
      if loader.Err? {
        return Failed(loader.error), true;
      }
      if loader.value.None? {
        if !writeFails { WriteEnvelope(key, Envelope(true, None), nullTTL, now); }
        return Answer(FoundNull, None), true;
      }
      var v := loader.value.value;
      if !writeFails { WriteEnvelope(key, Envelope(false, Some(v)), EffectiveTTL(ttl, jitter, delta), now); }
      answer := if fits(v) then Answer(Loaded, Some(v)) else Failed("payload does not fit");
    }
  }

  /** What a load stored is what a later lookup of the same key is answered with, until it expires. */
  lemma StoredLoadIsServed(entries: map<string, Entry>, key: string, v: Json, expiresAt: int, now: int)
    requires key in entries && entries[key] == Entry(Encode(Envelope(false, Some(v))), expiresAt)
    ensures Read(entries, key, now, false) == if now < expiresAt then Hit(v) else Undecodable
  {
    StoredIsReadBack(v);
  }
}
