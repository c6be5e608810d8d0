/** Profile updates and reads: the user row and the outbox row in one transaction, the
    cache entry dropped afterwards (internal/service/user_service.go,
    internal/service/user_events.go, internal/repository/user_repository.go). */
module UserService {
  import opened Base
  import opened OutboxRepository
  import opened ReadThrough

  type UserId = nat

  datatype User = User(email: string, name: string, role: string, tenantID: string, createdAt: int, updatedAt: int)

  datatype Profile = Profile(id: UserId, user: User)

  datatype Input = Input(email: string, name: string, tenantID: string)

  /** The standard library's text functions: lower case, trimmed, and the address an
      e-mail text parses to. */
  datatype Text = Text(lower: string -> string, trim: string -> string, address: string -> Option<string>)

  datatype Error = InvalidRequest | NotFound | EmailExists | Database

  /** What fails inside the transaction, if anything. */
  datatype Fault = NoFault | FindFails | UpdateFails | RereadFails | EncodeFails | CreateFails | CommitFails

  const TOPIC: string := "user.profile.updated.v1"

  function Normalized(text: Text, input: Input): Input {
    Input(text.lower(text.trim(input.email)), text.trim(input.name), text.trim(input.tenantID))
  }

  predicate Valid(text: Text, input: Input) {
    var n := Normalized(text, input);
    n.email != "" && n.name != "" && text.address(n.email) == Some(n.email)
  }

  /** The row as the update leaves it; the repository normalizes the address once more. */
  function Updated(text: Text, user: User, input: Input, now: int): User {
    var n := Normalized(text, input);
    user.(email := text.lower(text.trim(n.email)), name := n.name, tenantID := n.tenantID, updatedAt := now)
  }

  /** Somebody else has the address already. */
  predicate Taken(users: map<UserId, User>, id: UserId, email: string) {
    exists other | other in users :: other != id && users[other].email == email
  }

  class UserService {
    const text: Text
    const profileKey: UserId -> string
    const outbox: OutboxRepository
    const cache: ReadThroughStore
    var users: map<UserId, User>

    constructor (
      text: Text, profileKey: UserId -> string, outbox: OutboxRepository, cache: ReadThroughStore,
      users: map<UserId, User>)
      ensures this.text == text && this.profileKey == profileKey && this.outbox == outbox && this.cache == cache
      ensures this.users == users
    {
      this.text, this.profileKey, this.outbox, this.cache, this.users := text, profileKey, outbox, cache, users;
    }

    /** Whether the transaction commits. */
    ghost predicate Commits(id: UserId, input: Input, eventID: EventId, fault: Fault, now: int)
      reads this, outbox
    {
      && Valid(text, input) && id in users
      && !Taken(users, id, Updated(text, users[id], input, now).email)
      && eventID !in outbox.rows && fault == NoFault
    }

    /** `eventID` is the fresh id of the event, `payload` its JSON text over the profile
        before and after. A committed update adds exactly one row to the outbox, a failed one
        none; the answer does not depend on whether the cache could be told. */
    method UpdateProfile(id: UserId, input: Input, now: int, eventID: EventId, payload: (Profile, Profile) -> string,
                         fault: Fault, deleteFails: bool) returns (result: Result<Profile, Error>)
      modifies this, outbox, cache
      ensures result.Ok? <==> old(Commits(id, input, eventID, fault, now))
      ensures result.Err? ==>
              users == old(users) && outbox.rows == old(outbox.rows) && cache.entries == old(cache.entries)
      ensures result.Ok? ==>
                var before, after := old(users)[id], Updated(text, old(users)[id], input, now);
                && result.value == Profile(id, after)
                && users == old(users)[id := after]
                && outbox.rows == old(outbox.rows)[eventID :=
                     NewRow(TOPIC, payload(Profile(id, before), Profile(id, after)), now)]
                && cache.entries == if deleteFails then old(cache.entries) else old(cache.entries) - {profileKey(id)}
      // the profile becomes the trimmed input, with the address in lower case; the rest stays
      ensures result.Ok? ==>
                var before, after := old(users)[id], result.value.user;
                && result.value.id == id && users.Keys == old(users.Keys) && users[id] == after
                && after.email == text.lower(text.trim(text.lower(text.trim(input.email))))
                && after.name == text.trim(input.name) && after.tenantID == text.trim(input.tenantID)
                && after.role == before.role && after.createdAt == before.createdAt && after.updatedAt == now
                && forall other | other in users && other != id :: users[other] == old(users)[other]
      // the event is a new row about exactly that change, due at once
      ensures result.Ok? ==>
                && eventID in outbox.rows && outbox.rows - {eventID} == old(outbox.rows)
                && var row := outbox.rows[eventID];
                && row.topic == TOPIC && row.payload == payload(Profile(id, old(users)[id]), result.value)
                && row.status == Pending && row.attempts == 0
                && row.nextAttemptAt == row.createdAt == row.updatedAt == now
                && row.publishedAt.None? && row.lockedBy.None? && row.lockedAt.None? && row.lastError == ""
      ensures Valid(text, input) <==>
                && text.lower(text.trim(input.email)) != "" && text.trim(input.name) != ""
                && text.address(text.lower(text.trim(input.email))) == Some(text.lower(text.trim(input.email)))
      ensures result.Err? && !Valid(text, input) ==> result.error == InvalidRequest
      ensures result.Err? && Valid(text, input) && fault == NoFault && id !in old(users) ==> result.error == NotFound
      ensures result.Err? && Valid(text, input) && fault == NoFault && id in old(users) ==>
                Taken(old(users), id, Updated(text, old(users)[id], input, now).email) ==> result.error == EmailExists
      ensures result.Err? && result.error == InvalidRequest ==> !Valid(text, input)
      ensures result.Err? && result.error == NotFound ==> id !in old(users)
      ensures result.Err? && result.error == EmailExists ==>
                id in old(users) && Taken(old(users), id, text.lower(text.trim(text.lower(text.trim(input.email)))))
    {
      if !Valid(text, input) {
        return Err(InvalidRequest);
      }
      // the transaction works on its own view and publishes it when it commits
      if fault.FindFails? {
        return Err(Database);
      }
      if id !in users {
        return Err(NotFound);
      }
      var before := users[id];
      var after := Updated(text, before, input, now);
      if fault.UpdateFails? {
        return Err(Database);
      }
      if exists other | other in users :: other != id && users[other].email == after.email {
        return Err(EmailExists);
      }
      if fault.RereadFails? || fault.EncodeFails? || fault.CreateFails? || fault.CommitFails?
          || eventID in outbox.rows {
        return Err(Database);
      }
      var row := NewRow(TOPIC, payload(Profile(id, before), Profile(id, after)), now);
      var created := outbox.Create(eventID, row);
      users := users[id := after];
      if !deleteFails {
        cache.Delete(profileKey(id));
      }
      return Ok(Profile(id, after));
    }

    /** What the cache keeps for a user, whether there is one or not. */
    ghost function Stored(id: UserId, json: Profile -> Envelope.Json, ttl: int, now: int, delta: int): Entry
      reads this
      requires cache.jitter > 0 ==> -cache.jitter <= delta <= cache.jitter
    {
      if id in users then
        var envelope := Envelope.Envelope(false, Some(json(Profile(id, users[id]))));
        Entry(Envelope.Encode(envelope), now + EffectiveTTL(ttl, cache.jitter, delta))
      else
        Entry(Envelope.Encode(Envelope.Envelope(true, None)), now + StoredTTL(cache.nullTTL))
    }

    /** A profile read through the cache. `json` is the JSON form of a profile. */
    method GetProfile(
      id: UserId, json: Profile -> Envelope.Json, fits: Envelope.Json -> bool, ttl: int, now: int, delta: int,
      readFails: bool, recheckFails: bool, loadFails: bool, writeFails: bool)
      returns (result: Result<Envelope.Json, Error>)
      requires cache.jitter > 0 ==> -cache.jitter <= delta <= cache.jitter
      requires forall p :: fits(json(p))
      modifies cache
      // without a usable entry, or without a cache, the database answers; only then is it asked
      ensures var first := Read(old(cache.entries), profileKey(id), now, readFails);
              var again := Read(old(cache.entries), profileKey(id), now, recheckFails);
              !Usable(first, fits) && again.Undecodable? ==>
                result == if loadFails then Err(Database)
                          else if id in users then Ok(json(Profile(id, users[id])))
                          else Err(NotFound)
      // a usable entry answers by itself, on the first read or on the second; one that does not fit is an error
      ensures var first := Read(old(cache.entries), profileKey(id), now, readFails);
              var again := Read(old(cache.entries), profileKey(id), now, recheckFails);
              && (first.NullHit? ==> result == Err(NotFound))
              && (first.Hit? && fits(first.payload) ==> result == Ok(first.payload))
              && (!Usable(first, fits) && again.NullHit? ==> result == Err(NotFound))
              && (!Usable(first, fits) && again.Hit? ==>
                    result == if fits(again.payload) then Ok(again.payload) else Err(Database))
      // only what the database answered is stored, unless the write fails; its errors never are
      ensures var first := Read(old(cache.entries), profileKey(id), now, readFails);
              var again := Read(old(cache.entries), profileKey(id), now, recheckFails);
              cache.entries ==
                if Usable(first, fits) || !again.Undecodable? || loadFails || writeFails then old(cache.entries)
                else old(cache.entries)[profileKey(id) := Stored(id, json, ttl, now, delta)]
    {
      var loader := Ok(None);
      if loadFails {
        loader := Err("");
      } else if id in users {
        loader := Ok(Some(json(Profile(id, users[id]))));
      }
      var answer, called := cache.GetOrLoadJSON(
        profileKey(id), fits, ttl, loader, now, delta, readFails, recheckFails, writeFails);
      match answer
      case Failed(_) => result := Err(Database);
      case Answer(status, payload) =>
        result := if payload.None? then Err(NotFound) else Ok(payload.value);
    }
  }
}
