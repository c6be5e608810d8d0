/** The format of cache entries, over an abstract JSON value
    (`decodeEnvelope`, `SetJSON`, `SetNull` in pkg/cache/read_through.go). */
module Envelope {
  import opened Base

  datatype Json =
    | Null
    | Bool(b: bool)
    | Number(n: int)
    | Text(s: string)
    | Array(items: seq<Json>)
    | Object(members: seq<Member>)

  datatype Member = Member(key: string, value: Json)

  datatype Envelope = Envelope(isNull: bool, data: Option<Json>)

  datatype Decoded =
    | Hit(payload: Json)
    | NullHit
    | Undecodable

  /** Both fields are omitted when empty. */
  function Encode(e: Envelope): Json {
    Object((if e.isNull then [Member("null", Bool(true))] else [])
           + match e.data case None => [] case Some(v) => [Member("data", v)])
  }

  function LowerChar(c: char): char { if 'A' <= c <= 'Z' then c - 'A' + 'a' else c }

  /** Go matches object keys to field names without regard to case. */
  predicate Matches(key: string, name: string) {
    |key| == |name| && forall i | 0 <= i < |key| :: LowerChar(key[i]) == name[i]
  }

  /** A name matches itself, and goes on matching when a letter of it is made a capital. */
  lemma CapitalsMatch(key: string, name: string, i: nat)
    requires forall k | 0 <= k < |name| :: 'a' <= name[k] <= 'z'
    ensures Matches(name, name)
    ensures Matches(key, name) && i < |key| && 'a' <= key[i] <= 'z' ==> Matches(key[i := key[i] - 'a' + 'A'], name)
  {
  }

  /** What the members set, one after the other: the null flag, the data, a type error. */
  datatype Fields = Fields(isNull: bool, data: Option<Json>, mistyped: bool)

  function Assigned(f: Fields, m: Member): Fields {
    if Matches(m.key, "null") then
      match m.value
      case Bool(b) => f.(isNull := b)
      case Null => f
      case _ => f.(mistyped := true)
    else if Matches(m.key, "data") then f.(data := Some(m.value))
    else f
  }

  function Unmarshalled(members: seq<Member>): Fields {
    if members == [] then Fields(false, None, false)
    else Assigned(Unmarshalled(members[..|members| - 1]), members[|members| - 1])
  }

  function Decode(raw: Json): Decoded {
    match raw
    case Null => NullHit
    case Object(members) =>
      var f := Unmarshalled(members);
      if f.mistyped then Undecodable
      else if f.isNull then NullHit
      else if f.data.None? then Hit(raw)
      else Hit(f.data.value)
    case _ => Undecodable
  }

  /** How an entry is read, member by member: of the members that name a field, in any
      spelling, the last one counts, except that a `null` literal leaves the flag as it is and
      a flag of another type spoils the entry. */
  lemma LaterMembersWin(members: seq<Member>, m: Member)
    ensures Unmarshalled([]) == Fields(false, None, false)
    ensures var f, after := Unmarshalled(members), Unmarshalled(members + [m]);
            && (after.data == if Matches(m.key, "data") then Some(m.value) else f.data)
            && (after.isNull == if Matches(m.key, "null") && m.value.Bool? then m.value.b else f.isNull)
            && (after.mistyped <==> f.mistyped || (Matches(m.key, "null") && !m.value.Bool? && !m.value.Null?))
  {
    assert (members + [m])[..|members|] == members;
    assert !(Matches(m.key, "null") && Matches(m.key, "data")) by {
      if Matches(m.key, "null") { assert LowerChar(m.key[0]) == 'n'; }
    }
  }

  /** What the fields amount to: null beats data, data beats the whole object, and only
      null and objects are entries at all. */
  lemma DecodesByFields(raw: Json)
    ensures Decode(raw).NullHit? <==>
              raw.Null? || (raw.Object? && !Unmarshalled(raw.members).mistyped && Unmarshalled(raw.members).isNull)
    ensures Decode(raw).Undecodable? <==> !raw.Null? && (raw.Object? ==> Unmarshalled(raw.members).mistyped)
    ensures Decode(raw).Hit? ==>
              var data := Unmarshalled(raw.members).data; Decode(raw).payload == if data.Some? then data.value else raw
  {
  }

  /** Whatever payload is stored is read back as a hit with that payload, a stored null as
      null, and the two are never taken for one another. */
  lemma {:induction false} StoredIsReadBack(payload: Json)
    ensures Decode(Encode(Envelope(false, Some(payload)))) == Hit(payload)
    ensures Decode(Encode(Envelope(true, None))) == NullHit
  {
    var m := Member("data", payload);
    assert Encode(Envelope(false, Some(payload))) == Object([m]);
    assert LowerChar(m.key[0]) != 'n' && Matches(m.key, "data");
    assert [m][..0] == [] && Unmarshalled([m]) == Assigned(Unmarshalled([]), m);
    var n := Member("null", Bool(true));
    assert Encode(Envelope(true, None)) == Object([n]);
    assert [n][..0] == [] && Unmarshalled([n]) == Assigned(Unmarshalled([]), n);
  }

  /** No member names the data field, and the members naming the null field leave it unset. */
  ghost predicate Plain(raw: Json) {
    && raw.Object?
    && (forall m | m in raw.members :: !Matches(m.key, "data"))
    && (forall m | m in raw.members && Matches(m.key, "null") :: m.value.Bool? || m.value.Null?)
    && !Unmarshalled(raw.members).isNull
  }

  lemma {:induction false} UnmarshalledData(members: seq<Member>)
    ensures var f := Unmarshalled(members);
            && (f.data.None? <==> forall m | m in members :: !Matches(m.key, "data"))
            && (f.data.Some? ==> exists m :: m in members && m.value == f.data.value)
            && (f.mistyped <==> exists m :: m in members && Matches(m.key, "null") && !m.value.Bool? && !m.value.Null?)
  {
    if members != [] {
      var n := |members| - 1;
      UnmarshalledData(members[..n]);
      assert members == members[..n] + [members[n]];
      assert !(Matches(members[n].key, "null") && Matches(members[n].key, "data")) by {
        if Matches(members[n].key, "null") { assert LowerChar(members[n].key[0]) == 'n'; }
      }
    }
  }

  function Size(v: Json): nat {
    match v
    case Array(items) => 1 + Sizes(items)
    case Object(members) => 1 + MemberSizes(members)
    case _ => 1
  }

  function Sizes(items: seq<Json>): nat {
    if items == [] then 0 else Size(items[0]) + Sizes(items[1..])
  }

  function MemberSizes(members: seq<Member>): nat {
    if members == [] then 0 else Size(members[0].value) + MemberSizes(members[1..])
  }

  lemma {:induction false} MemberIsSmaller(members: seq<Member>, m: Member)
    requires m in members
    ensures Size(m.value) <= MemberSizes(members)
  {
    if m != members[0] { MemberIsSmaller(members[1..], m); }
  }

  /** An entry written before envelopes existed decodes to itself exactly when it is a plain
      object; in particular when no key matches `data` or `null`. */
  lemma LegacyDecodesToItself(raw: Json)
    ensures Decode(raw) == Hit(raw) <==> Plain(raw)
    ensures raw.Object? && (forall m | m in raw.members :: !Matches(m.key, "data") && !Matches(m.key, "null")) ==>
              Decode(raw) == Hit(raw)
  {
    if raw.Object? {
      UnmarshalledData(raw.members);
      var f := Unmarshalled(raw.members);
      if f.data.Some? {
        var m :| m in raw.members && m.value == f.data.value;
        MemberIsSmaller(raw.members, m);
        assert Size(f.data.value) < Size(raw);
      }
      NullUnnamed(raw.members);
    }
  }

  lemma {:induction false} NullUnnamed(members: seq<Member>)
    ensures (forall m | m in members :: !Matches(m.key, "null")) ==> !Unmarshalled(members).isNull
  {
    if members != [] {
      NullUnnamed(members[..|members| - 1]);
      assert members[|members| - 1] in members;
    }
  }
}
