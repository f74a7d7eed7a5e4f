/** Signed Nostr events and their JSON. Hashing and signatures are the two functions of `Nostr`. */
module Events {
  import opened Wrappers
  import opened Hex
  import opened Felt
  import opened Json
  import opened Codec

  /** What an event id is the hash of. */
  datatype Unsigned = Unsigned(pubkey: string, createdAt: U64, kind: int, tags: seq<seq<string>>, content: string)

  datatype Event = Event(id: string, body: Unsigned, sig: string)

  datatype Nostr = Nostr(eventId: Unsigned -> string, signedBy: (string, string, string) -> bool) {
    /** `event.verify()`: the id is the hash of the body and the signature is the author's. */
    predicate Verify(e: Event) {
      e.id == eventId(e.body) && signedBy(e.body.pubkey, e.id, e.sig)
    }

    /** Two different bodies with one id. */
    ghost predicate IdCollision(x: Unsigned, y: Unsigned) {
      x != y && eventId(x) == eventId(y)
    }
  }

  /** The shape every event value of the library has: hex identifiers, a u16 kind, no empty tag. */
  predicate WellFormed(e: Event) {
    && IsLowerHexOfLength(e.id, 64)
    && IsLowerHexOfLength(e.body.pubkey, 64)
    && IsLowerHexOfLength(e.sig, 128)
    && 0 <= e.body.kind < 65536
    && forall i :: 0 <= i < |e.body.tags| ==> e.body.tags[i] != []
  }

  const EVENT_KEYS := ["id", "pubkey", "created_at", "kind", "tags", "content", "sig"]

  function StrItems(strings: seq<string>): (r: seq<Json>)
    ensures |r| == |strings|
  {
    seq(|strings|, i requires 0 <= i < |strings| => Str(strings[i]))
  }

  function TagItems(tags: seq<seq<string>>): (r: seq<Json>)
    ensures |r| == |tags|
  {
    seq(|tags|, i requires 0 <= i < |tags| => Arr(StrItems(tags[i])))
  }

  function EventMembers(e: Event): seq<Member> {
    [Member("id", Str(e.id)), Member("pubkey", Str(e.body.pubkey)), Member("created_at", Num(e.body.createdAt)),
     Member("kind", Num(if e.body.kind >= 0 then e.body.kind else 0)), Member("tags", Arr(TagItems(e.body.tags))),
     Member("content", Str(e.body.content)), Member("sig", Str(e.sig))]
  }

  /** `event.try_as_json()`. */
  function Serialize(e: Event): string {
    Print(Obj(EventMembers(e)))
  }

  function StrList(items: seq<Json>): Option<seq<string>> {
    if items == [] then Some([])
    else
      var _ :- Guard(items[0].Str?);
      var tail :- StrList(items[1..]);
      Some([items[0].s] + tail)
  }

  function TagList(items: seq<Json>): Option<seq<seq<string>>> {
    if items == [] then Some([])
    else
      var _ :- Guard(items[0].Arr? && items[0].items != []);
      var head :- StrList(items[0].items);
      var tail :- TagList(items[1..]);
      Some([head] + tail)
  }

  /** The last member of a name: `serde_json::Value` keeps the last of repeated members. */
  function GetLast(members: seq<Member>, key: string): Option<Json> {
    if members == [] then None
    else if members[|members| - 1].key == key then Some(members[|members| - 1].value)
    else GetLast(members[..|members| - 1], key)
  }

  function LastStr(members: seq<Member>, key: string): Option<string> {
    var v :- GetLast(members, key);
    if v.Str? then Some(v.s) else None
  }

  function LastU64(members: seq<Member>, key: string): Option<U64> {
    var v :- GetLast(members, key);
    if v.Num? && v.n < U64_LIMIT then Some(v.n) else None
  }

  function EventOfMembers(members: seq<Member>): Option<Event> {
    var id :- LastStr(members, "id");
    var pubkey :- LastStr(members, "pubkey");
    var createdAt :- LastU64(members, "created_at");
    var kind :- LastU64(members, "kind");
    var tagsJson :- GetLast(members, "tags");
    var _ :- Guard(tagsJson.Arr?);
    var tags :- TagList(tagsJson.items);
    var content :- LastStr(members, "content");
    var sig :- LastStr(members, "sig");
    var e := Event(id, Unsigned(pubkey, createdAt, kind, tags, content), sig);
    if WellFormed(e) then Some(e) else None
  }

  /** `Event::from_json`. */
  function Deserialize(text: string): Option<Event> {
    var j :- Read(text);
    if j.Obj? then EventOfMembers(j.members) else None
  }

  predicate HasExactlyEventKeys(members: seq<Member>) {
    && OnlyKeys(members, EVENT_KEYS)
    && forall k :: k in EVENT_KEYS ==> exists i :: 0 <= i < |members| && members[i].key == k
  }

  // ---- round trip --------------------------------------------------------

  lemma {:induction false} StrListOfItems(strings: seq<string>)
    ensures StrList(StrItems(strings)) == Some(strings)
  {
    if strings != [] {
      StrListOfItems(strings[1..]);
      assert StrItems(strings)[1..] == StrItems(strings[1..]);
      assert strings == [strings[0]] + strings[1..];
    }
  }

  lemma {:induction false} TagListOfItems(tags: seq<seq<string>>)
    requires forall i :: 0 <= i < |tags| ==> tags[i] != []
    ensures TagList(TagItems(tags)) == Some(tags)
  {
    if tags != [] {
      StrListOfItems(tags[0]);
      TagListOfItems(tags[1..]);
      assert TagItems(tags)[1..] == TagItems(tags[1..]);
      assert tags == [tags[0]] + tags[1..];
    }
  }

  lemma {:induction false} GetLastAt(members: seq<Member>, i: nat)
    requires DistinctKeys(members) && i < |members|
    ensures GetLast(members, members[i].key) == Some(members[i].value)
  {
    if i < |members| - 1 {
      GetLastAt(members[..|members| - 1], i);
    }
  }

  /** Of repeated members the last one counts. */
  lemma LastMemberCounts(members: seq<Member>, m: Member, key: string)
    ensures GetLast(members + [m], key) == if m.key == key then Some(m.value) else GetLast(members, key)
  {
    assert (members + [m])[..|members|] == members;
  }

  lemma EventMembersRoundTrip(e: Event)
    requires WellFormed(e)
    ensures EventOfMembers(EventMembers(e)) == Some(e)
    ensures HasExactlyEventKeys(EventMembers(e))
  {
    hide TagItems;
    var members := EventMembers(e);
    EventKeysDistinct(e);
    GetLastAt(members, 0);
    GetLastAt(members, 1);
    GetLastAt(members, 2);
    GetLastAt(members, 3);
    GetLastAt(members, 4);
    GetLastAt(members, 5);
    GetLastAt(members, 6);
    TagListOfItems(e.body.tags);
  }

  lemma {:induction false} StrListExact(items: seq<Json>)
    ensures StrList(items).Some? ==> items == StrItems(StrList(items).value)
  {
    if items != [] && StrList(items).Some? {
      StrListExact(items[1..]);
    }
  }

  lemma {:induction false} TagListExact(items: seq<Json>)
    ensures TagList(items).Some? ==>
      items == TagItems(TagList(items).value) && forall i :: 0 <= i < |items| ==> TagList(items).value[i] != []
  {
    if items != [] && TagList(items).Some? {
      StrListExact(items[0].items);
      TagListExact(items[1..]);
      assert StrList(items[0].items).value != [];
    }
  }

  predicate Says(members: seq<Member>, e: Event) {
    && GetLast(members, "id") == Some(Str(e.id)) && GetLast(members, "pubkey") == Some(Str(e.body.pubkey))
    && GetLast(members, "created_at") == Some(Num(e.body.createdAt))
    && e.body.kind >= 0 && GetLast(members, "kind") == Some(Num(e.body.kind))
    && GetLast(members, "tags") == Some(Arr(TagItems(e.body.tags)))
    && GetLast(members, "content") == Some(Str(e.body.content)) && GetLast(members, "sig") == Some(Str(e.sig))
  }

  /** An event is read from an object exactly when the object's last members of the seven names say it, and it has the
      shape of an event: 64, 64 and 128 lower-case hexadecimal digits, a kind of 16 bits, and no empty tag. */
  lemma EventExact(members: seq<Member>, e: Event)
    ensures EventOfMembers(members) == Some(e) <==>
      && Says(members, e)
      && IsLowerHexOfLength(e.id, 64) && IsLowerHexOfLength(e.body.pubkey, 64) && IsLowerHexOfLength(e.sig, 128)
      && e.body.kind <= 65535 && forall i :: 0 <= i < |e.body.tags| ==> e.body.tags[i] != []
  {
    hide GetLast, TagList, TagItems, IsLowerHexOfLength;
    if GetLast(members, "tags").Some? && GetLast(members, "tags").value.Arr? {
      TagListExact(GetLast(members, "tags").value.items);
    }
    if forall i :: 0 <= i < |e.body.tags| ==> e.body.tags[i] != [] {
      TagListOfItems(e.body.tags);
    }
  }

  lemma EventKeysDistinct(e: Event)
    ensures DistinctKeys(EventMembers(e)) && HasExactlyEventKeys(EventMembers(e))
  {
    hide TagItems;
    var members := EventMembers(e);
    assert |members| == |EVENT_KEYS| == 7;
    assert forall i :: 0 <= i < 7 ==> members[i].key == EVENT_KEYS[i];
  }

  /** Every event is read back from its serialized copy. */
  lemma EventRoundTrip(e: Event)
    requires WellFormed(e)
    ensures Deserialize(Serialize(e)) == Some(e)
    ensures Read(Serialize(e)) == Some(Obj(EventMembers(e)))
  {
    ReadInvertsPrint(Obj(EventMembers(e)));
    EventMembersRoundTrip(e);
  }
}
