/** Find-or-create of the private room for a pair of users. */
module PrivateRooms {
  import opened Common

  /** A room and the users in its member rows; the table admits one row per room and user. */
  datatype Room = Room(isPrivate: bool, members: set<string>)

  type Rooms = map<int, Room>

  /** The query of `findPrivateRoom`. */
  predicate Found(rooms: Rooms, a: string, b: string, id: int) {
    id in rooms && rooms[id].isPrivate && a in rooms[id].members && b in rooms[id].members && |rooms[id].members| == 2
  }

  predicate Exists(rooms: Rooms, a: string, b: string) {
    exists id :: id in rooms && Found(rooms, a, b, id)
  }

  /**
   The transaction of `createPrivateRoom`: two member rows for the same user violate the table's uniqueness,
   and any failure rolls the room back.
   */
  function Created(rooms: Rooms, a: string, b: string, id: int, ok: bool): Rooms {
    if ok && a != b then rooms[id := Room(true, {a, b})] else rooms
  }

  /** At most one two-member private room per unordered pair. */
  ghost predicate OnePerPair(rooms: Rooms) {
    forall a, b, i, j :: a != b && Found(rooms, a, b, i) && Found(rooms, a, b, j) ==> i == j
  }

  lemma PairIsMembers(rooms: Rooms, a: string, b: string, id: int)
    requires Found(rooms, a, b, id) && a != b
    ensures rooms[id].members == {a, b}
  {
    var rest := rooms[id].members - {a, b};
    assert |{a, b}| == 2;
    assert rooms[id].members == {a, b} + rest;
    assert |rest| == 0;
  }

  lemma CreateKeepsOne(rooms: Rooms, a: string, b: string, id: int, ok: bool)
    requires OnePerPair(rooms) && id !in rooms && !Exists(rooms, a, b)
    ensures OnePerPair(Created(rooms, a, b, id, ok))
  {
    var after := Created(rooms, a, b, id, ok);
    if ok && a != b {
      forall c, d, i, j | c != d && Found(after, c, d, i) && Found(after, c, d, j)
        ensures i == j
      {
        PairIsMembers(after, c, d, i);
        PairIsMembers(after, c, d, j);
        assert i != id ==> Found(rooms, c, d, i);
        assert j != id ==> Found(rooms, c, d, j);
        assert {a, b} == {c, d} ==> (a == c && b == d) || (a == d && b == c) by {
          assert a in {a, b} && b in {a, b} && c in {c, d} && d in {c, d};
        }
      }
    }
  }

  class RoomStore {
    var rooms: Rooms

    constructor ()
      ensures rooms == map[] && OnePerPair(rooms)
    {
      rooms := map[];
    }

    method FindPrivateRoom(a: string, b: string) returns (room: Option<int>)
      ensures room.Some? ==> Found(rooms, a, b, room.value)
      ensures room.None? <==> !Exists(rooms, a, b)
      ensures room.None? <==>
                forall id :: id in rooms && rooms[id].isPrivate && |rooms[id].members| == 2 ==>
                  !(a in rooms[id].members && b in rooms[id].members)
    {
      if exists id :: id in rooms && Found(rooms, a, b, id) {
        var id :| id in rooms && Found(rooms, a, b, id);
        room := Some(id);
      } else {
        room := None;
      }
    }

    method CreatePrivateRoom(a: string, b: string, id: int, ok: bool) returns (room: Option<int>)
      requires id !in rooms
      modifies this
      ensures rooms == Created(old(rooms), a, b, id, ok)
      ensures room == if ok && a != b then Some(id) else None
    {
      if ok && a != b {
        rooms := rooms[id := Room(true, {a, b})];
        room := Some(id);
      } else {
        room := None;
      }
    }

    /**
     For distinct users the returned room is the pair's own, and the only one if there was at most one before;
     existing rooms are untouched.
     `id` is the fresh room id, `ok` the outcome of the transaction.
     */
    method FindOrCreateRoom(a: string, b: string, id: int, ok: bool) returns (room: Option<int>)
      requires id !in rooms
      modifies this
      ensures OnePerPair(old(rooms)) ==> OnePerPair(rooms)
      ensures room.None? <==> !Exists(old(rooms), a, b) && !(ok && a != b)
      ensures room.Some? ==>
                && room.value in rooms && rooms[room.value].isPrivate && |rooms[room.value].members| == 2
                && a in rooms[room.value].members && b in rooms[room.value].members
      ensures room.Some? && a != b ==>
                && Found(rooms, a, b, room.value) && rooms[room.value].members == {a, b}
                && (OnePerPair(old(rooms)) ==> forall other :: Found(rooms, b, a, other) ==> other == room.value)
      ensures forall r :: r in old(rooms) ==> r in rooms && rooms[r] == old(rooms)[r]
      ensures rooms == old(rooms) || (room == Some(id) && rooms == Created(old(rooms), a, b, id, ok))
    {
      room := FindPrivateRoom(a, b);
      if room.None? {
        if OnePerPair(rooms) {
          CreateKeepsOne(rooms, a, b, id, ok);
        }
        room := CreatePrivateRoom(a, b, id, ok);
      }
      if room.Some? && a != b {
        PairIsMembers(rooms, a, b, room.value);
        forall other | OnePerPair(rooms) && Found(rooms, b, a, other)
          ensures other == room.value
        {
          assert Found(rooms, a, b, other);
        }
      }
    }
  }

  // ---------- Runs ----------

  /** Atomic calls for distinct or equal users, and rooms made by others that are not two-member private rooms. */
  datatype Step =
    | Call(a: string, b: string, id: int, ok: bool)
    | Other(id: int, room: Room)

  predicate Enabled(rooms: Rooms, e: Step) {
    e.id !in rooms && (e.Other? ==> !(e.room.isPrivate && |e.room.members| == 2))
  }

  ghost function Apply(rooms: Rooms, e: Step): Rooms {
    match e
    case Call(a, b, id, ok) => if Exists(rooms, a, b) then rooms else Created(rooms, a, b, id, ok)
    case Other(id, room) => rooms[id := room]
  }

  ghost predicate Runs(rooms: Rooms, es: seq<Step>)
    decreases |es|
  {
    es == [] || (Enabled(rooms, es[0]) && Runs(Apply(rooms, es[0]), es[1..]))
  }

  ghost function Final(rooms: Rooms, es: seq<Step>): Rooms
    decreases |es|
  {
    if es == [] then rooms else Final(Apply(rooms, es[0]), es[1..])
  }

  lemma StepKeepsOne(rooms: Rooms, e: Step)
    requires OnePerPair(rooms) && Enabled(rooms, e)
    ensures OnePerPair(Apply(rooms, e))
    ensures forall a, b, id :: Found(rooms, a, b, id) ==> Found(Apply(rooms, e), a, b, id)
  {
    match e
    case Call(a, b, id, ok) =>
      if !Exists(rooms, a, b) {
        CreateKeepsOne(rooms, a, b, id, ok);
      }
    case Other(id, room) =>
      var after := rooms[id := room];
      forall c, d, i | Found(after, c, d, i)
        ensures Found(rooms, c, d, i)
      {
      }
      forall c, d, i, j | c != d && Found(after, c, d, i) && Found(after, c, d, j)
        ensures i == j
      {
        assert Found(rooms, c, d, i) && Found(rooms, c, d, j);
      }
  }

  /**
   Over every run of atomic calls there is at most one two-member private room per unordered pair, and a room once
   found for a pair is the one any later call finds, in either order of the users.
   */
  lemma {:induction false} OneRoomPerPair(rooms: Rooms, es: seq<Step>, a: string, b: string, id: int, later: int)
    requires OnePerPair(rooms) && Runs(rooms, es) && a != b
    requires Found(rooms, a, b, id) && Found(Final(rooms, es), b, a, later)
    ensures OnePerPair(Final(rooms, es)) && later == id
    decreases |es|
  {
    if es == [] {
      assert Found(rooms, a, b, later);
    } else {
      StepKeepsOne(rooms, es[0]);
      OneRoomPerPair(Apply(rooms, es[0]), es[1..], a, b, id, later);
    }
  }

  lemma {:induction false} RunsKeepOne(rooms: Rooms, es: seq<Step>)
    requires OnePerPair(rooms) && Runs(rooms, es)
    ensures OnePerPair(Final(rooms, es))
    decreases |es|
  {
    if es != [] {
      StepKeepsOne(rooms, es[0]);
      RunsKeepOne(Apply(rooms, es[0]), es[1..]);
    }
  }

  // ---------- Interleaved calls ----------

  /** The two halves of a call as steps of their own: the query, and the commit of a caller whose query found nothing. */
  datatype HalfStep =
    | Find(caller: int, a: string, b: string)
    | Commit(caller: int, id: int, ok: bool)
    | Foreign(id: int, room: Room)

  datatype Racing = Racing(rooms: Rooms, creating: map<int, (string, string)>)

  predicate HalfEnabled(s: Racing, e: HalfStep) {
    match e
    case Find(k, _, _) => k !in s.creating
    case Commit(k, id, _) => k in s.creating && id !in s.rooms
    case Foreign(id, room) => id !in s.rooms && !(room.isPrivate && |room.members| == 2)
  }

  ghost function HalfApply(s: Racing, e: HalfStep): Racing
    requires HalfEnabled(s, e)
  {
    match e
    case Find(k, a, b) => if Exists(s.rooms, a, b) then s else s.(creating := s.creating[k := (a, b)])
    case Commit(k, id, ok) =>
      s.(rooms := Created(s.rooms, s.creating[k].0, s.creating[k].1, id, ok), creating := s.creating - {k})
    case Foreign(id, room) => s.(rooms := s.rooms[id := room])
  }

  ghost predicate RaceRuns(s: Racing, es: seq<HalfStep>)
    decreases |es|
  {
    es == [] || (HalfEnabled(s, es[0]) && RaceRuns(HalfApply(s, es[0]), es[1..]))
  }

  ghost function RaceFinal(s: Racing, es: seq<HalfStep>): Racing
    requires RaceRuns(s, es)
    decreases |es|
  {
    if es == [] then s else RaceFinal(HalfApply(s, es[0]), es[1..])
  }

  /** A commit that succeeds though a room for its pair has appeared since its query. */
  predicate Late(s: Racing, e: HalfStep) {
    && e.Commit? && e.ok && e.caller in s.creating
    && var (a, b) := s.creating[e.caller]; a != b && Exists(s.rooms, a, b)
  }

  ghost predicate NoneLate(s: Racing, es: seq<HalfStep>)
    requires RaceRuns(s, es)
    decreases |es|
  {
    es != [] ==> !Late(s, es[0]) && NoneLate(HalfApply(s, es[0]), es[1..])
  }

  /** A creation keeps pairs apart exactly when it does not succeed for a pair that has its room already. */
  lemma CreateKeepsOneExactly(rooms: Rooms, a: string, b: string, id: int, ok: bool)
    requires OnePerPair(rooms) && id !in rooms
    ensures OnePerPair(Created(rooms, a, b, id, ok)) <==> !(ok && a != b && Exists(rooms, a, b))
  {
    if !Exists(rooms, a, b) {
      CreateKeepsOne(rooms, a, b, id, ok);
    } else if ok && a != b {
      var other :| other in rooms && Found(rooms, a, b, other);
      NewRoomFound(rooms, a, b, id);
      assert Found(Created(rooms, a, b, id, ok), a, b, other);
    }
  }

  lemma NewRoomFound(rooms: Rooms, a: string, b: string, id: int)
    requires a != b
    ensures Found(Created(rooms, a, b, id, true), a, b, id)
  {
    assert |{a, b}| == 2;
  }

  /** Rooms are never taken back, so two rooms of a pair stay two. */
  lemma DuplicatesStay(rooms: Rooms, after: Rooms)
    requires !OnePerPair(rooms) && forall id :: id in rooms ==> id in after && after[id] == rooms[id]
    ensures !OnePerPair(after)
  {
    var a, b, i, j :| a != b && Found(rooms, a, b, i) && Found(rooms, a, b, j) && i != j;
    assert Found(after, a, b, i) && Found(after, a, b, j);
  }

  lemma HalfStepExactly(s: Racing, e: HalfStep)
    requires HalfEnabled(s, e)
    ensures OnePerPair(HalfApply(s, e).rooms) <==> OnePerPair(s.rooms) && !Late(s, e)
  {
    if !OnePerPair(s.rooms) {
      DuplicatesStay(s.rooms, HalfApply(s, e).rooms);
    } else {
      match e
      case Find(_, _, _) =>
      case Commit(k, id, ok) => CreateKeepsOneExactly(s.rooms, s.creating[k].0, s.creating[k].1, id, ok);
      case Foreign(id, room) => StepKeepsOne(s.rooms, Other(id, room));
    }
  }

  /**
   However queries and creations of any number of callers interleave, there is at most one two-member private room per
   pair at the end exactly when there was at the start and no commit of the run was late.
   */
  lemma {:induction false} RacesKeepOneExactly(s: Racing, es: seq<HalfStep>)
    requires RaceRuns(s, es)
    ensures OnePerPair(RaceFinal(s, es).rooms) <==> OnePerPair(s.rooms) && NoneLate(s, es)
    decreases |es|
  {
    hide HalfApply, HalfEnabled, OnePerPair, Late;
    if es != [] {
      HalfStepExactly(s, es[0]);
      RacesKeepOneExactly(HalfApply(s, es[0]), es[1..]);
    }
  }

  // ---------- Where it stops holding ----------

  /** The room found is the pair's own exactly when the two users differ. */
  lemma FoundIsPairExactly(rooms: Rooms, a: string, b: string, id: int)
    requires Found(rooms, a, b, id)
    ensures rooms[id].members == {a, b} <==> a != b
  {
    if a != b {
      PairIsMembers(rooms, a, b, id);
    } else {
      assert {a, b} == {a};
    }
  }

  /** Called with one user twice, the query answers with any pair room of that user: somebody else is in it. */
  lemma SelfCallFindsForeignRoom(rooms: Rooms, a: string, id: int)
    requires Found(rooms, a, a, id)
    ensures rooms[id].members != {a} && exists b :: b != a && Found(rooms, a, b, id)
  {
    var rest := rooms[id].members - {a};
    assert |rest| == 1;
    var b := Member(rest);
    assert b != a && Found(rooms, a, b, id);
  }

  /**
   Without atomicity: two callers who both find no room for the pair, in either order, and then both create one
   leave two, and no constraint of the schema stops the second.
   */
  lemma RacingCallsDuplicate(rooms: Rooms, a: string, b: string, first: int, second: int)
    requires a != b && !Exists(rooms, a, b) && first != second && first !in rooms && second !in rooms
    ensures var both := Created(Created(rooms, a, b, first, true), b, a, second, true);
            Found(both, a, b, first) && Found(both, a, b, second) && !OnePerPair(both)
  {
    var both := Created(Created(rooms, a, b, first, true), b, a, second, true);
    assert |{a, b}| == 2 && {b, a} == {a, b};
    assert Found(both, a, b, first);
    assert Found(both, a, b, second);
    assert !(a != b && Found(both, a, b, first) && Found(both, a, b, second) ==> first == second);
  }
}
