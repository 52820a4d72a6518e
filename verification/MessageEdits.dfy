/**
 Optimistic editing of one stored message: an editor reads it, prepares the edit, and writes under a filter
 on `updated_at`. Clock readings are as stored, in whole milliseconds.
 */
module MessageEdits {
  import opened Common

  datatype Entry = Entry(original: string, updated: string, editedBy: string, at: int)

  datatype Message = Message(
    roomID: string,
    senderID: string,
    content: string,
    isEdited: bool,
    createdAt: int,
    updatedAt: Option<int>,
    history: seq<Entry>)

  datatype Member = Member(userID: string, left: bool)

  datatype Room = Room(deleted: bool, members: seq<Member>)

  // ---------- The service's half: checks and the edit to write ----------

  datatype Refusal = NotYours | WrongRoom | WindowExpired | RoomGone | NotMember | SameContent

  /** A missing room makes the service dereference a nil room in a log line before it looks at the error. */
  datatype Plan = Refused(reason: Refusal) | Panics | Write(content: string, editedBy: string)

  const EDIT_WINDOW := 15 * 60 * 1000

  /** `isUserMemberOfRoom`: the first row of the user decides. */
  predicate IsMember(members: seq<Member>, userID: string) {
    if members == [] then false
    else if members[0].userID == userID then !members[0].left
    else IsMember(members[1..], userID)
  }

  function PlanEdit(trim: string -> string, read: Message, content: string, userID: string, roomID: string,
                    room: Option<Room>, now: int): Plan {
    if read.senderID != userID then Refused(NotYours)
    else if read.roomID != roomID then Refused(WrongRoom)
    else if now - read.createdAt > EDIT_WINDOW then Refused(WindowExpired)
    else if room.None? then Panics
    else if room.value.deleted then Refused(RoomGone)
    else if !IsMember(room.value.members, userID) then Refused(NotMember)
    else if trim(content) == trim(read.content) then Refused(SameContent)
    else Write(content, read.senderID)
  }

  /** The user has a row in the room, and the first such row is not marked as left. */
  ghost predicate Present(members: seq<Member>, userID: string) {
    exists i :: 0 <= i < |members| && members[i].userID == userID && !members[i].left
                && forall k :: 0 <= k < i ==> members[k].userID != userID
  }

  lemma {:induction false} MemberExactly(members: seq<Member>, userID: string)
    ensures IsMember(members, userID) <==> Present(members, userID)
  {
    if members != [] {
      var rest := members[1..];
      MemberExactly(rest, userID);
      if members[0].userID == userID {
        if !members[0].left {
          assert Present(members, userID);
        }
      } else {
        if i :| 0 <= i < |rest| && rest[i].userID == userID && !rest[i].left
                && forall k :: 0 <= k < i ==> rest[k].userID != userID {
          assert members[i + 1] == rest[i];
          assert forall k :: 0 < k < i + 1 ==> members[k] == rest[k - 1];
        }
        if i :| 0 <= i < |members| && members[i].userID == userID && !members[i].left
                && forall k :: 0 <= k < i ==> members[k].userID != userID {
          assert rest[i - 1] == members[i];
          assert forall k :: 0 <= k < i - 1 ==> rest[k] == members[k + 1];
        }
      }
    }
  }

  /**
   Who may edit what and until when: an edit is written iff the user sent the message to this room at most 15 minutes ago, the
   room exists and is not deleted, the user has not left it, and the trimmed contents differ. A refusal names the first of these
   that failed.
   */
  lemma PlanExactly(trim: string -> string, read: Message, content: string, userID: string, roomID: string,
                    room: Option<Room>, now: int)
    ensures var plan := PlanEdit(trim, read, content, userID, roomID, room, now);
            var mine := read.senderID == userID;
            var here := mine && read.roomID == roomID;
            var inTime := here && now - read.createdAt <= 900_000;
            var found := inTime && room.Some?;
            var open := found && !room.value.deleted;
            var member := open && Present(room.value.members, userID);
            var differs := trim(content) != trim(read.content);
            && (plan == Write(content, userID) <==> member && differs)
            && (plan.Write? <==> member && differs)
            && (plan == Refused(NotYours) <==> !mine)
            && (plan == Refused(WrongRoom) <==> mine && !here)
            && (plan == Refused(WindowExpired) <==> here && !inTime)
            && (plan == Panics <==> inTime && !found)
            && (plan == Refused(RoomGone) <==> found && !open)
            && (plan == Refused(NotMember) <==> open && !member)
            && (plan == Refused(SameContent) <==> member && !differs)
  {
    if room.Some? {
      MemberExactly(room.value.members, userID);
    }
  }

  // ---------- The repository's half: the conditional write ----------

  /** `$lte` never matches a null field; a null original timestamp puts no condition at all. */
  predicate Matches(stored: Message, original: Option<int>) {
    original.Some? ==> stored.updatedAt.Some? && stored.updatedAt.value <= original.value
  }

  /** The written history is the new entry alone: the message passed in carries no earlier history. */
  function Written(stored: Message, content: string, stamp: int, entry: Entry): Message {
    stored.(content := content, isEdited := true, updatedAt := Some(stamp), history := [entry])
  }

  // ---------- Interleaved editors ----------

  /** An editor between its read and its write. */
  datatype Flight = Flight(read: Message, content: string)

  /** A write that went through: what its editor had read, what it replaced, what it put. */
  datatype Commit = Commit(read: string, replaced: string, put: string)

  datatype Editing = Editing(stored: Message, flights: map<int, Flight>, log: seq<Commit>)

  datatype Step =
    | Read(editor: int, content: string)
    | Save(editor: int, stamp: int)

  predicate Enabled(s: Editing, e: Step) {
    match e
    case Read(k, content) => k !in s.flights && content != s.stored.content
    case Save(k, _) => k in s.flights
  }

  function Apply(s: Editing, e: Step): Editing
    requires Enabled(s, e)
  {
    match e
    case Read(k, content) => s.(flights := s.flights[k := Flight(s.stored, content)])
    case Save(k, stamp) =>
      var f := s.flights[k];
      var landed := s.(flights := s.flights - {k});
      if Matches(s.stored, f.read.updatedAt) then
        landed.(
          stored := Written(s.stored, f.content, stamp, Entry(f.read.content, f.content, f.read.senderID, stamp)),
          log := s.log + [Commit(f.read.content, s.stored.content, f.content)])
      else landed
  }

  // ---------- The store as an object ----------

  class MessageStore {
    var message: Message
    /** Editors between their read and their write, and the writes that went through. */
    ghost var flights: map<int, Flight>
    ghost var log: seq<Commit>

    ghost function View(): Editing
      reads this
    {
      Editing(message, flights, log)
    }

    constructor (message: Message)
      ensures View() == Editing(message, map[], [])
    {
      this.message, flights, log := message, map[], [];
    }

    method UpdateMessage(content: string, stamp: int, entry: Entry, original: Option<int>) returns (matched: bool)
      modifies this`message
      ensures matched <==> Matches(old(message), original)
      ensures message == if matched then Written(old(message), content, stamp, entry) else old(message)
      ensures matched <==> original.None? || (old(message).updatedAt.Some? && old(message).updatedAt.value <= original.value)
      ensures matched ==>
                && message.content == content && message.isEdited && message.updatedAt == Some(stamp)
                && message.history == [entry]
                && message.roomID == old(message).roomID && message.senderID == old(message).senderID
                && message.createdAt == old(message).createdAt
    {
      matched := original.None? || (message.updatedAt.Some? && message.updatedAt.value <= original.value);
      if matched {
        message := Written(message, content, stamp, entry);
      }
    }

    /** The service up to its write: read, check, and compute. */
    method BeginEdit(ghost editor: int, trim: string -> string, content: string, userID: string, roomID: string,
                     room: Option<Room>, now: int) returns (read: Message, plan: Plan)
      requires editor !in flights
      modifies this`flights
      ensures read == message && plan == PlanEdit(trim, message, content, userID, roomID, room, now)
      ensures plan.Write? ==>
                var e := Read(editor, content); Enabled(old(View()), e) && View() == Apply(old(View()), e)
      ensures !plan.Write? ==> View() == old(View())
    {
      read := message;
      plan := PlanEdit(trim, read, content, userID, roomID, room, now);
      if plan.Write? {
        flights := flights[editor := Flight(read, content)];
      }
    }

    /** The service from its write on, whatever other editors have written since its read. */
    method FinishEdit(ghost editor: int, read: Message, content: string, stamp: int)
      returns (matched: bool, shown: seq<Entry>)
      requires editor in flights && flights[editor] == Flight(read, content)
      modifies this
      ensures View() == Apply(old(View()), Save(editor, stamp)) && flights == old(flights) - {editor}
      ensures matched <==> Matches(old(message), read.updatedAt)
      ensures shown == if !matched then [] else if read.history == [] then message.history else read.history
    {
      var entry := Entry(read.content, content, read.senderID, stamp);
      ghost var replaced := message.content;
      matched := UpdateMessage(content, stamp, entry, read.updatedAt);
      flights := flights - {editor};
      shown := [];
      if matched {
        log := log + [Commit(read.content, replaced, content)];
        shown := if read.history == [] then [entry] else read.history;
      }
    }

    /**
     One edit with nobody in between: it goes through exactly when the checks pass, and the stored entry
     describes the change of content it made.
     */
    method UpdatePrivateMessage(ghost editor: int, trim: string -> string, content: string, userID: string,
                                roomID: string, room: Option<Room>, now: int, stamp: int)
      returns (plan: Plan, shown: seq<Entry>)
      requires editor !in flights
      modifies this
      ensures plan == PlanEdit(trim, old(message), content, userID, roomID, room, now)
      ensures flights == old(flights) && (!plan.Write? ==> message == old(message))
      ensures plan.Write? ==>
                && message.content == content && message.updatedAt == Some(stamp) && message.isEdited
                && message.roomID == old(message).roomID && message.senderID == old(message).senderID
                && message.createdAt == old(message).createdAt
                && message.history == [Entry(old(message).content, content, userID, stamp)]
                && content != old(message).content
                && (message.history[0] in shown <== old(message).history == [])
                && (old(message).history != [] ==> shown == old(message).history)
    {
      var read;
      shown := [];
      read, plan := BeginEdit(editor, trim, content, userID, roomID, room, now);
      if plan.Write? {
        var matched;
        matched, shown := FinishEdit(editor, read, content, stamp);
      }
    }
  }

  // ---------- Runs ----------

  ghost predicate Runs(s: Editing, es: seq<Step>)
    decreases |es|
  {
    es == [] || (Enabled(s, es[0]) && Runs(Apply(s, es[0]), es[1..]))
  }

  ghost function Final(s: Editing, es: seq<Step>): Editing
    requires Runs(s, es)
    decreases |es|
  {
    if es == [] then s else Final(Apply(s, es[0]), es[1..])
  }

  /** The clock reading stored by a write is later than the stamp its editor read, and that was not null. */
  predicate WellTimed(s: Editing, e: Step) {
    e.Save? && e.editor in s.flights ==>
      var read := s.flights[e.editor].read.updatedAt; read.Some? && read.value < e.stamp
  }

  ghost predicate TimedRun(s: Editing, es: seq<Step>)
    requires Runs(s, es)
    decreases |es|
  {
    es != [] ==> WellTimed(s, es[0]) && TimedRun(Apply(s, es[0]), es[1..])
  }

  /** Commits since `start` form one chain of transitions, each computed from what it replaced. */
  predicate Chain(start: string, log: seq<Commit>, end: string) {
    && (log == [] ==> start == end)
    && (log != [] ==> log[0].replaced == start && log[|log| - 1].put == end)
    && (forall i :: 0 <= i < |log| ==> log[i].read == log[i].replaced)
    && (forall i :: 1 <= i < |log| ==> log[i - 1].put == log[i].replaced)
  }

  /** The stored entry describes the last transition. */
  predicate LastEntry(s: Editing) {
    s.log != [] ==>
      var last := s.log[|s.log| - 1];
      |s.stored.history| == 1 && s.stored.history[0].original == last.replaced && s.stored.history[0].updated == last.put
  }

  ghost predicate SerialSoFar(s: Editing, start: string) {
    && s.stored.updatedAt.Some?
    && (forall k :: k in s.flights ==>
          var read := s.flights[k].read;
          && read.updatedAt.Some? && read.updatedAt.value <= s.stored.updatedAt.value
          && (read.updatedAt == s.stored.updatedAt ==> read.content == s.stored.content))
    && Chain(start, s.log, s.stored.content)
    && LastEntry(s)
  }

  lemma SerialStep(s: Editing, e: Step, start: string)
    requires SerialSoFar(s, start) && Enabled(s, e) && WellTimed(s, e)
    ensures SerialSoFar(Apply(s, e), start)
  {
  }

  /**
   Once `updated_at` is set, in every interleaving of any number of editors whose clock readings advance past what
   they read, each committed edit was computed from exactly the content it replaced, the commits form a chain, and
   the stored history describes the last one.
   */
  lemma {:induction false} EditsAreSerial(s: Editing, es: seq<Step>, start: string)
    requires SerialSoFar(s, start) && Runs(s, es) && TimedRun(s, es)
    ensures SerialSoFar(Final(s, es), start)
    decreases |es|
  {
    if es != [] {
      SerialStep(s, es[0], start);
      EditsAreSerial(Apply(s, es[0]), es[1..], start);
    }
  }

  /** The same from a message edited at least once and no editor under way. */
  lemma EveryInterleavingIsSerial(message: Message, es: seq<Step>)
    requires message.updatedAt.Some?
    requires Runs(Editing(message, map[], []), es) && TimedRun(Editing(message, map[], []), es)
    ensures var t := Final(Editing(message, map[], []), es);
            Chain(message.content, t.log, t.stored.content) && LastEntry(t)
  {
    EditsAreSerial(Editing(message, map[], []), es, message.content);
  }

  /**
   Two editors who read the same message: after the first writes, the second overwrites it unseen exactly when
   they read a message never edited before, or the first's clock reading was not later than the stamp both read.
   */
  lemma LostUpdateExactly(s: Editing, a: int, b: int, stampA: int, stampB: int)
    requires a != b && a in s.flights && b in s.flights
    requires s.flights[a].read == s.stored && s.flights[b].read == s.stored && s.flights[a].content != s.stored.content
    ensures var first := Apply(s, Save(a, stampA));
            var read := s.stored.updatedAt;
            var overwrites := read.None? || stampA <= read.value;
            && Enabled(first, Save(b, stampB))
            && first.log == s.log + [Commit(s.stored.content, s.stored.content, s.flights[a].content)]
            && (|Apply(first, Save(b, stampB)).log| > |first.log| <==> overwrites)
            && (overwrites ==>
                  var lost := Apply(first, Save(b, stampB)).log[|first.log|]; lost.read != lost.replaced)
  {
  }
}
