/** The board API: creating a board for its owner and adding participants to it. A board
    instance keeps its participant list and its owner in fields that the operations update
    in place before the document is saved. Users are represented by their ids. */
module BoardsApi {
  import opened Entities

  const CreateFailed := "Could not create board"
  const OwnerRefused := "Can not add the owner as a participant"
  const AlreadyParticipating := "The user is already participating in this board"
  const AddFailed := "Could not add participant to the board"

  /** How a call settles: resolved with the board, or rejected with a message. */
  datatype Settled = Saved | Rejected(message: string)

  predicate Distinct(s: seq<Id>)
  {
    forall i, j :: 0 <= i < j < |s| ==> s[i] != s[j]
  }

  /** The participant list after it has been made an array: a value that is not an array
      (None) becomes the empty list. */
  function Initialized(participants: Option<seq<Id>>): (list: seq<Id>)
    ensures participants.Some? ==> list == participants.value
    ensures participants.None? ==> list == []
  {
    if participants.Some? then participants.value else []
  }

  /** What `addParticipant` settles with and the participant list it leaves on the board
      instance. `saved` is whether saving the document succeeds. */
  function AddEffect(participants: Option<seq<Id>>, ownerId: Option<Id>, user: Id, saved: bool): (e: (Settled, seq<Id>))
    ensures ownerId == Some(user) ==> e == (Rejected(OwnerRefused), Initialized(participants))
    ensures ownerId != Some(user) && user in Initialized(participants) ==>
      e == (Rejected(AlreadyParticipating), Initialized(participants))
    ensures ownerId != Some(user) && user !in Initialized(participants) ==>
      e.1 == Initialized(participants) + [user]
    ensures e.0 == Saved <==> ownerId != Some(user) && user !in Initialized(participants) && saved
  {
    var list := Initialized(participants);
    if ownerId == Some(user) then (Rejected(OwnerRefused), list)
    else if user in list then (Rejected(AlreadyParticipating), list)
    else (if saved then Saved else Rejected(AddFailed), list + [user])
  }

  /** The board's participants are each listed once and do not include the owner. */
  predicate WellListed(list: seq<Id>, ownerId: Option<Id>)
  {
    Distinct(list) && (ownerId.Some? ==> ownerId.value !in list)
  }

  /** A board document as the API sees it. */
  class Board {
    /** The participant list; None when the field does not hold an array. */
    var participants: Option<seq<Id>>
    /** The owner relation set by `create`. */
    var owner: Option<Id>
    /** The owner's key, which saving the owner relation stores. */
    var ownerId: Option<Id>

    /** `new models.Board(boardData)`: no participants list and no owner yet. */
    constructor ()
      ensures participants == None && owner == None && ownerId == None
    {
      participants := None;
      owner := None;
      ownerId := None;
    }

    /** The body of `addParticipant` once the board and the user have been looked up:
        the list is made an array, the two checks run, and the user is pushed before the
        document is saved (a failed save leaves the pushed user in the instance). */
    method AddParticipant(user: Id, saved: bool) returns (r: Settled)
      modifies this`participants
      ensures participants.Some? && (r, participants.value) == AddEffect(old(participants), ownerId, user, saved)
    {
      if participants.None? {
        participants := Some([]);
      }
      if ownerId == Some(user) {
        return Rejected(OwnerRefused);
      }
      if user in participants.value {
        return Rejected(AlreadyParticipating);
      }
      participants := Some(participants.value + [user]);
      if saved {
        r := Saved;
      } else {
        r := Rejected(AddFailed);
      }
    }
  }

  /** `create(user, boardData)` once the user has been looked up: a new board whose owner
      is `user`; `saved` is whether saving the board with its relations succeeds. */
  method Create(user: Id, saved: bool) returns (r: Settled, board: Board)
    ensures fresh(board)
    ensures board.owner == Some(user) && board.participants == None
    ensures board.ownerId == (if saved then Some(user) else None)
    ensures r == (if saved then Saved else Rejected(CreateFailed))
  {
    board := new Board();
    board.owner := Some(user);
    if saved {
      board.ownerId := Some(user);
      r := Saved;
    } else {
      r := Rejected(CreateFailed);
    }
  }

  /** An add keeps the participants each listed once and the owner out of the list; a
      rejected check leaves the list as it was. */
  lemma AddKeepsListing(participants: Option<seq<Id>>, ownerId: Option<Id>, user: Id, saved: bool)
    requires WellListed(Initialized(participants), ownerId)
    ensures var (r, list) := AddEffect(participants, ownerId, user, saved);
      && WellListed(list, ownerId)
      && (ownerId != Some(user) ==> user in list)
      && (r == Rejected(OwnerRefused) || r == Rejected(AlreadyParticipating) ==> list == Initialized(participants))
      && (forall u :: u in Initialized(participants) ==> u in list)
  {
    var old_ := Initialized(participants);
    var (r, list) := AddEffect(participants, ownerId, user, saved);
    if ownerId != Some(user) && user !in old_ {
      assert list == old_ + [user];
      forall i, j | 0 <= i < j < |list|
        ensures list[i] != list[j]
      {
        if j == |old_| {
          assert list[i] == old_[i];
        } else {
          assert list[i] == old_[i] && list[j] == old_[j];
        }
      }
    }
  }

  /** The owner of a board created successfully cannot be added to it. */
  lemma OwnerNeverParticipates(participants: Option<seq<Id>>, owner: Id, saved: bool)
    ensures AddEffect(participants, Some(owner), owner, saved).0 == Rejected(OwnerRefused)
  {
  }

  /** The same user cannot be added twice, whether or not the first save succeeded. */
  lemma AddTwiceRefused(participants: Option<seq<Id>>, ownerId: Option<Id>, user: Id, saved: bool, again: bool)
    requires ownerId != Some(user)
    ensures var list := AddEffect(participants, ownerId, user, saved).1;
      AddEffect(Some(list), ownerId, user, again).0 == Rejected(AlreadyParticipating)
  {
  }

  /** Three distinct users other than the owner, added to a board without a list, give
      a list of length 3 in the order they were added. */
  lemma ThreeAdds(ownerId: Option<Id>, a: Id, b: Id, c: Id)
    requires a != b && b != c && a != c
    requires ownerId !in {Some(a), Some(b), Some(c)}
    ensures var (r1, l1) := AddEffect(None, ownerId, a, true);
      var (r2, l2) := AddEffect(Some(l1), ownerId, b, true);
      var (r3, l3) := AddEffect(Some(l2), ownerId, c, true);
      && r1 == Saved && r2 == Saved && r3 == Saved
      && l3 == [a, b, c] && |l3| == 3
  {
  }

  /** On a freshly created board the first add of another user succeeds when saved; adding
      the owner afterwards is refused and leaves the participants as they were. */
  method CreateThenAdd(owner: Id, user: Id) returns (r: Settled, again: Settled, board: Board)
    requires owner != user
    ensures fresh(board)
    ensures r == Saved && again == Rejected(OwnerRefused) && board.participants == Some([user])
  {
    var created: Settled;
    created, board := Create(owner, true);
    r := board.AddParticipant(user, true);
    assert [] + [user] == [user];
    again := board.AddParticipant(owner, true);
  }
}
