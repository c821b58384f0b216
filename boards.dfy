/** The board routes: list a project's boards, create a board (at a given
    position or after the last one), and the owner-only delete. */
module Boards {
  import opened Wrappers
  import opened Store
  import Rows

  function BoardOfProject(pid: Id): Board -> bool
  {
    (b: Board) => b.project == pid
  }

  function BoardPosition(b: Board): int
  {
    b.position
  }

  /** `GET /boards/project/:projectId`: the project's boards by position. */
  method ListBoards(db: Database, userId: Id, projectId: Id) returns (r: Result<seq<(Id, Board)>, Failure>)
    ensures !db.IsParty(projectId, userId) ==> r == Failure(ProjectForbidden)
    ensures db.IsParty(projectId, userId) ==>
      r.Success? && Rows.IsListing(r.value, db.boards, BoardOfProject(projectId), BoardPosition)
  {
    if !db.IsParty(projectId, userId) {
      return Failure(ProjectForbidden);
    }
    return Success(Rows.Listing(db.boards, BoardOfProject(projectId), BoardPosition));
  }

  /** `createBoardSchema` after parsing. */
  datatype CreateBoardInput = CreateBoardInput(name: string, projectId: Id, position: Option<nat>)

  /** The positions already taken in a project. */
  function BoardPositionsIn(bs: map<Id, Board>, pid: Id): set<nat>
  {
    set k | k in bs && bs[k].project == pid :: bs[k].position
  }

  /** `POST /boards`: the schema first, then project access. A supplied
      position is used as given, even when another board already has it;
      otherwise the board goes one past the project's last position. */
  method CreateBoard(db: Database, userId: Id, input: CreateBoardInput) returns (r: Result<Id, Failure>)
    requires db.Valid()
    modifies db`boards, db`nextId
    ensures db.Valid()
    ensures |input.name| == 0 ==> r == Failure(Invalid)
    ensures |input.name| > 0 && !old(db.IsParty(input.projectId, userId)) ==> r == Failure(ProjectForbidden)
    ensures r.Success? <==> |input.name| > 0 && old(db.IsParty(input.projectId, userId))
    ensures r.Success? ==>
      r.value == old(db.nextId) && r.value !in old(db.boards) && db.nextId == old(db.nextId) + 1 &&
      db.boards == old(db.boards)[r.value := Board(input.projectId, input.name,
        if input.position.Some? then input.position.value else Rows.NextAfter(BoardPositionsIn(old(db.boards), input.projectId)))]
    ensures r.Failure? ==> db.boards == old(db.boards) && db.nextId == old(db.nextId)
  {
    if |input.name| == 0 {
      return Failure(Invalid);
    }
    if !db.IsParty(input.projectId, userId) {
      return Failure(ProjectForbidden);
    }
    var boardPosition := input.position.GetOr(0);
    if input.position.None? {
      boardPosition := Rows.NextAfter(BoardPositionsIn(db.boards, input.projectId));
    }
    var id := db.nextId;
    db.boards := db.boards[id := Board(input.projectId, input.name, boardPosition)];
    db.nextId := id + 1;
    return Success(id);
  }

  /** Without a given position the new board lies strictly after every board
      of its project. */
  lemma CreatedBoardGoesLast(bs: map<Id, Board>, pid: Id, k: Id)
    requires k in bs && bs[k].project == pid
    ensures bs[k].position < Rows.NextAfter(BoardPositionsIn(bs, pid))
  {
    assert bs[k].position in BoardPositionsIn(bs, pid);
  }

  const DeleteForbidden := Http(403, "Not authorized to delete this board")

  /** `DELETE /boards/:id`: one conditional delete that matches only when the
      caller owns the board's project; a missing board is the same 403. */
  method DeleteBoard(db: Database, userId: Id, boardId: Id) returns (r: Result<string, Failure>)
    requires db.Valid()
    modifies db`boards
    ensures db.Valid()
    ensures old(boardId in db.boards && db.IsOwnerOf(db.boards[boardId].project, userId)) ==>
      r == Success("Board deleted successfully") && db.boards == old(db.boards) - {boardId}
    ensures !old(boardId in db.boards && db.IsOwnerOf(db.boards[boardId].project, userId)) ==>
      r == Failure(DeleteForbidden) && db.boards == old(db.boards)
  {
    if boardId !in db.boards || !db.IsOwnerOf(db.boards[boardId].project, userId) {
      return Failure(DeleteForbidden);
    }
    db.boards := db.boards - {boardId};
    return Success("Board deleted successfully");
  }

  /** Members, admins included, can never delete a board: a membership row
      never belongs to the project's owner. */
  lemma MembersCannotDeleteBoards(db: Database, boardId: Id, k: Id)
    requires db.Valid() && boardId in db.boards && k in db.members
    requires db.members[k].project == db.boards[boardId].project
    ensures !db.IsOwnerOf(db.boards[boardId].project, db.members[k].user)
  {
  }
}
