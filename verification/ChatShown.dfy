/**
 What a person reads: the feed that has caught up shows of every message what is stored of it, as
 far as it is meant for the person, and a message as it was written.
 */
module ChatShown {
  import opened Basics
  import opened ChatTables
  import opened ChatHistory
  import opened ChatRows
  import opened ChatFeed
  import opened ChatProtocol
  import opened ChatTheorems
  import opened ChatDisplay

  /**
   Who sees the text of a message: everybody while it stands, administrators once it is withdrawn,
   nobody once deleted.
   */
  function TextFor(row: Row, admin: bool): Option<string> {
    if row.deletedAt.Some? then None
    else if row.withdrawnAt.Some? then (if admin then row.body else None)
    else row.body
  }

  /** What is shown of a row, field by field. */
  ghost predicate ShowsRow(dto: Dto, id: int, row: Row, admin: bool) {
    && dto.id == id && dto.authorTag == row.authorTag && dto.role == row.authorRole && dto.sourceIP == row.sourceIP
    && dto.createdAt == row.createdAt && dto.withdrawnAt == row.withdrawnAt && dto.deletedAt == row.deletedAt
    && (dto.status == Deleted <==> row.deletedAt.Some?)
    && (dto.status == Withdrawn <==> row.deletedAt.None? && row.withdrawnAt.Some?)
    && (dto.status == Active <==> row.deletedAt.None? && row.withdrawnAt.None?)
    && dto.body == TextFor(row, admin)
  }

  /** The server's projection shows the row. */
  lemma ProjectionShows(id: int, row: Row, admin: bool)
    ensures ShowsRow(Project(id, row, admin), id, row, admin)
  {
  }

  /**
   Whatever the server sent, the client itself shows no text of a deleted message, nor of a
   withdrawn one to an ordinary user.
   */
  lemma ClientRedacts(dto: Dto, admin: bool)
    ensures var shown := Normalize(dto, admin);
            && shown == dto.(body := shown.body)
            && shown.body == if dto.status == Deleted || (dto.status == Withdrawn && !admin) then None else dto.body
  {
  }

  /**
   In every run, a feed that has caught up shows of each message exactly the stored row: its text if
   it stands, its text to an administrator only if it is withdrawn, none if it is deleted; and tag,
   role, address, status and times as stored.
   */
  lemma CaughtUpShowsRows(run: seq<Sys>, i: nat, id: int)
    requires IsSysRun(run) && i < |run| && CaughtUp(run[i]) && id in run[i].client.messages
    ensures var s := run[i];
            id in s.server.messages && ShowsRow(s.client.messages[id], id, s.server.messages[id],
                s.client.binding.admin)
  {
    ReplicaConverges(run, i);
    hide IsSysRun, Project;
    ProjectionShows(id, run[i].server.messages[id], run[i].client.binding.admin);
  }

  /** The message is created between these two states of the tables. */
  ghost predicate Written(t: Tables, u: Tables, id: int, input: CreateInput) {
    && id !in t.messages && id in u.messages
    && var (created, r) := CreateMessage(t, input);
       r.Success? && u == created && r.value.messageId == id
  }

  /**
   From writing to reading: a message created at one point of a run, by anybody, and neither
   withdrawn nor deleted since, is shown by every feed that has later caught up and reaches down to
   it, with the text, tag, role, address and time it was created with.
   */
  lemma WrittenIsRead(run: seq<Sys>, i: nat, j: nat, id: int, input: CreateInput)
    requires IsSysRun(run) && i + 1 <= j < |run| && Written(run[i].server, run[i + 1].server, id, input)
    requires CaughtUp(run[j]) && id in run[j].server.messages
    requires run[j].server.messages[id].withdrawnAt.None? && run[j].server.messages[id].deletedAt.None?
    requires run[j].client.nextBeforeId.Some? ==> id >= run[j].client.nextBeforeId.value
    ensures id in run[j].client.messages
    ensures var dto := run[j].client.messages[id];
            && dto.id == id && dto.status == Active && dto.body == Some(input.body)
            && dto.authorTag == input.authorTag && dto.role == input.authorRole && dto.sourceIP == input.sourceIP
            && dto.createdAt == input.createdAt && dto.withdrawnAt.None? && dto.deletedAt.None?
  {
    CreateStores(run[i].server, input);
    ServersSucceed(run, i + 1, j);
    ReplicaIsComplete(run, j);
    CaughtUpShowsRows(run, j, id);
    StillWritten(run[i + 1].server, run[j].server, id);
  }

  /** A message that stands still has the text it was created with. */
  lemma StillWritten(t: Tables, u: Tables, id: int)
    requires TablesOk(t) && TablesOk(u) && Succeeds(t, u) && id in t.messages && id in u.messages
    requires u.messages[id].deletedAt.None?
    ensures var a, b := t.messages[id], u.messages[id];
            && b.body == a.body && b.authorTag == a.authorTag && b.authorRole == a.authorRole
            && b.sourceIP == a.sourceIP && b.createdAt == a.createdAt && b.authorKey == a.authorKey
  {
    assert SameMessage(t.messages[id], u.messages[id]) && RowOk(u.messages[id]) && RowOk(t.messages[id]);
  }
}
