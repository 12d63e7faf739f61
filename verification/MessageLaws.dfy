/** What the message calls do for the people who make them: what is stored, who may change it, and what is shown for ever. */
module MessageLaws {
  import opened Wrappers
  import opened Roles
  import opened Messages
  import opened MessageReplay

  // ---------- Single calls ----------

  /** Everything a reader sees of a message is the row's, and the row is the one named. */
  ghost predicate Tells(d: Dto, t: Table) {
    && d.id in t
    && var m := t[d.id];
       && d.roomId == m.roomId && d.senderId == m.senderId && d.body == m.body
       && d.attachmentKey == m.attachmentKey && d.attachmentMeta == m.attachmentMeta
       && d.editedAt == m.editedAt && d.deletedAt == m.deletedAt && d.createdAt == m.createdAt
  }

  ghost predicate OthersStay(t: Table, t': Table, id: MessageId) {
    forall x | x in t && x != id :: x in t' && t'[x] == t[x]
  }

  /** A send is refused to outsiders, then for attachments nobody uploaded; otherwise it is carried out. */
  lemma SendAnswers(s: Store, op: Op)
    requires op.Send?
    ensures var o := Step(s, op).1;
            && (o == Forbidden <==> !op.isMember)
            && (o == Conflict <==> op.isMember && op.attachmentKey.Some? && op.attachmentKey.value != "" && !op.uploaded)
            && (o.Ok? || o == Forbidden || o == Conflict)
            && (!o.Ok? ==> Step(s, op).0 == s)
  {
  }

  /** A row as its sender asked for it. */
  ghost predicate AsSent(m: Message, op: Op)
    requires op.Send?
  {
    && m.roomId == op.roomId && m.senderId == op.senderId && m.body == op.body
    && m.clientMessageId == op.clientMessageId && m.attachmentKey == op.attachmentKey && m.attachmentMeta.None?
    && m.editedAt.None? && m.deletedAt.None? && m.createdAt == op.now
  }

  /** The sender has used this key before. */
  ghost predicate UsedKey(t: Table, op: Op)
    requires op.Send?
  {
    op.clientMessageId.Some? && exists x :: x in t && t[x].senderId == op.senderId && t[x].clientMessageId == op.clientMessageId
  }

  /** A send carried out stores a new message as it was sent unless its key was used; it tells the caller and the room of the row. */
  lemma SendStores(s: Store, op: Op)
    requires op.Send? && op.id !in s.rows && Step(s, op).1.Ok?
    ensures var s', d := Step(s, op).0, Step(s, op).1.message;
            && Tells(d, s'.rows)
            && s'.log == s.log + [Publication(op.roomId, Created(d, op.refId, op.senderId))]
            && (UsedKey(s.rows, op) ==> s'.rows == s.rows)
            && (!UsedKey(s.rows, op) ==>
                  d.id == op.id && s'.rows.Keys == s.rows.Keys + {op.id} && OthersStay(s.rows, s'.rows, op.id) && AsSent(s'.rows[op.id], op))
  {
  }

  /** An edit is for the sender, of a message that is there; the text then is the text asked for. */
  lemma EditChangesText(s: Store, op: Op)
    requires op.Edit?
    ensures var s', o, id := Step(s, op).0, Step(s, op).1, op.messageId;
            && (o == NotFound <==> id !in s.rows || s.rows[id].deletedAt.Some?)
            && (o.Ok? <==> id in s.rows && s.rows[id].deletedAt.None? && s.rows[id].senderId == op.requesterId)
            && (o.Ok? || o == NotFound || o == Forbidden)
            && (!o.Ok? ==> s' == s)
            && (o.Ok? ==>
                  && Tells(o.message, s'.rows) && o.message.id == id && s'.rows[id].body == op.body
                  && s'.rows[id].editedAt == (if s.rows[id].body == op.body then s.rows[id].editedAt else Some(op.now))
                  && s'.rows[id].(body := s.rows[id].body, editedAt := s.rows[id].editedAt) == s.rows[id]
                  && s'.rows.Keys == s.rows.Keys && OthersStay(s.rows, s'.rows, id)
                  && s'.log == s.log + if s.rows[id].body == op.body then [] else [Publication(s.rows[id].roomId, Edited(o.message))])
  {
  }

  /** A delete is for the sender, and for the room's owner and admins. */
  lemma DeleteEmpties(s: Store, op: Op)
    requires op.Delete?
    ensures var s', o, id := Step(s, op).0, Step(s, op).1, op.messageId;
            && (o == NotFound <==> id !in s.rows || s.rows[id].deletedAt.Some?)
            && (o == Removed <==> && id in s.rows && s.rows[id].deletedAt.None?
                                  && (s.rows[id].senderId == op.requesterId || op.role == Some(Owner) || op.role == Some(Admin)))
            && (o == Removed || o == NotFound || o == Forbidden)
            && (o != Removed ==> s' == s)
            && (o == Removed ==>
                  && s'.rows.Keys == s.rows.Keys && OthersStay(s.rows, s'.rows, id)
                  && s'.rows[id].deletedAt == Some(op.now) && s'.rows[id].body == ""
                  && s'.rows[id].attachmentKey.None? && s'.rows[id].attachmentMeta.None? && s'.rows[id].editedAt == s.rows[id].editedAt
                  && s'.log == s.log + [Publication(s.rows[id].roomId, Deleted(id, s.rows[id].roomId))])
  {
    if op.role.Some? { assert op.role.value.Owner? || op.role.value.Admin? || op.role.value.Member?; }
  }

  // ---------- Whole runs ----------

  /** The text of message `id` at the end, going by the edits alone: the last one that succeeded, or else `text`. */
  ghost function LastText(s: Store, ops: seq<Op>, id: MessageId, text: string): string
    decreases |ops|
  {
    if ops == [] then text
    else LastText(Step(s, ops[0]).0, ops[1..], id,
                  if ops[0].Edit? && ops[0].messageId == id && Step(s, ops[0]).1.Ok? then ops[0].body else text)
  }

  /** Some call of the run deleted the message. */
  ghost predicate DeletedIn(s: Store, ops: seq<Op>, id: MessageId)
    decreases |ops|
  {
    ops != [] && ((ops[0].Delete? && ops[0].messageId == id && Step(s, ops[0]).1 == Removed) || DeletedIn(Step(s, ops[0]).0, ops[1..], id))
  }

  lemma RowStep(s: Store, op: Op, id: MessageId)
    requires id in s.rows && (op.Send? ==> op.id !in s.rows)
    ensures id in Step(s, op).0.rows
    ensures var m, m' := s.rows[id], Step(s, op).0.rows[id];
            && (m'.deletedAt.Some? <==> m.deletedAt.Some? || (op.Delete? && op.messageId == id && Step(s, op).1 == Removed))
            && (m'.deletedAt.None? ==> m'.body == if op.Edit? && op.messageId == id && Step(s, op).1.Ok? then op.body else m.body)
            && (m'.deletedAt.None? ==> m'.attachmentKey == m.attachmentKey && m'.attachmentMeta == m.attachmentMeta)
  {
    match op
    case Send(_, _, _, _, _, _, _, _, _, _) => if Step(s, op).1.Ok? { SendStores(s, op); } else { SendAnswers(s, op); }
    case Edit(_, _, _, _) => EditChangesText(s, op);
    case Delete(_, _, _, _) => DeleteEmpties(s, op);
  }

  /** A message is deleted exactly when a permitted delete was made; until then it shows the last successful edit. */
  lemma {:induction false} RowRun(s: Store, ops: seq<Op>, id: MessageId)
    requires ValidRun(s, ops) && id in s.rows
    ensures id in Run(s, ops).rows
    ensures var m, m' := s.rows[id], Run(s, ops).rows[id];
            && (m'.deletedAt.Some? <==> m.deletedAt.Some? || DeletedIn(s, ops, id))
            && (m'.deletedAt.None? ==> m'.body == LastText(s, ops, id, m.body))
            && (m'.deletedAt.None? ==> m'.attachmentKey == m.attachmentKey && m'.attachmentMeta == m.attachmentMeta)
    decreases |ops|
  {
    if ops != [] {
      RowStep(s, ops[0], id);
      RowRun(Step(s, ops[0]).0, ops[1..], id);
    }
  }

  /**
   After any calls, a message that was sent is still there, of the room, sender, key and time it was
   sent with; it is deleted if and only if a permitted delete was made; and until then it carries its
   attachment and the text of the last successful edit, or of the send if there was none.
   */
  lemma MessageIsAsSent(before: seq<Op>, send: Op, after: seq<Op>)
    requires ValidRun(Empty, before) && send.Send? && send.id !in Run(Empty, before).rows
    requires Step(Run(Empty, before), send).1.Ok? && !UsedKey(Run(Empty, before).rows, send)
    requires ValidRun(Step(Run(Empty, before), send).0, after)
    ensures var s := Step(Run(Empty, before), send).0;
            && send.id in Run(s, after).rows
            && var m := Run(s, after).rows[send.id];
               && m.roomId == send.roomId && m.senderId == send.senderId && m.clientMessageId == send.clientMessageId && m.createdAt == send.now
               && (m.deletedAt.Some? <==> DeletedIn(s, after, send.id))
               && (m.deletedAt.None? ==> m.attachmentKey == send.attachmentKey && m.body == LastText(s, after, send.id, send.body))
  {
    var s0 := Run(Empty, before);
    var s := Step(s0, send).0;
    RunKeepsRows(Empty, before, send.id);
    StepKeepsRows(s0, send, send.id);
    SendStores(s0, send);
    RowRun(s, after, send.id);
    RunKeepsRows(s, after, send.id);
  }
}
