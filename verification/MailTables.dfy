/**
 The mail tables and the effect of each SQL statement or transaction on them
 (internal/store/store.go and migrations/00001_init.sql). A statement that a constraint rejects
 leaves the rows as they were; the identity sequences advance all the same.
 */
module MailTables {
  import opened Wrappers
  import opened Text

  datatype Thread = Thread(root: string, subject: string, grantee: Option<string>, firstSeen: int, lastSeen: int)

  datatype Message = Message(
    messageId: string, thread: nat, grantee: Option<string>, folder: string,
    uid: nat, uidValidity: nat, from: string, date: int)

  datatype Cursor = Cursor(uidValidity: nat, lastUid: nat)

  datatype Grantee = Grantee(displayName: string, active: bool)

  datatype MailDb = MailDb(
    grantees: map<string, Grantee>,
    emails: map<string, string>,
    threads: map<nat, Thread>,
    messages: map<nat, Message>,
    cursors: map<string, Cursor>,
    threadSeq: nat,
    messageSeq: nat)

  const EMPTY_DB := MailDb(map[], map[], map[], map[], map[], 0, 0)

  datatype StoreError = Required | ForeignKey | NotFound | UniqueViolation

  // ---------- what the schema's constraints keep ----------

  ghost predicate ThreadKeys(db: MailDb) {
    && (forall t :: t in db.threads ==> 0 < t <= db.threadSeq)
    && (forall t, u {:trigger SameRoot(db.threads[t], db.threads[u])} ::
          t in db.threads && u in db.threads && SameRoot(db.threads[t], db.threads[u]) ==> t == u)
  }

  ghost predicate MessageKeys(db: MailDb) {
    && (forall m :: m in db.messages ==> 0 < m <= db.messageSeq)
    && (forall m, n {:trigger SameId(db.messages[m], db.messages[n])} ::
          m in db.messages && n in db.messages && SameId(db.messages[m], db.messages[n]) ==> m == n)
    && (forall m, n {:trigger SameSlot(db.messages[m], db.messages[n])} ::
          m in db.messages && n in db.messages && SameSlot(db.messages[m], db.messages[n]) ==> m == n)
  }

  ghost predicate ForeignKeys(db: MailDb) {
    && (forall m :: m in db.messages ==> db.messages[m].thread in db.threads)
    && (forall k :: k in db.emails ==> db.emails[k] in db.grantees)
    && (forall t :: t in db.threads && db.threads[t].grantee.Some? ==> db.threads[t].grantee.value in db.grantees)
    && (forall m :: m in db.messages && db.messages[m].grantee.Some? ==> db.messages[m].grantee.value in db.grantees)
  }

  /** The keys, uniqueness and reference constraints, and the stored form of authorized addresses. */
  ghost predicate Schema(db: MailDb) {
    && ThreadKeys(db)
    && MessageKeys(db)
    && ForeignKeys(db)
    && (forall k :: k in db.emails ==> k != "" && Lower(k) == k)
  }

  predicate SameRoot(t: Thread, u: Thread) {
    t.root == u.root
  }

  predicate SameId(m: Message, n: Message) {
    m.messageId == n.messageId
  }

  predicate SameSlot(m: Message, n: Message) {
    m.folder == n.folder && m.uidValidity == n.uidValidity && m.uid == n.uid
  }

  // ---------- queries ----------

  predicate RootTaken(db: MailDb, root: string) {
    exists t :: t in db.threads && db.threads[t].root == root
  }

  predicate HasMessage(db: MailDb, messageId: string) {
    exists m :: m in db.messages && db.messages[m].messageId == messageId
  }

  predicate SlotTaken(db: MailDb, msg: Message) {
    exists m :: m in db.messages && SameSlot(db.messages[m], msg)
  }

  /** A row that `SELECT id FROM threads WHERE root_message_id IN refs LIMIT 1` may return. */
  predicate RootMatch(db: MailDb, refs: seq<string>, t: nat) {
    t in db.threads && db.threads[t].root in refs
  }

  /** A row that `SELECT thread_id FROM messages WHERE message_id IN refs LIMIT 1` may return. */
  predicate MemberMatch(db: MailDb, refs: seq<string>, t: nat) {
    exists m :: m in db.messages && db.messages[m].messageId in refs && db.messages[m].thread == t
  }

  function LookupGrantee(db: MailDb, email: string): Option<string> {
    var k := Lower(email);
    if k in db.emails then Some(db.emails[k]) else None
  }

  /** The thread holds a message whose sender compares equal to key, ignoring case (column type CITEXT). */
  predicate HoldsSender(messages: map<nat, Message>, t: nat, key: string) {
    exists m :: m in messages && messages[m].thread == t && Lower(messages[m].from) == key
  }

  // ---------- statements ----------

  function CreateThread(db: MailDb, root: string, subject: string, date: int): (MailDb, Option<nat>) {
    var id := db.threadSeq + 1;
    var burned := db.(threadSeq := id);
    if RootTaken(db, root) then (burned, None)
    else (burned.(threads := db.threads[id := Thread(root, subject, None, date, date)]), Some(id))
  }

  datatype Insertion = Inserted | AlreadyThere | SlotConflict

  function InsertMessage(db: MailDb, msg: Message): (MailDb, Insertion) {
    var id := db.messageSeq + 1;
    var burned := db.(messageSeq := id);
    if HasMessage(db, msg.messageId) then (burned, AlreadyThere)
    else if SlotTaken(db, msg) then (burned, SlotConflict)
    else (burned.(messages := db.messages[id := msg]), Inserted)
  }

  function SetThreadGrantee(db: MailDb, t: nat, g: string): MailDb {
    db.(threads := map u | u in db.threads ::
          if u == t && db.threads[u].grantee.None? then db.threads[u].(grantee := Some(g)) else db.threads[u],
        messages := map m | m in db.messages ::
          if db.messages[m].thread == t && db.messages[m].grantee.None?
              then db.messages[m].(grantee := Some(g)) else db.messages[m])
  }

  function TouchThread(db: MailDb, t: nat, date: int): MailDb {
    if t !in db.threads then db else
      var row := db.threads[t];
      db.(threads := db.threads[t := row.(lastSeen := if date > row.lastSeen then date else row.lastSeen)])
  }

  function EmailKey(email: string): string {
    Lower(TrimSpace(email))
  }

  function UpsertEmail(db: MailDb, key: string, g: string): MailDb {
    db.(emails := db.emails[key := g])
  }

  function AssignThreadsOf(db: MailDb, key: string, g: string): MailDb {
    db.(threads := map t | t in db.threads ::
          if db.threads[t].grantee.None? && HoldsSender(db.messages, t, key)
              then db.threads[t].(grantee := Some(g)) else db.threads[t])
  }

  function BackfillMessages(db: MailDb, g: string): MailDb {
    db.(messages := map m | m in db.messages ::
          if db.messages[m].grantee.None? && db.messages[m].thread in db.threads
              && db.threads[db.messages[m].thread].grantee == Some(g)
          then db.messages[m].(grantee := Some(g)) else db.messages[m])
  }

  function AddGranteeEmail(db: MailDb, g: string, email: string): Result<MailDb, StoreError> {
    var key := EmailKey(email);
    if g == "" || key == "" then Err(Required)
    else if g !in db.grantees then Err(ForeignKey)
    else Ok(BackfillMessages(AssignThreadsOf(UpsertEmail(db, key, g), key, g), g))
  }

  function RemoveGranteeEmail(db: MailDb, g: string, email: string): Result<MailDb, StoreError> {
    var key := EmailKey(email);
    if key in db.emails && db.emails[key] == g then Ok(db.(emails := db.emails - {key})) else Err(NotFound)
  }

  /** `ON CONFLICT DO NOTHING`: an existing grantee keeps its name and status. */
  function EnsureGrantee(db: MailDb, g: string, displayName: string): Result<MailDb, StoreError> {
    if g == "" then Err(Required)
    else if g in db.grantees then Ok(db)
    else Ok(db.(grantees := db.grantees[g := Grantee(displayName, true)]))
  }

  function SaveCursor(db: MailDb, folder: string, c: Cursor): MailDb {
    db.(cursors := db.cursors[folder := c])
  }

  // ---------- every statement keeps the schema ----------

  lemma CreateThreadKeepsKeys(db: MailDb, root: string, subject: string, date: int)
    requires ThreadKeys(db)
    ensures ThreadKeys(CreateThread(db, root, subject, date).0)
  {
    var after := CreateThread(db, root, subject, date).0;
    forall t, u | t in after.threads && u in after.threads && SameRoot(after.threads[t], after.threads[u])
      ensures t == u
    {
      if t in db.threads && u in db.threads {
        assert SameRoot(db.threads[t], db.threads[u]);
      }
    }
  }

  lemma CreateThreadKeepsSchema(db: MailDb, root: string, subject: string, date: int)
    requires Schema(db)
    ensures Schema(CreateThread(db, root, subject, date).0)
  {
    var after := CreateThread(db, root, subject, date).0;
    CreateThreadKeepsKeys(db, root, subject, date);
    assert after.messages == db.messages && after.emails == db.emails && after.grantees == db.grantees;
    assert ForeignKeys(after);
  }

  lemma InsertMessageKeepsSlots(db: MailDb, msg: Message, m: nat, n: nat)
    requires MessageKeys(db)
    requires var after := InsertMessage(db, msg).0.messages; m in after && n in after && SameSlot(after[m], after[n])
    ensures m == n
  {
    if m in db.messages && n in db.messages {
      assert SameSlot(db.messages[m], db.messages[n]);
    }
  }

  lemma InsertMessageKeepsIds(db: MailDb, msg: Message, m: nat, n: nat)
    requires MessageKeys(db)
    requires var after := InsertMessage(db, msg).0.messages; m in after && n in after && SameId(after[m], after[n])
    ensures m == n
  {
    if m in db.messages && n in db.messages {
      assert SameId(db.messages[m], db.messages[n]);
    }
  }

  /** The two uniqueness checks of the insert are what keeps both keys of the table. */
  lemma InsertMessageKeepsKeys(db: MailDb, msg: Message)
    requires MessageKeys(db)
    ensures MessageKeys(InsertMessage(db, msg).0)
  {
    var after := InsertMessage(db, msg).0;
    forall m, n | m in after.messages && n in after.messages && SameSlot(after.messages[m], after.messages[n])
      ensures m == n
    {
      InsertMessageKeepsSlots(db, msg, m, n);
    }
    forall m, n | m in after.messages && n in after.messages && SameId(after.messages[m], after.messages[n])
      ensures m == n
    {
      InsertMessageKeepsIds(db, msg, m, n);
    }
  }

  lemma InsertMessageKeepsReferences(db: MailDb, msg: Message)
    requires ForeignKeys(db) && msg.thread in db.threads
    requires msg.grantee.Some? ==> msg.grantee.value in db.grantees
    ensures ForeignKeys(InsertMessage(db, msg).0)
  {
  }

  lemma InsertMessageKeepsSchema(db: MailDb, msg: Message)
    requires Schema(db) && msg.thread in db.threads
    requires msg.grantee.Some? ==> msg.grantee.value in db.grantees
    ensures Schema(InsertMessage(db, msg).0)
  {
    InsertMessageKeepsKeys(db, msg);
    InsertMessageKeepsReferences(db, msg);
    var after := InsertMessage(db, msg).0;
    assert after.threads == db.threads && after.threadSeq == db.threadSeq && after.emails == db.emails;
  }

  /** Updates that touch no key column keep the keys. */
  lemma SameKeysKeepUnique(a: MailDb, b: MailDb)
    requires ThreadKeys(a) && MessageKeys(a) && b.threadSeq == a.threadSeq && b.messageSeq == a.messageSeq
    requires b.threads.Keys == a.threads.Keys && forall t :: t in a.threads ==> b.threads[t].root == a.threads[t].root
    requires b.messages.Keys == a.messages.Keys
    requires forall m :: m in a.messages ==> b.messages[m] == a.messages[m].(grantee := b.messages[m].grantee)
    ensures ThreadKeys(b) && MessageKeys(b)
  {
    forall t, u | t in b.threads && u in b.threads && SameRoot(b.threads[t], b.threads[u])
      ensures t == u
    {
      assert SameRoot(a.threads[t], a.threads[u]);
    }
    forall m, n | m in b.messages && n in b.messages && SameId(b.messages[m], b.messages[n])
      ensures m == n
    {
      assert SameId(a.messages[m], a.messages[n]);
    }
    forall m, n | m in b.messages && n in b.messages && SameSlot(b.messages[m], b.messages[n])
      ensures m == n
    {
      assert SameSlot(a.messages[m], a.messages[n]);
    }
  }

  lemma SetThreadGranteeKeepsSchema(db: MailDb, t: nat, g: string)
    requires Schema(db) && g in db.grantees
    ensures Schema(SetThreadGrantee(db, t, g))
  {
    SameKeysKeepUnique(db, SetThreadGrantee(db, t, g));
  }

  lemma TouchKeepsSchema(db: MailDb, t: nat, date: int)
    requires Schema(db)
    ensures Schema(TouchThread(db, t, date))
  {
    SameKeysKeepUnique(db, TouchThread(db, t, date));
  }

  lemma AssignThreadsKeepsSchema(db: MailDb, key: string, g: string)
    requires Schema(db) && g in db.grantees
    ensures Schema(AssignThreadsOf(db, key, g))
  {
    SameKeysKeepUnique(db, AssignThreadsOf(db, key, g));
  }

  lemma BackfillKeepsSchema(db: MailDb, g: string)
    requires Schema(db) && g in db.grantees
    ensures Schema(BackfillMessages(db, g))
  {
    SameKeysKeepUnique(db, BackfillMessages(db, g));
  }

  lemma AddGranteeEmailKeepsSchema(db: MailDb, g: string, email: string)
    requires Schema(db) && AddGranteeEmail(db, g, email).Ok?
    ensures Schema(AddGranteeEmail(db, g, email).value)
  {
    var key := EmailKey(email);
    LowerIdempotent(TrimSpace(email));
    var db1 := UpsertEmail(db, key, g);
    assert Schema(db1);
    AssignThreadsKeepsSchema(db1, key, g);
    BackfillKeepsSchema(AssignThreadsOf(db1, key, g), g);
  }

  // ---------- what no statement ever takes back ----------

  ghost predicate ThreadsGrow(a: MailDb, b: MailDb) {
    forall t :: t in a.threads ==>
      && t in b.threads
      && b.threads[t].root == a.threads[t].root
      && a.threads[t].lastSeen <= b.threads[t].lastSeen
      && (a.threads[t].grantee.Some? ==> b.threads[t].grantee == a.threads[t].grantee)
  }

  ghost predicate MessagesGrow(a: MailDb, b: MailDb) {
    forall m :: m in a.messages ==>
      && m in b.messages
      && b.messages[m] == a.messages[m].(grantee := b.messages[m].grantee)
      && (a.messages[m].grantee.Some? ==> b.messages[m].grantee == a.messages[m].grantee)
  }

  /** Rows stay, with their content; a grantee once written stays written. */
  ghost predicate Grows(a: MailDb, b: MailDb) {
    a.grantees.Keys <= b.grantees.Keys && ThreadsGrow(a, b) && MessagesGrow(a, b)
  }

  lemma GrowsTransitive(a: MailDb, b: MailDb, c: MailDb)
    requires Grows(a, b) && Grows(b, c)
    ensures Grows(a, c)
  {
  }

  lemma InsertMessageGrows(db: MailDb, msg: Message)
    requires Schema(db)
    ensures Grows(db, InsertMessage(db, msg).0)
    ensures InsertMessage(db, msg).1 != SlotConflict ==> HasMessage(InsertMessage(db, msg).0, msg.messageId)
  {
    var (after, r) := InsertMessage(db, msg);
    if r == Inserted {
      assert after.messages[after.messageSeq] == msg;
    }
  }

  lemma SetThreadGranteeGrows(db: MailDb, t: nat, g: string)
    ensures Grows(db, SetThreadGrantee(db, t, g))
  {
  }

  lemma TouchThreadGrows(db: MailDb, t: nat, date: int)
    ensures Grows(db, TouchThread(db, t, date))
  {
  }

  lemma AddGranteeEmailGrows(db: MailDb, g: string, email: string)
    requires AddGranteeEmail(db, g, email).Ok?
    ensures Grows(db, AddGranteeEmail(db, g, email).value)
  {
  }

  // ---------- what one call undoes ----------

  /** The rows of all tables but the address map are the same. */
  ghost predicate SameButEmails(a: MailDb, b: MailDb) {
    b == a.(emails := b.emails)
  }

  /**
   Revoking undoes authorizing: any spelling of the address will do, the address is unknown afterwards, all
   other addresses are as before, and what was attributed stays attributed. Another grantee cannot revoke it.
   */
  lemma RevokeUndoesAuthorize(db: MailDb, g: string, email: string, spelling: string, other: string)
    requires AddGranteeEmail(db, g, email).Ok? && EmailKey(spelling) == EmailKey(email) && other != g
    ensures var added := AddGranteeEmail(db, g, email).value;
            && LookupGrantee(added, TrimSpace(spelling)) == Some(g)
            && RemoveGranteeEmail(added, other, spelling) == Err(NotFound)
            && RemoveGranteeEmail(added, g, spelling).Ok?
            && var removed := RemoveGranteeEmail(added, g, spelling).value;
               && SameButEmails(added, removed)
               && removed.emails == db.emails - {EmailKey(email)}
  {
    var added := AddGranteeEmail(db, g, email).value;
    assert added.emails == db.emails[EmailKey(email) := g];
    assert added.emails - {EmailKey(email)} == db.emails - {EmailKey(email)};
  }

  /** Ensuring a grantee never changes one that exists, and creates no other. */
  lemma EnsureGranteeKeeps(db: MailDb, g: string, displayName: string, h: string)
    requires EnsureGrantee(db, g, displayName).Ok?
    ensures var after := EnsureGrantee(db, g, displayName).value;
            && g in after.grantees
            && (h in db.grantees ==> h in after.grantees && after.grantees[h] == db.grantees[h])
            && (h in after.grantees && h !in db.grantees ==> h == g && after.grantees[h] == Grantee(displayName, true))
  {
  }

  lemma HasMessageGrows(a: MailDb, b: MailDb, messageId: string)
    requires Grows(a, b) && HasMessage(a, messageId)
    ensures HasMessage(b, messageId)
  {
    var m :| m in a.messages && a.messages[m].messageId == messageId;
    assert b.messages[m].messageId == messageId;
  }
}
