/** The mail half of the store (internal/store/store.go): one method a statement or transaction. */
module MailStore {
  import opened Wrappers
  import opened Text
  import opened MailTables

  class Store {
    var grantees: map<string, Grantee>
    var emails: map<string, string>
    var threads: map<nat, Thread>
    var messages: map<nat, Message>
    var cursors: map<string, Cursor>
    var threadSeq: nat
    var messageSeq: nat

    ghost function Db(): MailDb
      reads this
    {
      MailDb(grantees, emails, threads, messages, cursors, threadSeq, messageSeq)
    }

    constructor ()
      ensures Db() == EMPTY_DB
    {
      grantees, emails, threads, messages, cursors := map[], map[], map[], map[], map[];
      threadSeq, messageSeq := 0, 0;
    }

    method EnsureGrantee(g: string, displayName: string) returns (r: Result<(), StoreError>)
      modifies this
      ensures match MailTables.EnsureGrantee(old(Db()), g, displayName)
              case Ok(db) => r == Ok(()) && Db() == db
              case Err(e) => r == Err(e) && Db() == old(Db())
    {
      if g == "" {
        return Err(Required);
      }
      if g !in grantees {
        grantees := grantees[g := Grantee(displayName, true)];
      }
      r := Ok(());
    }

    method HasGrantee(g: string) returns (found: bool)
      ensures found <==> g in grantees
    {
      found := g in grantees;
    }

    method AddGranteeEmail(g: string, email: string) returns (r: Result<(), StoreError>)
      modifies this
      ensures match MailTables.AddGranteeEmail(old(Db()), g, email)
              case Ok(db) => r == Ok(()) && Db() == db
              case Err(e) => r == Err(e) && Db() == old(Db())
    {
      var key := EmailKey(email);
      if g == "" || key == "" {
        return Err(Required);
      }
      if g !in grantees {
        return Err(ForeignKey);
      }
      emails := emails[key := g];
      threads := map t | t in threads ::
        if threads[t].grantee.None? && HoldsSender(messages, t, key)
            then threads[t].(grantee := Some(g)) else threads[t];
      messages := map m | m in messages ::
        if messages[m].grantee.None? && messages[m].thread in threads && threads[messages[m].thread].grantee == Some(g)
        then messages[m].(grantee := Some(g)) else messages[m];
      r := Ok(());
    }

    method RemoveGranteeEmail(g: string, email: string) returns (r: Result<(), StoreError>)
      modifies this
      ensures match MailTables.RemoveGranteeEmail(old(Db()), g, email)
              case Ok(db) => r == Ok(()) && Db() == db
              case Err(e) => r == Err(e) && Db() == old(Db())
    {
      var key := EmailKey(email);
      if key in emails && emails[key] == g {
        emails := emails - {key};
        r := Ok(());
      } else {
        r := Err(NotFound);
      }
    }

    method LookupGranteeByEmail(email: string) returns (g: Option<string>)
      ensures g == LookupGrantee(Db(), email)
    {
      var key := Lower(email);
      g := if key in emails then Some(emails[key]) else None;
    }

    method MessageExistsById(messageId: string) returns (found: bool)
      ensures found <==> HasMessage(Db(), messageId)
    {
      found := exists m :: m in messages && messages[m].messageId == messageId;
    }

    /** The query over thread roots; LIMIT 1 without ORDER BY leaves the choice of row open. */
    method FindByRoot(refs: seq<string>) returns (t: Option<nat>)
      ensures t.Some? ==> RootMatch(Db(), refs, t.value)
      ensures t.None? ==> forall u :: !RootMatch(Db(), refs, u)
    {
      var hits := set u | u in threads && threads[u].root in refs;
      if hits == {} {
        assert forall u :: RootMatch(Db(), refs, u) ==> u in hits;
        t := None;
      } else {
        var u :| u in hits;
        t := Some(u);
      }
    }

    method FindByMember(refs: seq<string>) returns (t: Option<nat>)
      ensures t.Some? ==> MemberMatch(Db(), refs, t.value)
      ensures t.None? ==> forall u :: !MemberMatch(Db(), refs, u)
    {
      var hits := set m | m in messages && messages[m].messageId in refs;
      if hits == {} {
        forall u
          ensures !MemberMatch(Db(), refs, u)
        {
          assert forall m :: m in messages && messages[m].messageId in refs ==> m in hits;
        }
        t := None;
      } else {
        var m :| m in hits;
        t := Some(messages[m].thread);
      }
    }

    method CreateThread(root: string, subject: string, date: int) returns (id: Option<nat>)
      modifies this
      ensures (Db(), id) == MailTables.CreateThread(old(Db()), root, subject, date)
    {
      threadSeq := threadSeq + 1;
      if exists t :: t in threads && threads[t].root == root {
        return None;
      }
      threads := threads[threadSeq := Thread(root, subject, None, date, date)];
      id := Some(threadSeq);
    }

    method InsertMessage(msg: Message) returns (r: Insertion)
      modifies this
      ensures (Db(), r) == MailTables.InsertMessage(old(Db()), msg)
    {
      messageSeq := messageSeq + 1;
      if exists m :: m in messages && messages[m].messageId == msg.messageId {
        return AlreadyThere;
      }
      if exists m :: m in messages && SameSlot(messages[m], msg) {
        return SlotConflict;
      }
      messages := messages[messageSeq := msg];
      r := Inserted;
    }

    method SetThreadGrantee(t: nat, g: string)
      modifies this
      ensures Db() == MailTables.SetThreadGrantee(old(Db()), t, g)
    {
      threads := map u | u in threads ::
        if u == t && threads[u].grantee.None? then threads[u].(grantee := Some(g)) else threads[u];
      messages := map m | m in messages ::
        if messages[m].thread == t && messages[m].grantee.None? then messages[m].(grantee := Some(g)) else messages[m];
    }

    method TouchThread(t: nat, date: int)
      modifies this
      ensures Db() == MailTables.TouchThread(old(Db()), t, date)
    {
      if t in threads {
        var row := threads[t];
        threads := threads[t := row.(lastSeen := if date > row.lastSeen then date else row.lastSeen)];
      }
    }

    method SaveMailboxState(folder: string, c: Cursor)
      modifies this
      ensures Db() == SaveCursor(old(Db()), folder, c)
    {
      cursors := cursors[folder := c];
    }
  }
}
