/** The rows of `students` and `teachers`, what the schema says of them, and the import of a teacher into them. */
module AccountRows {
  import opened UserIds

  /** The owner is the student's group or the teacher's name. */
  datatype Account = Account(userId: int, owner: string, login: Option<string>, password: Option<string>)

  type Rows = map<int, Account>

  predicate Holds(rows: Rows, userId: int) { exists i :: i in rows && rows[i].userId == userId }

  predicate HasOwner(rows: Rows, owner: string) { exists i :: i in rows && rows[i].owner == owner }

  // ---- what the schema declares

  predicate UniqueUsers(rows: Rows) {
    forall i, j | i in rows && j in rows && rows[i].userId == rows[j].userId :: i == j
  }

  predicate UniqueOwners(rows: Rows) {
    forall i, j | i in rows && j in rows && rows[i].owner == rows[j].owner :: i == j
  }

  predicate UniqueLogins(rows: Rows) {
    forall i, j | i in rows && j in rows && rows[i].login == rows[j].login && rows[i].login.Some? :: i == j
  }

  predicate Known(rows: Rows, users: set<int>) { forall i | i in rows :: rows[i].userId in users }

  // ---- the import of a teacher

  /** `INSERT … ON CONFLICT DO NOTHING`, when the name or the made-up user id is not there yet. */
  function WithTeacher(rows: Rows, id: int, name: string, pseudo: int): Rows {
    if HasOwner(rows, name) || Holds(rows, pseudo) then rows else rows[id := Account(pseudo, name, None, None)]
  }

  function FilledIn(a: Account, id: int): Account {
    a.(login := OrElse(a.login, DefaultLogin(id)), password := OrElse(a.password, DefaultLogin(id)))
  }

  /** Login and password filled in for the teacher of that name. */
  function Imported(rows: Rows, id: int, name: string, pseudo: int): Rows {
    var all := WithTeacher(rows, id, name, pseudo);
    map i | i in all :: if all[i].owner == name then FilledIn(all[i], i) else all[i]
  }

  /** Refused if a teacher of another name has the made-up id of a new one, or a login is taken. */
  predicate ImportRefused(rows: Rows, id: int, name: string, pseudo: int) {
    (!HasOwner(rows, name) && Holds(rows, pseudo)) || !UniqueLogins(Imported(rows, id, name, pseudo))
  }

  function ImportRows(rows: Rows, id: int, name: string, pseudo: int): Rows {
    if ImportRefused(rows, id, name, pseudo) then rows else Imported(rows, id, name, pseudo)
  }

  /** A teacher's login is the default one of the row, if there is one: nothing else writes that column. */
  predicate OwnLogins(rows: Rows) {
    forall i | i in rows :: rows[i].login.Some? ==> rows[i].login.value == DefaultLogin(i)
  }

  lemma OwnLoginsUnique(rows: Rows)
    requires OwnLogins(rows)
    ensures UniqueLogins(rows)
  {
    forall i, j | i in rows && j in rows && rows[i].login == rows[j].login && rows[i].login.Some? ensures i == j {
      DefaultLoginInjective(i, j);
    }
  }

  /** So the default login of a row is never another's, and an import is refused exactly if the name is new and
      another teacher has its made-up id. */
  lemma RefusedIff(rows: Rows, id: int, name: string, pseudo: int)
    requires OwnLogins(rows)
    ensures OwnLogins(ImportRows(rows, id, name, pseudo))
    ensures ImportRefused(rows, id, name, pseudo) <==> !HasOwner(rows, name) && Holds(rows, pseudo)
  {
    hide DefaultLogin;
    OwnLoginsUnique(Imported(rows, id, name, pseudo));
  }

  /** After an import that is not refused the name is there. */
  lemma ImportedThere(rows: Rows, id: int, name: string, pseudo: int)
    requires HasOwner(rows, name) || !Holds(rows, pseudo)
    ensures HasOwner(Imported(rows, id, name, pseudo), name)
  {
    hide DefaultLogin;
    var all, after := WithTeacher(rows, id, name, pseudo), Imported(rows, id, name, pseudo);
    if i :| i in rows && rows[i].owner == name {
      assert after[i].owner == name;
    } else {
      assert after[id].owner == name;
    }
  }

  /** An import keeps every owner and user id and adds at most one row, with the name and the made-up id. */
  lemma ImportedShape(rows: Rows, id: int, name: string, pseudo: int)
    requires id !in rows
    ensures var after := Imported(rows, id, name, pseudo);
            && (forall i | i in rows ::
                  i in after && after[i].userId == rows[i].userId && after[i].owner == rows[i].owner)
            && (forall i | i in after && i !in rows ::
                  && i == id && after[i].userId == pseudo && after[i].owner == name
                  && !HasOwner(rows, name) && !Holds(rows, pseudo))
  {
    hide DefaultLogin;
  }

  lemma ImportedUnique(rows: Rows, id: int, name: string, pseudo: int)
    requires id !in rows
    ensures var after := Imported(rows, id, name, pseudo);
            && (UniqueUsers(rows) ==> UniqueUsers(after)) && (UniqueOwners(rows) ==> UniqueOwners(after))
  {
    hide Imported;
    ImportedShape(rows, id, name, pseudo);
  }

  // ---- one row at a time

  /** Tables with the same rows. */
  predicate SameTable(m: Rows, m': Rows) {
    (forall i | i in m' :: i in m) && forall i | i in m :: i in m' && m'[i] == m[i]
  }

  /** As names are unique, filling in one row is filling in the rows of that name. */
  lemma FilledOne(rows: Rows, id: int, name: string, pseudo: int, found: int)
    requires UniqueOwners(rows) && id !in rows
    requires var all := WithTeacher(rows, id, name, pseudo); found in all && all[found].owner == name
    ensures var all := WithTeacher(rows, id, name, pseudo);
            SameTable(Imported(rows, id, name, pseudo), all[found := FilledIn(all[found], found)])
  {
    hide FilledIn;
  }
}
