/** Who is bound to which student or teacher row. A row that nobody holds carries a made-up negative user id;
    that no user is ever student and teacher at once rests on keeping those numbers apart. */
module Accounts {
  import opened Text
  import opened UserIds
  import opened AccountRows

  /** The user ids of Telegram are positive. */
  type TelegramId = u: int | 0 < u witness 1

  const STUDENT_BASE := 300_000_000_000_000
  const TEACHER_BASE := 200_000_000_000_000
  const GAP := STUDENT_BASE - TEACHER_BASE

  function StudentPlaceholder(id: int): int { -STUDENT_BASE - id }

  function TeacherPlaceholder(id: int): int { -TEACHER_BASE - id }

  datatype Db = Db(users: set<int>, students: Rows, teachers: Rows, nextTeacher: int)

  datatype Role = Guest | Student | Teacher

  function RoleOf(db: Db, userId: int): Role {
    if Holds(db.students, userId) then Student else if Holds(db.teachers, userId) then Teacher else Guest
  }

  // ---- the statements

  /** `UPDATE … SET user_id = -base - id WHERE user_id = u`. */
  function Unbind(rows: Rows, base: int, u: int): Rows {
    map i | i in rows :: if rows[i].userId == u then rows[i].(userId := -base - i) else rows[i]
  }

  function Placeholders(rows: Rows, base: int, u: int): set<int> {
    set i | i in rows && rows[i].userId == u :: -base - i
  }

  function Bind(rows: Rows, id: int, u: int): Rows {
    map i | i in rows :: if i == id then rows[i].(userId := u) else rows[i]
  }

  predicate Matches(rows: Rows, id: int, login: string, password: string) {
    id in rows && rows[id].login == Some(TrimSpace(login)) && rows[id].password == Some(password)
  }

  // ---- the transactions

  /** The user gives up every row of both tables; rows keep all but the user id. */
  function LeaveAll(db: Db, u: int): Db {
    Db(db.users + Placeholders(db.students, STUDENT_BASE, u) + Placeholders(db.teachers, TEACHER_BASE, u),
       Unbind(db.students, STUDENT_BASE, u), Unbind(db.teachers, TEACHER_BASE, u), db.nextTeacher)
  }

  function WithUser(db: Db, u: int): Db { db.(users := db.users + {u}) }

  function LoginStudent(db: Db, u: int, id: int): Db {
    var free := LeaveAll(WithUser(db, u), u);
    free.(students := Bind(free.students, id, u))
  }

  function LoginTeacher(db: Db, u: int, id: int): Db {
    var free := LeaveAll(WithUser(db, u), u);
    free.(teachers := Bind(free.teachers, id, u))
  }

  /** An import of a teacher; a refused one leaves nothing but a number used up. */
  function ImportTeacher(db: Db, name: string, pseudo: int): Db {
    var refused := ImportRefused(db.teachers, db.nextTeacher, name, pseudo);
    Db(if refused then db.users else db.users + {pseudo}, db.students,
       ImportRows(db.teachers, db.nextTeacher, name, pseudo), db.nextTeacher + 1)
  }

  // ---- what the database refuses

  /** Each UPDATE is refused if it would leave a user id twice in its table; the transaction then is rolled back. */
  predicate LeaveAccepted(db: Db, u: int) {
    UniqueUsers(Unbind(db.students, STUDENT_BASE, u)) && UniqueUsers(Unbind(db.teachers, TEACHER_BASE, u))
  }

  predicate StudentAccepted(db: Db, u: int, id: int) {
    LeaveAccepted(db, u) && UniqueUsers(LoginStudent(db, u, id).students)
  }

  predicate TeacherAccepted(db: Db, u: int, id: int) {
    LeaveAccepted(db, u) && UniqueUsers(LoginTeacher(db, u, id).teachers)
  }

  // ---- the same in columns

  /** Every row that the user had carries a negative number of its own now; all else is as before. */
  ghost predicate GivenUp(before: Rows, after: Rows, base: int, u: int) {
    && (forall j | j in after :: j in before)
    && forall j | j in before ::
         j in after && after[j] == before[j].(userId := if before[j].userId == u then -base - j else before[j].userId)
  }

  /** Besides, one row is the user's. */
  ghost predicate GivenTo(before: Rows, after: Rows, base: int, id: int, u: int) {
    && id in after && after[id].userId == u
    && (forall j | j in after :: j in before)
    && forall j | j in before ::
         && j in after && (j == id ==> after[j] == before[j].(userId := u))
         && (j != id ==>
               after[j] == before[j].(userId := if before[j].userId == u then -base - j else before[j].userId))
  }

  lemma LoginsInColumns(db: Db, u: int, id: int)
    ensures id in db.students ==>
              && GivenTo(db.students, LoginStudent(db, u, id).students, 300_000_000_000_000, id, u)
              && GivenUp(db.teachers, LoginStudent(db, u, id).teachers, 200_000_000_000_000, u)
    ensures id in db.teachers ==>
              && GivenUp(db.students, LoginTeacher(db, u, id).students, 300_000_000_000_000, u)
              && GivenTo(db.teachers, LoginTeacher(db, u, id).teachers, 200_000_000_000_000, id, u)
    ensures GivenUp(db.students, LeaveAll(db, u).students, 300_000_000_000_000, u)
    ensures GivenUp(db.teachers, LeaveAll(db, u).teachers, 200_000_000_000_000, u)
  {
  }

  /** Where logins are unique, nobody gets in with the login of a row and another password. */
  lemma OnePassword(rows: Rows, id: int, login: string, password: string)
    requires UniqueLogins(rows) && id in rows
    requires rows[id].login == Some(TrimSpace(login)) && rows[id].password != Some(password)
    ensures forall j :: !Matches(rows, j, login, password)
  {
    hide TrimSpace;
  }

  /** Giving up a row is refused exactly if another row has its placeholder. */
  lemma UnbindAcceptedIff(rows: Rows, base: int, u: int)
    requires UniqueUsers(rows)
    ensures UniqueUsers(Unbind(rows, base, u)) <==>
            forall i, j | i in rows && j in rows && rows[i].userId == u && rows[j].userId == -base - i :: i == j
  {
    var free := Unbind(rows, base, u);
    if UniqueUsers(free) {
      forall i, j | i in rows && j in rows && rows[i].userId == u && rows[j].userId == -base - i ensures i == j {
        var x, y := free[i].userId, free[j].userId;
        assert x == -base - i && (y == rows[j].userId || rows[j].userId == u);
      }
    }
  }

  /** Taking a row is refused exactly if another row still has the user. */
  lemma BindAcceptedIff(rows: Rows, id: int, u: int)
    requires UniqueUsers(rows) && id in rows
    ensures UniqueUsers(Bind(rows, id, u)) <==> forall j | j in rows && rows[j].userId == u :: j == id
  {
    var bound := Bind(rows, id, u);
    if UniqueUsers(bound) {
      forall j | j in rows && rows[j].userId == u ensures j == id {
        assert j in bound && bound[j].userId == bound[id].userId;
      }
    }
  }

  /** For any number as a user id, even one that the bot makes up itself: after a login as student it is in both
      tables exactly if it is the placeholder of a teacher row that carried it. */
  lemma StudentLoginSharesIff(db: Db, u: int, id: int)
    requires UniqueUsers(db.teachers) && id in db.students && StudentAccepted(db, u, id)
    ensures var after := LoginStudent(db, u, id);
            && Holds(after.students, u)
            && (Holds(after.teachers, u) <==>
                  exists j :: j in db.teachers && db.teachers[j].userId == u && u == TeacherPlaceholder(j))
  {
    var after := LoginStudent(db, u, id);
    assert after.students[id].userId == u;
    if j :| j in db.teachers && db.teachers[j].userId == u && u == TeacherPlaceholder(j) {
      assert after.teachers[j].userId == u;
    }
  }

  lemma TeacherLoginSharesIff(db: Db, u: int, id: int)
    requires UniqueUsers(db.students) && id in db.teachers && TeacherAccepted(db, u, id)
    ensures var after := LoginTeacher(db, u, id);
            && Holds(after.teachers, u)
            && (Holds(after.students, u) <==>
                  exists j :: j in db.students && db.students[j].userId == u && u == StudentPlaceholder(j))
  {
    var after := LoginTeacher(db, u, id);
    assert after.teachers[id].userId == u;
    if j :| j in db.students && db.students[j].userId == u && u == StudentPlaceholder(j) {
      assert after.students[j].userId == u;
    }
  }

  // ---- runs

  datatype Action =
    | StudentLogin(user: int, id: int, login: string, password: string)
    | TeacherLogin(user: int, id: int, login: string, password: string)
    | Leave(user: int)
    | Import(name: string, hash: nat)

  function Do(db: Db, a: Action): Db {
    match a
    case StudentLogin(u, id, login, password) =>
      if Matches(db.students, id, login, password) && StudentAccepted(db, u, id) then LoginStudent(db, u, id) else db
    case TeacherLogin(u, id, login, password) =>
      if Matches(db.teachers, id, login, password) && TeacherAccepted(db, u, id) then LoginTeacher(db, u, id) else db
    case Leave(u) => if LeaveAccepted(db, u) then LeaveAll(db, u) else db
    case Import(name, hash) => ImportTeacher(db, name, MadeUpId(hash))
  }

  function Run(db: Db, acts: seq<Action>): Db {
    if acts == [] then db else Do(Run(db, acts[..|acts| - 1]), acts[|acts| - 1])
  }

  /** All users in it are users of Telegram. */
  predicate Real(acts: seq<Action>) { forall k | 0 <= k < |acts| :: acts[k].Import? || acts[k].user > 0 }

  // ---- the invariant

  /** A student row is held by a user of Telegram or carries its own placeholder. */
  predicate StudentIds(rows: Rows) {
    forall i | i in rows :: 0 < i && (rows[i].userId > 0 || rows[i].userId == StudentPlaceholder(i))
  }

  /** A teacher row may besides carry the id made up at its import. */
  predicate TeacherIds(rows: Rows, next: int) {
    forall i | i in rows ::
      && 0 < i < next
      && (rows[i].userId > 0 || rows[i].userId == TeacherPlaceholder(i) || -PSEUDO_IDS <= rows[i].userId < 0)
  }

  predicate Exclusive(students: Rows, teachers: Rows) {
    forall i, j | i in students && j in teachers && students[i].userId == teachers[j].userId :: students[i].userId < 0
  }

  predicate Inv(db: Db) {
    && 0 < db.nextTeacher
    && StudentIds(db.students) && TeacherIds(db.teachers, db.nextTeacher)
    && UniqueUsers(db.students) && UniqueUsers(db.teachers)
    && Known(db.students, db.users) && Known(db.teachers, db.users)
    && Exclusive(db.students, db.teachers)
  }

  lemma UnbindStudents(rows: Rows, u: TelegramId)
    requires StudentIds(rows) && UniqueUsers(rows)
    ensures var free := Unbind(rows, STUDENT_BASE, u);
            && StudentIds(free) && UniqueUsers(free) && !Holds(free, u)
            && forall w: int | w > 0 && w != u :: Holds(free, w) <==> Holds(rows, w)
  {
    var free := Unbind(rows, STUDENT_BASE, u);
    forall w: int | w > 0 && w != u && Holds(rows, w) ensures Holds(free, w) {
      var i :| i in rows && rows[i].userId == w;
      assert free[i].userId == w;
    }
  }

  lemma UnbindTeachers(rows: Rows, next: int, u: TelegramId)
    requires TeacherIds(rows, next) && UniqueUsers(rows)
    ensures var free := Unbind(rows, TEACHER_BASE, u);
            && TeacherIds(free, next) && UniqueUsers(free) && !Holds(free, u)
            && forall w: int | w > 0 && w != u :: Holds(free, w) <==> Holds(rows, w)
  {
    var free := Unbind(rows, TEACHER_BASE, u);
    forall w: int | w > 0 && w != u && Holds(rows, w) ensures Holds(free, w) {
      var i :| i in rows && rows[i].userId == w;
      assert free[i].userId == w;
    }
  }

  lemma LeaveInv(db: Db, u: TelegramId)
    requires Inv(db)
    ensures LeaveAccepted(db, u) && Inv(LeaveAll(db, u))
    ensures !Holds(LeaveAll(db, u).students, u) && !Holds(LeaveAll(db, u).teachers, u)
    ensures forall w: int | w > 0 && w != u :: Holds(LeaveAll(db, u).students, w) <==> Holds(db.students, w)
    ensures forall w: int | w > 0 && w != u :: Holds(LeaveAll(db, u).teachers, w) <==> Holds(db.teachers, w)
    ensures forall w: int | w > 0 && w != u :: RoleOf(LeaveAll(db, u), w) == RoleOf(db, w)
  {
    UnbindStudents(db.students, u);
    UnbindTeachers(db.teachers, db.nextTeacher, u);
  }

  /** Binding a free user to a row. */
  lemma BindFree(rows: Rows, id: int, u: TelegramId)
    requires id in rows && UniqueUsers(rows) && !Holds(rows, u)
    ensures var bound := Bind(rows, id, u);
            && UniqueUsers(bound) && Holds(bound, u)
            && forall w: int | w > 0 && w != u :: Holds(bound, w) <==> Holds(rows, w) && w != rows[id].userId
  {
    var bound := Bind(rows, id, u);
    assert bound[id].userId == u;
    forall w: int | w > 0 && w != u && w != rows[id].userId && Holds(rows, w) ensures Holds(bound, w) {
      var i :| i in rows && rows[i].userId == w;
      assert bound[i].userId == w;
    }
    forall w: int | w > 0 && w != u && Holds(bound, w) ensures Holds(rows, w) && w != rows[id].userId {
      var i :| i in bound && bound[i].userId == w;
      assert rows[i].userId == w && i != id;
    }
  }

  /** The holder of a row is in no other table, and still has the row after somebody else has left. */
  lemma Displaced(db: Db, u: TelegramId, id: int)
    requires Inv(db) && id in db.students
    ensures var w := db.students[id].userId;
            && (w > 0 ==> !Holds(db.teachers, w))
            && var w' := LeaveAll(WithUser(db, u), u).students[id].userId;
               if w == u then w' < 0 else w' == w
  {
  }

  /** Logging in as a student is never refused and gives that role and that row; of all other users only the one
      who held the row before loses the role, and becomes a guest. */
  lemma LoginStudentEffect(db: Db, u: TelegramId, id: int)
    requires Inv(db) && id in db.students
    ensures var after := LoginStudent(db, u, id);
            && StudentAccepted(db, u, id) && Inv(after) && after.nextTeacher == db.nextTeacher
            && RoleOf(after, u) == Student && after.students[id].userId == u
            && forall w: int | w > 0 && w != u ::
                 RoleOf(after, w) == if w == db.students[id].userId then Guest else RoleOf(db, w)
  {
    var with := WithUser(db, u);
    var free := LeaveAll(with, u);
    LeaveInv(with, u);
    BindFree(free.students, id, u);
    Displaced(db, u, id);
    var after := LoginStudent(db, u, id);
    forall w: int | w > 0 && w != u
      ensures RoleOf(after, w) == if w == db.students[id].userId then Guest else RoleOf(db, w)
    {
      assert Holds(after.students, w) <==> Holds(free.students, w) && w != free.students[id].userId;
      assert Holds(after.teachers, w) <==> Holds(db.teachers, w);
    }
  }

  lemma DisplacedTeacher(db: Db, u: TelegramId, id: int)
    requires Inv(db) && id in db.teachers
    ensures var w := db.teachers[id].userId;
            && (w > 0 ==> !Holds(db.students, w))
            && var w' := LeaveAll(WithUser(db, u), u).teachers[id].userId;
               if w == u then w' < 0 else w' == w
  {
  }

  /** The same for teachers. */
  lemma LoginTeacherEffect(db: Db, u: TelegramId, id: int)
    requires Inv(db) && id in db.teachers
    ensures var after := LoginTeacher(db, u, id);
            && TeacherAccepted(db, u, id) && Inv(after) && after.nextTeacher == db.nextTeacher
            && RoleOf(after, u) == Teacher && after.teachers[id].userId == u
            && forall w: int | w > 0 && w != u ::
                 RoleOf(after, w) == if w == db.teachers[id].userId then Guest else RoleOf(db, w)
  {
    var with := WithUser(db, u);
    var free := LeaveAll(with, u);
    LeaveInv(with, u);
    BindFree(free.teachers, id, u);
    DisplacedTeacher(db, u, id);
    var after := LoginTeacher(db, u, id);
    forall w: int | w > 0 && w != u
      ensures RoleOf(after, w) == if w == db.teachers[id].userId then Guest else RoleOf(db, w)
    {
      assert Holds(after.teachers, w) <==> Holds(free.teachers, w) && w != free.teachers[id].userId;
      assert Holds(after.students, w) <==> Holds(db.students, w);
    }
  }

  /** Leaving is never refused and makes a guest of the user and of nobody else. */
  lemma LeaveEffect(db: Db, u: TelegramId)
    requires Inv(db)
    ensures LeaveAccepted(db, u) && Inv(LeaveAll(db, u)) && RoleOf(LeaveAll(db, u), u) == Guest
    ensures forall w: int | w > 0 && w != u :: RoleOf(LeaveAll(db, u), w) == RoleOf(db, w)
  {
    LeaveInv(db, u);
  }

  predicate SameIds(rows: Rows, after: Rows, next: int, pseudo: int) {
    && (forall i | i in rows :: i in after && after[i].userId == rows[i].userId)
    && (forall i | i in after :: i in rows || (i == next && after[i].userId == pseudo && !Holds(rows, pseudo)))
  }

  lemma SameIdsInv(rows: Rows, after: Rows, next: int, pseudo: int, students: Rows, users: set<int>)
    requires 0 < next && TeacherIds(rows, next) && UniqueUsers(rows) && Exclusive(students, rows) && Known(rows, users)
    requires -PSEUDO_IDS <= pseudo < 0 && SameIds(rows, after, next, pseudo)
    ensures TeacherIds(after, next + 1) && UniqueUsers(after) && Exclusive(students, after)
            && Known(after, users + {pseudo})
    ensures forall w: int | w > 0 :: Holds(after, w) <==> Holds(rows, w)
  {
    forall w: int | w > 0 && Holds(rows, w) ensures Holds(after, w) {
      var i :| i in rows && rows[i].userId == w;
      assert after[i].userId == w;
    }
  }

  lemma ImportCases(db: Db, name: string, pseudo: int)
    requires db.nextTeacher !in db.teachers
    ensures var after := ImportTeacher(db, name, pseudo);
            || after == db.(nextTeacher := db.nextTeacher + 1)
            || (after == Db(db.users + {pseudo}, db.students, after.teachers, db.nextTeacher + 1)
                && SameIds(db.teachers, after.teachers, db.nextTeacher, pseudo))
  {
    hide Imported;
    ImportedShape(db.teachers, db.nextTeacher, name, pseudo);
  }

  lemma ImportedInv(db: Db, after: Db, pseudo: int)
    requires Inv(db) && -PSEUDO_IDS <= pseudo < 0
    requires || after == db.(nextTeacher := db.nextTeacher + 1)
             || (after == Db(db.users + {pseudo}, db.students, after.teachers, db.nextTeacher + 1)
                 && SameIds(db.teachers, after.teachers, db.nextTeacher, pseudo))
    ensures Inv(after) && after.nextTeacher == db.nextTeacher + 1
    ensures forall w: int | w > 0 :: RoleOf(after, w) == RoleOf(db, w)
  {
    if after != db.(nextTeacher := db.nextTeacher + 1) {
      SameIdsInv(db.teachers, after.teachers, db.nextTeacher, pseudo, db.students, db.users);
    }
  }

  /** An import of a teacher changes nobody's role. */
  lemma ImportEffect(db: Db, name: string, pseudo: int)
    requires Inv(db) && -PSEUDO_IDS <= pseudo < 0
    ensures Inv(ImportTeacher(db, name, pseudo)) && ImportTeacher(db, name, pseudo).nextTeacher == db.nextTeacher + 1
    ensures forall w: int | w > 0 :: RoleOf(ImportTeacher(db, name, pseudo), w) == RoleOf(db, w)
  {
    ImportCases(db, name, pseudo);
    ImportedInv(db, ImportTeacher(db, name, pseudo), pseudo);
  }

  lemma StepInv(db: Db, a: Action)
    requires Inv(db) && (a.Import? || a.user > 0)
    ensures Inv(Do(db, a)) && Do(db, a).nextTeacher <= db.nextTeacher + 1
  {
    match a
    case StudentLogin(u, id, login, password) =>
      if Matches(db.students, id, login, password) { LoginStudentEffect(db, u, id); }
    case TeacherLogin(u, id, login, password) =>
      if Matches(db.teachers, id, login, password) { LoginTeacherEffect(db, u, id); }
    case Leave(u) => LeaveInv(db, u);
    case Import(name, hash) => ImportEffect(db, name, MadeUpId(hash));
  }

  /** Over every sequence of logins, leaves and imports user ids stay unique in each table and no user of
      Telegram is in both. */
  lemma {:induction false} RunKeepsInv(db: Db, acts: seq<Action>)
    requires Inv(db) && Real(acts)
    ensures Inv(Run(db, acts)) && Run(db, acts).nextTeacher <= db.nextTeacher + |acts|
  {
    if acts != [] {
      RunKeepsInv(db, acts[..|acts| - 1]);
      StepInv(Run(db, acts[..|acts| - 1]), acts[|acts| - 1]);
    }
  }

  /** What the schema declares of the two tables but the students' groups, and that the next number of a teacher
      is new. */
  predicate Constraints(db: Db) {
    && UniqueUsers(db.students) && UniqueLogins(db.students) && Known(db.students, db.users)
    && UniqueUsers(db.teachers) && UniqueLogins(db.teachers) && Known(db.teachers, db.users)
    && UniqueOwners(db.teachers)
    && forall i | i in db.teachers :: i < db.nextTeacher
  }

  lemma ImportKeepsConstraints(db: Db, name: string, pseudo: int)
    requires Constraints(db)
    ensures Constraints(ImportTeacher(db, name, pseudo))
  {
    hide Imported;
    ImportedShape(db.teachers, db.nextTeacher, name, pseudo);
    ImportedUnique(db.teachers, db.nextTeacher, name, pseudo);
  }

  /** Unbinding and binding move nothing but user ids. */
  predicate SameCredentials(before: Rows, after: Rows) {
    && (forall i | i in after :: i in before)
    && forall i | i in before ::
         i in after && after[i].owner == before[i].owner && after[i].login == before[i].login
  }

  lemma SameCredentialsUnique(before: Rows, after: Rows)
    requires SameCredentials(before, after)
    ensures UniqueLogins(before) ==> UniqueLogins(after)
    ensures UniqueOwners(before) ==> UniqueOwners(after)
  {
  }

  lemma LeaveKeepsConstraints(db: Db, u: int)
    requires Constraints(db) && LeaveAccepted(db, u)
    ensures Constraints(LeaveAll(db, u))
  {
    hide UniqueUsers, UniqueLogins, UniqueOwners;
    SameCredentialsUnique(db.students, Unbind(db.students, STUDENT_BASE, u));
    SameCredentialsUnique(db.teachers, Unbind(db.teachers, TEACHER_BASE, u));
  }

  lemma StudentKeepsConstraints(db: Db, u: int, id: int)
    requires Constraints(db) && StudentAccepted(db, u, id)
    ensures Constraints(LoginStudent(db, u, id))
  {
    hide UniqueUsers, UniqueLogins, UniqueOwners, Unbind;
    var free := LeaveAll(WithUser(db, u), u);
    LeaveKeepsConstraints(WithUser(db, u), u);
    SameCredentialsUnique(free.students, Bind(free.students, id, u));
  }

  lemma TeacherKeepsConstraints(db: Db, u: int, id: int)
    requires Constraints(db) && TeacherAccepted(db, u, id)
    ensures Constraints(LoginTeacher(db, u, id))
  {
    hide UniqueUsers, UniqueLogins, UniqueOwners, Unbind;
    var free := LeaveAll(WithUser(db, u), u);
    LeaveKeepsConstraints(WithUser(db, u), u);
    SameCredentialsUnique(free.teachers, Bind(free.teachers, id, u));
  }

  lemma StepKeepsConstraints(db: Db, a: Action)
    requires Constraints(db)
    ensures Constraints(Do(db, a))
  {
    hide Constraints, LoginStudent, LoginTeacher, LeaveAll, ImportTeacher, MadeUpId;
    hide StudentAccepted, TeacherAccepted, LeaveAccepted, Matches;
    match a
    case StudentLogin(u, id, login, password) =>
      if Matches(db.students, id, login, password) && StudentAccepted(db, u, id) { StudentKeepsConstraints(db, u, id); }
    case TeacherLogin(u, id, login, password) =>
      if Matches(db.teachers, id, login, password) && TeacherAccepted(db, u, id) { TeacherKeepsConstraints(db, u, id); }
    case Leave(u) => if LeaveAccepted(db, u) { LeaveKeepsConstraints(db, u); }
    case Import(name, hash) => ImportKeepsConstraints(db, name, MadeUpId(hash));
  }

  /** Whatever numbers come as user ids, the constraints hold over every run. */
  lemma {:induction false} RunKeepsConstraints(db: Db, acts: seq<Action>)
    requires Constraints(db)
    ensures Constraints(Run(db, acts))
  {
    if acts != [] {
      RunKeepsConstraints(db, acts[..|acts| - 1]);
      StepKeepsConstraints(Run(db, acts[..|acts| - 1]), acts[|acts| - 1]);
    }
  }

  // ---- an import is refused for its made-up id only

  /** While logins are the default ones, an import of a teacher fails exactly if the name is new and another
      teacher has its made-up id; no login is ever taken. */
  lemma ImportOutcome(db: Db, name: string, pseudo: int)
    requires OwnLogins(db.teachers)
    ensures var after := ImportTeacher(db, name, pseudo);
            && OwnLogins(after.teachers)
            && (HasOwner(after.teachers, name) <==> HasOwner(db.teachers, name) || !Holds(db.teachers, pseudo))
  {
    RefusedIff(db.teachers, db.nextTeacher, name, pseudo);
    if HasOwner(db.teachers, name) || !Holds(db.teachers, pseudo) {
      ImportedThere(db.teachers, db.nextTeacher, name, pseudo);
    }
  }

  lemma StepKeepsLogins(db: Db, a: Action)
    requires OwnLogins(db.teachers)
    ensures OwnLogins(Do(db, a).teachers)
  {
    hide DefaultLogin, MadeUpId, ImportRows, ImportRefused, UniqueUsers;
    if a.Import? { ImportOutcome(db, a.name, MadeUpId(a.hash)); }
  }

  lemma {:induction false} RunKeepsLogins(db: Db, acts: seq<Action>)
    requires OwnLogins(db.teachers)
    ensures OwnLogins(Run(db, acts).teachers)
  {
    if acts != [] {
      RunKeepsLogins(db, acts[..|acts| - 1]);
      StepKeepsLogins(Run(db, acts[..|acts| - 1]), acts[|acts| - 1]);
    }
  }

  // ---- what stays with an account

  /** The rows of before are all there, with their owners and with every login and password that was set. */
  predicate SameAccounts(before: Rows, after: Rows) {
    forall i | i in before ::
      && i in after && after[i].owner == before[i].owner
      && (before[i].login.Some? ==> after[i].login == before[i].login)
      && (before[i].password.Some? ==> after[i].password == before[i].password)
  }

  lemma LeaveKeepsAccounts(db: Db, u: int)
    ensures SameAccounts(db.students, LeaveAll(db, u).students) && SameAccounts(db.teachers, LeaveAll(db, u).teachers)
    ensures forall i | i in LeaveAll(db, u).students :: i in db.students
  {
  }

  lemma BindKeepsAccounts(before: Rows, rows: Rows, id: int, u: int)
    requires SameAccounts(before, rows)
    ensures SameAccounts(before, Bind(rows, id, u))
  {
  }

  lemma ImportKeepsAccounts(rows: Rows, next: int, name: string, pseudo: int)
    requires next !in rows
    ensures SameAccounts(rows, ImportRows(rows, next, name, pseudo))
  {
    hide DefaultLogin;
  }

  lemma StepKeepsAccounts(db: Db, a: Action)
    requires Constraints(db)
    ensures SameAccounts(db.students, Do(db, a).students) && SameAccounts(db.teachers, Do(db, a).teachers)
    ensures forall i | i in Do(db, a).students :: i in db.students
  {
    hide ImportRows, ImportRefused, MadeUpId, UniqueLogins, Matches, UniqueUsers, UniqueOwners;
    match a
    case StudentLogin(u, id, _, _) =>
      LeaveKeepsAccounts(WithUser(db, u), u);
      BindKeepsAccounts(db.students, LeaveAll(WithUser(db, u), u).students, id, u);
    case TeacherLogin(u, id, _, _) =>
      LeaveKeepsAccounts(WithUser(db, u), u);
      BindKeepsAccounts(db.teachers, LeaveAll(WithUser(db, u), u).teachers, id, u);
    case Leave(u) => LeaveKeepsAccounts(db, u);
    case Import(name, hash) => ImportKeepsAccounts(db.teachers, db.nextTeacher, name, MadeUpId(hash));
  }

  /** Logins and leaves move nothing but user ids: over every run each account stays with its owner and
      keeps its credentials, and no student account appears. */
  lemma {:induction false} RunKeepsAccounts(db: Db, acts: seq<Action>)
    requires Constraints(db)
    ensures SameAccounts(db.students, Run(db, acts).students) && SameAccounts(db.teachers, Run(db, acts).teachers)
    ensures forall i | i in Run(db, acts).students :: i in db.students
  {
    if acts != [] {
      RunKeepsAccounts(db, acts[..|acts| - 1]);
      RunKeepsConstraints(db, acts[..|acts| - 1]);
      StepKeepsAccounts(Run(db, acts[..|acts| - 1]), acts[|acts| - 1]);
    }
  }

  lemma PlaceholdersMeet(student: int, teacher: int)
    ensures StudentPlaceholder(student) == TeacherPlaceholder(teacher) <==> teacher == student + GAP
  {
  }

  /** The only id the two tables can share is the placeholder of a student row and of the teacher row whose
      number is 10^14 higher. */
  lemma SharedIsPlaceholder(db: Db, i: int, j: int)
    requires Inv(db) && i in db.students && j in db.teachers && db.students[i].userId == db.teachers[j].userId
    ensures j == i + GAP && db.students[i].userId == StudentPlaceholder(i)
  {
  }

  predicate Disjoint(db: Db) {
    forall i, j | i in db.students && j in db.teachers :: db.students[i].userId != db.teachers[j].userId
  }

  /** So the tables share no id exactly if no student row and the teacher row 10^14 above it are both free. */
  lemma DisjointIff(db: Db)
    requires Inv(db)
    ensures Disjoint(db) <==>
            forall i | i in db.students && i + GAP in db.teachers ::
              db.students[i].userId == StudentPlaceholder(i) ==>
                db.teachers[i + GAP].userId != TeacherPlaceholder(i + GAP)
  {
    forall i, j | i in db.students && j in db.teachers && db.students[i].userId == db.teachers[j].userId
      ensures j == i + GAP && db.students[i].userId == StudentPlaceholder(i)
    {
      SharedIsPlaceholder(db, i, j);
    }
    forall i | i in db.students && i + GAP in db.teachers
      ensures StudentPlaceholder(i) == TeacherPlaceholder(i + GAP)
    {
      PlaceholdersMeet(i, i + GAP);
    }
  }

  /** So as long as the teachers' numbers stay within 10^14, no id at all is in both tables, in any run. */
  lemma RunKeepsDisjoint(db: Db, acts: seq<Action>)
    requires Inv(db) && Real(acts) && db.nextTeacher + |acts| <= GAP + 1
    ensures Disjoint(Run(db, acts))
  {
    RunKeepsInv(db, acts);
    var after := Run(db, acts);
    forall i, j | i in after.students && j in after.teachers
      ensures after.students[i].userId != after.teachers[j].userId
    {
      if after.students[i].userId == after.teachers[j].userId { SharedIsPlaceholder(after, i, j); }
    }
  }

  lemma LeavesPlaceholders(db: Db, i: int, j: int, u: TelegramId, v: TelegramId)
    requires i in db.students && j in db.teachers && db.students[i].userId == u && db.teachers[j].userId == v && u != v
    requires 0 < i && 0 < j
    ensures var after := LeaveAll(LeaveAll(db, u), v);
            && i in after.students && after.students[i].userId == StudentPlaceholder(i)
            && j in after.teachers && after.teachers[j].userId == TeacherPlaceholder(j)
  {
    var one := LeaveAll(db, u);
    assert one.students[i].userId == StudentPlaceholder(i) && one.teachers[j].userId == v;
  }

  lemma MeetsNotDisjoint(db: Db, i: int, j: int)
    requires i in db.students && j in db.teachers && db.students[i].userId == db.teachers[j].userId
    ensures !Disjoint(db)
  {
  }

  /** Student 1 and teacher 10^14 + 1, both held. */
  function BeyondGap(owner: string): Db {
    Db({7, 8}, map[1 := Account(7, owner, None, None)], map[GAP + 1 := Account(8, owner, None, None)], GAP + 2)
  }

  lemma RunTwo(db: Db, a: Action, b: Action)
    ensures Run(db, [a, b]) == Do(Do(db, a), b)
  {
    assert [a, b][..1] == [a] && [a][..0] == [];
    assert Run(db, [a]) == Do(db, a);
  }

  lemma BeyondGapInv(owner: string)
    ensures Inv(BeyondGap(owner)) && Disjoint(BeyondGap(owner))
  {
  }

  /** Beyond that they can meet: teacher 10^14 + 1 and student 1, once both have left. */
  lemma DisjointFailsBeyond(owner: string)
    ensures var db := BeyondGap(owner); Inv(db) && Disjoint(db) && !Disjoint(Run(db, [Leave(7), Leave(8)]))
  {
    hide Inv, Disjoint, LeaveAll, Run;
    var db := BeyondGap(owner);
    BeyondGapInv(owner);
    LeaveInv(db, 7);
    LeaveInv(LeaveAll(db, 7), 8);
    RunTwo(db, Leave(7), Leave(8));
    LeavesPlaceholders(db, 1, GAP + 1, 7, 8);
    PlaceholdersMeet(1, GAP + 1);
    MeetsNotDisjoint(LeaveAll(LeaveAll(db, 7), 8), 1, GAP + 1);
  }
}
