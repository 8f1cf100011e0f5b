/** The user repository in its own form: transactions over the two tables, statement by statement, for any number
    as a user id. The database refuses a statement that would leave a user id twice in a table; the transaction
    is rolled back then. */
module UserRepoClass {
  import opened Text
  import opened UserIds
  import opened AccountRows
  import opened Accounts

  datatype Answer = Done | BadCredentials | Refused

  /** The order in which the two tables are unbound leaves the same users. */
  lemma SameUsers(users: set<int>, before: Db, userId: int)
    requires users == before.users + {userId} + Placeholders(before.teachers, TEACHER_BASE, userId)
                      + Placeholders(before.students, STUDENT_BASE, userId)
    ensures users == LeaveAll(WithUser(before, userId), userId).users
  {
    var a := Placeholders(before.students, STUDENT_BASE, userId);
    var b := Placeholders(before.teachers, TEACHER_BASE, userId);
    var c := before.users + {userId};
    assert c + b + a == c + a + b;
  }

  class UserRepo {
    var users: set<int>
    var students: Rows
    var teachers: Rows
    var nextTeacher: int

    ghost function Now(): Db
      reads this
    {
      Db(users, students, teachers, nextTeacher)
    }

    ghost predicate Valid()
      reads this
    {
      Constraints(Now())
    }

    /** The two queries of the role, students first. */
    method GetRole(userId: int) returns (role: Role)
      ensures role == RoleOf(Now(), userId)
      ensures role == Student <==> exists i :: i in students && students[i].userId == userId
      ensures role == Guest <==> && (forall i | i in students :: students[i].userId != userId)
                                 && forall i | i in teachers :: teachers[i].userId != userId
      ensures Inv(Now()) && userId > 0 ==>
                (role == Teacher <==> exists i :: i in teachers && teachers[i].userId == userId)
    {
      if Holds(students, userId) {
        return Student;
      }
      if Holds(teachers, userId) {
        return Teacher;
      }
      return Guest;
    }

    /** Refused exactly if it would give out a placeholder twice. */
    method UnbindStudentRows(userId: int) returns (ok: bool)
      requires UniqueUsers(students)
      modifies this`users, this`students
      ensures users == old(users) + Placeholders(old(students), STUDENT_BASE, userId)
      ensures forall u :: u in users <==>
                || u in old(users)
                || exists i :: i in old(students) && old(students)[i].userId == userId && u == -300_000_000_000_000 - i
      ensures ok <==> UniqueUsers(Unbind(old(students), STUDENT_BASE, userId))
      ensures ok <==> forall i, j | i in old(students) && j in old(students) ::
                        old(students)[i].userId == userId && old(students)[j].userId == -300_000_000_000_000 - i
                        ==> i == j
      ensures ok ==> GivenUp(old(students), students, 300_000_000_000_000, userId)
      ensures students == if ok then Unbind(old(students), STUDENT_BASE, userId) else old(students)
      ensures UniqueUsers(students)
    {
      UnbindAcceptedIff(students, STUDENT_BASE, userId);
      users := users + Placeholders(students, STUDENT_BASE, userId);
      var after := Unbind(students, STUDENT_BASE, userId);
      ok := UniqueUsers(after);
      if ok { students := after; }
    }

    method UnbindTeacherRows(userId: int) returns (ok: bool)
      requires UniqueUsers(teachers)
      modifies this`users, this`teachers
      ensures users == old(users) + Placeholders(old(teachers), TEACHER_BASE, userId)
      ensures forall u :: u in users <==>
                || u in old(users)
                || exists i :: i in old(teachers) && old(teachers)[i].userId == userId && u == -200_000_000_000_000 - i
      ensures ok <==> UniqueUsers(Unbind(old(teachers), TEACHER_BASE, userId))
      ensures ok <==> forall i, j | i in old(teachers) && j in old(teachers) ::
                        old(teachers)[i].userId == userId && old(teachers)[j].userId == -200_000_000_000_000 - i
                        ==> i == j
      ensures ok ==> GivenUp(old(teachers), teachers, 200_000_000_000_000, userId)
      ensures teachers == if ok then Unbind(old(teachers), TEACHER_BASE, userId) else old(teachers)
      ensures UniqueUsers(teachers)
    {
      UnbindAcceptedIff(teachers, TEACHER_BASE, userId);
      users := users + Placeholders(teachers, TEACHER_BASE, userId);
      var after := Unbind(teachers, TEACHER_BASE, userId);
      ok := UniqueUsers(after);
      if ok { teachers := after; }
    }

    /** Bad credentials exactly if no row has them; a user of Telegram is never refused then and becomes a
        student. Anything but a login changes nothing. */
    method LoginStudent(userId: int, login: string, password: string) returns (a: Answer)
      requires Valid()
      modifies this
      ensures Valid()
      ensures a == BadCredentials <==> !exists id :: Matches(old(students), id, login, password)
      ensures a == BadCredentials <==>
              forall id | id in old(students) ::
                old(students)[id].login != Some(TrimSpace(login)) || old(students)[id].password != Some(password)
      ensures forall id | id in old(students) && old(students)[id].login == Some(TrimSpace(login)) ::
                old(students)[id].password != Some(password) ==> a == BadCredentials && Now() == old(Now())
      ensures a == Done ==> exists id ::
                && id in old(students) && id in students && students[id].userId == userId
                && old(students)[id].login == Some(TrimSpace(login)) && old(students)[id].password == Some(password)
                && GivenTo(old(students), students, 300_000_000_000_000, id, userId)
      ensures a == Done ==> GivenUp(old(teachers), teachers, 200_000_000_000_000, userId)
      ensures a == Refused ==> exists id ::
                Matches(old(students), id, login, password) && !StudentAccepted(old(Now()), userId, id)
      ensures a == Done ==> exists id ::
                && Matches(old(students), id, login, password) && StudentAccepted(old(Now()), userId, id)
                && Now() == Accounts.LoginStudent(old(Now()), userId, id)
      ensures a != Done ==> Now() == old(Now())
      ensures old(Inv(Now())) && userId > 0 ==> a != Refused && Inv(Now())
      ensures old(Inv(Now())) && userId > 0 && a == Done ==> RoleOf(Now(), userId) == Student
    {
      hide UniqueUsers, Unbind, Bind, Placeholders, Inv, Known, Holds, GivenUp, TrimSpace;
      ghost var before := Now();
      var saved := (users, students, teachers);
      forall id |
        id in students && students[id].login == Some(TrimSpace(login)) && students[id].password != Some(password)
        ensures forall j :: !Matches(students, j, login, password)
      {
        OnePassword(students, id, login, password);
      }
      if id :| id in students && Matches(students, id, login, password) {
        if Inv(before) && userId > 0 { LoginStudentEffect(before, userId, id); }
        users := users + {userId};
        var ok := UnbindTeacherRows(userId);
        if ok { ok := UnbindStudentRows(userId); }
        if ok {
          var bound := Bind(students, id, userId);
          ok := UniqueUsers(bound);
          if ok { students := bound; }
        }
        if ok {
          SameUsers(users, before, userId);
          assert Now() == Accounts.LoginStudent(before, userId, id);
          LoginsInColumns(before, userId, id);
          assert StudentAccepted(before, userId, id);
          StepKeepsConstraints(before, StudentLogin(userId, id, login, password));
          a := Done;
        } else {
          users, students, teachers := saved.0, saved.1, saved.2;
          assert !StudentAccepted(before, userId, id);
          a := Refused;
        }
      } else {
        a := BadCredentials;
      }
    }

    method LoginTeacher(userId: int, login: string, password: string) returns (a: Answer)
      requires Valid()
      modifies this
      ensures Valid()
      ensures a == BadCredentials <==> !exists id :: Matches(old(teachers), id, login, password)
      ensures a == BadCredentials <==>
              forall id | id in old(teachers) ::
                old(teachers)[id].login != Some(TrimSpace(login)) || old(teachers)[id].password != Some(password)
      ensures forall id | id in old(teachers) && old(teachers)[id].login == Some(TrimSpace(login)) ::
                old(teachers)[id].password != Some(password) ==> a == BadCredentials && Now() == old(Now())
      ensures a == Done ==> exists id ::
                && id in old(teachers) && id in teachers && teachers[id].userId == userId
                && old(teachers)[id].login == Some(TrimSpace(login)) && old(teachers)[id].password == Some(password)
                && GivenTo(old(teachers), teachers, 200_000_000_000_000, id, userId)
      ensures a == Done ==> GivenUp(old(students), students, 300_000_000_000_000, userId)
      ensures a == Refused ==> exists id ::
                Matches(old(teachers), id, login, password) && !TeacherAccepted(old(Now()), userId, id)
      ensures a == Done ==> exists id ::
                && Matches(old(teachers), id, login, password) && TeacherAccepted(old(Now()), userId, id)
                && Now() == Accounts.LoginTeacher(old(Now()), userId, id)
      ensures a != Done ==> Now() == old(Now())
      ensures old(Inv(Now())) && userId > 0 ==> a != Refused && Inv(Now())
      ensures old(Inv(Now())) && userId > 0 && a == Done ==> RoleOf(Now(), userId) == Teacher
    {
      hide UniqueUsers, Unbind, Bind, Placeholders, Inv, Known, Holds, GivenUp, TrimSpace;
      ghost var before := Now();
      var saved := (users, students, teachers);
      forall id |
        id in teachers && teachers[id].login == Some(TrimSpace(login)) && teachers[id].password != Some(password)
        ensures forall j :: !Matches(teachers, j, login, password)
      {
        OnePassword(teachers, id, login, password);
      }
      if id :| id in teachers && Matches(teachers, id, login, password) {
        if Inv(before) && userId > 0 { LoginTeacherEffect(before, userId, id); }
        users := users + {userId};
        var ok := UnbindTeacherRows(userId);
        if ok { ok := UnbindStudentRows(userId); }
        if ok {
          var bound := Bind(teachers, id, userId);
          ok := UniqueUsers(bound);
          if ok { teachers := bound; }
        }
        if ok {
          SameUsers(users, before, userId);
          assert Now() == Accounts.LoginTeacher(before, userId, id);
          LoginsInColumns(before, userId, id);
          assert TeacherAccepted(before, userId, id);
          StepKeepsConstraints(before, TeacherLogin(userId, id, login, password));
          a := Done;
        } else {
          users, students, teachers := saved.0, saved.1, saved.2;
          assert !TeacherAccepted(before, userId, id);
          a := Refused;
        }
      } else {
        a := BadCredentials;
      }
    }

    /** A user of Telegram is never refused and is a guest after it. */
    method Leave(userId: int) returns (ok: bool)
      requires Valid()
      modifies this
      ensures Valid()
      ensures ok <==> LeaveAccepted(old(Now()), userId)
      ensures Now() == if ok then LeaveAll(old(Now()), userId) else old(Now())
      ensures ok ==> GivenUp(old(students), students, 300_000_000_000_000, userId)
      ensures ok ==> GivenUp(old(teachers), teachers, 200_000_000_000_000, userId)
      ensures old(Inv(Now())) && userId > 0 ==> ok && Inv(Now()) && RoleOf(Now(), userId) == Guest
    {
      hide UniqueUsers, Unbind, Bind, Placeholders, Inv, Known, Holds, GivenUp, TrimSpace;
      ghost var before := Now();
      var saved := (users, students, teachers);
      if Inv(before) && userId > 0 { LeaveEffect(before, userId); }
      LoginsInColumns(before, userId, 0);
      ok := UnbindStudentRows(userId);
      if ok { ok := UnbindTeacherRows(userId); }
      if ok {
        StepKeepsConstraints(before, Action.Leave(userId));
      } else {
        users, students, teachers := saved.0, saved.1, saved.2;
      }
    }
  }
}
