/** The timetable tables with their row numbers, and the transaction that saves one lesson of one group. */
module TimetableFill {
  import opened Text
  import opened UserIds
  import opened AccountRows
  import opened TimetableView

  datatype LessonRow = LessonRow(
    subject: string, lessonType: string, weekday: Weekday, start: Clock, week: Week, teacherId: int, roomId: int)

  datatype Link = Link(lessonId: int, groupId: int)

  datatype Tables = Tables(
    users: set<int>, groups: map<int, string>, teachers: Rows, rooms: map<int, string>,
    lessons: map<int, LessonRow>, links: set<Link>)

  // ---- what the schema enforces

  predicate UniqueNames(names: map<int, string>) {
    forall i, j | i in names && j in names && names[i] == names[j] :: i == j
  }

  predicate UniqueTeachers(teachers: Rows) { UniqueOwners(teachers) && UniqueUsers(teachers) }

  /** `idx_teachers_login`. */
  predicate LoginFree(teachers: Rows, id: int, login: Option<string>) {
    forall j | j in teachers && j != id :: teachers[j].login != login
  }

  /** While logins are the default ones, that of a row is never taken by another. */
  lemma DefaultLoginFree(teachers: Rows, id: int)
    requires OwnLogins(teachers)
    ensures LoginFree(teachers, id, Some(DefaultLogin(id)))
  {
    forall j | j in teachers && j != id ensures teachers[j].login != Some(DefaultLogin(id)) {
      if teachers[j].login == Some(DefaultLogin(id)) { DefaultLoginInjective(j, id); }
    }
  }

  predicate UniqueLessons(lessons: map<int, LessonRow>) {
    forall i, j | i in lessons && j in lessons && lessons[i] == lessons[j] :: i == j
  }

  predicate References(t: Tables) {
    && (forall i | i in t.teachers :: t.teachers[i].userId in t.users)
    && (forall i | i in t.lessons :: t.lessons[i].teacherId in t.teachers && t.lessons[i].roomId in t.rooms)
    && (forall l | l in t.links :: l.lessonId in t.lessons && l.groupId in t.groups)
  }

  predicate Sound(t: Tables) {
    && UniqueNames(t.groups) && UniqueNames(t.rooms) && UniqueTeachers(t.teachers) && UniqueLessons(t.lessons)
    && References(t)
  }

  // ---- the rows told by their names

  function LessonOf(t: Tables, r: LessonRow): Lesson
    requires r.teacherId in t.teachers && r.roomId in t.rooms
  {
    Lesson(r.subject, r.lessonType, r.weekday, r.start, r.week, t.teachers[r.teacherId].owner, t.rooms[r.roomId])
  }

  function LinkOf(t: Tables, l: Link): Entry
    requires References(t) && l.lessonId in t.lessons && l.groupId in t.groups
  {
    Entry(t.groups[l.groupId], LessonOf(t, t.lessons[l.lessonId]))
  }

  function NamesIn(m: map<int, string>): set<string> { set i | i in m :: m[i] }

  function ViewOf(t: Tables): View
    requires References(t)
  {
    View(NamesIn(t.groups),
         set i | i in t.teachers :: t.teachers[i].owner,
         set i | i in t.teachers :: t.teachers[i].userId,
         NamesIn(t.rooms),
         set i | i in t.lessons :: LessonOf(t, t.lessons[i]),
         set l | l in t.links :: LinkOf(t, l))
  }

  /** No two lesson rows stand for the same lesson, and each row is counted once in the view. */
  lemma LessonKeysUnique(t: Tables)
    requires Sound(t)
    ensures forall i, j | i in t.lessons && j in t.lessons ::
              LessonOf(t, t.lessons[i]) == LessonOf(t, t.lessons[j]) ==> i == j
    ensures forall k, l | k in t.links && l in t.links && LinkOf(t, k) == LinkOf(t, l) :: k == l
  {
    forall i, j | i in t.lessons && j in t.lessons && LessonOf(t, t.lessons[i]) == LessonOf(t, t.lessons[j])
      ensures i == j
    {
      var a, b := t.lessons[i], t.lessons[j];
      assert a.teacherId == b.teacherId && a.roomId == b.roomId;
      assert a == b;
    }
  }

  // ---- a row more, and what it does to the names

  /** A table with every old row as it was and at most the named row more. */
  predicate OneMore<T(==)>(m: map<int, T>, m': map<int, T>, id: int) {
    && (forall i | i in m :: i in m' && m'[i] == m[i])
    && (forall i | i in m' :: i in m || i == id)
  }

  /** The same for teachers, who may get a login on the way. */
  predicate OneTeacherMore(m: Rows, m': Rows, id: int) {
    && (forall i | i in m :: i in m' && m'[i].owner == m[i].owner && m'[i].userId == m[i].userId)
    && (forall i | i in m' :: i in m || i == id)
  }

  /** The rows of the saved entry. */
  datatype SavedRows = SavedRows(groupId: int, teacherId: int, roomId: int, lessonId: int)

  /** The tables after saving an entry: the rows named, every old row as it was, and no other row. */
  predicate SavedAs(t: Tables, t': Tables, rows: SavedRows, e: Entry) {
    && OneMore(t.groups, t'.groups, rows.groupId) && rows.groupId in t'.groups && t'.groups[rows.groupId] == e.group
    && OneTeacherMore(t.teachers, t'.teachers, rows.teacherId)
    && rows.teacherId in t'.teachers && t'.teachers[rows.teacherId].owner == e.lesson.tutor
    && OneMore(t.rooms, t'.rooms, rows.roomId) && rows.roomId in t'.rooms && t'.rooms[rows.roomId] == e.lesson.room
    && OneMore(t.lessons, t'.lessons, rows.lessonId) && rows.lessonId in t'.lessons
    && t'.lessons[rows.lessonId]
       == LessonRow(e.lesson.subject, e.lesson.lessonType, e.lesson.weekday, e.lesson.start, e.lesson.week,
                    rows.teacherId, rows.roomId)
    && t'.links == t.links + {Link(rows.lessonId, rows.groupId)}
  }

  lemma ReferencesAfter(t: Tables, t': Tables, rows: SavedRows, e: Entry)
    requires References(t) && SavedAs(t, t', rows, e)
    requires forall i | i in t'.teachers :: t'.teachers[i].userId in t'.users
    ensures References(t')
  {
    forall i | i in t'.lessons ensures t'.lessons[i].teacherId in t'.teachers && t'.lessons[i].roomId in t'.rooms {
      if i != rows.lessonId { assert t'.lessons[i] == t.lessons[i]; }
    }
    forall l | l in t'.links ensures l.lessonId in t'.lessons && l.groupId in t'.groups {}
  }

  lemma NamesAfter(m: map<int, string>, m': map<int, string>, id: int, name: string)
    requires OneMore(m, m', id) && id in m' && m'[id] == name
    ensures NamesIn(m') == NamesIn(m) + {name}
  {
    forall i | i in m ensures m[i] in NamesIn(m') { assert m'[i] in NamesIn(m'); }
  }

  lemma TutorsAfter(t: Tables, t': Tables, id: int, userId: int)
    requires OneTeacherMore(t.teachers, t'.teachers, id) && id in t'.teachers && UniqueTeachers(t'.teachers)
    requires id !in t.teachers ==> t'.teachers[id].userId == userId
    ensures References(t) && References(t') ==>
            var name := t'.teachers[id].owner;
            && ViewOf(t').tutors == ViewOf(t).tutors + {name}
            && ViewOf(t').taken == if name in ViewOf(t).tutors then ViewOf(t).taken else ViewOf(t).taken + {userId}
  {
    if References(t) && References(t') {
      var name := t'.teachers[id].owner;
      var v, v' := ViewOf(t), ViewOf(t');
      forall i | i in t.teachers ensures t.teachers[i].owner in v'.tutors && t.teachers[i].userId in v'.taken {
        assert t'.teachers[i].owner in v'.tutors && t'.teachers[i].userId in v'.taken;
      }
      assert v'.tutors == v.tutors + {name};
      if id in t.teachers {
        assert t.teachers[id].owner == name;
        assert v'.taken == v.taken;
      } else {
        assert name !in v.tutors;
        assert v'.taken == v.taken + {userId};
      }
    }
  }

  lemma LessonsAfter(t: Tables, t': Tables, rows: SavedRows, e: Entry)
    requires References(t) && References(t') && SavedAs(t, t', rows, e)
    ensures ViewOf(t').lessons == ViewOf(t).lessons + {e.lesson}
    ensures ViewOf(t').links == ViewOf(t).links + {e}
  {
    var v, v' := ViewOf(t), ViewOf(t');
    assert LessonOf(t', t'.lessons[rows.lessonId]) == e.lesson;
    forall i | i in t.lessons ensures LessonOf(t', t'.lessons[i]) == LessonOf(t, t.lessons[i]) {}
    assert v'.lessons == v.lessons + {e.lesson};
    var added := Link(rows.lessonId, rows.groupId);
    assert LinkOf(t', added) == e;
    forall l | l in t.links ensures LinkOf(t', l) == LinkOf(t, l) {}
    assert v'.links == v.links + {e};
  }

  /** Whichever row numbers were used, the names after saving an entry are those of the entry added. */
  lemma ViewAfterSave(hash: string -> nat, t: Tables, t': Tables, rows: SavedRows, e: Entry)
    requires Sound(t) && Sound(t') && SavedAs(t, t', rows, e)
    requires rows.teacherId !in t.teachers ==> t'.teachers[rows.teacherId].userId == PseudoId(hash, e.lesson.tutor)
    ensures ViewOf(t') == Add(hash, ViewOf(t), e)
  {
    NamesAfter(t.groups, t'.groups, rows.groupId, e.group);
    NamesAfter(t.rooms, t'.rooms, rows.roomId, e.lesson.room);
    TutorsAfter(t, t', rows.teacherId, PseudoId(hash, e.lesson.tutor));
    LessonsAfter(t, t', rows, e);
  }

  // ---- the same in columns

  /** The name in the table is the item's, trimmed, or the default for none. */
  predicate NameSays(name: string, given: string, default: string) {
    if Blank(given) then name == default else name == TrimSpace(given)
  }

  /** The rows behind a link say, each in its own column, what the item says of the group. */
  ghost predicate RowsSay(t: Tables, l: Link, group: string, it: Item) {
    && l.lessonId in t.lessons && l.groupId in t.groups && WithoutBlanks(TrimSpace(group), t.groups[l.groupId])
    && var row := t.lessons[l.lessonId];
       && row.subject == it.subject && row.lessonType == TrimSpace(it.lessonType)
       && row.weekday == it.weekday && row.start == it.start && row.week == it.week
       && row.teacherId in t.teachers && NameSays(t.teachers[row.teacherId].owner, it.tutor, NO_TUTOR)
       && row.roomId in t.rooms && NameSays(t.rooms[row.roomId], it.room, NO_ROOM)
  }

  lemma NameOrSays(name: string, given: string, default: string)
    ensures name == NameOr(given, default) <==> NameSays(name, given, default)
  {
  }

  lemma GroupSays(name: string, group: string)
    ensures name == NormalizeGroup(group) <==> WithoutBlanks(TrimSpace(group), name)
  {
    hide WithoutBlanks, TrimSpace;
    NormalizeGroupInWords(group);
    if WithoutBlanks(TrimSpace(group), name) { WithoutBlanksUnique(TrimSpace(group), name); }
  }

  /** The names of a link are those of an item exactly if its rows say what the item says. */
  lemma LinkSays(t: Tables, l: Link, group: string, it: Item)
    requires References(t) && l in t.links
    ensures LinkOf(t, l) == Named(group, it) <==> RowsSay(t, l, group, it)
  {
    hide WithoutBlanks, TrimSpace, NormalizeGroup, NameOr, NameSays;
    var row := t.lessons[l.lessonId];
    GroupSays(t.groups[l.groupId], group);
    NameOrSays(t.teachers[row.teacherId].owner, it.tutor, NO_TUTOR);
    NameOrSays(t.rooms[row.roomId], it.room, NO_ROOM);
  }

  ghost predicate ItemThere(t: Tables, group: string, it: Item) {
    exists l :: l in t.links && RowsSay(t, l, group, it)
  }

  lemma ItemThereIff(t: Tables, group: string, it: Item)
    requires References(t)
    ensures Named(group, it) in ViewOf(t).links <==> ItemThere(t, group, it)
  {
    hide RowsSay, Named, LinkOf;
    forall l | l in t.links ensures LinkOf(t, l) == Named(group, it) <==> RowsSay(t, l, group, it) {
      LinkSays(t, l, group, it);
    }
    if Named(group, it) in ViewOf(t).links {
      var l :| l in t.links && LinkOf(t, l) == Named(group, it);
    }
    if l :| l in t.links && RowsSay(t, l, group, it) {
      assert LinkOf(t, l) in ViewOf(t).links;
    }
  }

  /** The tables after a save: at most one row more in each, those of the link that is there now, and no row gone. */
  ghost predicate SavedInColumns(t: Tables, t': Tables, rows: SavedRows, group: string, it: Item) {
    && OneMore(t.groups, t'.groups, rows.groupId) && OneTeacherMore(t.teachers, t'.teachers, rows.teacherId)
    && OneMore(t.rooms, t'.rooms, rows.roomId) && OneMore(t.lessons, t'.lessons, rows.lessonId)
    && t'.links == t.links + {Link(rows.lessonId, rows.groupId)}
    && RowsSay(t', Link(rows.lessonId, rows.groupId), group, it)
  }

  lemma SaveInColumns(t: Tables, t': Tables, rows: SavedRows, group: string, it: Item)
    requires References(t') && SavedAs(t, t', rows, Named(group, it))
    ensures SavedInColumns(t, t', rows, group, it) && ItemThere(t', group, it)
  {
    hide Named, RowsSay, OneMore, OneTeacherMore;
    LinkSays(t', Link(rows.lessonId, rows.groupId), group, it);
    assert Link(rows.lessonId, rows.groupId) in t'.links;
  }

  /** A row can only say one thing of each column. */
  lemma RowsSayOne(t: Tables, l: Link, g: string, a: Item, h: string, b: Item)
    requires RowsSay(t, l, g, a) && RowsSay(t, l, h, b)
    ensures a.subject == b.subject && a.weekday == b.weekday && a.start == b.start && a.week == b.week
    ensures TrimSpace(a.lessonType) == TrimSpace(b.lessonType)
    ensures SameName(a.tutor, b.tutor, NO_TUTOR) && SameName(a.room, b.room, NO_ROOM)
    ensures NormalizeGroup(g) == NormalizeGroup(h)
  {
    hide WithoutBlanks, TrimSpace, NormalizeGroup;
    GroupSays(t.groups[l.groupId], g);
    GroupSays(t.groups[l.groupId], h);
  }

  predicate SameRows(m: map<int, LessonRow>, m': map<int, LessonRow>) {
    (forall i | i in m' :: i in m) && forall i | i in m :: i in m' && m'[i] == m[i]
  }

  /** An entry that is there already brings no row. */
  lemma NothingNew(t: Tables, t': Tables, rows: SavedRows, e: Entry)
    requires Sound(t) && Sound(t') && SavedAs(t, t', rows, e) && e in ViewOf(t).links
    ensures SameRows(t.lessons, t'.lessons) && t'.links == t.links
  {
    var l :| l in t.links && LinkOf(t, l) == e;
    assert t'.groups[l.groupId] == e.group;
    var a := t.lessons[l.lessonId];
    assert t'.teachers[a.teacherId].owner == e.lesson.tutor && t'.rooms[a.roomId] == e.lesson.room;
    assert t'.lessons[l.lessonId] == t'.lessons[rows.lessonId];
    assert l == Link(rows.lessonId, rows.groupId);
    assert rows.lessonId in t.lessons;
  }

  function RoomName(name: string): string { if name == "" then NO_ROOM else name }

  function TutorName(name: string): string { if name == "" then NO_TUTOR else name }

  lemma TutorNameIs(name: string)
    ensures TutorName(name) == if name == "" then NO_TUTOR else name
  {
  }

  lemma Commit(hash: string -> nat, t: Tables, t': Tables, rows: SavedRows, e: Entry)
    requires Sound(t) && SavedAs(t, t', rows, e)
    requires UniqueNames(t'.groups) && UniqueNames(t'.rooms) && UniqueTeachers(t'.teachers) && UniqueLessons(t'.lessons)
    requires forall i | i in t'.teachers :: t'.teachers[i].userId in t'.users
    requires rows.teacherId !in t.teachers ==> t'.teachers[rows.teacherId].userId == PseudoId(hash, e.lesson.tutor)
    ensures References(t') && ViewOf(t') == Add(hash, ViewOf(t), e)
    ensures e in ViewOf(t).links ==> SameRows(t.lessons, t'.lessons) && t'.links == t.links
  {
    ReferencesAfter(t, t', rows, e);
    ViewAfterSave(hash, t, t', rows, e);
    if e in ViewOf(t).links { NothingNew(t, t', rows, e); }
  }

  lemma CanAddRows(hash: string -> nat, t: Tables, e: Entry)
    requires References(t)
    ensures CanAdd(hash, ViewOf(t), e) <==>
            && e.lesson.start.At?
            && (HasOwner(t.teachers, e.lesson.tutor) || !Holds(t.teachers, PseudoId(hash, e.lesson.tutor)))
  {
  }

  lemma NamedParts(group: string, it: Item)
    ensures Named(group, it) ==
            Entry(NormalizeGroup(group),
                  Lesson(it.subject, TrimSpace(it.lessonType), it.weekday, it.start, it.week,
                         TutorName(TrimSpace(it.tutor)), RoomName(TrimSpace(it.room))))
  {
  }

  /** When an item can be saved. */
  lemma CanSaveInColumns(hash: string -> nat, t: Tables, group: string, it: Item)
    requires References(t)
    ensures CanAdd(hash, ViewOf(t), Named(group, it)) <==>
            && it.start.At?
            && var name := if Blank(it.tutor) then NO_TUTOR else TrimSpace(it.tutor);
               || (exists i :: i in t.teachers && t.teachers[i].owner == name)
               || forall i | i in t.teachers :: t.teachers[i].userId != PseudoId(hash, name)
  {
    hide NormalizeGroup, TrimSpace, Blank, PseudoId, ViewOf, CanAdd;
    CanAddRows(hash, t, Named(group, it));
    assert TrimSpace(it.tutor) == "" <==> Blank(it.tutor);
  }

  function NamedAll(group: string, items: seq<Item>): seq<Entry> {
    seq(|items|, i requires 0 <= i < |items| => Named(group, items[i]))
  }

  lemma NamedNormal(group: string, items: seq<Item>, i: nat)
    requires i < |items|
    ensures NamedAll(group, items)[i] == Named(NormalizeGroup(group), items[i])
  {
    NormalizeGroupTwice(group);
  }

  predicate AllThere(v: View, es: seq<Entry>) { forall i | 0 <= i < |es| :: es[i] in v.links }

  lemma {:induction false} LinksGrow(hash: string -> nat, v: View, es: seq<Entry>)
    ensures v.links <= FillAll(hash, v, es).view.links
  {
    if es != [] { LinksGrow(hash, v, es[..|es| - 1]); }
  }

  lemma {:induction false} LinksStay(hash: string -> nat, v: View, es: seq<Entry>, n: nat)
    requires n < |es|
    ensures AllThere(v, es) ==> es[n] in FillAll(hash, v, es[..n]).view.links
  {
    LinksGrow(hash, v, es[..n]);
  }

  lemma {:induction false} LinksFrom(hash: string -> nat, v: View, es: seq<Entry>, e: Entry)
    requires e in FillAll(hash, v, es).view.links
    ensures e in v.links || exists k :: 0 <= k < |es| && es[k] == e
  {
    if es != [] {
      var n := |es| - 1;
      if e in FillAll(hash, v, es[..n]).view.links {
        LinksFrom(hash, v, es[..n], e);
        if k :| 0 <= k < n && es[..n][k] == e { assert es[k] == e; }
      } else {
        assert es[n] == e;
      }
    }
  }

  /** The link was there by its names, or one of the items is behind it. */
  ghost predicate OldOrSaid(v: View, t: Tables, l: Link, group: string, items: seq<Item>)
    requires References(t) && l in t.links
  {
    LinkOf(t, l) in v.links || exists k :: 0 <= k < |items| && RowsSay(t, l, group, items[k])
  }

  lemma LinkFrom(hash: string -> nat, v: View, t: Tables, group: string, items: seq<Item>, l: Link)
    requires References(t) && ViewOf(t) == FillAll(hash, v, NamedAll(group, items)).view && l in t.links
    ensures OldOrSaid(v, t, l, group, items)
  {
    hide RowsSay, Named, FillAll;
    var es := NamedAll(group, items);
    assert LinkOf(t, l) in ViewOf(t).links;
    LinksFrom(hash, v, es, LinkOf(t, l));
    if k :| 0 <= k < |es| && es[k] == LinkOf(t, l) { LinkSays(t, l, group, items[k]); }
  }

  lemma ItemFilled(hash: string -> nat, v: View, t: Tables, group: string, items: seq<Item>, k: nat)
    requires References(t) && FillAll(hash, v, NamedAll(group, items)) == Fill(true, ViewOf(t)) && k < |items|
    ensures ItemThere(t, group, items[k])
  {
    hide Named, FillAll, ItemThere, ViewOf;
    FillOutcome(hash, v, NamedAll(group, items));
    assert NamedAll(group, items)[k] == Named(group, items[k]);
    ItemThereIff(t, group, items[k]);
  }

  lemma AllItemsThere(t: Tables, group: string, items: seq<Item>)
    requires References(t)
    ensures AllThere(ViewOf(t), NamedAll(group, items)) <==>
            forall k | 0 <= k < |items| :: ItemThere(t, group, items[k])
  {
    hide ItemThere, Named, ViewOf;
    var es := NamedAll(group, items);
    forall k | 0 <= k < |items| ensures es[k] in ViewOf(t).links <==> ItemThere(t, group, items[k]) {
      ItemThereIff(t, group, items[k]);
    }
  }

  class TimetableDb {
    const hash: string -> nat
    var users: set<int>
    var groups: map<int, string>
    var teachers: Rows
    var rooms: map<int, string>
    var lessons: map<int, LessonRow>
    var links: set<Link>
    var nextGroup: int
    var nextTeacher: int
    var nextRoom: int
    var nextLesson: int

    ghost function Now(): Tables
      reads this
    {
      Tables(users, groups, teachers, rooms, lessons, links)
    }

    ghost predicate GroupsOk()
      reads this`groups, this`nextGroup
    {
      UniqueNames(groups) && forall i | i in groups :: i < nextGroup
    }

    ghost predicate RoomsOk()
      reads this`rooms, this`nextRoom
    {
      UniqueNames(rooms) && forall i | i in rooms :: i < nextRoom
    }

    ghost predicate TeachersOk()
      reads this`teachers, this`nextTeacher, this`users
    {
      && UniqueTeachers(teachers) && OwnLogins(teachers)
      && forall i | i in teachers :: i < nextTeacher && teachers[i].userId in users
    }

    ghost predicate LessonsOk()
      reads this`lessons, this`nextLesson
    {
      UniqueLessons(lessons) && forall i | i in lessons :: i < nextLesson
    }

    ghost predicate Valid()
      reads this
    {
      GroupsOk() && RoomsOk() && TeachersOk() && LessonsOk() && References(Now())
    }

    ghost function Contents(): View
      reads this
      requires Valid()
    {
      ViewOf(Now())
    }

    constructor (hash: string -> nat)
      ensures Valid() && this.hash == hash && Contents() == View({}, {}, {}, {}, {}, {})
    {
      this.hash := hash;
      users, groups, teachers, rooms, lessons, links := {}, map[], map[], map[], map[], {};
      nextGroup, nextTeacher, nextRoom, nextLesson := 1, 1, 1, 1;
    }

    /** Get or create by the unique name; an insert that conflicts still uses up a number. */
    method EnsureGroup(name: string) returns (id: int)
      requires GroupsOk()
      modifies this`groups, this`nextGroup
      ensures GroupsOk() && nextGroup > old(nextGroup)
      ensures OneMore(old(groups), groups, id) && id in groups && groups[id] == name
    {
      var number := nextGroup;
      nextGroup := nextGroup + 1;
      if forall i | i in groups :: groups[i] != name {
        groups := groups[number := name];
        assert groups[number] == name;
      }
      id :| id in groups && groups[id] == name;
    }

    method EnsureRoom(name: string) returns (id: int)
      requires RoomsOk()
      modifies this`rooms, this`nextRoom
      ensures RoomsOk() && nextRoom > old(nextRoom)
      ensures OneMore(old(rooms), rooms, id) && id in rooms && rooms[id] == RoomName(name)
      ensures rooms[id] == if name == "" then NO_ROOM else name
    {
      var roomName := RoomName(name);
      var number := nextRoom;
      nextRoom := nextRoom + 1;
      if forall i | i in rooms :: rooms[i] != roomName {
        rooms := rooms[number := roomName];
        assert rooms[number] == roomName;
      }
      id :| id in rooms && rooms[id] == roomName;
    }

    /** The insert is skipped when the name or the made-up user id is there already; the row is then looked
        up by name, which fails exactly when the name is new and another teacher holds that id. The login and
        the password are filled in where there is none; the login is never another teacher's. Row by row this
        is the import of a teacher. */
    method EnsureTeacher(name: string) returns (ok: bool, id: int)
      requires TeachersOk()
      modifies this`users, this`teachers, this`nextTeacher
      ensures TeachersOk() && nextTeacher == old(nextTeacher) + 1
      ensures users == old(users) + {PseudoId(hash, TutorName(name))}
      ensures SameTable(ImportRows(old(teachers), old(nextTeacher), TutorName(name), PseudoId(hash, TutorName(name))),
                        teachers)
      ensures ok <==> !ImportRefused(old(teachers), old(nextTeacher), TutorName(name), PseudoId(hash, TutorName(name)))
      ensures ok <==> (|| HasOwner(old(teachers), TutorName(name))
                       || !Holds(old(teachers), PseudoId(hash, TutorName(name))))
      ensures !ok ==> teachers == old(teachers)
      ensures ok ==> OneTeacherMore(old(teachers), teachers, id)
      ensures ok ==> id in teachers && teachers[id].owner == TutorName(name)
      ensures ok ==> teachers[id].owner == if name == "" then NO_TUTOR else name
      ensures ok ==> forall i | i in old(teachers) && i != id :: teachers[i] == old(teachers)[i]
      ensures ok ==> teachers[id].login == Some(DefaultLogin(id))
      ensures ok ==> teachers[id].password == if id in old(teachers) && old(teachers)[id].password.Some?
                                              then old(teachers)[id].password else Some(DefaultLogin(id))
      ensures ok && id !in old(teachers) ==> teachers[id].userId == PseudoId(hash, TutorName(name))
    {
      hide DefaultLogin, PseudoId, TutorName, Imported, ImportRefused, LoginFree, UniqueLogins;
      TutorNameIs(name);
      var tutor := TutorName(name);
      var userId := PseudoId(hash, tutor);
      RefusedIff(teachers, nextTeacher, tutor, userId);
      users := users + {userId};
      var number := nextTeacher;
      nextTeacher := nextTeacher + 1;
      ghost var before := teachers;
      var conflict := HasOwner(teachers, tutor) || Holds(teachers, userId);
      if !conflict {
        teachers := teachers[number := Account(userId, tutor, None, None)];
        assert teachers[number].owner == tutor;
      }
      assert teachers == WithTeacher(before, number, tutor, userId);
      if !HasOwner(teachers, tutor) {
        return false, 0;
      }
      id :| id in teachers && teachers[id].owner == tutor;
      FilledOne(before, number, tutor, userId, id);
      var login := OrElse(teachers[id].login, DefaultLogin(id));
      var password := OrElse(teachers[id].password, DefaultLogin(id));
      DefaultLoginFree(teachers, id);
      if !LoginFree(teachers, id, login) {
        return false, 0;
      }
      teachers := teachers[id := teachers[id].(login := login, password := password)];
      ok := true;
    }

    method EnsureLesson(row: LessonRow) returns (ok: bool, id: int)
      requires LessonsOk()
      modifies this`lessons, this`nextLesson
      ensures LessonsOk() && nextLesson >= old(nextLesson) && (ok <==> row.start.At?)
      ensures ok ==> OneMore(old(lessons), lessons, id) && id in lessons && lessons[id] == row
    {
      if row.start.NoClock? { return false, 0; }
      if i :| i in lessons && lessons[i] == row { return true, i; }
      id := nextLesson;
      nextLesson := nextLesson + 1;
      lessons := lessons[id := row];
      ok := true;
    }

    /** The statements of the transaction, for names already trimmed. */
    method SaveRows(group: string, tutor: string, room: string, it: Item, ghost e: Entry)
      returns (ok: bool, rows: SavedRows)
      requires Valid()
      requires e == Entry(group, Lesson(it.subject, it.lessonType, it.weekday, it.start, it.week,
                                        TutorName(tutor), RoomName(room)))
      modifies this
      ensures nextGroup >= old(nextGroup) && nextTeacher >= old(nextTeacher)
      ensures nextRoom >= old(nextRoom) && nextLesson >= old(nextLesson)
      ensures ok <==> && it.start.At?
                      && (HasOwner(old(teachers), e.lesson.tutor)
                          || !Holds(old(teachers), PseudoId(hash, e.lesson.tutor)))
      ensures ok ==> GroupsOk() && RoomsOk() && TeachersOk() && LessonsOk()
      ensures ok ==> SavedAs(old(Now()), Now(), rows, e)
      ensures ok && rows.teacherId !in old(teachers) ==>
              teachers[rows.teacherId].userId == PseudoId(hash, e.lesson.tutor)
    {
      hide PseudoId, DefaultLogin, GroupsOk, RoomsOk, TeachersOk, LessonsOk;
      hide HasOwner, Holds, OneMore, OneTeacherMore, References, SameTable, ImportRows, ImportRefused;
      rows := SavedRows(0, 0, 0, 0);
      var groupId := EnsureGroup(group);
      var teacherOk, teacherId := EnsureTeacher(tutor);
      if !teacherOk { return false, rows; }
      var roomId := EnsureRoom(room);
      var row := LessonRow(it.subject, it.lessonType, it.weekday, it.start, it.week, teacherId, roomId);
      var lessonOk, lessonId := EnsureLesson(row);
      if !lessonOk { return false, rows; }
      links := links + {Link(lessonId, groupId)};
      return true, SavedRows(groupId, teacherId, roomId, lessonId);
    }

    /** One transaction: all of it or nothing, whatever numbers it has used up. */
    method SaveEntry(group: string, tutor: string, room: string, it: Item, ghost e: Entry) returns (ok: bool)
      requires Valid()
      requires e == Entry(group, Lesson(it.subject, it.lessonType, it.weekday, it.start, it.week,
                                        TutorName(tutor), RoomName(room)))
      modifies this
      ensures Valid()
      ensures ok <==> CanAdd(hash, ViewOf(old(Now())), e)
      ensures ok ==> ViewOf(Now()) == Add(hash, ViewOf(old(Now())), e)
      ensures !ok ==> Now() == old(Now())
      ensures ok ==> exists rows :: SavedAs(old(Now()), Now(), rows, e)
      ensures ok && e in ViewOf(old(Now())).links ==> SameRows(old(lessons), lessons) && links == old(links)
    {
      hide ViewOf, Add, CanAdd, PseudoId, SavedAs, HasOwner, Holds, UniqueNames, UniqueTeachers, UniqueLessons;
      ghost var before := Now();
      var saved := (users, groups, teachers, rooms, lessons, links);
      var rows;
      ok, rows := SaveRows(group, tutor, room, it, e);
      CanAddRows(hash, before, e);
      if ok {
        Commit(hash, before, Now(), rows, e);
      } else {
        users, groups, teachers, rooms, lessons, links := saved.0, saved.1, saved.2, saved.3, saved.4, saved.5;
      }
    }

    /** Saving a lesson of a group: on success the names are those of the entry added; a lesson and link that
        are there already bring no row. */
    method UpsertGroupLesson(group: string, it: Item) returns (ok: bool)
      requires Valid()
      modifies this
      ensures Valid()
      ensures ok <==> CanAdd(hash, old(Contents()), Named(group, it))
      ensures Contents() == if ok then Add(hash, old(Contents()), Named(group, it)) else old(Contents())
      ensures !ok ==> Now() == old(Now())
      ensures ok <==> && it.start.At?
                      && var name := if Blank(it.tutor) then NO_TUTOR else TrimSpace(it.tutor);
                         || (exists i :: i in old(teachers) && old(teachers)[i].owner == name)
                         || forall i | i in old(teachers) :: old(teachers)[i].userId != PseudoId(hash, name)
      ensures ok ==> exists rows :: SavedInColumns(old(Now()), Now(), rows, group, it)
      ensures ok ==> ItemThere(Now(), group, it)
      ensures Named(group, it) in old(Contents()).links ==> SameRows(old(lessons), lessons) && links == old(links)
      ensures ItemThere(old(Now()), group, it) ==> SameRows(old(lessons), lessons) && links == old(links)
    {
      hide ViewOf, Named, Add, CanAdd, SavedAs, SavedInColumns, ItemThere, Sound;
      hide PseudoId, TrimSpace, Blank, NormalizeGroup, TutorName, RoomName;
      ghost var before := Now();
      NamedParts(group, it);
      CanSaveInColumns(hash, before, group, it);
      ItemThereIff(before, group, it);
      ok := SaveEntry(NormalizeGroup(group), TrimSpace(it.tutor), TrimSpace(it.room),
                      it.(lessonType := TrimSpace(it.lessonType)), Named(group, it));
      if ok {
        ghost var rows :| SavedAs(before, Now(), rows, Named(group, it));
        SaveInColumns(before, Now(), rows, group, it);
      }
    }

    /** The next lesson of a timetable of which the first ones are saved. */
    method SaveNext(group: string, items: seq<Item>, normal: string, n: nat, ghost v: View) returns (ok: bool)
      requires Valid() && n < |items| && normal == NormalizeGroup(group)
      requires Fill(true, Contents()) == FillAll(hash, v, NamedAll(group, items)[..n])
      modifies this
      ensures Valid()
      ensures ok ==> FillAll(hash, v, NamedAll(group, items)[..n + 1]) == Fill(true, Contents())
      ensures !ok ==> FillAll(hash, v, NamedAll(group, items)) == Fill(false, Contents())
      ensures AllThere(v, NamedAll(group, items)) ==> SameRows(old(lessons), lessons) && links == old(links)
    {
      NamedNormal(group, items, n);
      FillStep(hash, v, NamedAll(group, items), n);
      LinksStay(hash, v, NamedAll(group, items), n);
      ok := UpsertGroupLesson(normal, items[n]);
    }

    /** All the lessons of a group, one transaction each, up to the first that fails. A timetable that is
        there already brings no row. */
    method FillGroupSchedule(group: string, items: seq<Item>) returns (ok: bool)
      requires Valid()
      modifies this
      ensures Valid()
      ensures Fill(ok, Contents()) == FillAll(hash, old(Contents()), NamedAll(group, items))
      ensures (forall k | 0 <= k < |items| :: ItemThere(old(Now()), group, items[k])) ==>
                SameRows(old(lessons), lessons) && links == old(links)
      ensures ok ==> forall k | 0 <= k < |items| :: ItemThere(Now(), group, items[k])
      ensures forall l | l in links :: OldOrSaid(old(Contents()), Now(), l, group, items)
    {
      hide ViewOf, NormalizeGroup, Named, ItemThere, OldOrSaid;
      ghost var v, es := Contents(), NamedAll(group, items);
      AllItemsThere(Now(), group, items);
      var normal := NormalizeGroup(group);
      ok := true;
      for i := 0 to |items|
        invariant Valid() && ok
        invariant Fill(true, Contents()) == FillAll(hash, v, es[..i])
        invariant AllThere(v, es) ==> SameRows(old(lessons), lessons) && links == old(links)
      {
        ok := SaveNext(group, items, normal, i, v);
        if !ok { break; }
      }
      assert es[..|items|] == es;
      forall k | ok && 0 <= k < |items| ensures ItemThere(Now(), group, items[k]) {
        ItemFilled(hash, v, Now(), group, items, k);
      }
      forall l | l in links ensures OldOrSaid(v, Now(), l, group, items) { LinkFrom(hash, v, Now(), group, items, l); }
    }
  }
}
