/** What a timetable fill means, with the row numbers left out: names of groups, teachers and rooms, lessons
    told apart by those names, and which group attends which lesson. Filling is adding one entry after another;
    this module shows that the order does not matter and that a second fill changes nothing. */
module TimetableView {
  import opened Text
  import opened UserIds

  /** A start time as the database reads it; text that is no time of day is refused there. */
  datatype Clock = NoClock | At(second: nat)

  /** Week 0 stands for every week; the table holds NULL there and reads it as 0. */
  type Week = w: int | 0 <= w <= 2 witness 0

  type Weekday = d: int | 1 <= d <= 7 witness 1

  /** A lesson as the parser delivers it. */
  datatype Item = Item(subject: string, lessonType: string, tutor: string, start: Clock, weekday: Weekday,
                       room: string, week: Week)

  /** A lesson told apart by the names it carries; an empty type stands for NULL. */
  datatype Lesson = Lesson(subject: string, lessonType: string, weekday: Weekday, start: Clock, week: Week,
                           tutor: string, room: string)

  datatype Entry = Entry(group: string, lesson: Lesson)

  datatype View = View(
    groups: set<string>, tutors: set<string>, taken: set<int>, rooms: set<string>, lessons: set<Lesson>,
    links: set<Entry>)

  // "Не указан", "Не указана"
  const NO_TUTOR := "\U{041D}\U{0435} \U{0443}\U{043A}\U{0430}\U{0437}\U{0430}\U{043D}"
  const NO_ROOM := NO_TUTOR + "\U{0430}"

  lemma DefaultNames()
    ensures NO_TUTOR == "\U{041D}\U{0435} \U{0443}\U{043A}\U{0430}\U{0437}\U{0430}\U{043D}"
    ensures NO_ROOM == "\U{041D}\U{0435} \U{0443}\U{043A}\U{0430}\U{0437}\U{0430}\U{043D}\U{0430}"
  {
  }

  /** The user id made up for a teacher; the hash of the name is a parameter. */
  function PseudoId(hash: string -> nat, tutor: string): (id: int)
    ensures -9_000_000_000_000 <= id <= -1 && (hash("teacher:" + tutor) + id + 1) % 9_000_000_000_000 == 0
  {
    MadeUpId(hash("teacher:" + tutor))
  }

  function RemoveBlanks(s: string): (r: string)
    ensures forall i :: 0 <= i < |r| ==> r[i] != ' '
  {
    if s == "" then ""
    else var n := |s| - 1;
         RemoveBlanks(s[..n]) + if s[n] == ' ' then "" else [s[n]]
  }

  function NormalizeGroup(group: string): string { RemoveBlanks(TrimSpace(group)) }

  lemma {:induction false} RemoveBlanksKeeps(s: string)
    requires forall i :: 0 <= i < |s| ==> s[i] != ' '
    ensures RemoveBlanks(s) == s
  {
    if s != "" { RemoveBlanksKeeps(s[..|s| - 1]); }
  }

  lemma {:induction false} RemoveBlanksFirst(s: string)
    requires s != "" && s[0] != ' '
    ensures RemoveBlanks(s) != "" && RemoveBlanks(s)[0] == s[0]
  {
    if |s| > 1 { RemoveBlanksFirst(s[..|s| - 1]); }
  }

  /** Where the characters of the result are in the text. */
  predicate Picks(s: string, r: string, at: seq<int>)
    requires |at| == |r|
  {
    && (forall k | 0 <= k < |r| :: 0 <= at[k] < |s| && s[at[k]] == r[k])
    && (forall k, l | 0 <= k < l < |r| :: at[k] < at[l])
    && forall i | 0 <= i < |s| :: s[i] == ' ' || i in at
  }

  /** The text without its ' ': every other character, in order. */
  ghost predicate WithoutBlanks(s: string, r: string) {
    && (forall k | 0 <= k < |r| :: r[k] != ' ')
    && exists at: seq<int> :: |at| == |r| && Picks(s, r, at)
  }

  lemma PicksNone(r: string, at: seq<int>)
    requires |at| == |r|
    ensures Picks("", r, at) <==> r == ""
  {
    if r != "" {
      var first := at[0];
      assert !(0 <= first < |""|) && r[0] in r;
    }
  }

  lemma PicksMore(s: string, r: string, at: seq<int>)
    requires s != "" && |at| == |r| && Picks(s[..|s| - 1], r, at)
    ensures s[|s| - 1] == ' ' ==> Picks(s, r, at)
    ensures s[|s| - 1] != ' ' ==> Picks(s, r + [s[|s| - 1]], at + [|s| - 1])
  {
    var n := |s| - 1;
    assert forall k | 0 <= k < |r| :: s[at[k]] == s[..n][at[k]];
    forall i | 0 <= i < |s| && s[i] != ' ' ensures i in at + [n] && (i < n ==> i in at) {
      if i < n { assert s[..n][i] == s[i]; }
    }
  }

  lemma {:induction false} RemoveBlanksInWords(s: string)
    ensures WithoutBlanks(s, RemoveBlanks(s))
  {
    hide Picks;
    if s == "" {
      assert Picks("", "", []) by { PicksNone("", []); }
    } else {
      var n := |s| - 1;
      RemoveBlanksInWords(s[..n]);
      var before := RemoveBlanks(s[..n]);
      var at: seq<int> :| |at| == |before| && Picks(s[..n], before, at);
      PicksMore(s, before, at);
      assert s[n] == ' ' ==> RemoveBlanks(s) == before;
      assert s[n] != ' ' ==> |at + [n]| == |RemoveBlanks(s)|;
    }
  }

  lemma NormalizeGroupInWords(group: string)
    ensures WithoutBlanks(TrimSpace(group), NormalizeGroup(group))
  {
    RemoveBlanksInWords(TrimSpace(group));
  }

  lemma PicksLess(s: string, r: string, at: seq<int>)
    requires s != "" && |at| == |r| && Picks(s, r, at)
    ensures s[|s| - 1] == ' ' && ' ' !in r ==> Picks(s[..|s| - 1], r, at)
    ensures s[|s| - 1] != ' ' ==>
              r != "" && r[|r| - 1] == s[|s| - 1] && Picks(s[..|s| - 1], r[..|r| - 1], at[..|r| - 1])
  {
    var n := |s| - 1;
    if s[n] == ' ' {
      if ' ' !in r {
        forall k | 0 <= k < |r| ensures at[k] < n { assert r[k] in r && s[at[k]] == r[k]; }
      }
    } else {
      var m := |r| - 1;
      var k :| 0 <= k < |at| && at[k] == n;
      assert k == m;
      forall i | 0 <= i < n && s[i] != ' ' ensures i in at[..m] {
        var l :| 0 <= l < |at| && at[l] == i;
        assert at[..m][l] == i;
      }
    }
  }

  /** It says all there is to say. */
  lemma {:induction false} WithoutBlanksUnique(s: string, r: string)
    requires WithoutBlanks(s, r)
    ensures r == RemoveBlanks(s)
  {
    hide Picks;
    var at: seq<int> :| |at| == |r| && Picks(s, r, at);
    if s == "" {
      PicksNone(r, at);
    } else {
      var n, m := |s| - 1, |r| - 1;
      PicksLess(s, r, at);
      if s[n] == ' ' {
        WithoutBlanksUnique(s[..n], r);
      } else {
        assert |at[..m]| == |r[..m]|;
        WithoutBlanksUnique(s[..n], r[..m]);
        assert r == r[..m] + [s[n]];
      }
    }
  }

  lemma RemoveBlanksTrimmed(t: string)
    requires Trimmed(t)
    ensures Trimmed(RemoveBlanks(t)) && RemoveBlanks(RemoveBlanks(t)) == RemoveBlanks(t)
  {
    RemoveBlanksKeeps(RemoveBlanks(t));
    if t != "" {
      RemoveBlanksFirst(t);
      var r := RemoveBlanks(t);
      assert r[|r| - 1] == t[|t| - 1];
    }
  }

  /** The filler normalises a group name twice, with the effect of once. */
  lemma NormalizeGroupTwice(group: string)
    ensures NormalizeGroup(NormalizeGroup(group)) == NormalizeGroup(group)
  {
    RemoveBlanksTrimmed(TrimSpace(group));
  }

  function NameOr(name: string, default: string): string {
    var t := TrimSpace(name);
    if t == "" then default else t
  }

  function Named(group: string, it: Item): Entry {
    Entry(NormalizeGroup(group),
          Lesson(it.subject, TrimSpace(it.lessonType), it.weekday, it.start, it.week, NameOr(it.tutor, NO_TUTOR),
                 NameOr(it.room, NO_ROOM)))
  }

  /** Names that come to the same: blanks around them do not count, and a default stands for none. */
  predicate SameName(a: string, b: string, default: string) {
    || TrimSpace(a) == TrimSpace(b) || (Blank(a) && TrimSpace(b) == default) || (Blank(b) && TrimSpace(a) == default)
  }

  lemma NameOrApart(a: string, b: string, default: string)
    requires default != ""
    ensures NameOr(a, default) == NameOr(b, default) <==> SameName(a, b, default)
  {
    hide TrimSpace, Blank;
  }

  /** Two items give the same entry exactly if they say the same, each in its own column. */
  lemma NamedApart(g: string, a: Item, h: string, b: Item)
    ensures Named(g, a) == Named(h, b) <==>
              && NormalizeGroup(g) == NormalizeGroup(h)
              && a.subject == b.subject && a.weekday == b.weekday && a.start == b.start && a.week == b.week
              && TrimSpace(a.lessonType) == TrimSpace(b.lessonType)
              && SameName(a.tutor, b.tutor, NO_TUTOR) && SameName(a.room, b.room, NO_ROOM)
  {
    hide TrimSpace, NameOr, SameName, NormalizeGroup;
    NameOrApart(a.tutor, b.tutor, NO_TUTOR);
    NameOrApart(a.room, b.room, NO_ROOM);
  }

  /** What saving one lesson needs: a time of day, and for a new teacher a made-up user id that no other
      teacher holds. */
  predicate CanAdd(hash: string -> nat, v: View, e: Entry) {
    e.lesson.start.At? && (e.lesson.tutor in v.tutors || PseudoId(hash, e.lesson.tutor) !in v.taken)
  }

  function Add(hash: string -> nat, v: View, e: Entry): View {
    View(v.groups + {e.group}, v.tutors + {e.lesson.tutor},
         if e.lesson.tutor in v.tutors then v.taken else v.taken + {PseudoId(hash, e.lesson.tutor)},
         v.rooms + {e.lesson.room}, v.lessons + {e.lesson}, v.links + {e})
  }

  /** A fill stops at the first entry it cannot save and keeps what it has saved before. */
  datatype Fill = Fill(ok: bool, view: View)

  function FillAll(hash: string -> nat, v: View, es: seq<Entry>): Fill {
    if es == [] then Fill(true, v)
    else
      var before := FillAll(hash, v, es[..|es| - 1]);
      var e := es[|es| - 1];
      if before.ok && CanAdd(hash, before.view, e) then Fill(true, Add(hash, before.view, e))
      else Fill(false, before.view)
  }

  /** A fill in two parts. */
  lemma {:induction false} FillAppend(hash: string -> nat, v: View, es: seq<Entry>, fs: seq<Entry>)
    ensures FillAll(hash, v, es + fs)
            == if FillAll(hash, v, es).ok then FillAll(hash, FillAll(hash, v, es).view, fs) else FillAll(hash, v, es)
  {
    if fs == [] {
      assert es + fs == es;
    } else {
      FillAppend(hash, v, es, fs[..|fs| - 1]);
      assert (es + fs)[..|es + fs| - 1] == es + fs[..|fs| - 1];
    }
  }

  lemma FillStep(hash: string -> nat, v: View, es: seq<Entry>, n: nat)
    requires n < |es| && FillAll(hash, v, es[..n]).ok
    ensures var w := FillAll(hash, v, es[..n]).view;
            && FillAll(hash, v, es[..n + 1])
               == (if CanAdd(hash, w, es[n]) then Fill(true, Add(hash, w, es[n])) else Fill(false, w))
            && (!CanAdd(hash, w, es[n]) ==> FillAll(hash, v, es) == Fill(false, w))
  {
    assert es[..n + 1][..n] == es[..n];
    assert es == es[..n + 1] + es[n + 1..];
    FillAppend(hash, v, es[..n + 1], es[n + 1..]);
  }

  // ---- the result, told without an order

  function Union(hash: string -> nat, v: View, es: seq<Entry>): View {
    View(v.groups + (set e | e in es :: e.group),
         v.tutors + (set e | e in es :: e.lesson.tutor),
         v.taken + (set e | e in es && e.lesson.tutor !in v.tutors :: PseudoId(hash, e.lesson.tutor)),
         v.rooms + (set e | e in es :: e.lesson.room),
         v.lessons + (set e | e in es :: e.lesson),
         v.links + (set e | e in es))
  }

  /** No teacher who is new shares a made-up user id with another teacher, old or new; and every time is one. */
  ghost predicate NoCollision(hash: string -> nat, v: View, es: seq<Entry>) {
    && (forall e | e in es :: e.lesson.start.At?)
    && (forall e | e in es :: e.lesson.tutor in v.tutors || PseudoId(hash, e.lesson.tutor) !in v.taken)
    && (forall e, f | e in es && f in es && e.lesson.tutor !in v.tutors && f.lesson.tutor !in v.tutors ::
          PseudoId(hash, e.lesson.tutor) == PseudoId(hash, f.lesson.tutor) ==> e.lesson.tutor == f.lesson.tutor)
  }

  lemma InPrefix(es: seq<Entry>, e: Entry)
    requires es != []
    ensures e in es <==> e in es[..|es| - 1] || e == es[|es| - 1]
  {
    assert es == es[..|es| - 1] + [es[|es| - 1]];
  }

  lemma UnionStep(hash: string -> nat, v: View, es: seq<Entry>)
    requires es != []
    ensures Union(hash, v, es) == Add(hash, Union(hash, v, es[..|es| - 1]), es[|es| - 1])
  {
    var init, last := es[..|es| - 1], es[|es| - 1];
    forall e ensures e in es <==> e in init || e == last { InPrefix(es, e); }
    var u, w := Union(hash, v, es), Add(hash, Union(hash, v, init), last);
    assert u.groups == w.groups;
    assert u.tutors == w.tutors;
    assert u.taken == w.taken;
    assert u.rooms == w.rooms;
    assert u.lessons == w.lessons;
    assert u.links == w.links;
  }

  lemma CollisionStep(hash: string -> nat, v: View, es: seq<Entry>)
    requires es != []
    ensures NoCollision(hash, v, es) <==>
            NoCollision(hash, v, es[..|es| - 1]) && CanAdd(hash, Union(hash, v, es[..|es| - 1]), es[|es| - 1])
  {
    var init, last := es[..|es| - 1], es[|es| - 1];
    forall e ensures e in es <==> e in init || e == last { InPrefix(es, e); }
  }

  /** A fill succeeds exactly when no two teachers collide, and then it has added every entry once. */
  lemma {:induction false} FillOutcome(hash: string -> nat, v: View, es: seq<Entry>)
    ensures FillAll(hash, v, es).ok <==> NoCollision(hash, v, es)
    ensures FillAll(hash, v, es).ok ==> FillAll(hash, v, es).view == Union(hash, v, es)
  {
    if es == [] {
      var u := Union(hash, v, es);
      assert u.groups == v.groups && u.tutors == v.tutors && u.taken == v.taken;
      assert u.rooms == v.rooms && u.lessons == v.lessons && u.links == v.links;
    } else {
      var init, last := es[..|es| - 1], es[|es| - 1];
      FillOutcome(hash, v, init);
      UnionStep(hash, v, es);
      CollisionStep(hash, v, es);
    }
  }

  /** The order of the entries, and how often each comes, makes no difference: whether the fill succeeds and
      what it leaves depend only on which entries there are. */
  lemma OrderIndependent(hash: string -> nat, v: View, es: seq<Entry>, fs: seq<Entry>)
    requires forall e :: e in es <==> e in fs
    ensures FillAll(hash, v, es).ok <==> FillAll(hash, v, fs).ok
    ensures FillAll(hash, v, es).ok ==> FillAll(hash, v, es).view == FillAll(hash, v, fs).view
  {
    FillOutcome(hash, v, es);
    FillOutcome(hash, v, fs);
    var u, w := Union(hash, v, es), Union(hash, v, fs);
    assert u.groups == w.groups && u.tutors == w.tutors && u.taken == w.taken;
    assert u.rooms == w.rooms && u.lessons == w.lessons && u.links == w.links;
  }

  /** Filling again with the same timetable succeeds and adds nothing. */
  lemma SecondFill(hash: string -> nat, v: View, es: seq<Entry>)
    requires FillAll(hash, v, es).ok
    ensures FillAll(hash, FillAll(hash, v, es).view, es) == Fill(true, FillAll(hash, v, es).view)
  {
    FillOutcome(hash, v, es);
    var u := Union(hash, v, es);
    FillOutcome(hash, u, es);
    var w := Union(hash, u, es);
    assert u.groups == w.groups && u.tutors == w.tutors && u.taken == w.taken;
    assert u.rooms == w.rooms && u.lessons == w.lessons && u.links == w.links;
  }
}
